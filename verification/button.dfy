/**
 The controller's debounce / selector state machine (`ButtonHandler::check_press`).
 One call is a function of the counter and the two reads of the pull-up input
 (low = pressed); the settle delay and the spin-wait until release are abstracted away.
 */
module Button {
  import opened Wrappers

  /** Rust `i8`, the width of the selector counter. */
  newtype i8 = x: int | -0x80 <= x < 0x80

  datatype ButtonState = Off | Blue | Green | Red

  /** Position of a state in the selector cycle: the counter value that shows it. */
  function Index(s: ButtonState): (n: nat)
    ensures n < 4
  {
    match s
    case Off => 0
    case Blue => 1
    case Green => 2
    case Red => 3
  }

  /** The input level at the first read and at the read after the settle delay. */
  datatype Sample = Sample(firstLow: bool, secondLow: bool)

  /** A press both reads agree on. */
  predicate Confirmed(s: Sample) {
    s.firstLow && s.secondLow
  }

  /** The counter after a call, and the state the call returns. */
  datatype Press = Press(counter: i8, state: ButtonState)

  /** `counter += 1` on an `i8`; `Panic` where Rust's overflow check panics. */
  function Increment(c: i8): (r: Step<i8>)
    ensures r.Ok? <==> c < 0x7F
    ensures r.Ok? ==> r.value as int == c as int + 1
  {
    if c == 0x7F then Panic else Ok(c + 1)
  }

  /** The closing match of check_press: counters 0..3 name a state, any other value resets to 0. */
  function Select(c: i8): (p: Press)
    ensures 0 <= p.counter <= 3 && Index(p.state) == p.counter as int
    ensures 0 <= c <= 3 ==> p.counter == c
    ensures !(0 <= c <= 3) ==> p == Press(0, Off)
  {
    match c
    case 0 => Press(0, Off)
    case 1 => Press(1, Blue)
    case 2 => Press(2, Green)
    case 3 => Press(3, Red)
    case _ => Press(0, Off)
  }

  /** One call of check_press; `Panic` is the overflow panic of the increment. */
  function CheckPress(counter: i8, sample: Sample): (r: Step<Press>)
    ensures r.Panic? <==> Confirmed(sample) && counter == 0x7F
    ensures r.Ok? ==> 0 <= r.value.counter <= 3 && Index(r.value.state) == r.value.counter as int
    ensures 0 <= counter <= 3 ==>
              r.Ok? &&
              r.value.counter as int == (if Confirmed(sample) then (counter as int + 1) % 4 else counter as int)
    ensures r.Ok? && !(0 <= counter <= 3) ==> r.value == Press(0, Off)
  {
    if Confirmed(sample) then
      match Increment(counter)
      case Panic => Panic
      case Ok(c) => Ok(Select(c))
    else
      Ok(Select(counter))
  }

  /** Number of confirmed presses among `samples`. */
  function ConfirmedCount(samples: seq<Sample>): nat
  {
    if |samples| == 0 then 0
    else (if Confirmed(samples[0]) then 1 else 0) + ConfirmedCount(samples[1..])
  }

  /** The counter after successive calls of check_press, one per sample; `Panic` if a call panics. */
  function Run(counter: i8, samples: seq<Sample>): Step<i8>
    decreases |samples|
  {
    if |samples| == 0 then Ok(counter)
    else
      match CheckPress(counter, samples[0])
      case Panic => Panic
      case Ok(p) => Run(p.counter, samples[1..])
  }

  /** From a counter in 0..3 no call ever panics, the counter stays in 0..3, and it advances
      by one, modulo 4, per confirmed press and by nothing for noise. */
  lemma {:induction false} RunCountsPresses(counter: i8, samples: seq<Sample>)
    requires 0 <= counter <= 3
    ensures Run(counter, samples).Ok?
    ensures 0 <= Run(counter, samples).value <= 3
    ensures Run(counter, samples).value as int == (counter as int + ConfirmedCount(samples)) % 4
    decreases |samples|
  {
    if |samples| > 0 {
      var p := CheckPress(counter, samples[0]).value;
      RunCountsPresses(p.counter, samples[1..]);
    }
  }

  /** Four confirmed presses bring the selector back to where it started. */
  lemma FourPressesIdentity(counter: i8, press: Sample)
    requires 0 <= counter <= 3
    requires Confirmed(press)
    ensures Run(counter, [press, press, press, press]) == Ok(counter)
  {
    var samples := [press, press, press, press];
    assert ConfirmedCount(samples) == 4 by {
      assert [press][1..] == [];
      assert ConfirmedCount([press]) == 1;
      assert [press, press][1..] == [press];
      assert ConfirmedCount([press, press]) == 2;
      assert [press, press, press][1..] == [press, press];
      assert ConfirmedCount([press, press, press]) == 3;
      assert samples[1..] == [press, press, press];
    }
    RunCountsPresses(counter, samples);
  }

  /** A sample the second read does not confirm leaves counter and state as they were. */
  lemma NoiseChangesNothing(counter: i8, sample: Sample)
    requires 0 <= counter <= 3
    requires !Confirmed(sample)
    ensures CheckPress(counter, sample) == Ok(Select(counter))
    ensures CheckPress(counter, sample).value.counter == counter
  {
  }
}
