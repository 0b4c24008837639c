/**
 The controller node: the state-to-byte encoding, the receive / register / reply
 step of `EspNowHandler::handle_communication`, and one turn of the main loop
 (check_press, encode, then whichever of tick or frame wins the race).
 */
module Master {
  import opened Wrappers
  import opened Radio
  import opened Button

  /** The one-byte reply payload for a selector state. */
  function Encode(s: ButtonState): (r: seq<byte>)
    ensures |r| == 1
    ensures r[0] as int == '0' as int + Index(s)
    ensures 0x30 <= r[0] <= 0x33
  {
    match s
    case Off => [0x30]
    case Blue => [0x31]
    case Green => [0x32]
    case Red => [0x33]
  }

  /** Distinct states go out as distinct bytes. */
  lemma EncodeInjective(a: ButtonState, b: ButtonState)
    ensures Encode(a) == Encode(b) <==> a == b
  {
  }

  /** The peer table after a frame, and the transmission the frame caused, if any. */
  datatype Comm = Comm(peers: PeerTable, sent: Option<Send>)

  /** One received frame: a broadcast-destined frame registers its sender and is answered
      by a unicast of the status payload to that sender; anything else is ignored. */
  function HandleCommunication(peers: PeerTable, status: seq<byte>, f: Frame): (r: Comm)
    ensures f.dst == BroadcastAddress ==> r.peers == peers + {f.src}
    ensures f.dst == BroadcastAddress ==> r.sent == Some(Send(f.src, status))
    ensures f.dst != BroadcastAddress ==> r.peers == peers && r.sent.None?
    ensures r.sent.Some? <==> f.dst == BroadcastAddress
  {
    if f.dst == BroadcastAddress then
      Comm(RegisterSender(peers, f.src), Some(Send(f.src, status)))
    else
      Comm(peers, None)
  }

  /** Handling the same frame again adds no peer, and a frame from a known sender
      leaves the table as it was. */
  lemma HandleCommunicationIdempotent(peers: PeerTable, status: seq<byte>, status': seq<byte>, f: Frame)
    ensures var once := HandleCommunication(peers, status, f).peers;
            HandleCommunication(once, status', f).peers == once
    ensures f.src in peers ==> HandleCommunication(peers, status, f).peers == peers
  {
  }

  /** The controller's persistent state: the debounce counter and the driver's peer table. */
  datatype Controller = Controller(counter: i8, peers: PeerTable)

  /** Power-on state: counter 0, no peers. */
  const Init := Controller(0, {})

  predicate Valid(c: Controller) {
    0 <= c.counter <= 3
  }

  /** One loop turn's inputs: the two button reads, then the winner of the race. */
  datatype Input = Input(sample: Sample, event: Event)

  /** One loop turn's result: the new state, what was sent, and the state reported. */
  datatype Outcome = Outcome(next: Controller, sent: Option<Send>, shown: ButtonState)

  /** One turn of the main loop; `Panic` is the counter-overflow panic. A tick sends nothing. */
  function Iteration(c: Controller, input: Input): (r: Step<Outcome>)
    ensures r.Panic? <==> Confirmed(input.sample) && c.counter == 0x7F
    ensures r.Ok? ==> Index(r.value.shown) == r.value.next.counter as int
    ensures r.Ok? && input.event.Tick? ==> r.value.next.peers == c.peers && r.value.sent.None?
    ensures r.Ok? && input.event.Received? && input.event.frame.dst == BroadcastAddress ==>
              r.value.next.peers == c.peers + {input.event.frame.src} &&
              r.value.sent == Some(Send(input.event.frame.src, Encode(r.value.shown)))
    ensures r.Ok? && input.event.Received? && input.event.frame.dst != BroadcastAddress ==>
              r.value.next.peers == c.peers && r.value.sent.None?
    ensures Valid(c) ==> r.Ok? && Valid(r.value.next)
  {
    match CheckPress(c.counter, input.sample)
    case Panic => Panic
    case Ok(p) =>
      var status := Encode(p.state);
      match input.event
      case Tick => Ok(Outcome(Controller(p.counter, c.peers), None, p.state))
      case Received(f) =>
        var comm := HandleCommunication(c.peers, status, f);
        Ok(Outcome(Controller(p.counter, comm.peers), comm.sent, p.state))
  }

  /** The button reads of successive loop turns. */
  function Samples(inputs: seq<Input>): seq<Sample>
  {
    if |inputs| == 0 then [] else [inputs[0].sample] + Samples(inputs[1..])
  }

  /** The race winners of successive loop turns. */
  function Events(inputs: seq<Input>): seq<Event>
  {
    if |inputs| == 0 then [] else [inputs[0].event] + Events(inputs[1..])
  }

  /** The state after successive loop turns; `Panic` if a turn panics. */
  function RunLoop(c: Controller, inputs: seq<Input>): Step<Controller>
    decreases |inputs|
  {
    if |inputs| == 0 then Ok(c)
    else
      match Iteration(c, inputs[0])
      case Panic => Panic
      case Ok(o) => RunLoop(o.next, inputs[1..])
  }

  /** From a valid state the loop never panics; its counter is the debounce run over the
      same button reads, and its peer table gains exactly the senders of broadcast frames. */
  lemma {:induction false} RunLoopFromValid(c: Controller, inputs: seq<Input>)
    requires Valid(c)
    ensures RunLoop(c, inputs).Ok?
    ensures Valid(RunLoop(c, inputs).value)
    ensures Ok(RunLoop(c, inputs).value.counter) == Run(c.counter, Samples(inputs))
    ensures RunLoop(c, inputs).value.peers == c.peers + BroadcastSenders(Events(inputs))
    decreases |inputs|
  {
    if |inputs| > 0 {
      var o := Iteration(c, inputs[0]).value;
      RunLoopFromValid(o.next, inputs[1..]);
      assert Samples(inputs)[1..] == Samples(inputs[1..]);
      assert Events(inputs)[1..] == Events(inputs[1..]);
      assert o.next.counter == CheckPress(c.counter, inputs[0].sample).value.counter;
    }
  }

  /** From power-on the loop never panics and the counter stays in 0..3 forever. */
  lemma RunFromInit(inputs: seq<Input>)
    ensures RunLoop(Init, inputs).Ok?
    ensures 0 <= RunLoop(Init, inputs).value.counter <= 3
    ensures RunLoop(Init, inputs).value.peers == BroadcastSenders(Events(inputs))
  {
    RunLoopFromValid(Init, inputs);
  }

  /** Three confirmed presses, then a broadcast frame from a new sender: the sender is
      registered and is answered with the byte '3'. */
  lemma ThreePressesThenDiscovery(press: Sample, idle: Sample, src: Addr)
    requires Confirmed(press) && !Confirmed(idle)
    ensures var c3 := Controller(3, {});
            RunLoop(Init, [Input(press, Tick), Input(press, Tick), Input(press, Tick)]) == Ok(c3) &&
            Iteration(c3, Input(idle, Received(Frame(src, BroadcastAddress, [0x30])))) ==
              Ok(Outcome(Controller(3, {src}), Some(Send(src, [0x33])), Red))
  {
    var t := Input(press, Tick);
    assert Iteration(Init, t).value.next == Controller(1, {});
    assert Iteration(Controller(1, {}), t).value.next == Controller(2, {});
    assert Iteration(Controller(2, {}), t).value.next == Controller(3, {});
    assert [t, t, t][1..] == [t, t];
    assert [t, t][1..] == [t];
    assert [t][1..] == [];
    assert RunLoop(Controller(2, {}), [t]) == Ok(Controller(3, {}));
    assert RunLoop(Controller(1, {}), [t, t]) == Ok(Controller(3, {}));
    var f := Frame(src, BroadcastAddress, [0x30]);
    assert {} + {src} == {src};
    assert HandleCommunication({}, [0x33], f) == Comm({src}, Some(Send(src, [0x33])));
  }

  /** At counter 3 one more confirmed press wraps to 0, state Off, payload '0'. */
  lemma PressAtThreeWraps(press: Sample, peers: PeerTable)
    requires Confirmed(press)
    ensures var o := Iteration(Controller(3, peers), Input(press, Tick)).value;
            o.next.counter == 0 && o.shown == Off && Encode(o.shown) == [0x30]
  {
  }
}
