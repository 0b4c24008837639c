/**
 The actuator node: the first-byte decode of `Device::handle_message`, the
 active-low LED driver (`LedState::apply`, `Device::update_leds`), the
 receive / register / decode step of `Device::handle_communication`, and the
 heartbeat `send_message` sent on every tick.
 */
module Slave {
  import opened Radio

  datatype LedState = On | Off

  /** Electrical level of an output pin. */
  datatype Level = Low | High

  /** Drive one LED: the LEDs are wired active-low. */
  function Apply(s: LedState): (l: Level)
    ensures l == Low <==> s == On
    ensures l == High <==> s == Off
  {
    match s
    case On => Low
    case Off => High
  }

  /** The three-way LED combination a message selects. */
  datatype LedStates = LedStates(led1: LedState, led2: LedState, led3: LedState)

  /** The levels of the three LED pins. */
  datatype Outputs = Outputs(led1: Level, led2: Level, led3: Level)

  predicate AtMostOneOn(t: LedStates) {
    (t.led1 == On ==> t.led2 == Off && t.led3 == Off) && (t.led2 == On ==> t.led3 == Off)
  }

  predicate AtMostOneLit(o: Outputs) {
    (o.led1 == Low ==> o.led2 == High && o.led3 == High) && (o.led2 == Low ==> o.led3 == High)
  }

  /** The actuator's persistent state: the driver's peer table and the LED pins. */
  datatype Device = Device(peers: PeerTable, outputs: Outputs)

  /** Power-on: every pin is created driven high, so every LED is dark. */
  const Init := Device({}, Outputs(High, High, High))

  /** The combination selected by the first payload byte: '1', '2', '3' light one LED
      each; '0' and every other byte light none. */
  function Decode(first: byte): (t: LedStates)
    ensures t.led1 == On <==> first == 49
    ensures t.led2 == On <==> first == 50
    ensures t.led3 == On <==> first == 51
    ensures AtMostOneOn(t)
  {
    match first
    case 48 => LedStates(Off, Off, Off)
    case 49 => LedStates(On, Off, Off)
    case 50 => LedStates(Off, On, Off)
    case 51 => LedStates(Off, Off, On)
    case _ => LedStates(Off, Off, Off)
  }

  /** Drive each pin from its component of the combination; the peer table is untouched. */
  function UpdateLeds(d: Device, t: LedStates): (r: Device)
    ensures r.peers == d.peers
    ensures r.outputs.led1 == Low <==> t.led1 == On
    ensures r.outputs.led2 == Low <==> t.led2 == On
    ensures r.outputs.led3 == Low <==> t.led3 == On
    ensures AtMostOneOn(t) ==> AtMostOneLit(r.outputs)
  {
    Device(d.peers, Outputs(Apply(t.led1), Apply(t.led2), Apply(t.led3)))
  }

  /** Decode a payload and drive the LEDs; an empty payload leaves every pin as it was. */
  function HandleMessage(d: Device, data: seq<byte>): (r: Device)
    ensures r.peers == d.peers
    ensures |data| == 0 ==> r == d
    ensures |data| > 0 ==>
              (r.outputs.led1 == Low <==> data[0] == 49) &&
              (r.outputs.led2 == Low <==> data[0] == 50) &&
              (r.outputs.led3 == Low <==> data[0] == 51)
    ensures |data| > 0 ==> AtMostOneLit(r.outputs)
    ensures AtMostOneLit(d.outputs) ==> AtMostOneLit(r.outputs)
  {
    if |data| > 0 then UpdateLeds(d, Decode(data[0])) else d
  }

  /** One received frame: a broadcast-destined frame registers its sender; the payload is
      decoded whatever the destination. */
  function HandleCommunication(d: Device, f: Frame): (r: Device)
    ensures f.dst == BroadcastAddress ==> r.peers == d.peers + {f.src}
    ensures f.dst != BroadcastAddress ==> r.peers == d.peers
    ensures r.outputs == HandleMessage(d, f.data).outputs
    ensures |f.data| == 0 ==> r.outputs == d.outputs
  {
    var peers := if f.dst == BroadcastAddress then RegisterSender(d.peers, f.src) else d.peers;
    HandleMessage(Device(peers, d.outputs), f.data)
  }

  /** The heartbeat sent on every tick: the ten ASCII digits, to everyone. */
  function SendMessage(): (s: Send)
    ensures s.dst == BroadcastAddress
    ensures |s.data| == 10
    ensures forall i :: 0 <= i < |s.data| ==> s.data[i] as int == '0' as int + i
  {
    Send(BroadcastAddress, [0x30, 0x31, 0x32, 0x33, 0x34, 0x35, 0x36, 0x37, 0x38, 0x39])
  }

  /** One loop turn's result: the new state and what was sent. */
  datatype Outcome = Outcome(next: Device, sent: seq<Send>)

  /** One turn of the main loop: a tick sends exactly the heartbeat and changes nothing;
      a frame is handled and sends nothing. */
  function Iteration(d: Device, e: Event): (r: Outcome)
    ensures e.Tick? ==> r.next == d && r.sent == [SendMessage()]
    ensures e.Received? ==> r.sent == [] && r.next == HandleCommunication(d, e.frame)
  {
    match e
    case Tick => Outcome(d, [SendMessage()])
    case Received(f) => Outcome(HandleCommunication(d, f), [])
  }

  function RunLoop(d: Device, events: seq<Event>): Device
    decreases |events|
  {
    if |events| == 0 then d else RunLoop(Iteration(d, events[0]).next, events[1..])
  }

  /** Along any run, at most one LED is lit whenever at most one was lit at the start,
      and the peer table gains exactly the senders of broadcast frames. */
  lemma {:induction false} RunLoopInvariant(d: Device, events: seq<Event>)
    requires AtMostOneLit(d.outputs)
    ensures AtMostOneLit(RunLoop(d, events).outputs)
    ensures RunLoop(d, events).peers == d.peers + BroadcastSenders(events)
    decreases |events|
  {
    if |events| > 0 {
      RunLoopInvariant(Iteration(d, events[0]).next, events[1..]);
    }
  }

  /** From power-on, at most one LED is ever lit. */
  lemma RunFromInit(events: seq<Event>)
    ensures AtMostOneLit(RunLoop(Init, events).outputs)
    ensures RunLoop(Init, events).peers == BroadcastSenders(events)
  {
    RunLoopInvariant(Init, events);
  }
}
