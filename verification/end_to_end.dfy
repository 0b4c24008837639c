/**
 The two nodes together: the controller's reply byte, decoded by the actuator,
 lights the LED that belongs to the controller's selector state, and the
 actuator's heartbeat is what gets it registered and answered.
 */
module EndToEnd {
  import Radio
  import Button
  import Master
  import Slave

  /** The LED pins that show a selector state: Blue, Green and Red light LED 1, 2 and 3;
      Off lights none. */
  predicate Shows(o: Slave.Outputs, s: Button.ButtonState) {
    && (o.led1 == Slave.Low <==> s == Button.Blue)
    && (o.led2 == Slave.Low <==> s == Button.Green)
    && (o.led3 == Slave.Low <==> s == Button.Red)
  }

  /** Decoding the controller's encoding of a state shows exactly that state. */
  lemma RoundTrip(s: Button.ButtonState, d: Slave.Device)
    ensures Shows(Slave.HandleMessage(d, Master.Encode(s)).outputs, s)
  {
  }

  /** The heartbeat, delivered to the controller, registers the actuator there; the
      controller's reply, delivered back, makes the actuator show the controller's state. */
  lemma HeartbeatThenReply(c: Master.Controller, sample: Button.Sample, d: Slave.Device, actuator: Radio.Addr, controller: Radio.Addr)
    requires Master.Valid(c)
    ensures var tick := Slave.Iteration(d, Radio.Tick);
            |tick.sent| == 1 &&
            var heartbeat := Radio.Frame(actuator, tick.sent[0].dst, tick.sent[0].data);
            var o := Master.Iteration(c, Master.Input(sample, Radio.Received(heartbeat))).value;
            o.next.peers == c.peers + {actuator} &&
            o.sent.Some? && o.sent.value.dst == actuator &&
            var reply := Radio.Frame(controller, o.sent.value.dst, o.sent.value.data);
            Shows(Slave.HandleCommunication(tick.next, reply).outputs, o.shown)
  {
  }
}
