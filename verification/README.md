# ESP-NOW button / LED pair — Dafny model

Two ESP32-C3 nodes talk over ESP-NOW. The **master** (controller) debounces a
push-button into a four-valued selector (`ButtonState`: Off, Blue, Green, Red)
and, whenever it hears a broadcast-destined frame, registers the sender as a
peer and unicasts the selector back as one ASCII digit `'0'..'3'`. The
**slave** (actuator) broadcasts a fixed ten-byte heartbeat `"0123456789"` on
every tick, registers the senders of broadcast frames, and decodes the first
byte of every frame it receives into three active-low LED outputs.

The model is functional: every step is a pure function over immutable state.

| file | module | models |
|---|---|---|
| `wrappers.dfy` | `Wrappers` | `Option` for values that may be absent, `Step` for steps that may panic |
| `radio.dfy` | `Radio` | octets, six-octet addresses, frames, transmissions, loop events, the peer table |
| `button.dfy` | `Button` | `ButtonHandler::check_press` over an `i8` counter, and runs of it |
| `master.dfy` | `Master` | the state-to-byte encoding, `EspNowHandler::handle_communication`, the main loop |
| `slave.dfy` | `Slave` | `LedState::apply`, `Device::update_leds`, `handle_message`, `handle_communication`, `send_message`, the main loop |
| `end_to_end.dfy` | `EndToEnd` | the two nodes composed: encode then decode, heartbeat then reply |

Modelling choices:

- The radio driver's `peer_exists` / `add_peer` pair is set membership and set
  insertion. `add_peer` is assumed to succeed. Both nodes register a sender
  through the one function `Radio.RegisterSender`.
- `BROADCAST_ADDRESS` is the all-ones address `ff:ff:ff:ff:ff:ff`. No proof
  depends on its value.
- One call of `check_press` is a function of the counter and of the two reads
  of the button (low = pressed). These are the read before the 10 ms delay and
  the read after it. The wait itself and the spin until release are abstracted
  away.
- The counter is a Rust `i8`, and the model covers every `i8` value. The
  `counter += 1` at 127 would panic with an overflow in a debug build, so
  `CheckPress` returns `Panic` there. The proofs show that from the power-on
  value 0 this case is never reached.
- Each turn of a main loop is driven by one event: the ticker firing
  (`Tick`) or a frame arriving (`Received`). The master runs `check_press`
  and encodes the result before it looks at the event.

## Model

| member | source | states |
|---|---|---|
| Radio.RegisterSender | master/src/main.rs:90-99 | after registering a sender the table is old ∪ {src}; a known sender leaves it unchanged; it grows by at most one |
| Radio.RegisterSenderIdempotent | slave/src/main.rs:85-94 | registering the same address twice leaves the table, and so its size, as after the first time; both nodes' frame steps register through this function |
| Button.Increment | master/src/main.rs:46 | `+= 1` on an `i8` succeeds exactly when the counter is below 127, and adds one |
| Button.Select | master/src/main.rs:50-59 | the counter after the match is in 0..3 and indexes the returned state; 0..3 are kept, every other value resets to 0 with state Off |
| Button.CheckPress | master/src/main.rs:42-60 | panics only on a confirmed press at 127; the counter ends in 0..3 and names the returned state (0/1/2/3 = Off/Blue/Green/Red); from 0..3 a confirmed press yields (c+1) mod 4, anything else leaves c; an out-of-range counter yields (0, Off) |
| Button.NoiseChangesNothing | master/src/main.rs:43-49 | when the first or the second read is high, counter and returned state stay as they were |
| Button.RunCountsPresses | master/src/main.rs:42-60 | over any sequence of calls from a counter in 0..3, no call panics, the counter stays in 0..3, and it equals the start plus the number of confirmed presses, mod 4 |
| Button.FourPressesIdentity | master/src/main.rs:46-58 | four confirmed presses return the counter to its starting value |
| Master.Encode | master/src/main.rs:143-148 | the payload is exactly one byte, the ASCII digit of the state's index, in 0x30..0x33 |
| Master.EncodeInjective | master/src/main.rs:143-148 | two states encode alike if and only if they are the same state |
| Master.HandleCommunication | master/src/main.rs:86-102 | a broadcast-destined frame makes the table old ∪ {src} and sends the status to src; a reply is sent if and only if dst is broadcast; other frames change nothing and send nothing |
| Master.HandleCommunicationIdempotent | master/src/main.rs:89-99 | handling the same frame again adds no peer; a frame from a known sender leaves the table unchanged |
| Master.Iteration | master/src/main.rs:140-158 | a loop turn panics only on a confirmed press at 127; from a valid state it never panics and stays valid; a tick sends nothing; a broadcast frame registers its sender and is answered with the encoding of the reported state |
| Master.RunLoopFromValid | master/src/main.rs:140-158 | over any run from a valid state the loop never panics, its counter agrees with the debounce run over the same reads, and the table gains exactly the senders of broadcast frames |
| Master.RunFromInit | master/src/main.rs:138-158 | from power-on (counter 0, no peers) the counter is always in 0..3 and the table holds exactly the broadcast senders heard |
| Master.ThreePressesThenDiscovery | master/src/main.rs:140-158 | three confirmed presses, then a broadcast frame from a new sender: the sender is registered and receives the byte '3' |
| Master.PressAtThreeWraps | master/src/main.rs:50-58 | at counter 3 a confirmed press resets the counter to 0, state Off, payload '0' |
| Slave.Apply | slave/src/main.rs:34-39 | active-low: On drives the pin low, Off drives it high |
| Slave.Decode | slave/src/main.rs:61-69 | LED 1, 2, 3 is On exactly for first byte 49, 50, 51; so 48 and every other byte give all-Off, and at most one LED is On |
| Slave.UpdateLeds | slave/src/main.rs:75-79 | pin i is low exactly when component i is On; the peer table is untouched; a combination with at most one On lights at most one LED |
| Slave.HandleMessage | slave/src/main.rs:59-73 | an empty payload leaves every pin unchanged; otherwise LED 1/2/3 is lit exactly for first byte '1'/'2'/'3', so at most one is lit; the peer table is untouched |
| Slave.HandleCommunication | slave/src/main.rs:81-98 | a broadcast-destined frame makes the table old ∪ {src}, any other frame leaves it; the payload is decoded whatever the destination |
| Slave.SendMessage | slave/src/main.rs:100-102 | the heartbeat goes to the broadcast address and carries the ten bytes "0123456789" |
| Slave.Iteration | slave/src/main.rs:140-149 | a tick sends exactly one message, the heartbeat, and changes neither the peer table nor the LEDs; a frame is handled and sends nothing |
| Slave.RunLoopInvariant | slave/src/main.rs:140-149 | along any run, at most one LED stays lit if at most one was lit at the start, and the table gains exactly the broadcast senders |
| Slave.RunFromInit | slave/src/main.rs:121-149 | from power-on (all pins high, no peers) at most one LED is ever lit |
| EndToEnd.RoundTrip | slave/src/main.rs:59-79 | decoding the master's encoding of Blue/Green/Red/Off lights LED 1/2/3/none respectively |
| EndToEnd.HeartbeatThenReply | master/src/main.rs:86-102 | the slave's heartbeat registers the slave at the master, the master replies to the slave, and the reply makes the slave show the master's state |

## Left out

- The `select(ticker.next(), …)` race and the `Ticker` period are not modelled. Neither is the dropping and restarting of the slave's endless `handle_communication` future when the ticker wins. Each loop turn is one event, a tick or a frame.
- A master `handle_communication` abandoned by the race between registering a peer and finishing its reply is not modelled. In the model a frame event always completes its step.
- The 10 ms `delay_millis` and the busy-wait `while self.button.is_low() {}` are real-time behaviour. They are abstracted to the two boolean reads.
- `receive_async` and `send_async` belong to the radio driver. So do the `_status` results both nodes ignore. The model records sends as values and never models their failure.
- `add_peer(...).unwrap()` panics when the driver refuses a peer, for example when its peer capacity is full. Registration is assumed to succeed. The `PeerInfo` options (no key, no channel, no encryption) are not modelled.
- The peer table holds only the peers this firmware registers, starting empty. Any entry the driver adds by itself when `EspNow::new` runs, such as the broadcast address, is not modelled. The driver code is not part of this model.
- Peripheral and clock set-up, the heap allocator, GPIO construction, the `esp_now` version query and all `println!` logging have no checkable logic. Only the master's reported state is kept, as `Outcome.shown`.
- Button.CheckPress: the increment at 127 is modelled as the panic of a debug build. A release build would wrap to -128, which the match then resets to 0. The case is unreachable from the power-on counter either way.
