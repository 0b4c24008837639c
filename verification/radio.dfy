/**
 The part of the ESP-NOW link both nodes share: octets, hardware addresses,
 received frames, transmissions, and the driver's peer table. The driver's
 `peer_exists` / `add_peer` pair is modelled as set membership and insertion;
 `add_peer` is assumed to succeed.
 */
module Radio {

  /** An octet on the air (Rust `u8`). */
  newtype byte = x: int | 0 <= x < 0x100

  /** A six-octet hardware (MAC) address. */
  type Addr = a: seq<byte> | |a| == 6 witness [0, 0, 0, 0, 0, 0]

  /** The reserved destination every listener in range accepts. */
  const BroadcastAddress: Addr := [0xFF, 0xFF, 0xFF, 0xFF, 0xFF, 0xFF]

  /** A received frame: sender, destination and payload, as the driver reports it. */
  datatype Frame = Frame(src: Addr, dst: Addr, data: seq<byte>)

  /** One transmission handed to the driver. */
  datatype Send = Send(dst: Addr, data: seq<byte>)

  /** What ended one round of the `select` race: the ticker, or an arrived frame. */
  datatype Event = Tick | Received(frame: Frame)

  /** The peers this firmware has registered with the driver; a set, so an address is never held twice. */
  type PeerTable = set<Addr>

  predicate PeerExists(peers: PeerTable, a: Addr) {
    a in peers
  }

  function AddPeer(peers: PeerTable, a: Addr): PeerTable {
    peers + {a}
  }

  /** Register `src` unless the driver already knows it. */
  function RegisterSender(peers: PeerTable, src: Addr): (r: PeerTable)
    ensures r == peers + {src}
    ensures src in peers ==> r == peers
    ensures |r| <= |peers| + 1
  {
    if !PeerExists(peers, src) then AddPeer(peers, src) else peers
  }

  /** Registering an address a second time changes nothing. */
  lemma RegisterSenderIdempotent(peers: PeerTable, src: Addr)
    ensures RegisterSender(RegisterSender(peers, src), src) == RegisterSender(peers, src)
    ensures |RegisterSender(RegisterSender(peers, src), src)| == |RegisterSender(peers, src)|
  {
  }

  /** The senders of the broadcast-destined frames among `events`. */
  function BroadcastSenders(events: seq<Event>): set<Addr>
  {
    if |events| == 0 then {}
    else
      var here := if events[0].Received? && events[0].frame.dst == BroadcastAddress
                  then {events[0].frame.src} else {};
      here + BroadcastSenders(events[1..])
  }
}
