/** The zone server's frames to the gateway: one packet to one session, or one packet to many sessions cut into
    frames that fit 16-bit sizes; and what the gateway delivers to its clients when it reads them. */
module Multicast {
  import opened Options
  import opened Bytes
  import opened Streams

  const PKT_INTERNAL_FORWARD := 9999
  const PKT_S_ZONE_LEAVE_COMPLETED := 2001

  // Session ids are 64-bit.
  predicate IsId(id: nat) { id < 0x1_0000_0000_0000_0000 }

  datatype Delivery = Delivery(session: nat, packet: seq<byte>)

  function Header(size: nat, id: nat): (s: seq<byte>)
    ensures |s| == 4
  {
    Encode(size, 2) + Encode(id, 2)
  }

  function EncodeIds(ids: seq<nat>): (s: seq<byte>)
    ensures |s| == 8 * |ids|
  {
    if ids == [] then [] else Encode(ids[0], 8) + EncodeIds(ids[1..])
  }

  function DecodeIds(s: seq<byte>, n: nat): (ids: seq<nat>)
    requires |s| >= 8 * n
    ensures |ids| == n
  {
    if n == 0 then [] else [Decode(s[..8])] + DecodeIds(s[8..], n - 1)
  }

  // [ header ][ zone ][ channel ][ count ]
  function MulticastHead(size: nat, zone: nat, channel: nat, count: nat): (s: seq<byte>)
    ensures |s| == 14
  {
    Header(size, PKT_INTERNAL_MULTICAST) + (Encode(zone, 4) + Encode(channel, 4) + Encode(count, 2))
  }

  // [ head ][ ids ][ packet ]
  function MulticastFrame(zone: nat, channel: nat, ids: seq<nat>, packet: seq<byte>): (f: seq<byte>)
    ensures |f| == 14 + 8 * |ids| + |packet|
  {
    MulticastHead(14 + 8 * |ids| + |packet|, zone, channel, |ids|) + (EncodeIds(ids) + packet)
  }

  // [ header ][ session ][ zone ][ channel ][ packet ]
  function UnicastFrame(session: nat, zone: nat, channel: nat, packet: seq<byte>): (f: seq<byte>)
    ensures |f| == 20 + |packet|
  {
    Header(20 + |packet|, PKT_INTERNAL_FORWARD) + Encode(session, 8) + Encode(zone, 4) + Encode(channel, 4) + packet
  }

  // How many ids fit in one frame beside the packet.
  function PerFrame(size: nat): nat {
    if size > 0xFFFF - 14 then 0 else (0xFFFF - 14 - size) / 8
  }

  // How many of the ids that are left go into the next frame.
  function Batch(size: nat, waiting: nat): (n: nat)
    ensures n <= waiting && n <= PerFrame(size) && (waiting > 0 && PerFrame(size) > 0 ==> n > 0)
  {
    if PerFrame(size) < waiting then PerFrame(size) else waiting
  }

  // The frames for one packet to many sessions. A packet too large for even one id is dropped.
  method MulticastToClients(ids: seq<nat>, zone: nat, channel: nat, packet: seq<byte>) returns (frames: seq<seq<byte>>)
    requires forall i | 0 <= i < |ids| :: IsId(ids[i])
    ensures forall i | 0 <= i < |frames| :: |frames[i]| <= 0xFFFF
    ensures frames == Frames(ids, zone, channel, packet)
  {
    if ids == [] {
      return [];
    }
    if |packet| >= 0xFFFF - 14 {
      return [];
    }
    var room := 0xFFFF - 14 - |packet|;
    var perFrame := room / 8;
    if perFrame == 0 {
      return [];
    }
    assert perFrame == PerFrame(|packet|);
    frames := [];
    var start := 0;
    ghost var rest := ids;
    while start < |ids|
      invariant start <= |ids| && rest == ids[start..]
      invariant frames + Frames(rest, zone, channel, packet) == Frames(ids, zone, channel, packet)
      decreases |ids| - start
    {
      var count := if perFrame < |ids| - start then perFrame else |ids| - start;
      assert rest[..count] == ids[start..start + count];
      NextFrame(frames, rest, zone, channel, packet);
      frames := frames + [MulticastFrame(zone, channel, ids[start..start + count], packet)];
      start := start + count;
      rest := rest[count..];
    }
    assert rest == [] && frames + [] == frames;
    FramesFit(ids, zone, channel, packet);
  }

  lemma NextFrame(frames: seq<seq<byte>>, rest: seq<nat>, zone: nat, channel: nat, packet: seq<byte>)
    requires rest != [] && PerFrame(|packet|) > 0
    ensures var n := Batch(|packet|, |rest|);
            frames + Frames(rest, zone, channel, packet)
            == (frames + [MulticastFrame(zone, channel, rest[..n], packet)]) + Frames(rest[n..], zone, channel, packet)
  {
  }

  lemma {:induction false} FramesFit(ids: seq<nat>, zone: nat, channel: nat, packet: seq<byte>)
    ensures forall i | 0 <= i < |Frames(ids, zone, channel, packet)| ::
          |Frames(ids, zone, channel, packet)[i]| <= 0xFFFF
    decreases |ids|
  {
    if ids != [] && PerFrame(|packet|) != 0 {
      var n := Batch(|packet|, |ids|);
      FramesFit(ids[n..], zone, channel, packet);
      RoomIsEnough(|packet|, n);
    }
  }

  lemma RoomIsEnough(size: nat, n: nat)
    requires n <= PerFrame(size) && n > 0
    ensures 14 + 8 * n + size <= 0xFFFF
  {
  }

  function Frames(ids: seq<nat>, zone: nat, channel: nat, packet: seq<byte>): seq<seq<byte>>
    decreases |ids|
  {
    if ids == [] || PerFrame(|packet|) == 0 then []
    else
      var n := Batch(|packet|, |ids|);
      [MulticastFrame(zone, channel, ids[..n], packet)] + Frames(ids[n..], zone, channel, packet)
  }

  // SendToClient: a packet that does not fit a frame is dropped.
  function SendToClient(session: nat, zone: nat, channel: nat, packet: seq<byte>): Option<seq<byte>> {
    if 20 + |packet| > 0xFFFF then None else Some(UnicastFrame(session, zone, channel, packet))
  }

  // ------------------------------------------------------------------------------------------------ the gateway's side

  // HandleMulticastPacket: the packet goes to every id in the list.
  function DeliverMulticast(frame: seq<byte>): seq<Delivery>
    requires |frame| >= 4 && Size(frame) == |frame| && MulticastFits(frame)
  {
    var n := Field(frame, 12, 2);
    var ids := DecodeIds(frame[14..], n);
    seq(n, i requires 0 <= i < n => Delivery(ids[i], frame[14 + 8 * n..]))
  }

  predicate IsLeaveCompleted(packet: seq<byte>) {
    |packet| >= 4 && Field(packet, 2, 2) == PKT_S_ZONE_LEAVE_COMPLETED
  }

  // Such a packet carries the number 2001 behind its size.
  lemma LeaveCompletedIsRead(packet: seq<byte>)
    ensures IsLeaveCompleted(packet) <==> |packet| >= 4 && packet[2..4] == Encode(2001, 2)
  {
    if |packet| >= 4 {
      FieldIsEncoded(packet, 2, 2001);
    }
  }

  // HandleInternalPacket: a zone-leave acknowledgement is for the gateway itself.
  function DeliverUnicast(frame: seq<byte>): seq<Delivery>
    requires |frame| >= 20
  {
    var packet := frame[20..];
    if IsLeaveCompleted(packet) then [] else [Delivery(Field(frame, 4, 8), packet)]
  }

  function Deliver(frame: seq<byte>): seq<Delivery>
    requires Decide(FromZone, frame) == Take(|frame|)
  {
    if Id(frame) == PKT_INTERNAL_MULTICAST then DeliverMulticast(frame) else DeliverUnicast(frame)
  }

  // Everything a gateway delivers from a run of packets its stream has dispatched.
  function DeliverAll(packets: seq<seq<byte>>): seq<Delivery>
    requires forall i | 0 <= i < |packets| :: Decide(FromZone, packets[i]) == Take(|packets[i]|)
  {
    if packets == [] then [] else Deliver(packets[0]) + DeliverAll(packets[1..])
  }

  // The packet once per list entry, in list order.
  function OncePerEntry(ids: seq<nat>, packet: seq<byte>): seq<Delivery> {
    seq(|ids|, i requires 0 <= i < |ids| => Delivery(ids[i], packet))
  }

  // ------------------------------------------------------------------------------------------------ round trip

  lemma {:induction false} IdsRoundTrip(ids: seq<nat>, tail: seq<byte>)
    requires forall i | 0 <= i < |ids| :: IsId(ids[i])
    ensures DecodeIds(EncodeIds(ids) + tail, |ids|) == ids
  {
    if ids != [] {
      var first, others := Encode(ids[0], 8), EncodeIds(ids[1..]) + tail;
      assert Decode(first) == ids[0] by {
        SmallPowers();
        DecodeEncode(ids[0], 8);
      }
      assert EncodeIds(ids) + tail == first + others;
      assert (first + others)[..8] == first && (first + others)[8..] == others;
      IdsRoundTrip(ids[1..], tail);
    }
  }

  lemma HeaderFields(size: nat, id: nat, tail: seq<byte>)
    requires size <= 0xFFFF && id <= 0xFFFF
    ensures Size(Header(size, id) + tail) == size && Id(Header(size, id) + tail) == id
  {
    var s := Header(size, id) + tail;
    SmallPowers();
    DecodeEncode(size, 2);
    DecodeEncode(id, 2);
    assert s[0..2] == Encode(size, 2) && s[2..4] == Encode(id, 2);
  }

  lemma HeadFields(size: nat, zone: nat, channel: nat, count: nat, tail: seq<byte>)
    requires size <= 0xFFFF && count <= 0xFFFF
    ensures var f := MulticastHead(size, zone, channel, count) + tail;
            Size(f) == size && Id(f) == PKT_INTERNAL_MULTICAST && Field(f, 12, 2) == count && f[14..] == tail
  {
    var middle := Encode(zone, 4) + Encode(channel, 4) + Encode(count, 2);
    var f := MulticastHead(size, zone, channel, count) + tail;
    assert f == Header(size, PKT_INTERNAL_MULTICAST) + (middle + tail);
    HeaderFields(size, PKT_INTERNAL_MULTICAST, middle + tail);
    SmallPowers();
    DecodeEncode(count, 2);
    assert middle[8..10] == Encode(count, 2);
    assert f[12..14] == middle[8..10];
  }

  lemma MulticastFields(zone: nat, channel: nat, ids: seq<nat>, packet: seq<byte>)
    requires 14 + 8 * |ids| + |packet| <= 0xFFFF
    ensures var f := MulticastFrame(zone, channel, ids, packet);
            && Size(f) == |f| && Id(f) == PKT_INTERNAL_MULTICAST && Field(f, 12, 2) == |ids|
            && f[14..] == EncodeIds(ids) + packet && f[14 + 8 * |ids|..] == packet
  {
    var f, tail := MulticastFrame(zone, channel, ids, packet), EncodeIds(ids) + packet;
    HeadFields(|f|, zone, channel, |ids|, tail);
    Tails(MulticastHead(|f|, zone, channel, |ids|), EncodeIds(ids), packet);
  }

  lemma Tails(head: seq<byte>, middle: seq<byte>, tail: seq<byte>)
    ensures (head + (middle + tail))[|head| + |middle|..] == tail
  {
  }

  // A frame is accepted whatever follows it, if and only if the packet holds a client header; then every id gets the
  // packet.
  lemma FrameIsAccepted(zone: nat, channel: nat, ids: seq<nat>, packet: seq<byte>, next: seq<byte>)
    requires 14 + 8 * |ids| + |packet| <= 0xFFFF && forall i | 0 <= i < |ids| :: IsId(ids[i])
    ensures var f := MulticastFrame(zone, channel, ids, packet);
            if |packet| >= 4
            then Decide(FromZone, f + next) == Take(|f|) && Decide(FromZone, f) == Take(|f|)
              && Deliver(f) == OncePerEntry(ids, packet)
            else Decide(FromZone, f + next) == Close
  {
    var f := MulticastFrame(zone, channel, ids, packet);
    MulticastFields(zone, channel, ids, packet);
    DecisionsAreFinal(FromZone, f, next);
    if |packet| >= 4 {
      IdsRoundTrip(ids, packet);
    }
  }

  // The receiver takes the frames one by one, and what they deliver is the packet once per id.
  ghost predicate Arrive(frames: seq<seq<byte>>, ids: seq<nat>, packet: seq<byte>) {
    && (forall i | 0 <= i < |frames| :: Decide(FromZone, frames[i]) == Take(|frames[i]|))
    && Parse(FromZone, Flatten(frames)) == Parsed(frames, [], FromZone, false)
    && DeliverAll(frames) == OncePerEntry(ids, packet)
  }

  lemma {:induction false} FramesArrive(ids: seq<nat>, zone: nat, channel: nat, packet: seq<byte>)
    requires 4 <= |packet| && PerFrame(|packet|) > 0 && forall i | 0 <= i < |ids| :: IsId(ids[i])
    ensures Arrive(Frames(ids, zone, channel, packet), ids, packet)
    decreases |ids|
  {
    if ids != [] {
      var n := Batch(|packet|, |ids|);
      var others := Frames(ids[n..], zone, channel, packet);
      RoomIsEnough(|packet|, n);
      FramesArrive(ids[n..], zone, channel, packet);
      FrameIsAccepted(zone, channel, ids[..n], packet, Flatten(others));
      FirstArrives(MulticastFrame(zone, channel, ids[..n], packet), others, ids[..n], ids[n..], packet);
      assert ids[..n] + ids[n..] == ids;
    }
  }

  lemma FirstArrives(first: seq<byte>, others: seq<seq<byte>>, ids: seq<nat>, more: seq<nat>, packet: seq<byte>)
    requires Decide(FromZone, first) == Take(|first|) && Deliver(first) == OncePerEntry(ids, packet)
    requires Decide(FromZone, first + Flatten(others)) == Take(|first|)
    requires Arrive(others, more, packet)
    ensures Arrive([first] + others, ids + more, packet)
  {
    FirstIsTaken(first, others);
    FirstIsDelivered(first, others, ids, more, packet);
  }

  lemma FirstIsTaken(first: seq<byte>, others: seq<seq<byte>>)
    requires Decide(FromZone, first + Flatten(others)) == Take(|first|)
    requires Parse(FromZone, Flatten(others)) == Parsed(others, [], FromZone, false)
    ensures Parse(FromZone, Flatten([first] + others)) == Parsed([first] + others, [], FromZone, false)
  {
    assert ([first] + others)[1..] == others;
    var s := first + Flatten(others);
    assert s[|first|..] == Flatten(others) && s[..|first|] == first;
  }

  lemma FirstIsDelivered(first: seq<byte>, others: seq<seq<byte>>, ids: seq<nat>, more: seq<nat>, packet: seq<byte>)
    requires Decide(FromZone, first) == Take(|first|) && Deliver(first) == OncePerEntry(ids, packet)
    requires forall i | 0 <= i < |others| :: Decide(FromZone, others[i]) == Take(|others[i]|)
    requires DeliverAll(others) == OncePerEntry(more, packet)
    ensures var all := [first] + others;
            && (forall i | 0 <= i < |all| :: Decide(FromZone, all[i]) == Take(|all[i]|))
            && DeliverAll(all) == OncePerEntry(ids + more, packet)
  {
    hide Decide, Deliver;
    assert ([first] + others)[1..] == others;
    assert OncePerEntry(ids, packet) + OncePerEntry(more, packet) == OncePerEntry(ids + more, packet);
  }

  // Multicast delivers the exact packet once per entry, in list order, for every packet of 4 to 65513 bytes. A larger
  // one reaches nobody; a shorter one closes the connection.
  lemma MulticastDeliversExactly(ids: seq<nat>, zone: nat, channel: nat, packet: seq<byte>)
    requires ids != [] && forall i | 0 <= i < |ids| :: IsId(ids[i])
    ensures var frames := Frames(ids, zone, channel, packet);
            if 4 <= |packet| <= 65513 then Arrive(frames, ids, packet)
            else if |packet| < 4 then Parse(FromZone, Flatten(frames)).closed
              && Parse(FromZone, Flatten(frames)).packets == []
            else frames == []
  {
    if 4 <= |packet| <= 65513 {
      FramesArrive(ids, zone, channel, packet);
    } else if |packet| < 4 {
      var n := Batch(|packet|, |ids|);
      RoomIsEnough(|packet|, n);
      FrameIsAccepted(zone, channel, ids[..n], packet, Flatten(Frames(ids[n..], zone, channel, packet)));
    }
  }

  // One packet to one session, by itself.
  lemma UnicastDelivers(session: nat, zone: nat, channel: nat, packet: seq<byte>)
    requires IsId(session) && |packet| <= 65515
    ensures var f := SendToClient(session, zone, channel, packet);
            && f.Some? && Decide(FromZone, f.value) == Take(|f.value|)
            && Deliver(f.value) == if IsLeaveCompleted(packet) then [] else [Delivery(session, packet)]
  {
    var f := UnicastFrame(session, zone, channel, packet);
    var tail := Encode(session, 8) + Encode(zone, 4) + Encode(channel, 4) + packet;
    assert f == Header(|f|, PKT_INTERNAL_FORWARD) + tail;
    HeaderFields(|f|, PKT_INTERNAL_FORWARD, tail);
    SmallPowers();
    DecodeEncode(session, 8);
    assert f[4..12] == Encode(session, 8) && f[20..] == packet;
  }

  function Unicasts(ids: seq<nat>, zone: nat, channel: nat, packet: seq<byte>): seq<seq<byte>>
    requires |packet| <= 65515
  {
    seq(|ids|, i requires 0 <= i < |ids| => UnicastFrame(ids[i], zone, channel, packet))
  }

  // Unicasts of an acknowledgement end at the gateway.
  lemma {:induction false} UnicastsDeliver(ids: seq<nat>, zone: nat, channel: nat, packet: seq<byte>)
    requires |packet| <= 65515 && forall i | 0 <= i < |ids| :: IsId(ids[i])
    ensures var frames := Unicasts(ids, zone, channel, packet);
            && (forall i | 0 <= i < |frames| :: Decide(FromZone, frames[i]) == Take(|frames[i]|))
            && DeliverAll(frames) == if IsLeaveCompleted(packet) then [] else OncePerEntry(ids, packet)
    decreases |ids|
  {
    hide Decide, Deliver, UnicastFrame, IsLeaveCompleted, IsId;
    if ids != [] {
      UnicastDelivers(ids[0], zone, channel, packet);
      UnicastsDeliver(ids[1..], zone, channel, packet);
      assert Unicasts(ids, zone, channel, packet)
          == [UnicastFrame(ids[0], zone, channel, packet)] + Unicasts(ids[1..], zone, channel, packet);
      assert OncePerEntry(ids, packet) == [Delivery(ids[0], packet)] + OncePerEntry(ids[1..], packet);
    }
  }

  // One multicast delivers what sending to each session alone delivers, if and only if there is nobody to send to or
  // the packet is not a zone-leave acknowledgement: the gateway keeps one that is sent to a session and passes on one
  // that is multicast.
  lemma MulticastEqualsUnicasts(ids: seq<nat>, zone: nat, channel: nat, packet: seq<byte>)
    requires forall i | 0 <= i < |ids| :: IsId(ids[i])
    requires 4 <= |packet| <= 65513
    ensures var frames, unicasts := Frames(ids, zone, channel, packet), Unicasts(ids, zone, channel, packet);
            && (forall i | 0 <= i < |frames| :: Decide(FromZone, frames[i]) == Take(|frames[i]|))
            && (forall i | 0 <= i < |unicasts| :: Decide(FromZone, unicasts[i]) == Take(|unicasts[i]|))
            && (DeliverAll(frames) == DeliverAll(unicasts) <==> ids == [] || !IsLeaveCompleted(packet))
  {
    FramesArrive(ids, zone, channel, packet);
    UnicastsDeliver(ids, zone, channel, packet);
    assert |OncePerEntry(ids, packet)| == |ids|;
  }
}
