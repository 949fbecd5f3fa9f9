/** The three packet streams: what a session decides about the bytes it has not consumed, and the one-shot parse of a
    whole stream. */
module Streams {
  import opened Bytes

  const CLIENT_HEADER := 4
  const INTERNAL_HEADER := 20
  const HANDSHAKE_HEADER := 6
  const MULTICAST_HEADER := 14
  const MAX_CLIENT_PACKET := 4096
  const PKT_INTERNAL_MULTICAST := 9996
  const PKT_ZONE_HANDSHAKE := 9997

  // FromClient: a gateway reading a client. FromGateway: a zone server reading the gateway. A gateway reading a zone
  // server waits for the Handshake first and then takes packets FromZone.
  datatype Mode = FromClient | FromGateway | Handshake | FromZone

  function BufferSize(mode: Mode): nat {
    if mode.FromClient? || mode.FromGateway? then 0x1_0000 else 0x2_0000
  }

  // Wait for more bytes, close the connection, or take a packet of so many bytes.
  datatype Decision = Wait | Close | Take(size: nat)

  function Size(w: seq<byte>): nat
    requires |w| >= 2
  {
    Field(w, 0, 2)
  }

  function Id(w: seq<byte>): nat
    requires |w| >= 4
  {
    Field(w, 2, 2)
  }

  function DecideClient(w: seq<byte>): Decision {
    if |w| < CLIENT_HEADER then Wait
    else if Size(w) < CLIENT_HEADER || Size(w) > MAX_CLIENT_PACKET then Close
    else if |w| < Size(w) then Wait
    else Take(Size(w))
  }

  function DecideGateway(w: seq<byte>): Decision {
    if |w| < INTERNAL_HEADER || |w| < Size(w) then Wait
    else if Size(w) < INTERNAL_HEADER then Close
    else Take(Size(w))
  }

  function DecideHandshake(w: seq<byte>): Decision {
    if |w| < HANDSHAKE_HEADER || |w| < Size(w) then Wait
    else if Id(w) != PKT_ZONE_HANDSHAKE || Size(w) != HANDSHAKE_HEADER + 8 * Field(w, 4, 2) then Close
    else Take(Size(w))
  }

  // A multicast must hold its header, its ids and at least a client header.
  predicate MulticastFits(w: seq<byte>)
    requires |w| >= 4
  {
    Size(w) >= MULTICAST_HEADER && |w| >= MULTICAST_HEADER
    && MULTICAST_HEADER + 8 * Field(w, 12, 2) + CLIENT_HEADER <= Size(w)
  }

  function DecideZone(w: seq<byte>): Decision {
    if |w| < CLIENT_HEADER then Wait
    else if Size(w) < CLIENT_HEADER then Close
    else if |w| < Size(w) then Wait
    else if Id(w) == PKT_INTERNAL_MULTICAST then if MulticastFits(w) then Take(Size(w)) else Close
    else if Size(w) < INTERNAL_HEADER then Close
    else Take(Size(w))
  }

  function Decide(mode: Mode, w: seq<byte>): (d: Decision)
    ensures d.Take? ==> 0 < d.size <= |w|
  {
    match mode
    case FromClient => DecideClient(w)
    case FromGateway => DecideGateway(w)
    case Handshake => DecideHandshake(w)
    case FromZone => DecideZone(w)
  }

  function After(mode: Mode): Mode {
    if mode.Handshake? then FromZone else mode
  }

  // What a stream makes of its bytes: the packets dispatched, the bytes not consumed, and whether it has closed.
  datatype Parsed = Parsed(packets: seq<seq<byte>>, rest: seq<byte>, mode: Mode, closed: bool)

  function Parse(mode: Mode, w: seq<byte>): Parsed
    decreases |w|
  {
    match Decide(mode, w)
    case Wait => Parsed([], w, mode, false)
    case Close => Parsed([], w, mode, true)
    case Take(n) =>
      var later := Parse(After(mode), w[n..]);
      later.(packets := [w[..n]] + later.packets)
  }

  // More bytes change no decision but the one to wait.
  lemma DecisionsAreFinal(mode: Mode, w: seq<byte>, x: seq<byte>)
    requires !Decide(mode, w).Wait?
    ensures Decide(mode, w + x) == Decide(mode, w)
  {
    FieldIn(w, x, 0, 2);
    FieldIn(w, x, 2, 2);
    if |w| >= 6 {
      FieldIn(w, x, 4, 2);
    }
    if |w| >= 14 {
      FieldIn(w, x, 12, 2);
    }
    if mode.FromZone? {
      Field16(w, 0);
    }
  }

  // Going on after some bytes: a closed stream keeps the bytes and does nothing with them.
  function Resume(p: Parsed, x: seq<byte>): Parsed {
    if p.closed then p.(rest := p.rest + x)
    else
      var later := Parse(p.mode, p.rest + x);
      later.(packets := p.packets + later.packets)
  }

  // Packets dispatched so far and bytes not looked at yet.
  function Pending(packets: seq<seq<byte>>, mode: Mode, w: seq<byte>): Parsed {
    Resume(Parsed(packets, [], mode, false), w)
  }

  lemma PendingIsResumed(p: Parsed, x: seq<byte>)
    requires !p.closed
    ensures Pending(p.packets, p.mode, p.rest + x) == Resume(p, x)
  {
    assert [] + (p.rest + x) == p.rest + x;
  }

  // One turn of the packet loop.
  lemma PendingStep(packets: seq<seq<byte>>, mode: Mode, w: seq<byte>)
    ensures Pending(packets, mode, w)
         == match Decide(mode, w)
            case Wait => Parsed(packets, w, mode, false)
            case Close => Parsed(packets, w, mode, true)
            case Take(n) => Pending(packets + [w[..n]], After(mode), w[n..])
  {
    assert [] + w == w && packets + [] == packets;
    var d := Decide(mode, w);
    if d.Take? {
      var later := Parse(After(mode), w[d.size..]);
      assert [] + w[d.size..] == w[d.size..];
      assert packets + ([w[..d.size]] + later.packets) == (packets + [w[..d.size]]) + later.packets;
    }
  }

  // Parsing in two pieces is parsing in one.
  lemma {:induction false} ParseInPieces(mode: Mode, w: seq<byte>, x: seq<byte>)
    ensures Parse(mode, w + x) == Resume(Parse(mode, w), x)
    decreases |w|
  {
    var d := Decide(mode, w);
    if d.Wait? {
      assert [] + Parse(mode, w + x).packets == Parse(mode, w + x).packets;
    } else {
      DecisionsAreFinal(mode, w, x);
      if d.Take? {
        assert (w + x)[d.size..] == w[d.size..] + x && (w + x)[..d.size] == w[..d.size];
        ParseInPieces(After(mode), w[d.size..], x);
        FirstPacket(w[..d.size], Parse(After(mode), w[d.size..]), x);
      }
    }
  }

  // Resuming does not depend on what was dispatched before.
  lemma FirstPacket(packet: seq<byte>, p: Parsed, x: seq<byte>)
    ensures Resume(p.(packets := [packet] + p.packets), x) == Resume(p, x).(packets := [packet] + Resume(p, x).packets)
  {
    if !p.closed {
      var more := Parse(p.mode, p.rest + x).packets;
      assert [packet] + (p.packets + more) == ([packet] + p.packets) + more;
    }
  }

  // Bytes are neither lost nor invented: the packets and the rest are the stream.
  lemma {:induction false} ParseKeepsBytes(mode: Mode, w: seq<byte>)
    ensures Flatten(Parse(mode, w).packets) + Parse(mode, w).rest == w
    decreases |w|
  {
    var d := Decide(mode, w);
    if d.Take? {
      ParseKeepsBytes(After(mode), w[d.size..]);
      assert w == w[..d.size] + w[d.size..];
    }
  }

  function Flatten(pieces: seq<seq<byte>>): seq<byte> {
    if pieces == [] then [] else pieces[0] + Flatten(pieces[1..])
  }

  // ------------------------------------------------------------------------------------------------ framing

  // A packet begins with its own length, in two bytes.
  predicate StatesItsSize(p: seq<byte>) {
    2 <= |p| <= 0xFFFF && p[..2] == Encode(|p|, 2)
  }

  // What a sender may put on a connection, said of the bytes it encodes.
  predicate IsPacket(mode: Mode, p: seq<byte>) {
    StatesItsSize(p)
    && match mode
       case FromClient => CLIENT_HEADER <= |p| <= MAX_CLIENT_PACKET
       case FromGateway => INTERNAL_HEADER <= |p|
       case Handshake => IsHandshake(p)
       case FromZone => if IsMulticast(p) then HoldsItsIds(p) else INTERNAL_HEADER <= |p|
  }

  // [ size ][ id ][ count ] and `count` ids of eight bytes.
  predicate IsHandshake(p: seq<byte>) {
    && |p| >= HANDSHAKE_HEADER && p[2..4] == Encode(PKT_ZONE_HANDSHAKE, 2)
    && (|p| - HANDSHAKE_HEADER) % 8 == 0 && p[4..6] == Encode((|p| - HANDSHAKE_HEADER) / 8, 2)
  }

  predicate IsMulticast(p: seq<byte>) {
    |p| >= CLIENT_HEADER && p[2..4] == Encode(PKT_INTERNAL_MULTICAST, 2)
  }

  // Behind its head, the ids it counts, and at least a client header.
  predicate HoldsItsIds(p: seq<byte>) {
    |p| >= MULTICAST_HEADER && MULTICAST_HEADER + 8 * Decode(p[12..14]) + CLIENT_HEADER <= |p|
  }

  predicate StartsPacket(mode: Mode, w: seq<byte>) {
    exists n | 0 <= n <= |w| :: IsPacket(mode, w[..n])
  }

  // The header has arrived, and all the bytes it announces; a client's size is refused before they have.
  predicate HasArrived(mode: Mode, w: seq<byte>) {
    match mode
    case FromClient => |w| >= CLIENT_HEADER
    case FromGateway => |w| >= INTERNAL_HEADER && |w| >= Size(w)
    case Handshake => |w| >= HANDSHAKE_HEADER && |w| >= Size(w)
    case FromZone => |w| >= CLIENT_HEADER && |w| >= Size(w)
  }

  // No packet starts there, whatever follows.
  ghost predicate IsHopeless(mode: Mode, w: seq<byte>) {
    forall x: seq<byte> :: !StartsPacket(mode, w + x)
  }

  // Two bytes hold a value if and only if they are its encoding.
  lemma FieldIsEncoded(w: seq<byte>, at: nat, value: nat)
    requires at + 2 <= |w|
    ensures Field(w, at, 2) == value <==> value < 0x1_0000 && w[at..at + 2] == Encode(value, 2)
  {
    EncodeDecode(w[at..at + 2]);
    SmallPowers();
    if value < 0x1_0000 {
      DecodeEncode(value, 2);
    }
  }

  lemma PrefixField(w: seq<byte>, n: nat, at: nat)
    requires at + 2 <= n <= |w|
    ensures Field(w[..n], at, 2) == Field(w, at, 2) && w[..n][at..at + 2] == w[at..at + 2]
  {
    assert w[..n][at..at + 2] == w[at..at + 2];
  }

  // A prefix states its size if and only if it has the length the stream begins with.
  lemma SizeIsStated(w: seq<byte>, n: nat)
    requires 2 <= n <= |w|
    ensures StatesItsSize(w[..n]) <==> n == Size(w)
  {
    Field16(w, 0);
    PrefixField(w, n, 0);
    FieldIsEncoded(w, 0, n);
    assert w[..n][..2] == w[0..2];
  }

  lemma HandshakeIsRead(w: seq<byte>, n: nat)
    requires 2 <= n <= |w| && n == Size(w)
    ensures IsHandshake(w[..n]) <==>
              n >= HANDSHAKE_HEADER && Id(w) == PKT_ZONE_HANDSHAKE && n == HANDSHAKE_HEADER + 8 * Field(w, 4, 2)
  {
    hide Encode;
    if n >= HANDSHAKE_HEADER {
      PrefixField(w, n, 2);
      PrefixField(w, n, 4);
      FieldIsEncoded(w, 2, PKT_ZONE_HANDSHAKE);
      Field16(w, 0);
      FieldIsEncoded(w, 4, (n - HANDSHAKE_HEADER) / 8);
    }
  }

  lemma MulticastIsRead(w: seq<byte>, n: nat)
    requires 2 <= n <= |w| && n == Size(w)
    ensures IsMulticast(w[..n]) <==> n >= CLIENT_HEADER && Id(w) == PKT_INTERNAL_MULTICAST
    ensures HoldsItsIds(w[..n]) <==> n >= CLIENT_HEADER && MulticastFits(w)
  {
    hide Encode;
    if n >= CLIENT_HEADER {
      PrefixField(w, n, 2);
      FieldIsEncoded(w, 2, PKT_INTERNAL_MULTICAST);
    }
    if n >= MULTICAST_HEADER {
      PrefixField(w, n, 12);
      assert Decode(w[..n][12..14]) == Field(w, 12, 2);
    }
  }

  // A session takes exactly what is a packet.
  lemma TakesExactlyPackets(mode: Mode, w: seq<byte>, n: nat)
    ensures Decide(mode, w) == Take(n) <==> n <= |w| && IsPacket(mode, w[..n])
  {
    hide Field, Encode, IsHandshake, IsMulticast, HoldsItsIds, MulticastFits;
    if 2 <= n <= |w| {
      SizeIsStated(w, n);
      if n == Size(w) {
        HandshakeIsRead(w, n);
        MulticastIsRead(w, n);
      }
    }
  }

  // A session closes exactly where no packet can come any more, as soon as it can tell.
  lemma ClosesExactlyWhenHopeless(mode: Mode, w: seq<byte>)
    ensures Decide(mode, w).Close? <==> HasArrived(mode, w) && IsHopeless(mode, w)
  {
    hide IsPacket, MulticastFits;
    var d := Decide(mode, w);
    if d.Close? {
      forall x: seq<byte>, n | 0 <= n <= |w + x| ensures !IsPacket(mode, (w + x)[..n]) {
        DecisionsAreFinal(mode, w, x);
        TakesExactlyPackets(mode, w + x, n);
      }
    } else if HasArrived(mode, w) {
      var x := if d.Take? then [] else seq(Size(w) - |w|, _ => 0 as byte);
      FieldIn(w, x, 0, 2);
      assert w + [] == w;
      TakesExactlyPackets(mode, w + x, Size(w));
      assert StartsPacket(mode, w + x);
    }
  }

  predicate Framed(mode: Mode, packets: seq<seq<byte>>)
    decreases |packets|
  {
    packets == [] || (IsPacket(mode, packets[0]) && Framed(After(mode), packets[1..]))
  }

  function ModeAfter(mode: Mode, packets: seq<seq<byte>>): Mode {
    if packets == [] then mode else After(mode)
  }

  // A stream cut into packets until none starts where the rest does; and whether that is for good.
  ghost predicate IsCut(mode: Mode, w: seq<byte>, p: Parsed) {
    && w == Flatten(p.packets) + p.rest && Framed(mode, p.packets) && p.mode == ModeAfter(mode, p.packets)
    && !StartsPacket(p.mode, p.rest) && (p.closed <==> HasArrived(p.mode, p.rest) && IsHopeless(p.mode, p.rest))
  }

  lemma FirstOfCut(mode: Mode, w: seq<byte>, p: Parsed)
    requires IsCut(mode, w, p) && p.packets != []
    ensures var n := |p.packets[0]|;
            n <= |w| && p.packets[0] == w[..n] && Flatten(p.packets[1..]) + p.rest == w[n..]
            && Decide(mode, w) == Take(n)
  {
    hide IsPacket, StartsPacket, HasArrived, IsHopeless, Decide;
    var first := p.packets[0];
    assert w == first + (Flatten(p.packets[1..]) + p.rest);
    TakesExactlyPackets(mode, w, |first|);
  }

  // Cutting off the first packet leaves a cut of what follows it.
  lemma CutUnfolds(mode: Mode, w: seq<byte>, n: nat, p: Parsed)
    requires Decide(mode, w) == Take(n)
    ensures IsCut(mode, w, p) <==>
              p.packets != [] && p.packets[0] == w[..n] && IsCut(After(mode), w[n..], p.(packets := p.packets[1..]))
  {
    hide IsPacket, HasArrived, IsHopeless, Decide, StartsPacket, Flatten, Framed;
    if IsCut(mode, w, p) {
      SomethingToCut(mode, w, n, p);
      CutStarts(mode, w, p);
    } else if p.packets != [] && p.packets[0] == w[..n] && IsCut(After(mode), w[n..], p.(packets := p.packets[1..])) {
      CutJoins(mode, w, n, p);
    }
  }

  lemma SomethingToCut(mode: Mode, w: seq<byte>, n: nat, p: Parsed)
    requires Decide(mode, w) == Take(n) && IsCut(mode, w, p)
    ensures p.packets != []
  {
    hide IsPacket, HasArrived, IsHopeless, Decide;
    TakesExactlyPackets(mode, w, n);
    assert [] + p.rest == p.rest;
  }

  lemma CutStarts(mode: Mode, w: seq<byte>, p: Parsed)
    requires IsCut(mode, w, p) && p.packets != []
    ensures var n := |p.packets[0]|;
            && Decide(mode, w) == Take(n) && n <= |w| && p.packets[0] == w[..n]
            && IsCut(After(mode), w[n..], p.(packets := p.packets[1..]))
  {
    FirstOfCut(mode, w, p);
    hide IsPacket, HasArrived, IsHopeless, Decide, StartsPacket, Flatten;
  }

  lemma CutJoins(mode: Mode, w: seq<byte>, n: nat, p: Parsed)
    requires Decide(mode, w) == Take(n) && p.packets != [] && p.packets[0] == w[..n]
    requires IsCut(After(mode), w[n..], p.(packets := p.packets[1..]))
    ensures IsCut(mode, w, p)
  {
    TakesExactlyPackets(mode, w, n);
    hide IsPacket, HasArrived, IsHopeless, Decide, StartsPacket;
    assert w == w[..n] + w[n..];
    assert w[..n] + (Flatten(p.packets[1..]) + p.rest) == (w[..n] + Flatten(p.packets[1..])) + p.rest;
  }

  lemma NothingToCut(mode: Mode, w: seq<byte>, p: Parsed)
    requires !Decide(mode, w).Take?
    ensures IsCut(mode, w, p) <==> p == Parsed([], w, mode, Decide(mode, w).Close?)
  {
    hide IsPacket, HasArrived, IsHopeless, Decide;
    ClosesExactlyWhenHopeless(mode, w);
    forall n | 0 <= n <= |w| ensures !IsPacket(mode, w[..n]) {
      TakesExactlyPackets(mode, w, n);
    }
    if IsCut(mode, w, p) && p.packets != [] {
      FirstOfCut(mode, w, p);
    }
    assert [] + p.rest == p.rest;
  }

  // The parse of a stream is the one way to cut it into packets.
  lemma {:induction false} ParseIsTheCut(mode: Mode, w: seq<byte>, p: Parsed)
    ensures IsCut(mode, w, p) <==> p == Parse(mode, w)
    decreases |w|
  {
    hide IsCut, Decide;
    var d := Decide(mode, w);
    if d.Take? {
      CutUnfolds(mode, w, d.size, p);
      if p.packets != [] {
        ParseIsTheCut(After(mode), w[d.size..], p.(packets := p.packets[1..]));
        assert p.packets == [p.packets[0]] + p.packets[1..];
      }
    } else {
      NothingToCut(mode, w, p);
    }
  }

  // Whatever packets are sent are dispatched as they were sent, with nothing left, the handshake first where one is
  // due.
  lemma PacketsAreDispatched(mode: Mode, packets: seq<seq<byte>>)
    requires Framed(mode, packets)
    ensures Parse(mode, Flatten(packets)) == Parsed(packets, [], ModeAfter(mode, packets), false)
  {
    hide Framed, Parse, Flatten;
    assert Flatten(packets) + [] == Flatten(packets);
    ParseIsTheCut(mode, Flatten(packets), Parsed(packets, [], ModeAfter(mode, packets), false));
  }

  // After some packets of a client comes a header whose size is below 4 or above 4096.
  predicate IsMisframed(w: seq<byte>, packets: seq<seq<byte>>, rest: seq<byte>) {
    && Framed(FromClient, packets) && w == Flatten(packets) + rest && |rest| >= 4
    && (Decode(rest[..2]) < 4 || Decode(rest[..2]) > 4096)
  }

  // A client's stream closes at the first such header, and only there.
  lemma ClientClosesAtABadSize(w: seq<byte>)
    ensures Parse(FromClient, w).closed <==> exists packets, rest :: IsMisframed(w, packets, rest)
    ensures forall packets, rest | IsMisframed(w, packets, rest) ::
              Parse(FromClient, w) == Parsed(packets, rest, FromClient, true)
  {
    hide Parse, Flatten, Framed, IsHopeless, StartsPacket;
    var p := Parse(FromClient, w);
    ParseIsTheCut(FromClient, w, p);
    if p.closed {
      ClosesExactlyWhenHopeless(FromClient, p.rest);
      assert IsMisframed(w, p.packets, p.rest);
    }
    forall packets, rest | IsMisframed(w, packets, rest)
      ensures p == Parsed(packets, rest, FromClient, true)
    {
      assert Decide(FromClient, rest).Close?;
      ClosesExactlyWhenHopeless(FromClient, rest);
      HopelessStartsNothing(FromClient, rest);
      ParseIsTheCut(FromClient, w, Parsed(packets, rest, FromClient, true));
    }
  }

  lemma HopelessStartsNothing(mode: Mode, w: seq<byte>)
    requires IsHopeless(mode, w)
    ensures !StartsPacket(mode, w)
  {
    assert w + [] == w;
  }

  // A session reads its stream in pieces.
  function ParsePieces(mode: Mode, pieces: seq<seq<byte>>): Parsed
    decreases |pieces|
  {
    if pieces == [] then Parsed([], [], mode, false)
    else Resume(ParsePieces(mode, pieces[..|pieces| - 1]), pieces[|pieces| - 1])
  }

  lemma {:induction false} FlattenSnoc(pieces: seq<seq<byte>>, last: seq<byte>)
    ensures Flatten(pieces + [last]) == Flatten(pieces) + last
    decreases |pieces|
  {
    if pieces == [] {
      assert [] + [last] == [last];
      assert last + [] == [] + last;
    } else {
      FlattenSnoc(pieces[1..], last);
      assert (pieces + [last])[1..] == pieces[1..] + [last];
      assert pieces[0] + (Flatten(pieces[1..]) + last) == (pieces[0] + Flatten(pieces[1..])) + last;
    }
  }

  lemma {:induction false} PiecesAreOneStream(mode: Mode, pieces: seq<seq<byte>>)
    ensures ParsePieces(mode, pieces) == Parse(mode, Flatten(pieces))
    decreases |pieces|
  {
    if pieces != [] {
      var last := |pieces| - 1;
      PiecesAreOneStream(mode, pieces[..last]);
      ParseInPieces(mode, Flatten(pieces[..last]), pieces[last]);
      FlattenSnoc(pieces[..last], pieces[last]);
      assert pieces == pieces[..last] + [pieces[last]];
    }
  }

  // However a stream is cut into reads, the same packets are dispatched, it closes or not, and the same bytes are left.
  lemma CutsDoNotMatter(mode: Mode, pieces: seq<seq<byte>>, others: seq<seq<byte>>)
    requires Flatten(pieces) == Flatten(others)
    ensures ParsePieces(mode, pieces) == ParsePieces(mode, others)
  {
    PiecesAreOneStream(mode, pieces);
    PiecesAreOneStream(mode, others);
  }

  // What is dispatched before more bytes come is dispatched all the same, and nothing follows a close.
  lemma DispatchIsMonotone(mode: Mode, w: seq<byte>, x: seq<byte>)
    ensures Parse(mode, w).packets <= Parse(mode, w + x).packets
    ensures Parse(mode, w).closed ==> Parse(mode, w + x).closed && Parse(mode, w + x).packets == Parse(mode, w).packets
  {
    ParseInPieces(mode, w, x);
  }

  // Once closed, or with nothing more to come, the outcome stands.
  lemma RestIsIgnored(mode: Mode, w: seq<byte>, x: seq<byte>)
    requires Parse(mode, w).closed || x == []
    ensures Parse(mode, w + x).packets == Parse(mode, w).packets && Parse(mode, w + x).closed == Parse(mode, w).closed
  {
    if x == [] {
      assert w + x == w;
    } else {
      DispatchIsMonotone(mode, w, x);
    }
  }

  // Every buffer is larger than what a stream that waits may hold.
  lemma WaitingLeavesRoom(mode: Mode, w: seq<byte>)
    requires Decide(mode, w).Wait?
    ensures |w| < BufferSize(mode)
  {
    if |w| >= 2 {
      Field16(w, 0);
    }
  }

  lemma {:induction false} OpenStreamWaits(mode: Mode, w: seq<byte>)
    ensures var p := Parse(mode, w);
            && (p.closed <==> Decide(p.mode, p.rest).Close?) && (!p.closed ==> Decide(p.mode, p.rest).Wait?)
            && BufferSize(p.mode) == BufferSize(mode)
    decreases |w|
  {
    var d := Decide(mode, w);
    if d.Take? {
      OpenStreamWaits(After(mode), w[d.size..]);
    }
  }
}

/** The receive side of a session: a fixed buffer with a window of unconsumed bytes. */
module ReceiveSessions {
  import opened Bytes
  import opened Streams

  class ReceiveSession {
    const buffer: array<byte>
    const start: Mode
    var readPos: nat
    var writePos: nat
    var mode: Mode
    var closed: bool
    // Every packet routed so far, and every byte read.
    var dispatched: seq<seq<byte>>
    ghost var stream: seq<byte>

    ghost predicate Window()
      reads this`readPos, this`writePos
    {
      readPos <= writePos <= buffer.Length && buffer.Length == BufferSize(start)
    }

    ghost function State(): Parsed
      requires Window()
      reads this, buffer
    {
      Parsed(dispatched, buffer[readPos..writePos], mode, closed)
    }

    // The window is the unconsumed suffix, and everything is as in a one-shot parse of the stream.
    ghost predicate Valid()
      reads this, buffer
    {
      Window() && State() == Parse(start, stream)
    }

    constructor (start: Mode)
      ensures Valid() && fresh(buffer) && stream == [] && this.start == start
    {
      this.start, mode := start, start;
      buffer := new byte[BufferSize(start)];
      readPos, writePos, closed, dispatched, stream := 0, 0, false, [], [];
    }

    // Makes room: when the free space is used up the window moves to the front. An open session always has some.
    method PrepareRead() returns (free: nat)
      requires Valid()
      modifies this`readPos, this`writePos, buffer
      ensures Valid() && free == buffer.Length - writePos
      ensures !closed ==> free > 0
    {
      OpenStreamWaits(start, stream);
      if !closed {
        WaitingLeavesRoom(mode, buffer[readPos..writePos]);
      }
      if buffer.Length == writePos {
        MoveToFront();
      }
      free := buffer.Length - writePos;
    }

    method MoveToFront()
      requires Window()
      modifies this`readPos, this`writePos, buffer
      ensures Window() && readPos == 0 && buffer[..writePos] == old(buffer[readPos..writePos])
    {
      var from, dataSize := readPos, writePos - readPos;
      for i := 0 to dataSize
        modifies buffer
        invariant forall j | 0 <= j < i :: buffer[j] == old(buffer[readPos + j])
        invariant forall k | from + i <= k < from + dataSize :: buffer[k] == old(buffer[k])
      {
        buffer[i] := buffer[from + i];
      }
      readPos, writePos := 0, dataSize;
    }

    // Bytes have arrived in the free space.
    method OnRead(data: seq<byte>)
      requires Valid() && !closed && |data| <= buffer.Length - writePos
      modifies this, buffer
      ensures Valid() && stream == old(stream) + data && IsCut(start, stream, State())
    {
      ghost var window := buffer[readPos..writePos];
      CopyIn(data);
      assert buffer[readPos..writePos] == window + data;
      ParseInPieces(start, stream, data);
      PendingIsResumed(Parse(start, stream), data);
      stream := stream + data;
      ProcessPackets();
      ParseIsTheCut(start, stream, State());
    }

    method CopyIn(data: seq<byte>)
      requires Window() && |data| <= buffer.Length - writePos
      modifies this`writePos, buffer
      ensures Window() && writePos == old(writePos) + |data|
      ensures buffer[..old(writePos)] == old(buffer[..writePos]) && buffer[old(writePos)..writePos] == data
    {
      var from := writePos;
      for i := 0 to |data|
        modifies buffer
        invariant forall j | 0 <= j < from :: buffer[j] == old(buffer[j])
        invariant buffer[from..from + i] == data[..i]
      {
        buffer[from + i] := data[i];
      }
      writePos := from + |data|;
    }

    method ProcessPackets()
      requires Window() && !closed && Pending(dispatched, mode, buffer[readPos..writePos]) == Parse(start, stream)
      modifies this
      ensures Valid() && stream == old(stream)
    {
      hide Parse, Pending;
      while true
        invariant Window() && !closed && stream == old(stream)
        invariant Pending(dispatched, mode, buffer[readPos..writePos]) == Parse(start, stream)
        decreases writePos - readPos
      {
        var window := buffer[readPos..writePos];
        PendingStep(dispatched, mode, window);
        var decision := Decide(mode, window);
        if decision.Wait? {
          break;
        }
        if decision.Close? {
          closed := true;
          break;
        }
        assert window[decision.size..] == buffer[readPos + decision.size..writePos];
        dispatched := dispatched + [window[..decision.size]];
        mode := After(mode);
        readPos := readPos + decision.size;
      }
      if readPos == writePos {
        assert buffer[readPos..writePos] == buffer[..0];
        readPos, writePos := 0, 0;
      }
    }

    // Everything that comes, whatever the reads: as long as the session is open there is room for the next one.
    method Receive(data: seq<byte>)
      requires Valid()
      modifies this, buffer
      ensures Valid() && old(stream) <= stream <= old(stream) + data
      ensures !closed ==> stream == old(stream) + data
      ensures dispatched == Parse(start, old(stream) + data).packets
            && closed == Parse(start, old(stream) + data).closed
      ensures IsCut(start, stream, State())
    {
      hide Parse, IsCut;
      ghost var all := stream + data;
      var rest := data;
      while rest != [] && !closed
        invariant Valid() && old(stream) <= stream && stream + rest == all
        decreases |rest|
      {
        var n := ReadSome(rest);
        assert rest == rest[..n] + rest[n..];
        rest := rest[n..];
      }
      RestIsIgnored(start, stream, rest);
      ParseIsTheCut(start, stream, State());
    }

    // One read, of as much as fits.
    method ReadSome(data: seq<byte>) returns (n: nat)
      requires Valid() && !closed && data != []
      modifies this, buffer
      ensures Valid() && 0 < n <= |data| && stream == old(stream) + data[..n]
    {
      var free := PrepareRead();
      n := if |data| < free then |data| else free;
      OnRead(data[..n]);
    }
  }
}
