/** A send chunk: 64 KiB handed out in slices, front to back. */
module SendChunks {
  import opened Options
  import opened Bytes

  const CHUNK_SIZE := 0x1_0000

  datatype Chunk = Chunk(bytes: seq<byte>, used: nat, isOpen: bool)

  predicate WellFormed(c: Chunk) {
    |c.bytes| == CHUNK_SIZE && c.used <= CHUNK_SIZE
  }

  type BlankChunk = c: Chunk | WellFormed(c) && c.used == 0 && !c.isOpen
    witness Chunk(seq(CHUNK_SIZE, i => 0), 0, false)

  function Reset(c: Chunk): Chunk { c.(used := 0, isOpen := false) }

  // The new slice starts at the used size.
  function Open(c: Chunk, size: nat): Option<Chunk> {
    if size > CHUNK_SIZE - c.used then None else Some(c.(isOpen := true))
  }

  function Close(c: Chunk, written: nat): Chunk { c.(used := c.used + written, isOpen := false) }

  function Write(c: Chunk, at: nat, data: seq<byte>): Chunk
    requires at + |data| <= |c.bytes|
  {
    c.(bytes := c.bytes[..at] + data + c.bytes[at + |data|..])
  }
}

/** The chunk object: its methods update it in place as the chunk functions say. */
module SendChunkObjects {
  import opened Options
  import opened Bytes
  import C = SendChunks

  class SendBufferChunk {
    const buffer: array<byte>
    var usedSize: nat
    var isOpen: bool

    ghost predicate Valid()
      reads this
    {
      buffer.Length == C.CHUNK_SIZE && usedSize <= C.CHUNK_SIZE
    }

    ghost function View(): C.Chunk
      reads this, buffer
    {
      C.Chunk(buffer[..], usedSize, isOpen)
    }

    constructor ()
      ensures Valid() && fresh(buffer) && View().used == 0 && !isOpen
    {
      buffer := new byte[C.CHUNK_SIZE];
      usedSize, isOpen := 0, false;
    }

    method Reset()
      requires Valid()
      modifies this
      ensures Valid() && View() == C.Reset(old(View()))
    {
      isOpen := false;
      usedSize := 0;
    }

    // The slice handed out starts at `at`; None is a null buffer.
    method Open(size: nat) returns (at: Option<nat>)
      requires Valid()
      modifies this`isOpen
      ensures Valid()
      ensures match C.Open(old(View()), size)
              case None => at.None? && View() == old(View())
              case Some(c) => at == Some(usedSize) && View() == c
    {
      if size > C.CHUNK_SIZE - usedSize {
        return None;
      }
      isOpen := true;
      return Some(usedSize);
    }

    method Write(at: nat, data: seq<byte>)
      requires Valid() && at + |data| <= C.CHUNK_SIZE
      modifies buffer
      ensures Valid() && View() == C.Write(old(View()), at, data)
    {
      for i := 0 to |data|
        invariant buffer[at..at + i] == data[..i]
        invariant buffer[..at] == old(buffer[..at]) && buffer[at + i..] == old(buffer[at + i..])
      {
        buffer[at + i] := data[i];
      }
      assert buffer[..] == buffer[..at] + buffer[at..at + |data|] + buffer[at + |data|..];
    }

    method Close(written: nat)
      requires Valid() && usedSize + written <= C.CHUNK_SIZE
      modifies this
      ensures Valid() && View() == C.Close(old(View()), written)
    {
      isOpen := false;
      usedSize := usedSize + written;
    }
  }
}

/** Send buffers shared between threads: every thread fills slices of its own chunk, slices live as long as somebody
    holds them, and a chunk nobody holds goes back to the pool. */
module SendBuffers {
  import opened Options
  import opened Bytes
  import opened SendChunks

  // A slice is being filled by a thread, or closed with these bytes in it.
  datatype Fill = Filling(thread: nat) | Closed(bytes: seq<byte>)
  datatype Slice = Slice(chunk: nat, at: nat, size: nat, fill: Fill)

  // `local` is each thread's chunk, `filling` the slice it has opened and not closed. Slices nobody holds are gone.
  datatype System = System(
    chunks: seq<Chunk>, pool: seq<nat>, local: map<nat, nat>, filling: map<nat, nat>, slices: map<nat, Slice>,
    next: nat)

  datatype Action =
    | OpenBuffer(thread: nat, size: nat)
    | WriteBuffer(thread: nat, at: nat, data: seq<byte>)
    | CloseBuffer(thread: nat)
    | DropBuffer(slice: nat)
    | EndThread(thread: nat)

  const EMPTY := System([], [], map[], map[], map[], 0)

  // A chunk from the back of the pool, or a new one.
  function Pop(s: System, blank: BlankChunk): (System, nat) {
    if s.pool == [] then (s.(chunks := s.chunks + [blank]), |s.chunks|)
    else (s.(pool := s.pool[..|s.pool| - 1]), s.pool[|s.pool| - 1])
  }

  ghost predicate IsHeld(s: System, c: nat) {
    (exists t :: t in s.local && s.local[t] == c) || (exists i :: i in s.slices && s.slices[i].chunk == c)
  }

  // The last reference is gone: the chunk is reset and pooled.
  ghost function Release(s: System, c: nat): System
    requires c < |s.chunks|
  {
    if IsHeld(s, c) then s else s.(chunks := s.chunks[c := Reset(s.chunks[c])], pool := s.pool + [c])
  }

  // The thread's chunk if it has room, otherwise one from the pool; the old one is released after the new one was
  // taken.
  ghost function TakeChunk(s: System, t: nat, size: nat, blank: BlankChunk): System
    requires t in s.local ==> s.local[t] < |s.chunks|
  {
    if t in s.local && size <= CHUNK_SIZE - s.chunks[s.local[t]].used then s
    else
      var (popped, c) := Pop(s, blank);
      var moved := popped.(local := popped.local[t := c]);
      if t in s.local then Release(moved, s.local[t]) else moved
  }

  ghost function OpenIn(s: System, t: nat, size: nat): Option<System>
    requires t in s.local && s.local[t] < |s.chunks|
  {
    var c := s.local[t];
    match Open(s.chunks[c], size)
    case None => None
    case Some(chunk) =>
      Some(s.(chunks := s.chunks[c := chunk], filling := s.filling[t := s.next],
              slices := s.slices[s.next := Slice(c, s.chunks[c].used, size, Filling(t))], next := s.next + 1))
  }

  ghost predicate Enabled(s: System, a: Action) {
    match a
    case OpenBuffer(t, size) => t !in s.filling && size <= 0xFFFF
    case WriteBuffer(t, at, data) => t in s.filling && s.filling[t] in s.slices
      && at + |data| <= s.slices[s.filling[t]].size
    case CloseBuffer(t) => t in s.filling
    case DropBuffer(i) => i in s.slices && s.slices[i].fill.Closed?
    case EndThread(t) => t !in s.filling && t in s.local
  }

  ghost function Step(s: System, a: Action, blank: BlankChunk): (n: System)
    requires Inv(s) && Enabled(s, a)
    ensures Inv(n)
  {
    match a
    case OpenBuffer(t, size) => OpenNeverFails(s, t, size, blank); OpenStep(s, t, size, blank).value
    case WriteBuffer(t, at, data) => WriteKeepsInv(s, t, at, data); WriteStep(s, t, at, data)
    case CloseBuffer(t) => CloseKeepsInv(s, t); CloseStep(s, t)
    case DropBuffer(i) => DropKeepsInv(s, i); DropStep(s, i)
    case EndThread(t) => EndKeepsInv(s, t); EndStep(s, t)
  }

  // The thread's own reference to its chunk is gone.
  ghost function EndStep(s: System, t: nat): System
    requires Inv(s) && t in s.local
  {
    Release(s.(local := s.local - {t}), s.local[t])
  }

  ghost function WriteStep(s: System, t: nat, at: nat, data: seq<byte>): System
    requires Inv(s) && Enabled(s, WriteBuffer(t, at, data))
  {
    var slice := s.slices[s.filling[t]];
    assert SliceSound(s, s.filling[t]);
    s.(chunks := s.chunks[slice.chunk := Write(s.chunks[slice.chunk], slice.at + at, data)])
  }

  ghost function DropStep(s: System, i: nat): System
    requires Inv(s) && i in s.slices
  {
    assert SliceSound(s, i);
    Release(s.(slices := s.slices - {i}), s.slices[i].chunk)
  }

  ghost function OpenStep(s: System, t: nat, size: nat, blank: BlankChunk): Option<System>
    requires Inv(s) && t !in s.filling
  {
    TakeKeepsInv(s, t, size, blank);
    OpenIn(TakeChunk(s, t, size, blank), t, size)
  }

  // Every caller closes with the size it opened.
  ghost function CloseStep(s: System, t: nat): System
    requires Inv(s) && t in s.filling
  {
    var i := s.filling[t];
    var slice := s.slices[i];
    var chunk := s.chunks[slice.chunk];
    s.(chunks := s.chunks[slice.chunk := Close(chunk, slice.size)], filling := s.filling - {t},
       slices := s.slices[i := slice.(fill := Closed(chunk.bytes[slice.at..slice.at + slice.size]))])
  }

  // ------------------------------------------------------------------------------------------------ invariant

  ghost predicate ChunksSound(s: System) {
    && (forall c | 0 <= c < |s.chunks| :: WellFormed(s.chunks[c]))
    && (forall t | t in s.local :: s.local[t] < |s.chunks|)
    && (forall t, u | t in s.local && u in s.local && t != u :: s.local[t] != s.local[u])
  }

  // A pooled chunk is empty and nobody's.
  ghost predicate PoolSound(s: System) {
    && (forall k | 0 <= k < |s.pool| ::
          s.pool[k] < |s.chunks| && s.chunks[s.pool[k]].used == 0 && !s.chunks[s.pool[k]].isOpen)
    && (forall k, l | 0 <= k < l < |s.pool| :: s.pool[k] != s.pool[l])
    && (forall k, t | 0 <= k < |s.pool| && t in s.local :: s.local[t] != s.pool[k])
    && (forall k, i | 0 <= k < |s.pool| && i in s.slices :: s.slices[i].chunk != s.pool[k])
  }

  // A closed slice lies in the used part of its chunk with its bytes in place; an open one is the first bytes of the
  // free part of its thread's chunk.
  ghost predicate SliceSound(s: System, i: nat)
    requires i in s.slices
  {
    var slice := s.slices[i];
    && i < s.next && slice.chunk < |s.chunks|
    && var chunk := s.chunks[slice.chunk];
       match slice.fill
       case Closed(bytes) =>
         slice.at + slice.size <= chunk.used && chunk.used <= |chunk.bytes|
         && chunk.bytes[slice.at..slice.at + slice.size] == bytes
       case Filling(t) =>
         && slice.at == chunk.used && slice.at + slice.size <= CHUNK_SIZE
         && t in s.filling && s.filling[t] == i && t in s.local && s.local[t] == slice.chunk
  }

  ghost predicate Apart(a: Slice, b: Slice) {
    a.chunk == b.chunk ==> a.at + a.size <= b.at || b.at + b.size <= a.at
  }

  ghost predicate SlicesApart(s: System) {
    forall i, j | i in s.slices && j in s.slices && i != j :: Apart(s.slices[i], s.slices[j])
  }

  ghost predicate Inv(s: System) {
    && ChunksSound(s) && PoolSound(s) && SlicesApart(s)
    && (forall i | i in s.slices :: SliceSound(s, i))
    && (forall t | t in s.filling :: s.filling[t] in s.slices && s.slices[s.filling[t]].fill == Filling(t))
  }

  // ------------------------------------------------------------------------------------------------ steps

  // Releasing a chunk disturbs no slice.
  lemma ReleaseKeepsInv(s: System, c: nat)
    requires Inv(s) && c < |s.chunks| && c !in s.pool
    ensures Inv(Release(s, c))
  {
    if !IsHeld(s, c) {
      var next := Release(s, c);
      forall i | i in next.slices ensures SliceSound(next, i) {
        assert SliceSound(s, i) && s.slices[i].chunk != c;
      }
    }
  }

  // A popped chunk is empty and nobody's, and no longer in the pool.
  lemma PopGivesFree(s: System, blank: BlankChunk)
    requires Inv(s)
    ensures var (popped, c) := Pop(s, blank);
            && Inv(popped) && c < |popped.chunks| && popped.chunks[c].used == 0 && c !in popped.pool
            && popped == s.(chunks := popped.chunks, pool := popped.pool)
            && s.chunks <= popped.chunks && (forall k | k in popped.pool :: k in s.pool)
            && (forall t | t in s.local :: s.local[t] != c) && (forall i | i in s.slices :: s.slices[i].chunk != c)
  {
    if s.pool == [] {
      var grown := s.(chunks := s.chunks + [blank]);
      forall i | i in s.slices ensures SliceSound(grown, i) && s.slices[i].chunk != |s.chunks| {
        assert SliceSound(s, i);
      }
    } else {
      PopPooled(s, blank);
    }
  }

  lemma PopPooled(s: System, blank: BlankChunk)
    requires Inv(s) && s.pool != []
    ensures var (popped, c) := Pop(s, blank);
            && Inv(popped) && c < |s.chunks| && s.chunks[c].used == 0 && c !in popped.pool
            && (forall t | t in s.local :: s.local[t] != c) && (forall i | i in s.slices :: s.slices[i].chunk != c)
  {
    var (popped, c) := Pop(s, blank);
    assert popped.chunks == s.chunks;
    forall i | i in s.slices ensures SliceSound(popped, i) {
      assert SliceSound(s, i);
    }
  }

  // Leaving the old chunk is allowed between slices.
  lemma MoveKeepsSlices(s: System, t: nat, c: nat)
    requires Inv(s) && t !in s.filling
    ensures var moved := s.(local := s.local[t := c]); forall i | i in moved.slices :: SliceSound(moved, i)
  {
    hide PoolSound, ChunksSound, SlicesApart;
    var moved := s.(local := s.local[t := c]);
    forall i | i in moved.slices ensures SliceSound(moved, i) {
      assert SliceSound(s, i);
    }
  }

  lemma MoveKeepsInv(s: System, t: nat, c: nat)
    requires Inv(s) && t !in s.filling && c < |s.chunks| && c !in s.pool
    requires (forall u | u in s.local :: s.local[u] != c) && forall i | i in s.slices :: s.slices[i].chunk != c
    ensures Inv(s.(local := s.local[t := c]))
  {
    MoveKeepsSlices(s, t, c);
    hide SliceSound, Apart;
  }

  lemma TakeKeepsInv(s: System, t: nat, size: nat, blank: BlankChunk)
    requires Inv(s) && t !in s.filling
    ensures var n := TakeChunk(s, t, size, blank);
            && Inv(n) && n.filling == s.filling && n.slices == s.slices && n.next == s.next && t in n.local
            && (size <= CHUNK_SIZE ==> size <= CHUNK_SIZE - n.chunks[n.local[t]].used)
  {
    if !(t in s.local && size <= CHUNK_SIZE - s.chunks[s.local[t]].used) {
      PopGivesFree(s, blank);
      var (popped, c) := Pop(s, blank);
      MoveKeepsInv(popped, t, c);
      var moved := popped.(local := popped.local[t := c]);
      if t in s.local {
        var before := s.local[t];
        assert before !in s.pool;
        ReleaseKeepsInv(moved, before);
        assert c != before;
      }
    }
  }

  lemma OpenKeepsSlices(s: System, t: nat, size: nat)
    requires Inv(s) && t !in s.filling && t in s.local && OpenIn(s, t, size).Some?
    ensures var n := OpenIn(s, t, size).value; forall i | i in n.slices :: SliceSound(n, i)
  {
    hide PoolSound, SlicesApart, Apart;
    var n := OpenIn(s, t, size).value;
    forall i | i in n.slices ensures SliceSound(n, i) {
      if i != s.next {
        assert SliceSound(s, i);
      }
    }
  }

  lemma OpenKeepsApart(s: System, t: nat, size: nat)
    requires Inv(s) && t !in s.filling && t in s.local && OpenIn(s, t, size).Some?
    ensures SlicesApart(OpenIn(s, t, size).value)
  {
    hide PoolSound;
    var n := OpenIn(s, t, size).value;
    forall i | i in s.slices ensures i != s.next && Apart(s.slices[i], n.slices[s.next]) {
      assert SliceSound(s, i);
    }
  }

  lemma OpenKeepsInv(s: System, t: nat, size: nat)
    requires Inv(s) && t !in s.filling && t in s.local && OpenIn(s, t, size).Some?
    ensures Inv(OpenIn(s, t, size).value)
  {
    OpenKeepsSlices(s, t, size);
    OpenKeepsApart(s, t, size);
    hide SlicesApart, Apart, SliceSound;
  }

  lemma WriteKeepsOthers(bytes: seq<byte>, at: nat, data: seq<byte>, lo: nat, hi: nat)
    requires at + |data| <= |bytes| && lo <= hi <= |bytes| && (hi <= at || at + |data| <= lo)
    ensures (bytes[..at] + data + bytes[at + |data|..])[lo..hi] == bytes[lo..hi]
  {
  }

  lemma WriteKeepsInv(s: System, t: nat, at: nat, data: seq<byte>)
    requires Inv(s) && Enabled(s, WriteBuffer(t, at, data))
    ensures Inv(WriteStep(s, t, at, data))
  {
    var mine := s.filling[t];
    assert SliceSound(s, mine);
    var slice := s.slices[mine];
    var n := WriteStep(s, t, at, data);
    SameSizesKeepTables(s, slice.chunk, Write(s.chunks[slice.chunk], slice.at + at, data));
    forall i | i in n.slices ensures SliceSound(n, i) {
      assert SliceSound(s, i);
      WriteKeepsSlice(s, mine, at, data, i);
    }
    assert SlicesApart(n);
  }

  lemma SameSizesKeepTables(s: System, c: nat, chunk: Chunk)
    requires ChunksSound(s) && PoolSound(s) && c < |s.chunks|
    requires WellFormed(chunk) && chunk.used == s.chunks[c].used && chunk.isOpen == s.chunks[c].isOpen
    ensures ChunksSound(s.(chunks := s.chunks[c := chunk])) && PoolSound(s.(chunks := s.chunks[c := chunk]))
  {
  }

  lemma WriteKeepsSlice(s: System, mine: nat, at: nat, data: seq<byte>, i: nat)
    requires mine in s.slices && SliceSound(s, mine) && s.slices[mine].fill.Filling?
          && at + |data| <= s.slices[mine].size
    requires WellFormed(s.chunks[s.slices[mine].chunk]) && i in s.slices && SliceSound(s, i)
    ensures var slice := s.slices[mine];
            SliceSound(s.(chunks := s.chunks[slice.chunk := Write(s.chunks[slice.chunk], slice.at + at, data)]), i)
  {
    var slice, other := s.slices[mine], s.slices[i];
    var chunk := s.chunks[slice.chunk];
    if other.chunk == slice.chunk && other.fill.Closed? {
      WriteKeepsOthers(chunk.bytes, slice.at + at, data, other.at, other.at + other.size);
    }
  }

  lemma CloseKeepsInv(s: System, t: nat)
    requires Inv(s) && t in s.filling
    ensures Inv(CloseStep(s, t))
  {
    assert SliceSound(s, s.filling[t]);
    var n := CloseStep(s, t);
    forall i | i in n.slices ensures SliceSound(n, i) {
      CloseKeepsSlice(s, t, i);
    }
    CloseKeepsApart(s, t);
  }

  lemma CloseKeepsSlice(s: System, t: nat, i: nat)
    requires Inv(s) && t in s.filling && i in s.slices
    ensures i in CloseStep(s, t).slices && SliceSound(CloseStep(s, t), i)
  {
    hide PoolSound;
    assert SliceSound(s, s.filling[t]);
    assert SliceSound(s, i);
  }

  lemma CloseKeepsApart(s: System, t: nat)
    requires Inv(s) && t in s.filling
    ensures SlicesApart(CloseStep(s, t))
  {
    var n := CloseStep(s, t);
    forall i, j | i in n.slices && j in n.slices && i != j ensures Apart(n.slices[i], n.slices[j]) {
      assert Apart(s.slices[i], s.slices[j]);
    }
  }

  lemma DropKeepsInv(s: System, i: nat)
    requires Inv(s) && i in s.slices && s.slices[i].fill.Closed?
    ensures Inv(DropStep(s, i))
  {
    assert SliceSound(s, i);
    var dropped := s.(slices := s.slices - {i});
    forall j | j in dropped.slices ensures SliceSound(dropped, j) {
      assert SliceSound(s, j);
    }
    ReleaseKeepsInv(dropped, s.slices[i].chunk);
  }

  lemma EndKeepsInv(s: System, t: nat)
    requires Inv(s) && t !in s.filling && t in s.local
    ensures Inv(EndStep(s, t))
  {
    var ended := s.(local := s.local - {t});
    forall i | i in ended.slices ensures SliceSound(ended, i) {
      assert SliceSound(s, i);
    }
    assert s.local[t] !in s.pool;
    ReleaseKeepsInv(ended, s.local[t]);
  }

  // Open never hands out a null buffer, and the one it hands out has the size asked for.
  lemma OpenNeverFails(s: System, t: nat, size: nat, blank: BlankChunk)
    requires Inv(s) && t !in s.filling && size <= 0xFFFF
    ensures OpenStep(s, t, size, blank).Some? && Inv(OpenStep(s, t, size, blank).value)
    ensures var n := OpenStep(s, t, size, blank).value;
            && n.filling == s.filling[t := s.next] && n.slices.Keys == s.slices.Keys + {s.next}
            && n.slices[s.next].size == size && n.slices[s.next].fill == Filling(t)
  {
    TakeKeepsInv(s, t, size, blank);
    OpenKeepsInv(TakeChunk(s, t, size, blank), t, size);
    hide Inv, TakeChunk;
  }

  // ------------------------------------------------------------------------------------------------ runs

  // Any threads opening, writing, closing and dropping in any order the calls allow.
  ghost predicate Reaches(s: System, schedule: seq<Action>, blank: BlankChunk, end: System)
    requires Inv(s)
    decreases |schedule|
  {
    if schedule == [] then end == s
    else Enabled(s, schedule[0]) && Reaches(Step(s, schedule[0], blank), schedule[1..], blank, end)
  }

  ghost predicate IsReachable(schedule: seq<Action>, blank: BlankChunk, end: System): (reachable: bool)
    ensures reachable ==> Inv(end)
  {
    StartIsSound();
    if Reaches(EMPTY, schedule, blank, end) then ReachedIsSound(EMPTY, schedule, blank, end); true else false
  }

  lemma StartIsSound()
    ensures Inv(EMPTY)
  {
  }

  lemma {:induction false} ReachedIsSound(s: System, schedule: seq<Action>, blank: BlankChunk, end: System)
    requires Inv(s) && Reaches(s, schedule, blank, end)
    ensures Inv(end)
    decreases |schedule|
  {
    if schedule != [] {
      ReachedIsSound(Step(s, schedule[0], blank), schedule[1..], blank, end);
    }
  }

  ghost predicate BytesInPlace(s: System, i: nat)
    requires i in s.slices && s.slices[i].fill.Closed?
  {
    var slice := s.slices[i];
    && slice.chunk < |s.chunks| && slice.at + slice.size <= |s.chunks[slice.chunk].bytes|
    && s.chunks[slice.chunk].bytes[slice.at..slice.at + slice.size] == slice.fill.bytes
  }

  // In every reachable state: live slices do not overlap, closed ones still hold what was in them when they were
  // closed, a pooled chunk is empty and has no live slice, and a buffer of up to 0xFFFF bytes is never null.
  lemma BuffersAreIsolated(schedule: seq<Action>, blank: BlankChunk, end: System)
    requires IsReachable(schedule, blank, end)
    ensures Inv(end) && SlicesApart(end) && PoolSound(end)
    ensures forall i | i in end.slices && end.slices[i].fill.Closed? :: BytesInPlace(end, i)
    ensures forall t, size | t !in end.filling && size <= 0xFFFF :: OpenStep(end, t, size, blank).Some?
  {
    forall i | i in end.slices && end.slices[i].fill.Closed? ensures BytesInPlace(end, i) {
      assert SliceSound(end, i);
    }
    forall t, size | t !in end.filling && size <= 0xFFFF ensures OpenStep(end, t, size, blank).Some? {
      OpenNeverFails(end, t, size, blank);
    }
  }

  lemma StepKeepsClosedSlice(s: System, a: Action, blank: BlankChunk, i: nat)
    requires Inv(s) && Enabled(s, a)
    requires i in s.slices && s.slices[i].fill.Closed?
    ensures var n := Step(s, a, blank); s.next <= n.next && (i in n.slices ==> n.slices[i] == s.slices[i])
    ensures var n := Step(s, a, blank); forall j | j in n.slices && j < s.next :: j in s.slices
  {
    hide SlicesApart, PoolSound, ChunksSound, Apart;
    match a {
      case OpenBuffer(t, size) =>
        TakeKeepsInv(s, t, size, blank);
      case _ =>
    }
    assert SliceSound(s, i);
  }

  lemma {:induction false} ClosedSliceStays(s: System, schedule: seq<Action>, blank: BlankChunk, end: System, i: nat)
    requires Inv(s) && Reaches(s, schedule, blank, end)
    requires i in s.slices && s.slices[i].fill.Closed? && i in end.slices
    ensures end.slices[i] == s.slices[i] && BytesInPlace(end, i)
    decreases |schedule|
  {
    assert SliceSound(s, i);
    if schedule != [] {
      var n := Step(s, schedule[0], blank);
      StepKeepsClosedSlice(s, schedule[0], blank, i);
      if i in n.slices {
        ClosedSliceStays(n, schedule[1..], blank, end, i);
      } else {
        DroppedStaysDropped(n, schedule[1..], blank, end, i);
      }
    }
  }

  // A slice that was closed and is still held has the same place, and with it the same bytes, at every later time.
  lemma ClosedBytesNeverChange(
    earlier: seq<Action>, s: System, later: seq<Action>, blank: BlankChunk, end: System, i: nat)
    requires IsReachable(earlier, blank, s) && Reaches(s, later, blank, end)
    requires i in s.slices && s.slices[i].fill.Closed? && i in end.slices
    ensures end.slices[i] == s.slices[i] && BytesInPlace(end, i)
  {
    ClosedSliceStays(s, later, blank, end, i);
  }

  lemma {:induction false} DroppedStaysDropped(s: System, schedule: seq<Action>, blank: BlankChunk, end: System, i: nat)
    requires Inv(s) && Reaches(s, schedule, blank, end)
    requires i !in s.slices && i < s.next
    ensures i !in end.slices
    decreases |schedule|
  {
    if schedule != [] {
      StepAddsOnlyNew(s, schedule[0], blank);
      DroppedStaysDropped(Step(s, schedule[0], blank), schedule[1..], blank, end, i);
    }
  }

  lemma StepAddsOnlyNew(s: System, a: Action, blank: BlankChunk)
    requires Inv(s) && Enabled(s, a)
    ensures var n := Step(s, a, blank); s.next <= n.next && forall j | j in n.slices && j < s.next :: j in s.slices
  {
    match a {
      case OpenBuffer(t, size) =>
        TakeKeepsInv(s, t, size, blank);
      case CloseBuffer(t) =>
        assert SliceSound(s, s.filling[t]);
      case _ =>
    }
  }
  // ------------------------------------------------------------------------------------------------ conservation

  ghost predicate InUse(s: System, c: nat) {
    c in s.pool || IsHeld(s, c)
  }

  // No chunk is lost: each is in the pool, or somebody holds it.
  ghost predicate NoLeak(s: System) {
    forall c | 0 <= c < |s.chunks| :: InUse(s, c)
  }

  lemma ReleaseLosesNothing(s: System, c: nat)
    requires c < |s.chunks| && forall d | 0 <= d < |s.chunks| && d != c :: InUse(s, d)
    ensures NoLeak(Release(s, c)) && (!IsHeld(s, c) ==> c in Release(s, c).pool)
  {
    var n := Release(s, c);
    forall d | 0 <= d < |n.chunks| ensures InUse(n, d) {
      if d == c {
        if !IsHeld(s, c) {
          assert n.pool[|s.pool|] == c;
        } else {
          assert n == s;
        }
      } else {
        assert InUse(s, d);
        assert d in s.pool ==> d in n.pool;
        assert IsHeld(n, d) == IsHeld(s, d);
      }
    }
  }

  lemma HeldByThread(s: System, t: nat)
    requires t in s.local
    ensures InUse(s, s.local[t])
  {
  }

  // A thread that goes over to another chunk leaves the rest as they are.
  lemma MoveLosesNothing(s: System, t: nat, c: nat, d: nat)
    requires InUse(s, d) && (t in s.local ==> s.local[t] != d)
    ensures InUse(s.(local := s.local[t := c]), d)
  {
    var moved := s.(local := s.local[t := c]);
    if d !in s.pool {
      if u :| u in s.local && s.local[u] == d {
        assert u in moved.local && moved.local[u] == d;
      } else {
        var i :| i in s.slices && s.slices[i].chunk == d;
        assert i in moved.slices && moved.slices[i].chunk == d;
      }
    }
  }

  lemma PopLosesOnlyOne(s: System, blank: BlankChunk, d: nat)
    requires d < |s.chunks| && InUse(s, d) && d != Pop(s, blank).1
    ensures InUse(Pop(s, blank).0, d)
  {
    var popped := Pop(s, blank).0;
    assert IsHeld(popped, d) == IsHeld(s, d);
    if d in s.pool {
      var k :| 0 <= k < |s.pool| && s.pool[k] == d;
      assert popped.pool[k] == d;
    }
  }

  lemma TakeLosesNothing(s: System, t: nat, size: nat, blank: BlankChunk)
    requires Inv(s) && NoLeak(s) && t !in s.filling
    ensures NoLeak(TakeChunk(s, t, size, blank))
  {
    hide IsHeld, InUse, PoolSound, SliceSound;
    if !(t in s.local && size <= CHUNK_SIZE - s.chunks[s.local[t]].used) {
      PopGivesFree(s, blank);
      var (popped, c) := Pop(s, blank);
      var moved := popped.(local := popped.local[t := c]);
      forall d | 0 <= d < |moved.chunks| && (t in s.local ==> d != s.local[t]) ensures InUse(moved, d) {
        if d == c {
          HeldByThread(moved, t);
        } else {
          PopLosesOnlyOne(s, blank, d);
          MoveLosesNothing(popped, t, c, d);
        }
      }
      if t in s.local {
        ReleaseLosesNothing(moved, s.local[t]);
      }
    }
  }

  // Holding the same chunks is losing none.
  lemma SameHolders(s: System, n: System)
    requires NoLeak(s) && n.pool == s.pool && |n.chunks| == |s.chunks|
    requires forall c | IsHeld(s, c) :: IsHeld(n, c)
    ensures NoLeak(n)
  {
    forall c | 0 <= c < |n.chunks| ensures InUse(n, c) {
      assert InUse(s, c);
    }
  }

  lemma OpenLosesNothing(s: System, t: nat, size: nat)
    requires NoLeak(s) && t in s.local && s.local[t] < |s.chunks| && OpenIn(s, t, size).Some? && s.next !in s.slices
    ensures NoLeak(OpenIn(s, t, size).value)
  {
    var n := OpenIn(s, t, size).value;
    forall c | IsHeld(s, c) ensures IsHeld(n, c) {
      if u :| u in s.local && s.local[u] == c {
        assert u in n.local && n.local[u] == c;
      } else {
        var i :| i in s.slices && s.slices[i].chunk == c;
        assert i in n.slices && n.slices[i].chunk == c;
      }
    }
    SameHolders(s, n);
  }

  lemma CloseLosesNothing(s: System, t: nat)
    requires Inv(s) && NoLeak(s) && t in s.filling
    ensures NoLeak(CloseStep(s, t))
  {
    var n := CloseStep(s, t);
    assert SliceSound(s, s.filling[t]);
    forall c | IsHeld(s, c) ensures IsHeld(n, c) {
      if u :| u in s.local && s.local[u] == c {
        assert u in n.local && n.local[u] == c;
      } else {
        var i :| i in s.slices && s.slices[i].chunk == c;
        assert i in n.slices && n.slices[i].chunk == c;
      }
    }
    SameHolders(s, n);
  }

  // Without its slice, or its thread, a chunk is held by the rest of those who held it.
  lemma DropLosesNothing(s: System, i: nat)
    requires Inv(s) && NoLeak(s) && i in s.slices
    ensures NoLeak(DropStep(s, i))
    ensures !IsHeld(s.(slices := s.slices - {i}), s.slices[i].chunk) ==> s.slices[i].chunk in DropStep(s, i).pool
  {
    assert SliceSound(s, i);
    var dropped := s.(slices := s.slices - {i});
    forall d | 0 <= d < |s.chunks| && d != s.slices[i].chunk ensures InUse(dropped, d) {
      assert InUse(s, d);
      if d !in s.pool {
        if u :| u in s.local && s.local[u] == d {
          assert u in dropped.local && dropped.local[u] == d;
        } else {
          var j :| j in s.slices && s.slices[j].chunk == d;
          assert j in dropped.slices && dropped.slices[j].chunk == d;
        }
      }
    }
    ReleaseLosesNothing(dropped, s.slices[i].chunk);
  }

  lemma EndLosesNothing(s: System, t: nat)
    requires Inv(s) && NoLeak(s) && t in s.local
    ensures NoLeak(EndStep(s, t))
    ensures !IsHeld(s.(local := s.local - {t}), s.local[t]) ==> s.local[t] in EndStep(s, t).pool
  {
    var ended := s.(local := s.local - {t});
    forall d | 0 <= d < |s.chunks| && d != s.local[t] ensures InUse(ended, d) {
      assert InUse(s, d);
      if d !in s.pool {
        if u :| u in s.local && s.local[u] == d {
          assert u in ended.local && ended.local[u] == d;
        } else {
          var j :| j in s.slices && s.slices[j].chunk == d;
          assert j in ended.slices && ended.slices[j].chunk == d;
        }
      }
    }
    ReleaseLosesNothing(ended, s.local[t]);
  }

  lemma StepLosesNothing(s: System, a: Action, blank: BlankChunk)
    requires Inv(s) && NoLeak(s) && Enabled(s, a)
    ensures NoLeak(Step(s, a, blank))
  {
    hide PoolSound, SlicesApart, SliceSound, IsHeld, InUse, NoLeak;
    match a
    case OpenBuffer(t, size) =>
      TakeKeepsInv(s, t, size, blank);
      TakeLosesNothing(s, t, size, blank);
      OpenNeverFails(s, t, size, blank);
      NextIsNew(TakeChunk(s, t, size, blank));
      OpenLosesNothing(TakeChunk(s, t, size, blank), t, size);
    case WriteBuffer(t, at, data) =>
      WriteLosesNothing(s, t, at, data);
    case CloseBuffer(t) => CloseLosesNothing(s, t);
    case DropBuffer(i) => DropLosesNothing(s, i);
    case EndThread(t) => EndLosesNothing(s, t);
  }

  lemma NextIsNew(s: System)
    requires Inv(s)
    ensures s.next !in s.slices
  {
    assert s.next in s.slices ==> SliceSound(s, s.next);
  }

  lemma WriteLosesNothing(s: System, t: nat, at: nat, data: seq<byte>)
    requires Inv(s) && NoLeak(s) && Enabled(s, WriteBuffer(t, at, data))
    ensures NoLeak(WriteStep(s, t, at, data))
  {
    assert SliceSound(s, s.filling[t]);
    SameHolders(s, WriteStep(s, t, at, data));
  }

  lemma {:induction false} RunLosesNothing(s: System, schedule: seq<Action>, blank: BlankChunk, end: System)
    requires Inv(s) && NoLeak(s) && Reaches(s, schedule, blank, end)
    ensures NoLeak(end)
    decreases |schedule|
  {
    if schedule != [] {
      StepLosesNothing(s, schedule[0], blank);
      RunLosesNothing(Step(s, schedule[0], blank), schedule[1..], blank, end);
    }
  }

  // In every reachable state each chunk is in exactly one place: in the pool, or held by a thread or by a slice. So
  // what nobody holds any more is there to be used again.
  lemma EveryChunkIsSomewhere(schedule: seq<Action>, blank: BlankChunk, end: System, c: nat)
    requires IsReachable(schedule, blank, end) && c < |end.chunks|
    ensures c in end.pool <==> !IsHeld(end, c)
  {
    RunLosesNothing(EMPTY, schedule, blank, end);
    assert InUse(end, c);
    if c in end.pool {
      var k :| 0 <= k < |end.pool| && end.pool[k] == c;
    }
  }

  // ------------------------------------------------------------------------------------------------ what is filled in

  ghost predicate HasDraft(s: System, t: nat) {
    && t in s.filling && s.filling[t] in s.slices
    && var slice := s.slices[s.filling[t]];
       slice.chunk < |s.chunks| && slice.at + slice.size <= |s.chunks[slice.chunk].bytes|
  }

  lemma FillingHasDraft(s: System, t: nat)
    requires Inv(s) && t in s.filling
    ensures HasDraft(s, t) && t in s.local && s.slices[s.filling[t]].chunk == s.local[t]
    ensures s.slices[s.filling[t]].fill == Filling(t)
  {
    assert SliceSound(s, s.filling[t]);
  }

  // What a thread has in the slice it is filling.
  ghost function Draft(s: System, t: nat): seq<byte>
    requires HasDraft(s, t)
  {
    var slice := s.slices[s.filling[t]];
    s.chunks[slice.chunk].bytes[slice.at..slice.at + slice.size]
  }

  lemma Spliced(bytes: seq<byte>, lo: nat, hi: nat, at: nat, data: seq<byte>)
    requires lo + at + |data| <= hi <= |bytes|
    ensures (bytes[..lo + at] + data + bytes[lo + at + |data|..])[lo..hi]
         == bytes[lo..hi][..at] + data + bytes[lo..hi][at + |data|..]
  {
  }

  // A write puts its data where it says, and leaves the rest of the slice.
  lemma WriteFillsIn(s: System, t: nat, at: nat, data: seq<byte>)
    requires Inv(s) && Enabled(s, WriteBuffer(t, at, data))
    ensures var n := WriteStep(s, t, at, data);
            && Inv(n) && n.filling == s.filling && HasDraft(s, t) && HasDraft(n, t) && at + |data| <= |Draft(s, t)|
            && Draft(n, t) == Draft(s, t)[..at] + data + Draft(s, t)[at + |data|..]
  {
    WriteKeepsInv(s, t, at, data);
    FillingHasDraft(s, t);
    var slice := s.slices[s.filling[t]];
    Spliced(s.chunks[slice.chunk].bytes, slice.at, slice.at + slice.size, at, data);
    hide Inv;
  }

  // Closing keeps what was filled in.
  lemma CloseSealsTheDraft(s: System, t: nat)
    requires Inv(s) && t in s.filling
    ensures HasDraft(s, t) && s.filling[t] in CloseStep(s, t).slices
    ensures CloseStep(s, t).slices[s.filling[t]].fill == Closed(Draft(s, t))
  {
    FillingHasDraft(s, t);
    hide SlicesApart, PoolSound, ChunksSound;
  }

  predicate IsOf(a: Action, t: nat) {
    (a.WriteBuffer? || a.CloseBuffer?) && a.thread == t
  }

  // The same slice, and the same bytes in its chunk.
  ghost predicate DraftKept(s: System, n: System, t: nat)
    requires HasDraft(s, t)
  {
    var i := s.filling[t];
    && t in n.filling && n.filling[t] == i && i in n.slices && n.slices[i] == s.slices[i]
    && s.slices[i].chunk < |n.chunks| && n.chunks[s.slices[i].chunk].bytes == s.chunks[s.slices[i].chunk].bytes
  }

  lemma KeptIsSame(s: System, n: System, t: nat)
    requires HasDraft(s, t) && DraftKept(s, n, t)
    ensures HasDraft(n, t) && n.filling[t] == s.filling[t] && Draft(n, t) == Draft(s, t)
  {
  }

  // Nobody else touches it.
  lemma OthersKeepTheDraft(s: System, a: Action, blank: BlankChunk, t: nat)
    requires Inv(s) && Enabled(s, a) && t in s.filling && !IsOf(a, t)
    ensures HasDraft(s, t) && DraftKept(s, Step(s, a, blank), t)
  {
    FillingHasDraft(s, t);
    match a
    case OpenBuffer(u, size) => OpenKeepsTheDraft(s, u, size, blank, t);
    case WriteBuffer(u, at, data) => WriteKeepsTheDraft(s, u, at, data, t);
    case CloseBuffer(u) => CloseKeepsTheDraft(s, u, t);
    case DropBuffer(i) => DropKeepsTheDraft(s, i, t);
    case EndThread(u) => EndKeepsTheDraft(s, u, t);
  }

  lemma OpenKeepsTheDraft(s: System, u: nat, size: nat, blank: BlankChunk, t: nat)
    requires Inv(s) && u !in s.filling && size <= 0xFFFF && t in s.filling
    ensures HasDraft(s, t) && OpenStep(s, u, size, blank).Some? && DraftKept(s, OpenStep(s, u, size, blank).value, t)
  {
    FillingHasDraft(s, t);
    OpenNeverFails(s, u, size, blank);
    TakeKeepsInv(s, u, size, blank);
    TakeKeepsBytes(s, u, size, blank, s.local[t]);
    NextIsNew(s);
    hide Inv, IsHeld, TakeChunk, OpenIn;
    var taken := TakeChunk(s, u, size, blank);
    KeptIsSame(s, taken, t);
    OpenInKeepsTheDraft(taken, u, size, t);
  }

  lemma OpenInKeepsTheDraft(s: System, u: nat, size: nat, t: nat)
    requires HasDraft(s, t) && t != u && s.next !in s.slices
    requires u in s.local && s.local[u] < |s.chunks| && OpenIn(s, u, size).Some?
    ensures DraftKept(s, OpenIn(s, u, size).value, t)
  {
  }

  // Resetting a chunk leaves its bytes.
  lemma TakeKeepsBytes(s: System, u: nat, size: nat, blank: BlankChunk, c: nat)
    requires Inv(s) && c < |s.chunks|
    ensures var n := TakeChunk(s, u, size, blank); c < |n.chunks| && n.chunks[c].bytes == s.chunks[c].bytes
  {
    hide PoolSound, SlicesApart, SliceSound, IsHeld;
  }

  lemma WriteKeepsTheDraft(s: System, u: nat, at: nat, data: seq<byte>, t: nat)
    requires Inv(s) && Enabled(s, WriteBuffer(u, at, data)) && t in s.filling && t != u
    ensures HasDraft(s, t) && DraftKept(s, WriteStep(s, u, at, data), t)
  {
    FillingHasDraft(s, t);
    FillingHasDraft(s, u);
    hide PoolSound, SlicesApart, SliceSound;
  }

  lemma CloseKeepsTheDraft(s: System, u: nat, t: nat)
    requires Inv(s) && u in s.filling && t in s.filling && t != u
    ensures HasDraft(s, t) && DraftKept(s, CloseStep(s, u), t)
  {
    FillingHasDraft(s, t);
    FillingHasDraft(s, u);
    hide PoolSound, SlicesApart;
  }

  lemma DropKeepsTheDraft(s: System, i: nat, t: nat)
    requires Inv(s) && i in s.slices && s.slices[i].fill.Closed? && t in s.filling
    ensures HasDraft(s, t) && DraftKept(s, DropStep(s, i), t)
  {
    FillingHasDraft(s, t);
    assert SliceSound(s, i);
    hide PoolSound, SlicesApart, IsHeld;
  }

  lemma EndKeepsTheDraft(s: System, u: nat, t: nat)
    requires Inv(s) && u in s.local && u !in s.filling && t in s.filling
    ensures HasDraft(s, t) && DraftKept(s, EndStep(s, u), t)
  {
    FillingHasDraft(s, t);
    hide PoolSound, SlicesApart, SliceSound, IsHeld;
  }

  lemma {:induction false} DraftStays(s: System, schedule: seq<Action>, blank: BlankChunk, end: System, t: nat)
    requires Inv(s) && Reaches(s, schedule, blank, end) && t in s.filling
    requires forall k | 0 <= k < |schedule| :: !IsOf(schedule[k], t)
    ensures Inv(end) && HasDraft(s, t) && HasDraft(end, t)
    ensures end.filling[t] == s.filling[t] && Draft(end, t) == Draft(s, t)
    decreases |schedule|
  {
    FillingHasDraft(s, t);
    if schedule != [] {
      var n := Step(s, schedule[0], blank);
      OthersKeepTheDraft(s, schedule[0], blank, t);
      KeptIsSame(s, n, t);
      hide Step, Enabled, DraftKept, Draft, Inv;
      DraftStays(n, schedule[1..], blank, end, t);
    }
  }

  // What a thread writes over the whole of its slice is what the slice holds when it is closed, whatever the others do
  // in between; by ClosedBytesNeverChange it holds it from then on.
  lemma WhatIsWrittenIsSent(
    s: System, t: nat, data: seq<byte>, between: seq<Action>, blank: BlankChunk, end: System)
    requires Inv(s) && Enabled(s, WriteBuffer(t, 0, data)) && |data| == s.slices[s.filling[t]].size
    requires Reaches(Step(s, WriteBuffer(t, 0, data), blank), between, blank, end)
    requires forall k | 0 <= k < |between| :: !IsOf(between[k], t)
    ensures Inv(end) && t in end.filling && end.filling[t] == s.filling[t]
    ensures var n := CloseStep(end, t); s.filling[t] in n.slices && n.slices[s.filling[t]].fill == Closed(data)
  {
    WriteFillsIn(s, t, 0, data);
    assert |Draft(s, t)| == |data|;
    DraftStays(WriteStep(s, t, 0, data), between, blank, end, t);
    CloseSealsTheDraft(end, t);
    hide Inv, WriteStep, Reaches;
  }
}
