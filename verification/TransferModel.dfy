/**
 Chunked file transfer on values: writes at byte offsets into a file that may not exist
 yet, reads of whole chunks, and the state that gates them.
 */
module TransferModel {
  import opened Options
  import opened Numbers

  type Byte = b: int | 0 <= b < 256

  type Bytes = seq<Byte>

  /** A checksum as printed text; the empty text means the sender gave none. */
  type Hash = Bytes -> string

  const DEFAULT_CHUNK_SIZE := 65536

  datatype TransferState = Pending | Active | Paused | Complete | Failed | Cancelled

  datatype Transfer = Transfer(
    state: TransferState,
    size: int,
    chunkSize: int,
    totalChunks: int,
    received: int,
    bytesSent: int)

  function TotalChunks(size: int, chunkSize: int): int
    requires chunkSize != 0
  {
    Quotient(size + chunkSize - 1, chunkSize)
  }

  // ---- Files ----

  /** Writing at an offset past the end leaves a hole of zeros; writing nothing leaves the file as it is. */
  function WriteAt(f: Bytes, offset: nat, data: Bytes): (g: Bytes)
    ensures data != [] ==> |g| == Max(|f|, offset + |data|)
    ensures data == [] ==> g == f
    ensures forall p | 0 <= p < |g| ::
              g[p] == if data != [] && offset <= p < offset + |data| then data[p - offset]
                      else if p < |f| then f[p] else 0
  {
    if data == [] then f
    else seq(Max(|f|, offset + |data|), p requires 0 <= p =>
               if offset <= p < offset + |data| then data[p - offset] else if p < |f| then f[p] else 0)
  }

  function ReadAt(f: Bytes, offset: nat, n: nat): Bytes {
    if offset >= |f| then [] else f[offset..Min(offset + n, |f|)]
  }

  function Existing(file: Option<Bytes>): Bytes {
    if file.Some? then file.value else []
  }

  // ---- Operations ----

  /**
   The new transfer, the new file, and whether the chunk was accepted; `openOk` says whether the
   file could be opened.
   */
  function WriteChunk(h: Hash, t: Transfer, file: Option<Bytes>, index: int, data: Bytes, sum: string, openOk: bool)
    : (Transfer, Option<Bytes>, bool)
  {
    if t.state != Active then (t, file, false)
    else if sum != "" && h(data) != sum then (t, file, false)
    else if !openOk then (t, file, false)
    else if index * t.chunkSize < 0 then (t, Some(Existing(file)), false)
    else
      (t.(received := t.received + 1, bytesSent := t.bytesSent + |data|),
       Some(WriteAt(Existing(file), index * t.chunkSize, data)),
       true)
  }

  /** A chunk and its checksum; a position before the start reads from the start. */
  function ReadChunk(h: Hash, t: Transfer, file: Option<Bytes>, index: int): Option<(Bytes, string)>
    requires t.chunkSize >= 0
  {
    if t.state == Cancelled || file.None? then None
    else
      var data := ReadAt(file.value, Max(index * t.chunkSize, 0), t.chunkSize);
      Some((data, h(data)))
  }

  function Progress(t: Transfer): real {
    if t.totalChunks == 0 then 0.0 else t.received as real / t.totalChunks as real
  }

  // ---- Runs of the receiving side ----

  datatype Op = Write(index: int, data: Bytes, sum: string, openOk: bool) | Finish | Cancel

  function Step(h: Hash, t: Transfer, file: Option<Bytes>, op: Op): (Transfer, Option<Bytes>) {
    match op
    case Write(index, data, sum, openOk) =>
      var r := WriteChunk(h, t, file, index, data, sum, openOk);
      (r.0, r.1)
    case Finish => (t.(state := Complete), file)
    case Cancel => (t.(state := Cancelled), file)
  }

  predicate Accepts(h: Hash, t: Transfer, file: Option<Bytes>, op: Op) {
    op.Write? && WriteChunk(h, t, file, op.index, op.data, op.sum, op.openOk).2
  }

  function Run(h: Hash, t: Transfer, file: Option<Bytes>, ops: seq<Op>): (Transfer, Option<Bytes>)
    decreases |ops|
  {
    if ops == [] then (t, file)
    else Run(h, Step(h, t, file, ops[0]).0, Step(h, t, file, ops[0]).1, ops[1..])
  }

  /** The writes a run accepts, in order. */
  function Accepted(h: Hash, t: Transfer, file: Option<Bytes>, ops: seq<Op>): seq<Op>
    decreases |ops|
  {
    if ops == [] then []
    else
      (if Accepts(h, t, file, ops[0]) then [ops[0]] else [])
      + Accepted(h, Step(h, t, file, ops[0]).0, Step(h, t, file, ops[0]).1, ops[1..])
  }

  function TotalLength(ops: seq<Op>): nat {
    if ops == [] then 0 else (if ops[0].Write? then |ops[0].data| else 0) + TotalLength(ops[1..])
  }

  /** What one operation adds to the accepted writes and to the counters. */
  lemma StepCounts(h: Hash, t: Transfer, file: Option<Bytes>, op: Op)
    ensures var u := Step(h, t, file, op).0;
      if Accepts(h, t, file, op)
      then op.Write? && u.received == t.received + 1 && u.bytesSent == t.bytesSent + |op.data|
      else u.received == t.received && u.bytesSent == t.bytesSent
  {
  }

  lemma AcceptedFirst(h: Hash, t: Transfer, file: Option<Bytes>, ops: seq<Op>)
    requires ops != []
    ensures var rest := Accepted(h, Step(h, t, file, ops[0]).0, Step(h, t, file, ops[0]).1, ops[1..]);
      Accepted(h, t, file, ops) == if Accepts(h, t, file, ops[0]) then [ops[0]] + rest else rest
  {
    var rest := Accepted(h, Step(h, t, file, ops[0]).0, Step(h, t, file, ops[0]).1, ops[1..]);
    assert [] + rest == rest;
  }

  lemma TotalFirst(op: Op, rest: seq<Op>)
    ensures TotalLength([op] + rest) == (if op.Write? then |op.data| else 0) + TotalLength(rest)
  {
    assert ([op] + rest)[1..] == rest;
  }

  /** In every run the two counters are the number and the total length of the accepted chunks. */
  lemma {:induction false} CountersCountAccepted(h: Hash, t: Transfer, file: Option<Bytes>, ops: seq<Op>)
    ensures var u := Run(h, t, file, ops).0;
      && u.received == t.received + |Accepted(h, t, file, ops)|
      && u.bytesSent == t.bytesSent + TotalLength(Accepted(h, t, file, ops))
    decreases |ops|
  {
    if ops != [] {
      var (t1, f1) := Step(h, t, file, ops[0]);
      StepCounts(h, t, file, ops[0]);
      AcceptedFirst(h, t, file, ops);
      TotalFirst(ops[0], Accepted(h, t1, f1, ops[1..]));
      CountersCountAccepted(h, t1, f1, ops[1..]);
    }
  }

  /**
   A rejected chunk changes nothing of the transfer, and nothing of the file but one thing:
   when every check passes and only the offset is before the start, a missing file is created.
   */
  lemma RejectedChunk(h: Hash, t: Transfer, file: Option<Bytes>, index: int, data: Bytes, sum: string, openOk: bool)
    ensures var (u, g, ok) := WriteChunk(h, t, file, index, data, sum, openOk);
      !ok ==>
        && u == t
        && Existing(g) == Existing(file)
        && (g != file <==>
              file.None? && t.state == Active && (sum == "" || h(data) == sum) && openOk && index * t.chunkSize < 0)
  {
  }

  /**
   A chunk is accepted if and only if the transfer is active, the checksum is absent or right,
   the file opens and the offset is not before the start.
   */
  lemma AcceptedIff(h: Hash, t: Transfer, file: Option<Bytes>, index: int, data: Bytes, sum: string, openOk: bool)
    requires t.chunkSize > 0
    ensures WriteChunk(h, t, file, index, data, sum, openOk).2
            <==> t.state == Active && (sum == "" || sum == h(data)) && openOk && index >= 0
  {
    if index >= 0 {
      TimesMonotone(0, index, t.chunkSize);
    } else {
      NegativeOffset(index, t.chunkSize);
    }
  }

  /**
   A chunk is read unless the transfer is cancelled or the file is missing: its bytes are
   those of the file from the chunk's place on, as many as a chunk holds or as there are.
   */
  lemma ReadMeaning(h: Hash, t: Transfer, file: Option<Bytes>, index: nat)
    requires t.chunkSize > 0
    ensures var r, at := ReadChunk(h, t, file, index), index * t.chunkSize;
      && at >= 0
      && (r == None <==> t.state == Cancelled || file == None)
      && (r.Some? ==>
            && r.value.1 == h(r.value.0)
            && |r.value.0| == (if at >= |file.value| then 0 else Min(t.chunkSize, |file.value| - at))
            && forall p | 0 <= p < |r.value.0| :: r.value.0[p] == file.value[at + p])
  {
    TimesMonotone(0, index, t.chunkSize);
  }

  /** A negative index reads the start of the file, as index 0 does. */
  lemma NegativeReadsTheStart(h: Hash, t: Transfer, file: Option<Bytes>, index: int)
    requires t.chunkSize > 0 && index < 0
    ensures ReadChunk(h, t, file, index) == ReadChunk(h, t, file, 0)
  {
    NegativeOffset(index, t.chunkSize);
  }

  /** Progress is the part of the chunks received, and nothing for a transfer without chunks. */
  lemma ProgressMeaning(t: Transfer)
    ensures t.totalChunks != 0 ==> Progress(t) * t.totalChunks as real == t.received as real
    ensures t.totalChunks == 0 ==> Progress(t) == 0.0
  {
  }

  /** Completing and cancelling take effect from any state, the later one over the earlier. */
  lemma LastCallDecides(h: Hash, t: Transfer, file: Option<Bytes>)
    ensures Run(h, t, file, [Finish]) == (t.(state := Complete), file)
    ensures Run(h, t, file, [Cancel]) == (t.(state := Cancelled), file)
    ensures Run(h, t, file, [Finish, Cancel]) == Run(h, t, file, [Cancel])
    ensures Run(h, t, file, [Cancel, Finish]) == Run(h, t, file, [Finish])
  {
    assert [Finish][1..] == [] && [Cancel][1..] == [];
    assert [Finish, Cancel][1..] == [Cancel] && [Cancel, Finish][1..] == [Finish];
  }

  /** Once a transfer is no longer active, no run changes its file or its counters, or makes it active again. */
  lemma {:induction false} InactiveStaysPut(h: Hash, t: Transfer, file: Option<Bytes>, ops: seq<Op>)
    requires t.state != Active
    ensures var (u, g) := Run(h, t, file, ops);
      g == file && u == t.(state := u.state) && u.state != Active
    decreases |ops|
  {
    if ops != [] {
      InactiveStaysPut(h, Step(h, t, file, ops[0]).0, Step(h, t, file, ops[0]).1, ops[1..]);
    }
  }

  // ---- Chunks of a source ----

  /** Chunk i of a source: what reading at its offset returns. */
  function Chunk(src: Bytes, k: nat, i: nat): Bytes {
    ReadAt(src, i * k, k)
  }

  lemma InChunk(p: nat, k: nat, i: nat)
    requires k > 0
    ensures p / k == i <==> i * k <= p < i * k + k
  {
    var q := p / k;
    assert p == q * k + p % k;
    if i < q {
      assert (i + 1) * k <= q * k;
    } else if i > q {
      assert (q + 1) * k <= i * k;
    }
  }

  lemma CeilingBounds(size: nat, k: nat)
    requires size > 0 && k > 0
    ensures var n := TotalChunks(size, k); n >= 1 && n * k - k < size <= n * k
  {
    var n := (size + k - 1) / k;
    InChunk(size + k - 1, k, n);
    assert TotalChunks(size, k) == n;
    assert n != 0;
  }

  /** For a non-empty source, exactly the chunks below the total begin inside it. */
  lemma ChunksCover(size: nat, k: nat, i: nat)
    requires size > 0 && k > 0
    ensures TotalChunks(size, k) >= 1
    ensures i * k < size <==> i < TotalChunks(size, k)
    ensures size <= TotalChunks(size, k) * k
  {
    var n := TotalChunks(size, k);
    CeilingBounds(size, k);
    if i < n {
      TimesMonotone(i, n - 1, k);
      assert (n - 1) * k == n * k - k;
    } else {
      TimesMonotone(n, i, k);
    }
  }

  lemma ChunkBytes(src: Bytes, k: nat, i: nat)
    requires k > 0
    ensures |Chunk(src, k, i)| == Max(0, Min(i * k + k, |src|) - i * k)
    ensures forall p: nat | i * k <= p < i * k + |Chunk(src, k, i)| :: p < |src|
              && Chunk(src, k, i)[p - i * k] == src[p]
    ensures forall p: nat | p < |src| && p / k == i :: i * k <= p < i * k + |Chunk(src, k, i)|
  {
    forall p: nat | p < |src| && p / k == i ensures i * k <= p < i * k + |Chunk(src, k, i)| {
      InChunk(p, k, i);
    }
  }

  // ---- Feeding a source, chunk by chunk, to a receiver ----

  /** The receiver's transfer after being fed the chunks of an open source file in the given order. */
  function Feed(h: Hash, from: Transfer, src: Bytes, order: seq<int>, t: Transfer, file: Option<Bytes>)
    : (Transfer, Option<Bytes>)
    requires from.chunkSize >= 0 && from.state != Cancelled
    decreases |order|
  {
    if order == [] then (t, file)
    else
      var r := FeedOne(h, from, src, order[0], t, file);
      Feed(h, from, src, order[1..], r.0, r.1)
  }

  /** A file that holds the chunks in `done` of src on top of what it held before. */
  ghost predicate Holds(f: Bytes, before: Bytes, src: Bytes, k: nat, done: set<int>)
    requires k > 0
  {
    && |before| <= |f| <= Max(|before|, |src|)
    && (forall p | 0 <= p < |f| && p < |src| && p / k in done :: f[p] == src[p])
    && (forall p | |src| <= p < |f| :: f[p] == before[p])
    && (forall p | 0 <= p < |src| && p / k in done :: p < |f|)
  }

  lemma HoldsChunk(f: Bytes, before: Bytes, src: Bytes, k: nat, done: set<int>, i: nat)
    requires k > 0 && Holds(f, before, src, k, done)
    ensures Holds(WriteAt(f, i * k, Chunk(src, k, i)), before, src, k, done + {i})
  {
    var g := WriteAt(f, i * k, Chunk(src, k, i));
    ChunkBytes(src, k, i);
    forall p | 0 <= p < |src| && p / k in done + {i} ensures p < |g| && g[p] == src[p] {
      if p / k != i {
        assert p < |f|;
      }
    }
  }

  /** The receiver after one chunk is read and written. */
  function FeedOne(h: Hash, from: Transfer, src: Bytes, i: int, t: Transfer, file: Option<Bytes>)
    : (Transfer, Option<Bytes>)
    requires from.chunkSize >= 0 && from.state != Cancelled
  {
    var (data, sum) := ReadChunk(h, from, Some(src), i).value;
    var r := WriteChunk(h, t, file, i, data, sum, true);
    (r.0, r.1)
  }

  lemma FeedOneHolds(h: Hash, from: Transfer, src: Bytes, i: int, t: Transfer, file: Option<Bytes>, before: Bytes,
                     done: set<int>)
    requires from.chunkSize == t.chunkSize > 0 && from.state != Cancelled && t.state == Active
    requires Holds(Existing(file), before, src, t.chunkSize, done)
    ensures var (u, g) := FeedOne(h, from, src, i, t, file);
      && u.state == Active && u.chunkSize == t.chunkSize && g.Some?
      && Holds(Existing(g), before, src, t.chunkSize, if i >= 0 then done + {i} else done)
  {
    if i >= 0 {
      TimesMonotone(0, i, t.chunkSize);
      HoldsChunk(Existing(file), before, src, t.chunkSize, done, i);
    } else {
      NegativeOffset(i, t.chunkSize);
    }
  }

  /** Feeding any order to an active receiver stores every chunk the order names. */
  lemma {:induction false} FeedHolds(h: Hash, from: Transfer, src: Bytes, order: seq<int>, t: Transfer,
                                     file: Option<Bytes>, before: Bytes, done: set<int>)
    requires from.chunkSize == t.chunkSize > 0 && from.state != Cancelled && t.state == Active
    requires Holds(Existing(file), before, src, t.chunkSize, done)
    ensures var (u, g) := Feed(h, from, src, order, t, file);
      && u.state == Active && u.chunkSize == t.chunkSize
      && (order != [] || file.Some? ==> g.Some?)
      && Holds(Existing(g), before, src, t.chunkSize, done + set i | i in order && i >= 0)
    decreases |order|
  {
    if order == [] {
      assert done + (set i | i in order && i >= 0) == done;
    } else {
      var i := order[0];
      var (t1, f1) := FeedOne(h, from, src, i, t, file);
      var now := if i >= 0 then done + {i} else done;
      FeedOneHolds(h, from, src, i, t, file, before, done);
      FeedHolds(h, from, src, order[1..], t1, f1, before, now);
      assert done + (set j | j in order && j >= 0) == now + (set j | j in order[1..] && j >= 0);
    }
  }

  lemma NegativeOffset(i: int, k: nat)
    requires i < 0 && k > 0
    ensures i * k < 0
  {
  }

  /** The order names every chunk of the source. */
  ghost predicate Covers(order: seq<int>, n: int) {
    forall i | 0 <= i < n :: i in order
  }

  /** What the destination held beyond the length of the source. */
  function Tail(before: Bytes, src: Bytes): Bytes {
    if |before| > |src| then before[|src|..] else []
  }

  lemma AllHeld(f: Bytes, before: Bytes, src: Bytes, k: nat, done: set<int>)
    requires src != [] && k > 0 && Holds(f, before, src, k, done)
    requires forall p: nat | p < |src| :: p / k in done
    ensures f == src + Tail(before, src)
  {
    var last: nat := |src| - 1;
    assert last / k in done;
    assert |src| <= |f|;
    assert |f| == Max(|before|, |src|);
  }

  lemma EveryByteIsInAChunk(size: nat, k: nat, p: nat)
    requires k > 0 && p < size
    ensures 0 <= p / k < TotalChunks(size, k)
  {
    InChunk(p, k, p / k);
    ChunksCover(size, k, p / k);
  }

  /**
   The file round trip. Feeding every chunk of a non-empty source, in any order, with any
   repeats and any stray indices, leaves the source, followed by whatever the destination
   already held beyond its length.
   */
  lemma FileRoundTrip(h: Hash, from: Transfer, src: Bytes, order: seq<int>, t: Transfer, file: Option<Bytes>)
    requires src != [] && from.chunkSize == t.chunkSize > 0 && from.state != Cancelled && t.state == Active
    requires Covers(order, TotalChunks(|src|, t.chunkSize))
    ensures Feed(h, from, src, order, t, file).1 == Some(src + Tail(Existing(file), src))
  {
    var k, before := t.chunkSize, Existing(file);
    FeedHolds(h, from, src, order, t, file, before, {});
    var done := {} + set i | i in order && i >= 0;
    forall p: nat | p < |src| ensures p / k in done {
      EveryByteIsInAChunk(|src|, k, p);
    }
    EveryByteIsInAChunk(|src|, k, 0);
    AllHeld(Existing(Feed(h, from, src, order, t, file).1), before, src, k, done);
  }

  /** So the destination ends up equal to the source exactly when it was no longer than the source. */
  lemma RoundTripIff(h: Hash, from: Transfer, src: Bytes, order: seq<int>, t: Transfer, file: Option<Bytes>)
    requires src != [] && from.chunkSize == t.chunkSize > 0 && from.state != Cancelled && t.state == Active
    requires Covers(order, TotalChunks(|src|, t.chunkSize))
    ensures Feed(h, from, src, order, t, file).1 == Some(src) <==> |Existing(file)| <= |src|
  {
    FileRoundTrip(h, from, src, order, t, file);
    var before := Existing(file);
    if |before| > |src| {
      assert |src + Tail(before, src)| == |before|;
    } else {
      assert src + Tail(before, src) == src;
    }
  }

  // ---- Each chunk once ----

  /** The total length of the chunks an order names; a negative index names none. */
  function ChunkLengths(src: Bytes, k: nat, order: seq<int>): nat {
    if order == [] then 0
    else (if order[0] >= 0 then |Chunk(src, k, order[0])| else 0) + ChunkLengths(src, k, order[1..])
  }

  function NonNegative(order: seq<int>): nat {
    if order == [] then 0 else (if order[0] >= 0 then 1 else 0) + NonNegative(order[1..])
  }

  lemma {:induction false} FeedCounts(h: Hash, from: Transfer, src: Bytes, order: seq<int>, t: Transfer,
                                      file: Option<Bytes>)
    requires from.chunkSize == t.chunkSize > 0 && from.state != Cancelled && t.state == Active
    ensures var u := Feed(h, from, src, order, t, file).0;
      && u.received == t.received + NonNegative(order)
      && u.bytesSent == t.bytesSent + ChunkLengths(src, t.chunkSize, order)
      && u.totalChunks == t.totalChunks
    decreases |order|
  {
    if order != [] {
      var i := order[0];
      var (t1, f1) := FeedOne(h, from, src, i, t, file);
      if i >= 0 {
        TimesMonotone(0, i, t.chunkSize);
      } else {
        NegativeOffset(i, t.chunkSize);
      }
      FeedCounts(h, from, src, order[1..], t1, f1);
    }
  }

  ghost predicate EachOnce(order: seq<int>, n: nat) {
    && (forall i | 0 <= i < n :: i in order)
    && (forall i | i in order :: 0 <= i < n)
    && (forall a, b | 0 <= a < b < |order| :: order[a] != order[b])
  }

  lemma {:induction false} Without(src: Bytes, k: nat, order: seq<int>, a: nat)
    requires a < |order|
    ensures var rest := order[..a] + order[a + 1..];
      && NonNegative(order) == NonNegative(rest) + (if order[a] >= 0 then 1 else 0)
      && ChunkLengths(src, k, order) == ChunkLengths(src, k, rest)
          + (if order[a] >= 0 then |Chunk(src, k, order[a])| else 0)
  {
    var rest := order[..a] + order[a + 1..];
    if a == 0 {
      assert rest == order[1..];
    } else {
      Without(src, k, order[1..], a - 1);
      assert rest[1..] == order[1..][..a - 1] + order[1..][a..];
    }
  }

  lemma DropLastIndex(order: seq<int>, n: nat) returns (a: nat)
    requires n > 0 && EachOnce(order, n)
    ensures a < |order| && order[a] == n - 1
    ensures EachOnce(order[..a] + order[a + 1..], n - 1)
  {
    assert n - 1 in order;
    a :| 0 <= a < |order| && order[a] == n - 1;
    var rest := order[..a] + order[a + 1..];
    forall i | 0 <= i < n - 1 ensures i in rest {
      assert i in order;
      var b :| 0 <= b < |order| && order[b] == i;
      assert i == rest[if b < a then b else b - 1];
    }
    forall i | i in rest ensures 0 <= i < n - 1 {
      var b :| 0 <= b < |rest| && rest[b] == i;
      var c := if b < a then b else b + 1;
      assert rest[b] == order[c] && order[c] in order;
      assert order[c] != order[a];
    }
  }

  lemma NextChunk(src: Bytes, k: nat, n: nat)
    requires k > 0 && n > 0
    ensures Min((n - 1) * k, |src|) + |Chunk(src, k, n - 1)| == Min(n * k, |src|)
  {
    ChunkBytes(src, k, n - 1);
    assert (n - 1) * k + k == n * k;
  }

  /** Chunks named once each add up: n of them, covering the first n * k bytes of the source. */
  lemma {:induction false} EachOnceAddsUp(src: Bytes, k: nat, order: seq<int>, n: nat)
    requires k > 0 && EachOnce(order, n)
    ensures NonNegative(order) == n && ChunkLengths(src, k, order) == Min(n * k, |src|)
    decreases n
  {
    assert forall j | 0 <= j < |order| :: order[j] in order;
    if n > 0 {
      var a := DropLastIndex(order, n);
      Without(src, k, order, a);
      EachOnceAddsUp(src, k, order[..a] + order[a + 1..], n - 1);
      NextChunk(src, k, n);
    }
  }

  lemma WholeFraction(t: Transfer)
    requires t.received == t.totalChunks != 0
    ensures Progress(t) == 1.0
  {
    SelfQuotient(t.totalChunks as real);
  }

  lemma SelfQuotient(x: real)
    requires x != 0.0
    ensures x / x == 1.0
  {
  }

  /** Feeding each chunk exactly once counts exactly TotalChunks chunks and exactly the size of the source. */
  lemma EachChunkOnce(h: Hash, from: Transfer, src: Bytes, order: seq<int>, t: Transfer, file: Option<Bytes>)
    requires src != [] && from.chunkSize == t.chunkSize > 0 && from.state != Cancelled && t.state == Active
    requires t.received == 0 && t.bytesSent == 0 && t.totalChunks == TotalChunks(|src|, t.chunkSize)
    requires EachOnce(order, t.totalChunks)
    ensures var u := Feed(h, from, src, order, t, file).0;
      u.received == u.totalChunks && u.bytesSent == |src| && Progress(u) == 1.0
  {
    FeedCounts(h, from, src, order, t, file);
    ChunksCover(|src|, t.chunkSize, 0);
    EachOnceAddsUp(src, t.chunkSize, order, t.totalChunks);
    WholeFraction(Feed(h, from, src, order, t, file).0);
  }

  lemma FractionAboveOne(received: int, total: int)
    requires total > 0
    ensures received as real / total as real <= 1.0 <==> received <= total
  {
    var q := received as real / total as real;
    assert q * total as real == received as real;
  }

  /**
   Progress counts deliveries, not distinct chunks: it stays within 1.0 exactly when no more chunks
   arrive than there are.
   */
  lemma ProgressWithinOne(h: Hash, from: Transfer, src: Bytes, order: seq<int>, t: Transfer, file: Option<Bytes>)
    requires src != [] && from.chunkSize == t.chunkSize > 0 && from.state != Cancelled && t.state == Active
    requires t.received == 0 && t.totalChunks == TotalChunks(|src|, t.chunkSize)
    ensures var u := Feed(h, from, src, order, t, file).0;
      Progress(u) <= 1.0 <==> NonNegative(order) <= t.totalChunks
  {
    FeedCounts(h, from, src, order, t, file);
    ChunksCover(|src|, t.chunkSize, 0);
    FractionAboveOne(NonNegative(order), t.totalChunks);
  }

  // ---- Safety of checked chunks ----

  /** Every write at a proper index claims the checksum of the source's chunk there; the data may be anything. */
  ghost predicate Checked(h: Hash, src: Bytes, k: nat, ops: seq<Op>) {
    forall i | 0 <= i < |ops| :: ops[i].Write? && ops[i].index >= 0 ==> ops[i].sum == h(Chunk(src, k, ops[i].index))
  }

  /** Different data have different checksums, and no checksum is empty. */
  ghost predicate CollisionFree(h: Hash) {
    && (forall x, y | h(x) == h(y) :: x == y)
    && (forall x :: h(x) != "")
  }

  function Indices(ops: seq<Op>): set<int> {
    set op | op in ops && op.Write? :: op.index
  }

  /** An accepted write stores the source's chunk; any other operation leaves what the file holds. */
  lemma CheckedStep(h: Hash, src: Bytes, t: Transfer, file: Option<Bytes>, op: Op, before: Bytes, done: set<int>)
    requires t.chunkSize > 0 && CollisionFree(h) && Checked(h, src, t.chunkSize, [op])
    requires Holds(Existing(file), before, src, t.chunkSize, done)
    ensures Step(h, t, file, op).0.chunkSize == t.chunkSize
    ensures Accepts(h, t, file, op) ==> op.Write?
    ensures Holds(Existing(Step(h, t, file, op).1), before, src, t.chunkSize,
                  if Accepts(h, t, file, op) then done + {op.index} else done)
  {
    if op.Write? && op.index < 0 {
      NegativeOffset(op.index, t.chunkSize);
    }
    if Accepts(h, t, file, op) {
      assert [op][0] == op;
      assert op.data == Chunk(src, t.chunkSize, op.index);
      HoldsChunk(Existing(file), before, src, t.chunkSize, done, op.index);
    }
  }

  lemma IndicesFirst(op: Op, rest: seq<Op>, done: set<int>)
    requires op.Write?
    ensures done + Indices([op] + rest) == done + {op.index} + Indices(rest)
  {
    assert forall o :: o in [op] + rest <==> o == op || o in rest;
  }

  /**
   With collision-free checksums, at every moment of every run the file agrees with the
   source on every chunk accepted so far, whatever data arrived.
   */
  lemma {:induction false} CheckedChunksAgree(h: Hash, src: Bytes, t: Transfer, file: Option<Bytes>, ops: seq<Op>,
                                              before: Bytes, done: set<int>)
    requires t.chunkSize > 0 && CollisionFree(h) && Checked(h, src, t.chunkSize, ops)
    requires Holds(Existing(file), before, src, t.chunkSize, done)
    ensures Holds(Existing(Run(h, t, file, ops).1), before, src, t.chunkSize, done + Indices(Accepted(h, t, file, ops)))
    decreases |ops|
  {
    if ops == [] {
      assert done + Indices([]) == done;
    } else {
      var op := ops[0];
      var (t1, f1) := Step(h, t, file, op);
      CheckedStep(h, src, t, file, op, before, done);
      AcceptedFirst(h, t, file, ops);
      var now := if Accepts(h, t, file, op) then done + {op.index} else done;
      CheckedChunksAgree(h, src, t1, f1, ops[1..], before, now);
      if Accepts(h, t, file, op) {
        IndicesFirst(op, Accepted(h, t1, f1, ops[1..]), done);
      }
    }
  }

  /**
   Whatever the destination held: every byte of every accepted chunk is there and is the
   source's, and the file is no longer than the longer of what it was and the source.
   */
  lemma AcceptedBytesAreTheSources(h: Hash, src: Bytes, t: Transfer, file: Option<Bytes>, ops: seq<Op>, p: nat)
    requires t.chunkSize > 0 && CollisionFree(h) && Checked(h, src, t.chunkSize, ops)
    requires p < |src| && p / t.chunkSize in Indices(Accepted(h, t, file, ops))
    ensures var f := Existing(Run(h, t, file, ops).1);
      p < |f| <= Max(|Existing(file)|, |src|) && f[p] == src[p]
  {
    CheckedChunksAgree(h, src, t, file, ops, Existing(file), {});
    assert {} + Indices(Accepted(h, t, file, ops)) == Indices(Accepted(h, t, file, ops));
  }
}
