/** What the pack store's operations do to the disk, and what whole histories of them keep: first
    write wins, a crash leaves the state of some prefix of the writes, and no step of any operation
    lets a crash lose what it could not lose before. */
module PackHistory {
  import opened Common
  import opened Bytes
  import opened Frames
  import opened PackIndex
  import opened PackDisk

  /** Segment size at which a new segment is started. */
  const SEGMENT_ROLL_BYTES := 64 * 1024 * 1024

  // ---- ids ----

  function HexToRaw(id: string): (r: Result<seq<byte>, StoreError>)
    ensures r.Ok? ==> |r.value| == ID_LEN && HexDecode(id) == Some(r.value)
    ensures r == Err(NotHex) <==> HexDecode(id).None?
    ensures r == Err(NotAHash) <==> HexDecode(id).Some? && |HexDecode(id).value| != ID_LEN
  {
    match HexDecode(id)
    case None => Err(NotHex)
    case Some(raw) => if |raw| == ID_LEN then Ok(raw) else Err(NotAHash)
  }

  /** The id is written in lower case, as computed ids are, or is no hash at all. */
  predicate Canonical(id: string) {
    HexToRaw(id).Ok? ==> IsLowerHex(id)
  }

  lemma CanonicalSpelling(id: string)
    requires HexToRaw(id).Ok?
    ensures HexEncode(HexToRaw(id).value) == id <==> Canonical(id)
  {
    HexTextRoundTrip(id);
  }

  // ---- primitive steps ----

  function SyncLast(segments: seq<Segment>): seq<Segment> {
    if segments == [] then [] else segments[|segments| - 1 := Synced(segments[|segments| - 1])]
  }

  function CreateSegment(segments: seq<Segment>): seq<Segment> {
    segments + [Segment([], 0)]
  }

  function AppendLast(segments: seq<Segment>, data: seq<byte>): seq<Segment>
    requires segments != []
  {
    var last := segments[|segments| - 1];
    segments[|segments| - 1 := Segment(last.bytes + data, last.durable)]
  }

  /** The next frame starts a new segment. */
  predicate Rolls(segments: seq<Segment>) {
    segments == [] || |segments[|segments| - 1].bytes| >= SEGMENT_ROLL_BYTES
  }

  /** The segments ready for the next frame: a full one is synced and a new one begun. */
  function Ready(segments: seq<Segment>): (r: seq<Segment>)
    ensures r != []
  {
    if Rolls(segments) then CreateSegment(SyncLast(segments)) else segments
  }

  function AppendFrame(d: Disk, f: Frame): Disk {
    d.(segments := AppendLast(Ready(d.segments), Encode(f)))
  }

  function Flushed(d: Disk): Disk {
    d.(segments := SyncLast(d.segments))
  }

  /** The states the disk passes through while a frame is appended: synced, ready for the frame, written. */
  predicate AppendStep(d: Disk, f: Frame, step: Disk) {
    || step == Flushed(d)
    || step == d.(segments := Ready(d.segments))
    || step == AppendFrame(d, f)
  }

  function Unlink(d: Disk, id: string): Disk {
    if id in d.loose then
      Disk(d.segments, d.loose - {id}, d.unlinked[id := d.loose[id]])
    else d
  }

  lemma SyncKeepsFrames(d: Disk)
    requires Sound(d)
    ensures Sound(Flushed(d)) && AllDurable(Flushed(d).segments)
    ensures Data(Flushed(d).segments) == Data(d.segments)
    ensures DurableCount(Flushed(d).segments) == |FrameList(d)|
  {
    if d.segments != [] {
      var n := |d.segments| - 1;
      var s' := SyncLast(d.segments);
      assert s'[..n] == d.segments[..n];
      forall i | 0 <= i < |s'| ensures s'[i] == Synced(s'[i]) {
        if i < n { assert d.segments[..n][i] == Synced(d.segments[..n][i]); }
      }
      assert Data(s') == Data(d.segments);
      assert d.segments == d.segments[..n] + [d.segments[n]];
      FramesOfSnoc(d.segments[..n], d.segments[n]);
      var all := d.segments[n].bytes;
      assert all[..|all|] == all;
    }
  }

  lemma CreateKeepsFrames(d: Disk)
    requires Sound(d) && AllDurable(d.segments)
    ensures var d' := d.(segments := CreateSegment(d.segments));
            && Sound(d') && Data(d'.segments) == Data(d.segments) + [[]]
            && FrameList(d') == FrameList(d) && DurableCount(d'.segments) == |FrameList(d)|
  {
    var d' := d.(segments := CreateSegment(d.segments));
    assert d'.segments[..|d.segments|] == d.segments;
    assert Data(d'.segments) == Data(d.segments) + [[]];
    IndexAfterRoll(Data(d.segments));
  }

  lemma AppendKeepsDurable(d: Disk, f: Frame)
    requires Sound(d) && d.segments != [] && Legal(f)
    ensures var d' := d.(segments := AppendLast(d.segments, Encode(f)));
            && Sound(d') && FrameList(d') == FrameList(d) + [f]
            && DurableCount(d'.segments) == DurableCount(d.segments)
            && Data(d'.segments) == Data(d.segments)[|d.segments| - 1 := Data(d.segments)[|d.segments| - 1] + Encode(f)]
  {
    var n := |d.segments| - 1;
    var last := d.segments[n];
    var d' := d.(segments := AppendLast(d.segments, Encode(f)));
    assert d'.segments[..n] == d.segments[..n];
    assert Data(d'.segments) == Data(d.segments)[n := last.bytes + Encode(f)];
    IndexAfterAppend(Data(d.segments), Data(d'.segments), f);
    assert (last.bytes + Encode(f))[..last.durable] == last.bytes[..last.durable];
  }

  /** Getting ready for a frame changes no frame, and appending it adds exactly that one. */
  lemma AppendFrameEffect(d: Disk, f: Frame)
    requires Sound(d) && Legal(f)
    ensures Sound(AppendFrame(d, f))
    ensures FrameList(AppendFrame(d, f)) == FrameList(d) + [f]
    ensures DurableCount(d.segments) <= DurableCount(AppendFrame(d, f).segments) <= |FrameList(d)|
  {
    DurableWithinFrames(d);
    SyncKeepsFrames(d);
    CreateKeepsFrames(Flushed(d));
    AppendKeepsDurable(d.(segments := Ready(d.segments)), f);
  }

  lemma DurableWithinFrames(d: Disk)
    requires Sound(d)
    ensures DurableCount(d.segments) <= |FrameList(d)|
  {
    if d.segments != [] {
      var n := |d.segments| - 1;
      assert d.segments == d.segments[..n] + [d.segments[n]];
      FramesOfSnoc(d.segments[..n], d.segments[n]);
      ParseAfterCut(d.segments[n].bytes, d.segments[n].durable);
    }
  }

  // ---- histories ----

  datatype Op<V> = Put(id: string, value: V) | Flush

  predicate Stored(d: Disk, id: string) {
    LastBody(FrameList(d), id).Some? || id in d.loose
  }

  /** `write`: a stored id or a malformed one changes nothing. */
  function Written<V>(c: Codec<V>, d: Disk, id: string, v: V): Disk {
    if Stored(d, id) || HexToRaw(id).Err? then d
    else AppendFrame(d, Frame(HexToRaw(id).value, Body(c, v)))
  }

  function ApplyOp<V>(c: Codec<V>, d: Disk, op: Op<V>): Disk {
    match op
    case Put(id, v) => Written(c, d, id, v)
    case Flush => Flushed(d)
  }

  function Run<V>(c: Codec<V>, d: Disk, ops: seq<Op<V>>): Disk {
    if ops == [] then d else ApplyOp(c, Run(c, d, ops[..|ops| - 1]), ops[|ops| - 1])
  }

  predicate Admissible<V>(c: Codec<V>, ops: seq<Op<V>>) {
    forall i :: 0 <= i < |ops| && ops[i].Put? ==> Canonical(ops[i].id) && Fits(c, ops[i].value)
  }

  /** The reference: the first value a history offers for `id`, if `id` is a hash. */
  function FirstPut<V>(ops: seq<Op<V>>, id: string): Option<V> {
    if ops == [] then None
    else if ops[0].Put? && ops[0].id == id && HexToRaw(id).Ok? then Some(ops[0].value)
    else FirstPut(ops[1..], id)
  }

  /** One write: its id, if new and a hash, now reads the value; every other id reads as before. */
  lemma WrittenEffect<V(!new)>(c: Codec<V>, d: Disk, id: string, v: V, x: string)
    requires Lawful(c) && Sound(d) && Canonical(id) && Fits(c, v)
    ensures Sound(Written(c, d, id, v))
    ensures var fresh' := x == id && !Stored(d, id) && HexToRaw(id).Ok?;
            && ReadOpened(c, Written(c, d, id, v), x) == (if fresh' then Ok(Some(v)) else ReadOpened(c, d, x))
            && (Stored(Written(c, d, id, v), x) <==> fresh' || Stored(d, x))
  {
    var d' := Written(c, d, id, v);
    ReadOpenedIsView(c, d, x);
    ReadOpenedIsView(c, d', x);
    if !Stored(d, id) && HexToRaw(id).Ok? {
      var f := Frame(HexToRaw(id).value, Body(c, v));
      CanonicalSpelling(id);
      AppendFrameEffect(d, f);
      LastBodyOfSnoc(FrameList(d), f, x);
    }
  }

  lemma LastBodyOfSnoc(fs: seq<Frame>, f: Frame, id: string)
    ensures LastBody(fs + [f], id) == if HexEncode(f.raw) == id then Some(f.body) else LastBody(fs, id)
  {
    assert (fs + [f])[..|fs|] == fs;
  }

  lemma FirstPutOfSnoc<V>(ops: seq<Op<V>>, op: Op<V>, id: string)
    ensures FirstPut(ops + [op], id) ==
            if FirstPut(ops, id).Some? then FirstPut(ops, id) else FirstPut([op], id)
  {
    if ops != [] {
      FirstPutOfSnoc(ops[1..], op, id);
      assert (ops + [op])[1..] == ops[1..] + [op];
    } else {
      assert ops + [op] == [op];
    }
  }

  /** The store is a first-write-wins map: after any history an id that was stored before reads as
      before, and any other reads the first value written under it, or nothing. */
  lemma {:induction false} FirstWriteWins<V(!new)>(c: Codec<V>, d: Disk, ops: seq<Op<V>>, id: string)
    requires Lawful(c) && Sound(d) && Admissible(c, ops)
    ensures Sound(Run(c, d, ops))
    ensures ReadOpened(c, Run(c, d, ops), id) ==
            if Stored(d, id) then ReadOpened(c, d, id) else Ok(FirstPut(ops, id))
    ensures Stored(Run(c, d, ops), id) <==> Stored(d, id) || FirstPut(ops, id).Some?
    decreases |ops|
  {
    if ops == [] {
      UnstoredReadsNothing(c, d, id);
    } else {
      var before, op := ops[..|ops| - 1], ops[|ops| - 1];
      AdmissiblePrefix(c, ops, |before|);
      AdmissiblePrefix(c, ops, |ops|);
      FirstWriteWins(c, d, before, id);
      SplitLast(ops);
      FirstPutOfSnoc(before, op, id);
      OpEffect(c, Run(c, d, before), op, id);
    }
  }

  lemma UnstoredReadsNothing<V>(c: Codec<V>, d: Disk, id: string)
    ensures !Stored(d, id) ==> ReadOpened(c, d, id) == Ok(None)
  {
    ReadOpenedIsView(c, d, id);
  }

  lemma OpEffect<V(!new)>(c: Codec<V>, d: Disk, op: Op<V>, id: string)
    requires Lawful(c) && Sound(d) && Admissible(c, [op])
    ensures Sound(ApplyOp(c, d, op))
    ensures ReadOpened(c, ApplyOp(c, d, op), id) ==
            if Stored(d, id) || FirstPut([op], id).None? then ReadOpened(c, d, id) else Ok(FirstPut([op], id))
    ensures Stored(ApplyOp(c, d, op), id) <==> Stored(d, id) || FirstPut([op], id).Some?
  {
    assert [op][0] == op && [op][1..] == [];
    match op
    case Put(x, v) => WrittenEffect(c, d, x, v, id);
    case Flush =>
      SyncKeepsFrames(d);
      SameFramesSameReadings(c, d, Flushed(d));
  }

  /** The number of operations up to the last flush. */
  function LastFlush<V>(ops: seq<Op<V>>): (n: nat)
    ensures n <= |ops|
  {
    if ops == [] then 0 else if ops[|ops| - 1].Flush? then |ops| else LastFlush(ops[..|ops| - 1])
  }

  lemma {:induction false} RunKeepsLoose<V>(c: Codec<V>, d: Disk, ops: seq<Op<V>>)
    ensures Run(c, d, ops).loose == d.loose && Run(c, d, ops).unlinked == d.unlinked
    decreases |ops|
  {
    if ops != [] {
      RunKeepsLoose(c, d, ops[..|ops| - 1]);
    }
  }

  lemma RunIsSound<V(!new)>(c: Codec<V>, d: Disk, ops: seq<Op<V>>)
    requires Lawful(c) && Sound(d) && Admissible(c, ops)
    ensures Sound(Run(c, d, ops))
  {
    FirstWriteWins(c, d, ops, "");
  }

  lemma RunUnrolled<V>(c: Codec<V>, d: Disk, ops: seq<Op<V>>)
    requires ops != []
    ensures Run(c, d, ops) == ApplyOp(c, Run(c, d, ops[..|ops| - 1]), ops[|ops| - 1])
  {
  }

  lemma AdmissiblePrefix<V>(c: Codec<V>, ops: seq<Op<V>>, k: nat)
    requires Admissible(c, ops) && k <= |ops|
    ensures Admissible(c, ops[..k])
    ensures 0 < k ==> Admissible(c, [ops[k - 1]])
  {
  }

  /** A crash in `b` that leaves `n` frames, and misses its newest, could have happened in `a`; the
      operation between them was no flush. */
  ghost predicate Grows(a: Disk, b: Disk, flush: bool, n: nat) {
    && Sound(a) && Sound(b)
    && (DurableCount(b.segments) <= n < |FrameList(b)| ==>
          && !flush && DurableCount(a.segments) <= n <= |FrameList(a)|
          && FrameList(b)[..n] == FrameList(a)[..n])
  }

  lemma {:induction false} CountIsPrefix(disks: seq<Disk>, flush: seq<bool>, m: nat, n: nat) returns (k: nat)
    requires |disks| == |flush| + 1 && m < |disks|
    requires Sound(disks[0]) && AllDurable(disks[0].segments)
    requires forall i :: 0 <= i < |flush| ==> Grows(disks[i], disks[i + 1], flush[i], n)
    requires Sound(disks[m]) && DurableCount(disks[m].segments) <= n <= |FrameList(disks[m])|
    ensures k <= m && FrameList(disks[k]) == FrameList(disks[m])[..n]
    ensures forall i :: k <= i < m ==> !flush[i]
    decreases m
  {
    if n == |FrameList(disks[m])| {
      assert FrameList(disks[m])[..n] == FrameList(disks[m]);
      k := m;
    } else if m == 0 {
      SyncOfDurable(disks[0].segments);
      SyncKeepsFrames(disks[0]);
    } else {
      assert Grows(disks[m - 1], disks[m], flush[m - 1], n);
      k := CountIsPrefix(disks, flush, m - 1, n);
    }
  }

  /** A crash that misses the last operation's frame could have happened before it. */
  lemma StepLeavesCount<V(!new)>(c: Codec<V>, d: Disk, op: Op<V>, n: nat)
    requires Lawful(c) && Sound(d) && Admissible(c, [op]) && Sound(ApplyOp(c, d, op))
    requires DurableCount(ApplyOp(c, d, op).segments) <= n < |FrameList(ApplyOp(c, d, op))|
    ensures op.Put? && DurableCount(d.segments) <= n <= |FrameList(d)|
    ensures FrameList(ApplyOp(c, d, op))[..n] == FrameList(d)[..n]
  {
    assert [op][0] == op;
    match op
    case Flush => SyncKeepsFrames(d);
    case Put(id, v) =>
      if ApplyOp(c, d, op) != d {
        CanonicalSpelling(id);
        AppendFrameEffect(d, Frame(HexToRaw(id).value, Body(c, v)));
      }
  }

  /** Every number of frames a crash may keep is the number some prefix of the history had written,
      and they are the same frames. */
  lemma FrameCountIsPrefix<V(!new)>(c: Codec<V>, d: Disk, ops: seq<Op<V>>, n: nat) returns (k: nat)
    requires Lawful(c) && Sound(d) && AllDurable(d.segments) && Admissible(c, ops)
    requires Sound(Run(c, d, ops))
    requires DurableCount(Run(c, d, ops).segments) <= n <= |FrameList(Run(c, d, ops))|
    ensures LastFlush(ops) <= k <= |ops|
    ensures FrameList(Run(c, d, ops[..k])) == FrameList(Run(c, d, ops))[..n]
  {
    var disks, flush := Disks(c, d, ops), Flushes(ops);
    forall i | 0 <= i < |flush| ensures Grows(disks[i], disks[i + 1], flush[i], n) {
      OpGrows(c, d, ops, i, n);
    }
    assert ops[..|ops|] == ops && disks[0] == d;
    k := CountIsPrefix(disks, flush, |ops|, n);
    LastFlushBefore(ops, k);
  }

  /** The disk before each operation of a history, and after the last. */
  function Disks<V>(c: Codec<V>, d: Disk, ops: seq<Op<V>>): (disks: seq<Disk>)
    ensures |disks| == |ops| + 1 && disks[0] == d
    ensures forall i :: 0 <= i <= |ops| ==> disks[i] == Run(c, d, ops[..i])
  {
    assert ops[..0] == [];
    seq(|ops| + 1, i requires 0 <= i <= |ops| => Run(c, d, ops[..i]))
  }

  function Flushes<V>(ops: seq<Op<V>>): (flush: seq<bool>)
    ensures |flush| == |ops|
    ensures forall i :: 0 <= i < |ops| ==> flush[i] == ops[i].Flush?
  {
    seq(|ops|, i requires 0 <= i < |ops| => ops[i].Flush?)
  }

  lemma OpGrows<V(!new)>(c: Codec<V>, d: Disk, ops: seq<Op<V>>, i: nat, n: nat)
    requires Lawful(c) && Sound(d) && Admissible(c, ops) && i < |ops|
    ensures Grows(Run(c, d, ops[..i]), Run(c, d, ops[..i + 1]), ops[i].Flush?, n)
  {
    AdmissiblePrefix(c, ops, i);
    AdmissiblePrefix(c, ops, i + 1);
    RunIsSound(c, d, ops[..i]);
    RunIsSound(c, d, ops[..i + 1]);
    assert ops[..i + 1][..i] == ops[..i];
    RunUnrolled(c, d, ops[..i + 1]);
    var a, b := Run(c, d, ops[..i]), Run(c, d, ops[..i + 1]);
    if DurableCount(b.segments) <= n < |FrameList(b)| {
      StepLeavesCount(c, a, ops[i], n);
    }
  }

  lemma {:induction false} LastFlushBefore<V>(ops: seq<Op<V>>, k: nat)
    requires k <= |ops| && forall i :: k <= i < |ops| ==> !ops[i].Flush?
    ensures LastFlush(ops) <= k
    decreases |ops|
  {
    if k < |ops| {
      LastFlushBefore(ops[..|ops| - 1], k);
    }
  }

  /** Crash recovery: whenever a store opened on `d` crashes, what is left holds exactly the frames
      of a prefix of its writes, with none missing that was flushed. */
  lemma CrashLeavesPrefix<V(!new)>(c: Codec<V>, d: Disk, ops: seq<Op<V>>, crash: Disk) returns (k: nat)
    requires Lawful(c) && Sound(d) && AllDurable(d.segments) && d.unlinked == map[] && Admissible(c, ops)
    requires CrashOf(Run(c, d, ops), crash)
    ensures LastFlush(ops) <= k <= |ops|
    ensures FrameList(crash) == FrameList(Run(c, d, ops[..k]))
    ensures crash.loose == d.loose
    ensures forall id :: ReadOpened(c, crash, id) == ReadOpened(c, Run(c, d, ops[..k]), id)
    ensures forall id :: Stored(crash, id) == Stored(Run(c, d, ops[..k]), id)
  {
    RunIsSound(c, d, ops);
    CrashKeepsPrefix(Run(c, d, ops), crash);
    k := FrameCountIsPrefix(c, d, ops, |FrameList(crash)|);
    RunKeepsLoose(c, d, ops);
    RunKeepsLoose(c, d, ops[..k]);
    CrashKeepsLoose(Run(c, d, ops), crash);
    SameFramesSameReadings(c, crash, Run(c, d, ops[..k]));
  }

  /** The same of a crash in the middle of a write: in whatever state of it the crash strikes, what is left
      is a prefix of the writes with this one as the last. */
  lemma CrashInsideWriteLeavesPrefix<V(!new)>(
      c: Codec<V>, d: Disk, ops: seq<Op<V>>, id: string, v: V, step: Disk, crash: Disk)
    returns (k: nat)
    requires Lawful(c) && Sound(d) && AllDurable(d.segments) && d.unlinked == map[]
    requires Admissible(c, ops + [Put(id, v)])
    requires HexToRaw(id).Ok? && !Stored(Run(c, d, ops), id)
    requires AppendStep(Run(c, d, ops), Frame(HexToRaw(id).value, Body(c, v)), step) && CrashOf(step, crash)
    ensures LastFlush(ops) <= k <= |ops| + 1
    ensures FrameList(crash) == FrameList(Run(c, d, (ops + [Put(id, v)])[..k])) && crash.loose == d.loose
    ensures forall x :: ReadOpened(c, crash, x) == ReadOpened(c, Run(c, d, (ops + [Put(id, v)])[..k]), x)
  {
    var ops', before := ops + [Put(id, v)], Run(c, d, ops);
    AdmissiblePrefix(c, ops', |ops|);
    assert ops'[..|ops|] == ops && ops'[..|ops'|] == ops';
    RunIsSound(c, d, ops);
    WriteIsAppend(c, d, ops, id, v);
    if step == AppendFrame(before, Frame(HexToRaw(id).value, Body(c, v))) {
      k := CrashLeavesPrefix(c, d, ops', crash);
    } else if step == before {
      k := CrashLeavesPrefix(c, d, ops, crash);
      assert ops'[..k] == ops[..k];
    } else {
      k := |ops|;
      RunKeepsLoose(c, d, ops);
      SyncedCrash(before, step, crash);
      SameFramesSameReadings(c, crash, before);
    }
  }

  /** A write that has synced and not yet appended leaves all frames as they were. */
  lemma SyncedCrash(before: Disk, step: Disk, crash: Disk)
    requires Sound(before) && before.unlinked == map[] && step != before && CrashOf(step, crash)
    requires step == Flushed(before) || step == before.(segments := Ready(before.segments))
    ensures FrameList(crash) == FrameList(before) && crash.loose == before.loose
  {
    SyncKeepsFrames(before);
    CreateKeepsFrames(Flushed(before));
    CrashKeepsPrefix(step, crash);
    CrashKeepsLoose(step, crash);
  }

  lemma WriteIsAppend<V>(c: Codec<V>, d: Disk, ops: seq<Op<V>>, id: string, v: V)
    requires HexToRaw(id).Ok? && !Stored(Run(c, d, ops), id)
    ensures Run(c, d, ops + [Put(id, v)]) == AppendFrame(Run(c, d, ops), Frame(HexToRaw(id).value, Body(c, v)))
  {
    assert (ops + [Put(id, v)])[..|ops|] == ops;
  }

  lemma CrashKeepsLoose(d: Disk, crash: Disk)
    requires CrashOf(d, crash) && d.unlinked == map[]
    ensures crash.loose == d.loose
  {
  }

  lemma SameFramesSameReadings<V>(c: Codec<V>, a: Disk, b: Disk)
    requires FrameList(a) == FrameList(b) && a.loose == b.loose
    ensures forall id :: ReadOpened(c, a, id) == ReadOpened(c, b, id)
    ensures forall id :: Stored(a, id) == Stored(b, id)
  {
    forall id ensures ReadOpened(c, a, id) == ReadOpened(c, b, id) {
      ReadOpenedIsView(c, a, id);
      ReadOpenedIsView(c, b, id);
    }
  }

  /** The disk after `open` has truncated the torn tails. */
  function Opened(d: Disk): Disk {
    d.(segments := Recovered(d.segments))
  }

  /** Writing the whole history again after a crash and a reopen restores every reading. */
  lemma RewritingRestores<V(!new)>(c: Codec<V>, d: Disk, ops: seq<Op<V>>, crash: Disk, id: string)
    requires Lawful(c) && Sound(d) && AllDurable(d.segments) && d.unlinked == map[] && Admissible(c, ops)
    requires CrashOf(Run(c, d, ops), crash)
    ensures ReadOpened(c, Run(c, Opened(crash), ops), id) == ReadOpened(c, Run(c, d, ops), id)
  {
    var k := CrashLeavesPrefix(c, d, ops, crash);
    FramesOfRecovered(crash.segments);
    assert Sound(Opened(crash));
    ReadOpenedIsView(c, crash, id);
    ReadOpenedIsView(c, Opened(crash), id);
    AdmissiblePrefix(c, ops, k);
    FirstWriteWins(c, Opened(crash), ops, id);
    FirstWriteWins(c, d, ops, id);
    FirstWriteWins(c, d, ops[..k], id);
    FirstPutOfPrefix(ops, k, id);
  }

  lemma {:induction false} FirstPutOfPrefix<V>(ops: seq<Op<V>>, k: nat, id: string)
    requires k <= |ops|
    ensures FirstPut(ops[..k], id).Some? ==> FirstPut(ops, id) == FirstPut(ops[..k], id)
    decreases |ops| - k
  {
    if k < |ops| {
      FirstPutOfPrefix(ops, k + 1, id);
      assert ops[..k + 1] == ops[..k] + [ops[k]];
      FirstPutOfSnoc(ops[..k], ops[k], id);
    } else {
      assert ops[..k] == ops;
    }
  }

  lemma SyncOfDurable(segments: seq<Segment>)
    requires AllDurable(segments)
    ensures SyncLast(segments) == segments
  {
  }
}
