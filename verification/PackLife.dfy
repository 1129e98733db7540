/** The life of a store: writes, syncs and repacks step by step, and crashes with a reopen, in any order. What
    no crash could lose stays readable for ever, and no reading ever turns into another. */
module PackLife {
  import opened Common
  import opened Bytes
  import opened Frames
  import opened PackIndex
  import opened PackDisk
  import opened PackHistory
  import opened PackSafety

  /** A repack is a `Pack` for each loose artifact that is not packed, a flush, and a `Drop` for each; a reopen
      finds what a crash has left, or all of it. */
  datatype Act<V> = Do(op: Op<V>) | Pack(id: string) | Drop(id: string) | Reopen(crash: Disk)

  /** Every frame is durable and one is filed under `id`. */
  predicate Droppable(d: Disk, id: string) {
    AllDurable(d.segments) && LastBody(FrameList(d), id).Some?
  }

  predicate Packable<V>(c: Codec<V>, d: Disk, id: string) {
    && id in d.loose && c.fromJson(d.loose[id]).Some? && Fits(c, c.fromJson(d.loose[id]).value)
    && LastBody(FrameList(d), id).None? && HexToRaw(id).Ok? && IsLowerHex(id)
  }

  predicate Allowed<V>(c: Codec<V>, d: Disk, act: Act<V>) {
    match act
    case Do(op) => op.Put? ==> Canonical(op.id) && Fits(c, op.value)
    case Pack(id) => Packable(c, d, id)
    case Drop(id) => Droppable(d, id)
    case Reopen(crash) => CrashOf(d, crash)
  }

  /** The frame of a loose artifact. */
  function LooseFrame<V>(c: Codec<V>, d: Disk, id: string): Frame
    requires Packable(c, d, id)
  {
    Frame(HexToRaw(id).value, Body(c, c.fromJson(d.loose[id]).value))
  }

  function After<V>(c: Codec<V>, d: Disk, act: Act<V>): Disk
    requires Allowed(c, d, act)
  {
    match act
    case Do(op) => ApplyOp(c, d, op)
    case Pack(id) => AppendFrame(d, LooseFrame(c, d, id))
    case Drop(id) => Unlink(d, id)
    case Reopen(crash) => Opened(crash)
  }

  // ---- each act keeps the disk sound ----

  lemma OpenedAfterCrash(d: Disk, crash: Disk)
    requires Sound(d) && CrashOf(d, crash)
    ensures Sound(Opened(crash)) && AllDurable(Opened(crash).segments)
    ensures FrameList(Opened(crash)) == FrameList(crash) && FrameList(crash) <= FrameList(d)
  {
    FramesOfRecovered(crash.segments);
    CrashKeepsPrefix(d, crash);
  }

  lemma PutIsAppend<V(!new)>(c: Codec<V>, d: Disk, id: string, v: V)
    requires Lawful(c) && Sound(d) && Canonical(id) && Fits(c, v)
    ensures Written(c, d, id, v) == d || (!Stored(d, id) && HexToRaw(id).Ok?)
    ensures HexToRaw(id).Ok? ==>
              var f := Frame(HexToRaw(id).value, Body(c, v));
              && Legal(f) && HexEncode(f.raw) == id
              && (!Stored(d, id) ==> Written(c, d, id, v) == AppendFrame(d, f))
  {
    if HexToRaw(id).Ok? {
      CanonicalSpelling(id);
    }
  }

  lemma PackIsAppend<V(!new)>(c: Codec<V>, d: Disk, id: string)
    requires Lawful(c) && Sound(d) && Packable(c, d, id)
    ensures Legal(LooseFrame(c, d, id)) && HexEncode(LooseFrame(c, d, id).raw) == id
    ensures DecodeBody(c, LooseFrame(c, d, id).body) == DecodeLoose(c, Some(d.loose[id]))
  {
    SpelledId(id, LooseFrame(c, d, id).raw);
  }

  lemma ActKeepsSound<V(!new)>(c: Codec<V>, d: Disk, act: Act<V>)
    requires Lawful(c) && Sound(d) && Allowed(c, d, act)
    ensures Sound(After(c, d, act))
  {
    match act
    case Do(Flush) => SyncKeepsFrames(d);
    case Do(Put(id, v)) =>
      PutIsAppend(c, d, id, v);
      if Written(c, d, id, v) != d {
        AppendFrameEffect(d, Frame(HexToRaw(id).value, Body(c, v)));
      }
    case Pack(id) =>
      PackIsAppend(c, d, id);
      AppendFrameEffect(d, LooseFrame(c, d, id));
    case Drop(id) => UnlinkKeepsSound(d, id);
    case Reopen(crash) => OpenedAfterCrash(d, crash);
  }

  // ---- what no crash can lose ----

  /** A value that every crash keeps is read now, too. */
  lemma SurvivorIsRead<V>(c: Codec<V>, d: Disk, id: string, r: Result<Option<V>, StoreError>)
    requires Sound(d) && Survives(c, d, id, r)
    ensures ReadOpened(c, d, id) == r
  {
    DurableWithinFrames(d);
    SurvivesOnFrames(c, d, id, r, |FrameList(d)|, LooseFile(d.loose, id));
    assert FrameList(d)[..|FrameList(d)|] == FrameList(d);
    ReadOpenedIsView(c, d, id);
  }

  lemma PutKeepsSurvivor<V(!new)>(c: Codec<V>, d: Disk, put: string, w: V, id: string, v: V)
    requires Lawful(c) && Sound(d) && Canonical(put) && Fits(c, w) && Survives(c, d, id, Ok(Some(v)))
    ensures Survives(c, Written(c, d, put, w), id, Ok(Some(v)))
  {
    PutIsAppend(c, d, put, w);
    if Written(c, d, put, w) != d {
      SurvivorIsRead(c, d, id, Ok(Some(v)));
      ReadOpenedIsView(c, d, id);
      assert put != id;
      var f := Frame(HexToRaw(put).value, Body(c, w));
      ReadyStatesExtend(d, f);
      ExtendingKeepsSurvivors(c, d, AppendFrame(d, f), f, id, Ok(Some(v)));
    }
  }

  lemma ReopenKeepsSurvivor<V>(c: Codec<V>, d: Disk, crash: Disk, id: string, r: Result<Option<V>, StoreError>)
    requires Sound(d) && CrashOf(d, crash)
    ensures Survives(c, d, id, r) ==> Survives(c, Opened(crash), id, r)
  {
    OpenedAfterCrash(d, crash);
    SettledSurvives(c, Opened(crash), id);
    ReadOpenedIsView(c, crash, id);
    ReadOpenedIsView(c, Opened(crash), id);
  }

  /** Whatever is done, an artifact that no crash could lose stays so. */
  lemma ActKeepsSurvivor<V(!new)>(c: Codec<V>, d: Disk, act: Act<V>, id: string, v: V)
    requires Lawful(c) && Sound(d) && Allowed(c, d, act) && Survives(c, d, id, Ok(Some(v)))
    ensures Survives(c, After(c, d, act), id, Ok(Some(v)))
  {
    match act
    case Do(Flush) => FlushKeepsSurvivors(c, d, id, Ok(Some(v)));
    case Do(Put(put, w)) => PutKeepsSurvivor(c, d, put, w, id, v);
    case Pack(packed) =>
      PackIsAppend(c, d, packed);
      ReadyStatesExtend(d, LooseFrame(c, d, packed));
      PackingIsSafe(c, d, d, AppendFrame(d, LooseFrame(c, d, packed)), LooseFrame(c, d, packed), packed,
                    c.fromJson(d.loose[packed]).value);
    case Drop(gone) => UnlinkIsSafe(c, d, d, gone);
    case Reopen(crash) => ReopenKeepsSurvivor(c, d, crash, id, Ok(Some(v)));
  }

  // ---- no reading turns into another ----

  /** Of `id` there is one body in the frames, and its loose file, there or just removed, says the same. */
  ghost predicate Tidy<V>(c: Codec<V>, d: Disk, id: string) {
    var fs := FrameList(d);
    && OneBody(fs, id)
    && (id in d.unlinked ==> LastBody(fs, id).Some?)
    && (LastBody(fs, id).Some? ==>
          && (id in d.loose ==> DecodeLoose(c, Some(d.loose[id])) == DecodeBody(c, LastBody(fs, id).value))
          && (id in d.unlinked ==> DecodeLoose(c, Some(d.unlinked[id])) == DecodeBody(c, LastBody(fs, id).value)))
  }

  predicate OneBody(fs: seq<Frame>, id: string) {
    forall k :: 0 <= k <= |fs| ==> LastBody(fs[..k], id).None? || LastBody(fs[..k], id) == LastBody(fs, id)
  }

  lemma OneBodySnoc(fs: seq<Frame>, f: Frame, id: string)
    requires OneBody(fs, id) && (HexEncode(f.raw) == id ==> LastBody(fs, id).None?)
    ensures OneBody(fs + [f], id)
  {
    LastBodyOfSnoc(fs, f, id);
    assert fs[..|fs|] == fs;
    forall k | 0 <= k <= |fs + [f]|
      ensures LastBody((fs + [f])[..k], id).None? || LastBody((fs + [f])[..k], id) == LastBody(fs + [f], id)
    {
      assert (fs + [f])[..k] == if k <= |fs| then fs[..k] else fs + [f];
    }
  }

  lemma OneBodyPrefix(fs: seq<Frame>, n: nat, id: string)
    requires OneBody(fs, id) && n <= |fs|
    ensures OneBody(fs[..n], id)
  {
    forall k | 0 <= k <= n
      ensures LastBody(fs[..n][..k], id).None? || LastBody(fs[..n][..k], id) == LastBody(fs[..n], id)
    {
      assert fs[..n][..k] == fs[..k];
      if LastBody(fs[..k], id).Some? {
        FrameIsKept(fs, k, n, id);
      }
    }
  }

  /** A frame appended under an id that has none, and agrees with its loose file, if there is one. */
  lemma AppendStaysTidy<V>(c: Codec<V>, d: Disk, f: Frame, id: string)
    requires Sound(d) && Legal(f) && Tidy(c, d, id)
    requires HexEncode(f.raw) == id ==>
               && LastBody(FrameList(d), id).None?
               && (id in d.loose ==> DecodeLoose(c, Some(d.loose[id])) == DecodeBody(c, f.body))
    ensures Tidy(c, AppendFrame(d, f), id)
  {
    AppendFrameEffect(d, f);
    LastBodyOfSnoc(FrameList(d), f, id);
    OneBodySnoc(FrameList(d), f, id);
  }

  lemma ReopenStaysTidy<V>(c: Codec<V>, d: Disk, crash: Disk, id: string)
    requires Sound(d) && Tidy(c, d, id) && CrashOf(d, crash)
    ensures Tidy(c, Opened(crash), id)
  {
    OpenedAfterCrash(d, crash);
    var n := |FrameList(crash)|;
    assert FrameList(crash) == FrameList(d)[..n];
    OneBodyPrefix(FrameList(d), n, id);
  }

  lemma ActStaysTidy<V(!new)>(c: Codec<V>, d: Disk, act: Act<V>, id: string)
    requires Lawful(c) && Sound(d) && Allowed(c, d, act) && Tidy(c, d, id)
    ensures Tidy(c, After(c, d, act), id)
  {
    match act
    case Do(Flush) => SyncKeepsFrames(d);
    case Do(Put(put, w)) =>
      PutIsAppend(c, d, put, w);
      if Written(c, d, put, w) != d {
        AppendStaysTidy(c, d, Frame(HexToRaw(put).value, Body(c, w)), id);
      }
    case Pack(packed) =>
      PackIsAppend(c, d, packed);
      AppendStaysTidy(c, d, LooseFrame(c, d, packed), id);
    case Drop(gone) => UnlinkKeepsSound(d, gone);
    case Reopen(crash) => ReopenStaysTidy(c, d, crash, id);
  }

  /** A crash loses a reading or leaves it; it never turns it into another. */
  lemma CrashLosesOrKeeps<V>(c: Codec<V>, d: Disk, crash: Disk, id: string)
    requires Sound(d) && Tidy(c, d, id) && CrashOf(d, crash)
    ensures ReadOpened(c, crash, id) == ReadOpened(c, d, id) || ReadOpened(c, crash, id) == Ok(None)
  {
    CrashKeepsPrefix(d, crash);
    assert FrameList(crash) == FrameList(d)[..|FrameList(crash)|];
    ReadOpenedIsView(c, crash, id);
    ReadOpenedIsView(c, d, id);
  }

  /** What is offered by a write, if the act is one. */
  function Offer<V>(act: Act<V>, id: string): Option<V> {
    if act.Do? && act.op.Put? && act.op.id == id && HexToRaw(id).Ok? then Some(act.op.value) else None
  }

  /** What one act makes of a reading: a write fills an id that nothing is stored under; a crash may lose it;
      nothing else changes it. */
  lemma ActOnReading<V(!new)>(c: Codec<V>, d: Disk, act: Act<V>, id: string)
    requires Lawful(c) && Sound(d) && Allowed(c, d, act) && Tidy(c, d, id)
    ensures var r, r' := ReadOpened(c, d, id), ReadOpened(c, After(c, d, act), id);
            if act.Reopen? then r' == r || r' == Ok(None)
            else if Offer(act, id).Some? && !Stored(d, id) then r' == Ok(Offer(act, id)) else r' == r
  {
    ReadOpenedIsView(c, d, id);
    match act
    case Do(Flush) =>
      SyncKeepsFrames(d);
      SameFramesSameReadings(c, d, Flushed(d));
    case Do(Put(put, w)) => WrittenEffect(c, d, put, w, id);
    case Pack(packed) =>
      var f := LooseFrame(c, d, packed);
      PackIsAppend(c, d, packed);
      AppendFrameEffect(d, f);
      LastBodyOfSnoc(FrameList(d), f, id);
      ReadOpenedIsView(c, AppendFrame(d, f), id);
    case Drop(gone) =>
      UnlinkKeepsSound(d, gone);
      ReadOpenedIsView(c, Unlink(d, gone), id);
    case Reopen(crash) =>
      CrashLosesOrKeeps(c, d, crash, id);
      OpenedAfterCrash(d, crash);
      ReadOpenedIsView(c, crash, id);
      ReadOpenedIsView(c, Opened(crash), id);
  }

  /** No act turns a reading into another value; only a crash can lose it. */
  lemma ReadingsNeverChange<V(!new)>(c: Codec<V>, d: Disk, act: Act<V>, id: string)
    requires Lawful(c) && Sound(d) && Allowed(c, d, act) && Tidy(c, d, id)
    ensures var r, r' := ReadOpened(c, d, id), ReadOpened(c, After(c, d, act), id);
            && (r.Ok? && r.value.Some? && r'.Ok? && r'.value.Some? ==> r' == r)
            && (r.Ok? && r.value.Some? && r' != r ==> act.Reopen? && r' == Ok(None))
  {
    ActOnReading(c, d, act, id);
    if !Stored(d, id) {
      UnstoredReadsNothing(c, d, id);
    }
  }

  predicate Settles<V>(act: Act<V>) {
    match act
    case Do(Flush) => true
    case Reopen(_) => true
    case _ => false
  }

  /** Something is stored under an id from its first write on. */
  lemma ActOnStored<V(!new)>(c: Codec<V>, d: Disk, act: Act<V>, id: string)
    requires Lawful(c) && Sound(d) && Allowed(c, d, act) && !act.Reopen?
    ensures Stored(After(c, d, act), id) <==> Stored(d, id) || Offer(act, id).Some?
  {
    match act
    case Do(Flush) => SyncKeepsFrames(d);
    case Do(Put(put, w)) => WrittenEffect(c, d, put, w, id);
    case Pack(packed) =>
      PackIsAppend(c, d, packed);
      AppendFrameEffect(d, LooseFrame(c, d, packed));
      LastBodyOfSnoc(FrameList(d), LooseFrame(c, d, packed), id);
    case Drop(gone) => UnlinkKeepsSound(d, gone);
  }

  // ---- whole lives ----

  /** The acts can follow on one another, from `d` on. */
  predicate IsLife<V>(c: Codec<V>, d: Disk, acts: seq<Act<V>>)
    decreases |acts|
  {
    acts != [] ==> Allowed(c, d, acts[0]) && IsLife(c, After(c, d, acts[0]), acts[1..])
  }

  function EndOf<V>(c: Codec<V>, d: Disk, acts: seq<Act<V>>): Disk
    requires IsLife(c, d, acts)
    decreases |acts|
  {
    if acts == [] then d else EndOf(c, After(c, d, acts[0]), acts[1..])
  }

  lemma {:induction false} LifeStaysTidy<V(!new)>(c: Codec<V>, d: Disk, acts: seq<Act<V>>, id: string)
    requires Lawful(c) && Sound(d) && IsLife(c, d, acts) && Tidy(c, d, id)
    ensures Sound(EndOf(c, d, acts)) && Tidy(c, EndOf(c, d, acts), id)
    decreases |acts|
  {
    if acts != [] {
      ActKeepsSound(c, d, acts[0]);
      ActStaysTidy(c, d, acts[0], id);
      LifeStaysTidy(c, After(c, d, acts[0]), acts[1..], id);
    }
  }

  /** What no crash could lose at one time is read, and cannot be lost, at any later time, whatever writes,
      repacks, crashes and reopens come between. */
  lemma {:induction false} SafeForEver<V(!new)>(c: Codec<V>, d: Disk, acts: seq<Act<V>>, id: string, v: V)
    requires Lawful(c) && Sound(d) && IsLife(c, d, acts) && Survives(c, d, id, Ok(Some(v)))
    ensures Survives(c, EndOf(c, d, acts), id, Ok(Some(v)))
    ensures ReadOpened(c, EndOf(c, d, acts), id) == Ok(Some(v))
    decreases |acts|
  {
    if acts == [] {
      SurvivorIsRead(c, d, id, Ok(Some(v)));
    } else {
      ActKeepsSound(c, d, acts[0]);
      ActKeepsSurvivor(c, d, acts[0], id, v);
      SafeForEver(c, After(c, d, acts[0]), acts[1..], id, v);
    }
  }

  /** So whatever is read after a flush or a reopen is read for ever. */
  lemma FlushedForEver<V(!new)>(c: Codec<V>, d: Disk, act: Act<V>, acts: seq<Act<V>>, id: string, v: V)
    requires Lawful(c) && Sound(d) && Tidy(c, d, id) && Allowed(c, d, act) && Settles(act)
    requires IsLife(c, After(c, d, act), acts)
    ensures ReadOpened(c, After(c, d, act), id) == Ok(Some(v)) ==>
              ReadOpened(c, EndOf(c, After(c, d, act), acts), id) == Ok(Some(v))
  {
    if ReadOpened(c, After(c, d, act), id) == Ok(Some(v)) {
      ActKeepsSound(c, d, act);
      ActStaysTidy(c, d, act, id);
      if act.Reopen? {
        OpenedAfterCrash(d, act.crash);
      } else {
        SyncKeepsFrames(d);
      }
      SettledSurvives(c, After(c, d, act), id);
      SafeForEver(c, After(c, d, act), acts, id, v);
    }
  }

  /** The first value offered for `id`. */
  function FirstOffer<V>(acts: seq<Act<V>>, id: string): Option<V> {
    if acts == [] then None
    else if Offer(acts[0], id).Some? then Offer(acts[0], id)
    else FirstOffer(acts[1..], id)
  }

  predicate NoReopen<V>(acts: seq<Act<V>>) {
    forall i :: 0 <= i < |acts| ==> !acts[i].Reopen?
  }

  /** First write wins between reopens, with repacks in between: what is read stays, and an id that nothing
      is stored under reads the first value offered. */
  lemma {:induction false} FirstWriteWinsAmidRepacks<V(!new)>(
      c: Codec<V>, d: Disk, acts: seq<Act<V>>, id: string)
    requires Lawful(c) && Sound(d) && Tidy(c, d, id) && IsLife(c, d, acts) && NoReopen(acts)
    ensures ReadOpened(c, EndOf(c, d, acts), id) ==
            if Stored(d, id) then ReadOpened(c, d, id) else Ok(FirstOffer(acts, id))
    decreases |acts|
  {
    if acts == [] {
      if !Stored(d, id) {
        UnstoredReadsNothing(c, d, id);
      }
    } else {
      ActKeepsSound(c, d, acts[0]);
      ActStaysTidy(c, d, acts[0], id);
      FirstWriteWinsAmidRepacks(c, After(c, d, acts[0]), acts[1..], id);
      ActOnStored(c, d, acts[0], id);
      ActOnReading(c, d, acts[0], id);
    }
  }
}
