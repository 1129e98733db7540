/** Safety of single steps: no step of a write, a flush or a repack lets a crash lose a reading
    that no crash could lose before; segments outgrow the roll size by less than one frame; and
    what happens to ids that are not written in lower case. */
module PackSafety {
  import opened Common
  import opened Bytes
  import opened Frames
  import opened PackIndex
  import opened PackDisk
  import opened PackHistory

  // ---- readings that every crash keeps ----

  /** Whatever a crash leaves of `d`, a store opened on it reads `r` for `id`. */
  ghost predicate Survives<V>(c: Codec<V>, d: Disk, id: string, r: Result<Option<V>, StoreError>) {
    forall crash :: CrashOf(d, crash) ==> ReadOpened(c, crash, id) == r
  }

  /** The contents a crash may leave in the loose file of `id`. */
  predicate MaySee(d: Disk, id: string, file: Option<seq<byte>>) {
    if id in d.loose then file == Some(d.loose[id])
    else file == None || (id in d.unlinked && file == Some(d.unlinked[id]))
  }

  lemma SurvivesOnFrames<V>(
      c: Codec<V>, d: Disk, id: string, r: Result<Option<V>, StoreError>, k: nat, file: Option<seq<byte>>)
    requires Sound(d) && Survives(c, d, id, r)
    requires DurableCount(d.segments) <= k <= |FrameList(d)| && MaySee(d, id, file)
    ensures View(c, FrameList(d)[..k], file, id) == r
  {
    var loose := if id !in d.loose && file.Some? then d.loose[id := file.value] else d.loose;
    var crash := CrashAtFrame(d, k, loose);
    ReadOpenedIsView(c, crash, id);
  }

  lemma SurvivesByFrames<V>(c: Codec<V>, d: Disk, id: string, r: Result<Option<V>, StoreError>)
    requires Sound(d)
    requires forall k, file :: DurableCount(d.segments) <= k <= |FrameList(d)| && MaySee(d, id, file) ==>
               View(c, FrameList(d)[..k], file, id) == r
    ensures Survives(c, d, id, r)
  {
    forall crash | CrashOf(d, crash) ensures ReadOpened(c, crash, id) == r {
      CrashKeepsPrefix(d, crash);
      ReadOpenedIsView(c, crash, id);
      assert MaySee(d, id, LooseFile(crash.loose, id));
      assert FrameList(crash) == FrameList(d)[..|FrameList(crash)|];
    }
  }

  /** `d'` has the loose files and the frames of `d`, and perhaps `f` after them, and loses none of
      the durable frames of `d`: the states a write passes through. */
  predicate Extends(d: Disk, d': Disk, f: Frame) {
    && Sound(d) && Sound(d')
    && d'.loose == d.loose && d'.unlinked == d.unlinked
    && (FrameList(d') == FrameList(d) || FrameList(d') == FrameList(d) + [f])
    && DurableCount(d.segments) <= DurableCount(d'.segments)
  }

  /** Appending a frame keeps every reading that survives, unless the frame is filed under that id
      and says something else. */
  lemma ExtendingKeepsSurvivors<V>(
      c: Codec<V>, d: Disk, d': Disk, f: Frame, id: string, r: Result<Option<V>, StoreError>)
    requires Extends(d, d', f) && Survives(c, d, id, r)
    requires HexEncode(f.raw) == id ==> DecodeBody(c, f.body) == r
    ensures Survives(c, d', id, r)
  {
    DurableWithinFrames(d);
    forall k, file | DurableCount(d'.segments) <= k <= |FrameList(d')| && MaySee(d', id, file)
      ensures View(c, FrameList(d')[..k], file, id) == r
    {
      if k <= |FrameList(d)| {
        assert FrameList(d')[..k] == FrameList(d)[..k];
        SurvivesOnFrames(c, d, id, r, k, file);
      } else {
        assert FrameList(d')[..k] == FrameList(d) + [f];
        assert FrameList(d)[..|FrameList(d)|] == FrameList(d);
        SurvivesOnFrames(c, d, id, r, |FrameList(d)|, file);
        LastBodyOfSnoc(FrameList(d), f, id);
      }
    }
    SurvivesByFrames(c, d', id, r);
  }

  /** Removing the loose file of an id whose frame is durable keeps every reading that survives. */
  lemma UnlinkKeepsSurvivors<V>(c: Codec<V>, d: Disk, gone: string, id: string, r: Result<Option<V>, StoreError>)
    requires Sound(d) && Survives(c, d, id, r)
    requires LastBody(FrameList(d), gone).Some? && DurableCount(d.segments) == |FrameList(d)|
    ensures Sound(Unlink(d, gone)) && Survives(c, Unlink(d, gone), id, r)
  {
    var d' := Unlink(d, gone);
    forall k, file | DurableCount(d'.segments) <= k <= |FrameList(d')| && MaySee(d', id, file)
      ensures View(c, FrameList(d')[..k], file, id) == r
    {
      UnlinkKeepsView(c, d, gone, id, r, file);
      assert FrameList(d')[..k] == FrameList(d);
    }
    SurvivesByFrames(c, d', id, r);
  }

  lemma UnlinkKeepsView<V>(
      c: Codec<V>, d: Disk, gone: string, id: string, r: Result<Option<V>, StoreError>, file: Option<seq<byte>>)
    requires Sound(d) && Survives(c, d, id, r) && MaySee(Unlink(d, gone), id, file)
    requires LastBody(FrameList(d), gone).Some? && DurableCount(d.segments) == |FrameList(d)|
    ensures View(c, FrameList(d), file, id) == r
  {
    var seen := if id == gone then LooseFile(d.loose, id) else file;
    SurvivesOnFrames(c, d, id, r, |FrameList(d)|, seen);
    assert FrameList(d)[..|FrameList(d)|] == FrameList(d);
  }

  /** A valid loose file is safe from every crash as long as no frame is filed under its id. */
  lemma LooseFileSurvives<V>(c: Codec<V>, d: Disk, id: string, v: V)
    requires Sound(d) && id in d.loose && c.fromJson(d.loose[id]) == Some(v)
    requires LastBody(FrameList(d), id).None?
    ensures Survives(c, d, id, Ok(Some(v)))
  {
    forall k, file | DurableCount(d.segments) <= k <= |FrameList(d)| && MaySee(d, id, file)
      ensures View(c, FrameList(d)[..k], file, id) == Ok(Some(v))
    {
      LastBodyConcat(FrameList(d)[..k], FrameList(d)[k..], id);
      assert FrameList(d)[..k] + FrameList(d)[k..] == FrameList(d);
    }
    SurvivesByFrames(c, d, id, Ok(Some(v)));
  }

  /** With all frames durable, and one for every loose file whose removal may be undone, every crash keeps
      every reading. */
  lemma SettledSurvives<V>(c: Codec<V>, d: Disk, id: string)
    requires Sound(d) && AllDurable(d.segments)
    requires id in d.unlinked ==> LastBody(FrameList(d), id).Some?
    ensures Survives(c, d, id, ReadOpened(c, d, id))
  {
    SyncOfDurable(d.segments);
    SyncKeepsFrames(d);
    ReadOpenedIsView(c, d, id);
    forall k, file | DurableCount(d.segments) <= k <= |FrameList(d)| && MaySee(d, id, file)
      ensures View(c, FrameList(d)[..k], file, id) == ReadOpened(c, d, id)
    {
      assert FrameList(d)[..k] == FrameList(d);
    }
    SurvivesByFrames(c, d, id, ReadOpened(c, d, id));
  }

  // ---- a reopen that keeps what is not durable ----

  /** All frames under `id` say `v`. */
  predicate AllSay<V(==)>(c: Codec<V>, fs: seq<Frame>, id: string, v: V) {
    forall i :: 0 <= i < |fs| && HexEncode(fs[i].raw) == id ==> DecodeBody(c, fs[i].body) == Ok(Some(v))
  }

  lemma LastSays<V>(c: Codec<V>, fs: seq<Frame>, id: string, v: V, k: nat)
    requires AllSay(c, fs, id, v) && k <= |fs|
    ensures LastBody(fs[..k], id).Some? ==> DecodeBody(c, LastBody(fs[..k], id).value) == Ok(Some(v))
  {
  }

  /** A process that is killed leaves appended frames for the next one to find, though they were never
      synced. A repack then counts them as packed, has no writer to sync, and removes the loose files. That
      is safe exactly when a frame of the artifact is durable all the same. */
  lemma RepackAfterKillIsSafeIffDurable<V>(c: Codec<V>, d: Disk, id: string, v: V)
    requires Sound(d) && id in d.loose && c.fromJson(d.loose[id]) == Some(v)
    requires AllSay(c, FrameList(d), id, v)
    ensures DurableCount(d.segments) <= |FrameList(d)|
    ensures Survives(c, d, id, Ok(Some(v)))
    ensures Survives(c, Unlink(d, id), id, Ok(Some(v))) <==>
              LastBody(FrameList(d)[..DurableCount(d.segments)], id).Some?
  {
    DurableWithinFrames(d);
    LooseOrFrameSurvives(c, d, id, v);
    if LastBody(FrameList(d)[..DurableCount(d.segments)], id).Some? {
      DurableFrameSurvives(c, d, id, v);
    } else if Survives(c, Unlink(d, id), id, Ok(Some(v))) {
      UnlinkKeepsSound(d, id);
      SurvivesOnFrames(c, Unlink(d, id), id, Ok(Some(v)), DurableCount(d.segments), None);
    }
  }

  lemma LooseOrFrameSurvives<V>(c: Codec<V>, d: Disk, id: string, v: V)
    requires Sound(d) && id in d.loose && c.fromJson(d.loose[id]) == Some(v) && AllSay(c, FrameList(d), id, v)
    ensures Survives(c, d, id, Ok(Some(v)))
  {
    forall k, file | DurableCount(d.segments) <= k <= |FrameList(d)| && MaySee(d, id, file)
      ensures View(c, FrameList(d)[..k], file, id) == Ok(Some(v))
    {
      LastSays(c, FrameList(d), id, v, k);
    }
    SurvivesByFrames(c, d, id, Ok(Some(v)));
  }

  lemma DurableFrameSurvives<V>(c: Codec<V>, d: Disk, id: string, v: V)
    requires Sound(d) && AllSay(c, FrameList(d), id, v) && DurableCount(d.segments) <= |FrameList(d)|
    requires LastBody(FrameList(d)[..DurableCount(d.segments)], id).Some?
    ensures Survives(c, Unlink(d, id), id, Ok(Some(v)))
  {
    var fs, n, d' := FrameList(d), DurableCount(d.segments), Unlink(d, id);
    UnlinkKeepsSound(d, id);
    forall k, file | n <= k <= |fs| && MaySee(d', id, file) ensures View(c, fs[..k], file, id) == Ok(Some(v)) {
      FrameIsKept(fs, n, k, id);
      LastSays(c, fs, id, v, k);
    }
    SurvivesByFrames(c, d', id, Ok(Some(v)));
  }

  lemma FrameIsKept(fs: seq<Frame>, n: nat, k: nat, id: string)
    requires n <= k <= |fs| && LastBody(fs[..n], id).Some?
    ensures LastBody(fs[..k], id).Some?
  {
    assert fs[..k] == fs[..n] + fs[n..k];
    LastBodyConcat(fs[..n], fs[n..k], id);
  }

  /** It happens: with one frame, appended and not synced, a crash after the removal loses the artifact. */
  lemma RepackAfterKillMayLose<V(!new)>(c: Codec<V>, id: string, v: V, file: seq<byte>) returns (crash: Disk)
    requires Lawful(c) && Fits(c, v) && HexToRaw(id).Ok? && IsLowerHex(id) && c.fromJson(file) == Some(v)
    ensures var f := Frame(HexToRaw(id).value, Body(c, v));
            var d := Disk([Segment(Encode(f), 0)], map[id := file], map[]);
            && Sound(d) && ReadOpened(c, d, id) == Ok(Some(v)) && LastBody(FrameList(d), id) == Some(f.body)
            && CrashOf(Unlink(d, id), crash) && ReadOpened(c, crash, id) == Ok(None)
  {
    var f := Frame(HexToRaw(id).value, Body(c, v));
    var d := Disk([Segment(Encode(f), 0)], map[id := file], map[]);
    SpelledId(id, f.raw);
    EncodeOne(f);
    ParseEncoded([f]);
    assert Data(d.segments) == [Encode(f)];
    assert FramesOf([Encode(f)]) == [f] by {
      assert [Encode(f)][..0] == [] && [] + [f] == [f];
    }
    UnlinkKeepsSound(d, id);
    ReadOpenedIsView(c, d, id);
    assert DurableCount(d.segments) == 0 by {
      assert d.segments[..0] == [] && Encode(f)[..0] == [];
    }
    crash := CrashAtFrame(Unlink(d, id), 0, map[]);
    assert FrameList(crash) == [];
    ReadOpenedIsView(c, crash, id);
  }

  lemma FlushedCrash(d: Disk, crash: Disk)
    requires Sound(d) && d.unlinked == map[] && CrashOf(Flushed(d), crash)
    ensures FrameList(crash) == FrameList(d) && crash.loose == d.loose
  {
    SyncKeepsFrames(d);
    CrashKeepsPrefix(Flushed(d), crash);
    CrashKeepsLoose(Flushed(d), crash);
  }

  /** After a flush every crash keeps every reading. */
  lemma FlushMakesSurvivors<V>(c: Codec<V>, d: Disk, id: string)
    requires Sound(d) && d.unlinked == map[]
    ensures Survives(c, Flushed(d), id, ReadOpened(c, d, id))
  {
    forall crash | CrashOf(Flushed(d), crash) ensures ReadOpened(c, crash, id) == ReadOpened(c, d, id) {
      FlushedCrash(d, crash);
      SameFramesSameReadings(c, d, crash);
    }
  }

  // ---- the states a write passes through ----

  lemma ReadyStatesExtend(d: Disk, f: Frame)
    requires Sound(d) && Legal(f)
    ensures Extends(d, d, f)
    ensures Extends(d, Flushed(d), f)
    ensures Extends(d, d.(segments := Ready(d.segments)), f)
    ensures Extends(d, AppendFrame(d, f), f)
  {
    DurableWithinFrames(d);
    SyncKeepsFrames(d);
    CreateKeepsFrames(Flushed(d));
    AppendFrameEffect(d, f);
  }

  /** Every reading that survives a crash in `a` survives one in `b`. */
  ghost predicate Safe<V(!new)>(c: Codec<V>, a: Disk, b: Disk) {
    forall id, r :: Survives(c, a, id, r) ==> Survives(c, b, id, r)
  }

  /** Packing the value of a loose file that has no frame yet, state by state. */
  lemma PackingIsSafe<V(!new)>(c: Codec<V>, start: Disk, d: Disk, d': Disk, f: Frame, id: string, v: V)
    requires Lawful(c) && Safe(c, start, d) && Extends(d, d', f)
    requires HexEncode(f.raw) == id && f.body == Body(c, v)
    requires LastBody(FrameList(d), id).None? && id in d.loose && c.fromJson(d.loose[id]) == Some(v)
    ensures Safe(c, start, d')
  {
    forall x, r | Survives(c, start, x, r) ensures Survives(c, d', x, r) {
      if x == id {
        DurableWithinFrames(d);
        assert FrameList(d)[..|FrameList(d)|] == FrameList(d);
        SurvivesOnFrames(c, d, id, r, |FrameList(d)|, Some(d.loose[id]));
      }
      ExtendingKeepsSurvivors(c, d, d', f, x, r);
    }
  }

  lemma FlushIsSafe<V(!new)>(c: Codec<V>, start: Disk, d: Disk)
    requires Sound(d) && Safe(c, start, d)
    ensures Safe(c, start, Flushed(d))
  {
    forall x, r | Survives(c, start, x, r) ensures Survives(c, Flushed(d), x, r) {
      FlushKeepsSurvivors(c, d, x, r);
    }
  }

  lemma FlushKeepsSurvivors<V>(c: Codec<V>, d: Disk, id: string, r: Result<Option<V>, StoreError>)
    requires Sound(d) && Survives(c, d, id, r)
    ensures Survives(c, Flushed(d), id, r)
  {
    SyncKeepsFrames(d);
    DurableWithinFrames(d);
    var d' := Flushed(d);
    forall k, file | DurableCount(d'.segments) <= k <= |FrameList(d')| && MaySee(d', id, file)
      ensures View(c, FrameList(d')[..k], file, id) == r
    {
      assert MaySee(d, id, file);
      SurvivesOnFrames(c, d, id, r, k, file);
    }
    SurvivesByFrames(c, d', id, r);
  }

  lemma UnlinkKeepsSound(d: Disk, gone: string)
    requires Sound(d)
    ensures Sound(Unlink(d, gone)) && Unlink(d, gone).segments == d.segments
    ensures forall id :: id in Unlink(d, gone).loose <==> id in d.loose && id != gone
    ensures forall id :: id != gone ==> LooseFile(Unlink(d, gone).loose, id) == LooseFile(d.loose, id)
  {
  }

  lemma UnlinkIsSafe<V(!new)>(c: Codec<V>, start: Disk, d: Disk, gone: string)
    requires Sound(d) && AllDurable(d.segments) && Safe(c, start, d)
    requires LastBody(FrameList(d), gone).Some?
    ensures Safe(c, start, Unlink(d, gone))
  {
    SyncOfDurable(d.segments);
    SyncKeepsFrames(d);
    forall x, r | Survives(c, start, x, r) ensures Survives(c, Unlink(d, gone), x, r) {
      UnlinkKeepsSurvivors(c, d, gone, x, r);
    }
  }

  // ---- rolling ----

  /** The last frame of the segment starts below the roll size: it outgrows that size by less than
      one frame. */
  predicate Bounded(s: seq<byte>) {
    var fs := Parse(s);
    fs != [] ==> Offset(fs, |fs| - 1) < SEGMENT_ROLL_BYTES
  }

  predicate RollBounded(segments: seq<Segment>) {
    forall i :: 0 <= i < |segments| ==> Bounded(segments[i].bytes)
  }

  lemma AppendKeepsBounded(s: seq<byte>, f: Frame)
    requires Whole(s) && Legal(f) && |s| < SEGMENT_ROLL_BYTES
    ensures Bounded(s + Encode(f))
  {
    WholeAppend(s, f);
    assert (Parse(s) + [f])[..|Parse(s)|] == Parse(s);
  }

  lemma ReadyIsBounded(d: Disk)
    requires Sound(d) && RollBounded(d.segments)
    ensures var ready := Ready(d.segments);
            var last := ready[|ready| - 1].bytes;
            RollBounded(ready) && Whole(last) && |last| < SEGMENT_ROLL_BYTES
  {
    if !Rolls(d.segments) {
      assert Data(d.segments)[|d.segments| - 1] == d.segments[|d.segments| - 1].bytes;
    }
  }

  /** No write lets a segment grow further once it has reached the roll size. */
  lemma WriteKeepsRollBounded(d: Disk, f: Frame)
    requires Sound(d) && Legal(f) && RollBounded(d.segments)
    ensures RollBounded(AppendFrame(d, f).segments)
  {
    ReadyIsBounded(d);
    var ready := Ready(d.segments);
    AppendKeepsBounded(ready[|ready| - 1].bytes, f);
  }

  lemma CutKeepsBounded(s: seq<byte>, cut: nat)
    requires cut <= |s| && Bounded(s)
    ensures Bounded(EncodeAll(Parse(s[..cut])))
  {
    var fs, gs := Parse(s), Parse(s[..cut]);
    ParseIsIdempotent(s[..cut]);
    ParseAfterCut(s, cut);
    if gs != [] {
      assert gs[..|gs| - 1] == fs[..|fs| - 1][..|gs| - 1];
      EncodeAllMonotone(fs[..|fs| - 1], |gs| - 1);
    }
  }

  /** Nor does a crash and the truncation on open. */
  lemma CrashKeepsRollBounded(d: Disk, crash: Disk)
    requires CrashOf(d, crash) && RollBounded(d.segments)
    ensures RollBounded(Recovered(crash.segments))
  {
    forall i | 0 <= i < |crash.segments| ensures Bounded(Recovered(crash.segments)[i].bytes) {
      var s, cut := d.segments[i].bytes, |crash.segments[i].bytes|;
      assert SegmentSurvives(d.segments[i], crash.segments[i]);
      assert crash.segments[i].bytes == s[..cut];
      CutKeepsBounded(s, cut);
    }
  }

  // ---- ids that are not in lower case ----

  /** A new id's value is read back after a reopen exactly when the id is written in lower case. */
  lemma ReadableAfterReopenIffLowerCase<V(!new)>(c: Codec<V>, d: Disk, id: string, v: V)
    requires Lawful(c) && Sound(d) && Fits(c, v)
    requires HexToRaw(id).Ok? && !Stored(d, id)
    ensures ReadOpened(c, Written(c, d, id, v), id) == Ok(Some(v)) <==> IsLowerHex(id)
  {
    var f := Frame(HexToRaw(id).value, Body(c, v));
    CanonicalSpelling(id);
    AppendFrameEffect(d, f);
    LastBodyOfSnoc(FrameList(d), f, id);
    ReadOpenedIsView(c, Written(c, d, id, v), id);
  }

  /** Otherwise the frame is filed under the lower-case spelling, and replaces what a reopened
      store reads there. */
  lemma OtherSpellingReplacesLowerCase<V(!new)>(c: Codec<V>, d: Disk, id: string, v: V)
    requires Lawful(c) && Sound(d) && Fits(c, v)
    requires HexToRaw(id).Ok? && !Stored(d, id)
    ensures ReadOpened(c, Written(c, d, id, v), HexEncode(HexToRaw(id).value)) == Ok(Some(v))
  {
    var f := Frame(HexToRaw(id).value, Body(c, v));
    CanonicalSpelling(id);
    AppendFrameEffect(d, f);
    LastBodyOfSnoc(FrameList(d), f, HexEncode(f.raw));
    ReadOpenedIsView(c, Written(c, d, id, v), HexEncode(f.raw));
  }

  /** The length field says the frame's length exactly when the body fits it. */
  lemma LengthFieldExactIffFits(f: Frame)
    requires |f.raw| == ID_LEN
    ensures HeadLen(Encode(f)) == ID_LEN + |f.body| <==> ID_LEN + |f.body| < TWO_TO_THE_32
  {
    var n := (ID_LEN + |f.body|) % TWO_TO_THE_32;
    FourBytes();
    LERoundTrip(n, 4);
    assert Encode(f)[..4] == ToLE(n, 4);
  }

  /** The value that the length field of a frame comes to hold. */
  function WrappedLen(f: Frame): nat {
    (ID_LEN + |f.body|) % TWO_TO_THE_32
  }

  /** A scan finds no frame at all where one stands, exactly when its length wraps to less than the smallest
      legal one; whatever follows is not found either. */
  lemma HiddenIffWrappedBelowLeast(f: Frame, tail: seq<byte>)
    requires |f.raw| == ID_LEN
    ensures Parse(Encode(f) + tail) == [] <==> WrappedLen(f) < MIN_FRAME_LEN
  {
    var s, n := Encode(f) + tail, WrappedLen(f);
    FourBytes();
    LERoundTrip(n, 4);
    assert s[..4] == ToLE(n, 4);
    assert |s| >= 4 + ID_LEN + |f.body| && n <= ID_LEN + |f.body|;
    assert StartsWithFrame(s) <==> n >= MIN_FRAME_LEN;
  }

  /** So such a frame hides all that its segment holds from there on. */
  lemma HiddenFrameHidesTheRest(s: seq<byte>, f: Frame, tail: seq<byte>)
    requires Whole(s) && |f.raw| == ID_LEN && WrappedLen(f) < MIN_FRAME_LEN
    ensures Parse(s + (Encode(f) + tail)) == Parse(s)
  {
    ParsedAreLegal(s);
    ParseAfterFrames(Parse(s), Encode(f) + tail);
    HiddenIffWrappedBelowLeast(f, tail);
  }
}
