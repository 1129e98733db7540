/** The packed artifact store (ekos/crates/artifact/src/pack.rs) over a disk: the index, the
    segment lengths and the append handle are updated in place as the program does it. */
module PackStore {
  import opened Common
  import opened Bytes
  import opened Frames
  import opened PackIndex
  import opened PackDisk
  import opened PackHistory
  import opened PackSafety

  /** The store's directory. Each operation is one step; `trace` holds the state after every step
      so far, the states a crash can strike in. */
  class Device {
    var state: Disk
    ghost var trace: seq<Disk>

    /** The names of files that look like loose artifacts and lie under another prefix than their own. */
    const stray: seq<string>

    constructor (state: Disk, stray: seq<string>)
      ensures this.state == state && trace == [state] && this.stray == stray
    {
      this.state := state;
      this.stray := stray;
      trace := [state];
    }

    /** Open a segment for appending, creating it when it is not there. */
    method OpenAppend(segment: nat)
      requires segment <= |state.segments|
      modifies this
      ensures segment < |old(state).segments| ==> state == old(state) && trace == old(trace)
      ensures segment == |old(state).segments| ==>
                state == old(state).(segments := CreateSegment(old(state).segments)) && trace == old(trace) + [state]
    {
      if segment == |state.segments| {
        state := state.(segments := CreateSegment(state.segments));
        trace := trace + [state];
      }
    }

    method Append(data: seq<byte>)
      requires state.segments != []
      modifies this
      ensures state == old(state).(segments := AppendLast(old(state).segments, data))
      ensures trace == old(trace) + [state]
    {
      state := state.(segments := AppendLast(state.segments, data));
      trace := trace + [state];
    }

    method SyncAll(segment: nat)
      requires segment + 1 == |state.segments|
      modifies this
      ensures state == Flushed(old(state)) && trace == old(trace) + [state]
    {
      state := Flushed(state);
      trace := trace + [state];
    }

    method Truncate(segment: nat, len: nat)
      requires segment < |state.segments| && len <= |state.segments[segment].bytes|
      requires state.segments[segment] == Synced(state.segments[segment])
      modifies this
      ensures state == old(state).(segments := old(state).segments
                [segment := Synced(Segment(old(state).segments[segment].bytes[..len], 0))])
      ensures trace == old(trace) + [state]
    {
      state := state.(segments := state.segments[segment := Synced(Segment(state.segments[segment].bytes[..len], 0))]);
      trace := trace + [state];
    }

    method RemoveLoose(id: string)
      modifies this
      ensures state == Unlink(old(state), id) && trace == old(trace) + [state]
    {
      state := Unlink(state, id);
      trace := trace + [state];
    }

    /** The names found on a walk through the prefix directories: those of the loose files, each once and in
        some order, and the strays. */
    method ListLoose() returns (ids: seq<string>)
      ensures IsListing(ids, stray, state.loose)
    {
      var names := EnumerateSet(state.loose.Keys);
      ids := names + stray;
      assert ids[..|names|] == names && ids[|names|..] == stray;
    }
  }

  ghost predicate IsListing(ids: seq<string>, stray: seq<string>, loose: map<string, seq<byte>>) {
    && |ids| == |loose| + |stray| && ids[|loose|..] == stray
    && Distinct(ids[..|loose|]) && forall id :: id in ids[..|loose|] <==> id in loose
  }

  /** How many of the names are those of loose files. */
  function CountIn(ids: seq<string>, loose: map<string, seq<byte>>): nat {
    if ids == [] then 0
    else CountIn(ids[..|ids| - 1], loose) + if ids[|ids| - 1] in loose then 1 else 0
  }

  lemma {:induction false} CountInSum(a: seq<string>, b: seq<string>, loose: map<string, seq<byte>>)
    ensures CountIn(a + b, loose) == CountIn(a, loose) + CountIn(b, loose)
    decreases |b|
  {
    if b == [] {
      assert a + b == a;
    } else {
      CountInSum(a, b[..|b| - 1], loose);
      assert (a + b)[..|a + b| - 1] == a + b[..|b| - 1];
    }
  }

  lemma CountInNext(ids: seq<string>, i: nat, loose: map<string, seq<byte>>)
    requires i < |ids|
    ensures CountIn(ids[..i + 1], loose) == CountIn(ids[..i], loose) + if ids[i] in loose then 1 else 0
  {
    assert ids[..i + 1][..i] == ids[..i];
  }

  /** How many names of loose files not in the index there are, each counted at its first place. */
  function NewIn(ids: seq<string>, loose: map<string, seq<byte>>, index: Index): nat {
    if ids == [] then 0
    else
      var front, last := ids[..|ids| - 1], ids[|ids| - 1];
      NewIn(front, loose, index) + if last in loose && last !in index && last !in front then 1 else 0
  }

  /** What a repack has counted when the first `i` names are seen to. */
  ghost predicate Counted(ids: seq<string>, i: nat, loose: map<string, seq<byte>>, index: Index, migrated: nat,
                          already: nat)
  {
    i <= |ids| && migrated + already == CountIn(ids[..i], loose) && migrated == NewIn(ids[..i], loose, index)
  }

  lemma CountedNext(ids: seq<string>, i: nat, loose: map<string, seq<byte>>, index: Index, migrated: nat, already: nat,
                    packed: Option<bool>)
    requires i < |ids| && Counted(ids, i, loose, index, migrated, already)
    requires packed.Some? <==> ids[i] in loose
    requires packed.Some? ==> (packed.value <==> ids[i] !in index && ids[i] !in ids[..i])
    ensures Counted(ids, i + 1, loose, index, migrated + if packed == Some(true) then 1 else 0,
                    already + if packed == Some(false) then 1 else 0)
  {
    CountInNext(ids, i, loose);
    assert ids[..i + 1][..i] == ids[..i];
  }

  lemma {:induction false} NewInCounts(ids: seq<string>, loose: map<string, seq<byte>>, index: Index)
    ensures NewIn(ids, loose, index) == |set x | x in ids && x in loose && x !in index|
  {
    if ids != [] {
      var front, last := ids[..|ids| - 1], ids[|ids| - 1];
      NewInCounts(front, loose, index);
      assert ids == front + [last];
      var before := set x | x in front && x in loose && x !in index;
      var now := set x | x in ids && x in loose && x !in index;
      assert forall x :: x in ids <==> x in front || x == last;
      if last in loose && last !in index && last !in front {
        assert last !in before && now == before + {last};
      } else {
        assert now == before;
      }
    }
  }

  /** At the end of a repack: how many artifacts were new, and how many names those of loose files. */
  lemma CountedAll(ids: seq<string>, stray: seq<string>, loose: map<string, seq<byte>>, index: Index, migrated: nat,
                   already: nat)
    requires IsListing(ids, stray, loose) && Counted(ids, |ids|, loose, index, migrated, already)
    ensures migrated == |loose.Keys - index.Keys|
    ensures migrated + already == |loose| + CountIn(stray, loose)
  {
    CountListing(ids, stray, loose);
    NewInCounts(ids, loose, index);
    assert ids[..|ids|] == ids;
    assert (set x | x in ids && x in loose && x !in index) == loose.Keys - index.Keys;
  }

  lemma {:induction false} CountAllIn(ids: seq<string>, loose: map<string, seq<byte>>)
    requires forall id :: id in ids ==> id in loose
    ensures CountIn(ids, loose) == |ids|
  {
    if ids != [] {
      CountAllIn(ids[..|ids| - 1], loose);
    }
  }

  lemma ListingNames(ids: seq<string>, stray: seq<string>, loose: map<string, seq<byte>>)
    requires IsListing(ids, stray, loose)
    ensures forall id :: id in ids <==> id in loose || id in stray
  {
    assert ids == ids[..|loose|] + stray;
  }

  /** A listing counts each loose file, and again every stray that bears the name of one. */
  lemma CountListing(ids: seq<string>, stray: seq<string>, loose: map<string, seq<byte>>)
    requires IsListing(ids, stray, loose)
    ensures CountIn(ids, loose) == |loose| + CountIn(stray, loose)
    ensures forall id :: id in ids <==> id in loose || id in stray
  {
    ListingNames(ids, stray, loose);
    assert ids == ids[..|loose|] + stray;
    CountAllIn(ids[..|loose|], loose);
    CountInSum(ids[..|loose|], stray, loose);
  }

  method EnumerateSet(s: set<string>) returns (ids: seq<string>)
    ensures Distinct(ids) && |ids| == |s|
    ensures forall id :: id in ids <==> id in s
  {
    ids := [];
    var rest := s;
    while rest != {}
      invariant Distinct(ids) && |ids| + |rest| == |s|
      invariant forall id :: id in s <==> id in rest || id in ids
      invariant forall id :: id in rest ==> id !in ids
      decreases rest
    {
      var id :| id in rest;
      ids := ids + [id];
      rest := rest - {id};
    }
  }

  /** The frames in `done` make up the first `pos` bytes, and are entered. */
  predicate Scanned(bytes: seq<byte>, pos: nat, done: seq<Frame>, index: Index, segment: nat, entered: Index) {
    && pos <= |bytes| && bytes[..pos] == EncodeAll(done)
    && Parse(bytes) == done + Parse(bytes[pos..])
    && entered == IndexFrames(index, segment, done)
  }

  lemma ScannedNothing(bytes: seq<byte>, index: Index, segment: nat)
    ensures Scanned(bytes, 0, [], index, segment, index)
  {
    assert bytes[0..] == bytes;
  }

  /** Header-only scan of a segment's bytes: enter its frames into the index, up to the first tail
      that is no whole frame; returns where that is. */
  method ScanFrames(bytes: seq<byte>, segment: nat, index: Index) returns (pos: nat, entered: Index)
    ensures pos <= |bytes| && bytes[..pos] == EncodeAll(Parse(bytes))
    ensures entered == IndexFrames(index, segment, Parse(bytes))
  {
    pos := 0;
    entered := index;
    ghost var done: seq<Frame> := [];
    ScannedNothing(bytes, index, segment);
    while pos < |bytes|
      invariant Scanned(bytes, pos, done, index, segment, entered)
    {
      var torn, frameLen := ReadHeader(bytes, pos);
      if torn {
        break;
      }
      entered, done := ScanOne(bytes, pos, frameLen, done, index, segment, entered);
      pos := pos + 4 + frameLen;
    }
    ScanEnd(bytes, pos, done, index, segment, entered);
  }

  /** Read the id of the frame at `pos` and enter its place. */
  method ScanOne(bytes: seq<byte>, pos: nat, frameLen: nat, ghost done: seq<Frame>, ghost index: Index,
                 segment: nat, entered: Index)
    returns (entered': Index, ghost done': seq<Frame>)
    requires Scanned(bytes, pos, done, index, segment, entered)
    requires StartsWithFrame(bytes[pos..]) && frameLen == HeadLen(bytes[pos..])
    ensures pos + 4 + frameLen <= |bytes| && ID_LEN <= frameLen
    ensures entered' ==
            entered[HexEncode(bytes[pos + 4..pos + 4 + ID_LEN]) := FrameLoc(segment, pos, frameLen - ID_LEN)]
    ensures Scanned(bytes, pos + 4 + frameLen, done', index, segment, entered')
  {
    done' := ScanStep(bytes, pos, done, index, segment, entered, frameLen);
    var rawId := bytes[pos + 4..pos + 4 + ID_LEN];
    entered' := entered[HexEncode(rawId) := FrameLoc(segment, pos, frameLen - ID_LEN)];
  }

  /** Read the length field at `pos`; the frame is torn when it is missing, too small, or leads past
      the end. */
  method ReadHeader(bytes: seq<byte>, pos: nat) returns (torn: bool, frameLen: nat)
    requires pos <= |bytes|
    ensures torn <==> !StartsWithFrame(bytes[pos..])
    ensures !torn ==> pos + 4 + frameLen <= |bytes| && frameLen >= MIN_FRAME_LEN && frameLen == HeadLen(bytes[pos..])
  {
    HeadTest(bytes, pos);
    torn := pos + 4 > |bytes|;
    frameLen := 0;
    if !torn {
      frameLen := FromLE(bytes[pos..pos + 4]);
      torn := frameLen < MIN_FRAME_LEN || pos + 4 + frameLen > |bytes|;
    }
  }

  /** Scan one segment file and cut away a torn tail. */
  method ScanSegment(device: Device, segment: nat, index: Index) returns (len: nat, entered: Index)
    requires segment < |device.state.segments|
    requires device.state.segments[segment] == Synced(device.state.segments[segment])
    modifies device
    ensures entered == IndexFrames(index, segment, Parse(old(device.state).segments[segment].bytes))
    ensures device.state == old(device.state).(segments := old(device.state).segments
              [segment := Recovered(old(device.state).segments)[segment]])
    ensures len == |device.state.segments[segment].bytes|
    ensures device.trace == old(device.trace) || device.trace == old(device.trace) + [device.state]
  {
    var bytes := device.state.segments[segment].bytes;
    len, entered := ScanFrames(bytes, segment, index);
    if len < |bytes| {
      device.Truncate(segment, len);
    } else {
      assert bytes[..len] == bytes;
      assert device.state.segments == device.state.segments[segment := Recovered(device.state.segments)[segment]];
    }
  }

  /** The test the scan makes at `pos` decides whether a frame starts there. */
  lemma HeadTest(bytes: seq<byte>, pos: nat)
    requires pos <= |bytes|
    ensures StartsWithFrame(bytes[pos..]) <==>
            pos + 4 <= |bytes| && FromLE(bytes[pos..pos + 4]) >= MIN_FRAME_LEN
            && pos + 4 + FromLE(bytes[pos..pos + 4]) <= |bytes|
    ensures StartsWithFrame(bytes[pos..]) ==>
              && HeadLen(bytes[pos..]) == FromLE(bytes[pos..pos + 4])
              && HeadFrame(bytes[pos..]).raw == bytes[pos + 4..pos + 4 + ID_LEN]
              && |HeadFrame(bytes[pos..]).body| == HeadLen(bytes[pos..]) - ID_LEN
  {
    if pos + 4 <= |bytes| {
      assert bytes[pos..][..4] == bytes[pos..pos + 4];
    }
  }

  lemma ScanEnd(bytes: seq<byte>, pos: nat, done: seq<Frame>, index: Index, segment: nat, entered: Index)
    requires Scanned(bytes, pos, done, index, segment, entered) && !StartsWithFrame(bytes[pos..])
    ensures bytes[..pos] == EncodeAll(Parse(bytes))
    ensures entered == IndexFrames(index, segment, Parse(bytes))
  {
    assert Parse(bytes[pos..]) == [] && done + [] == done;
  }

  /** One more frame scanned. */
  lemma ScanStep(
      bytes: seq<byte>, pos: nat, done: seq<Frame>, index: Index, segment: nat, entered: Index, frameLen: nat)
    returns (done': seq<Frame>)
    requires Scanned(bytes, pos, done, index, segment, entered)
    requires StartsWithFrame(bytes[pos..]) && frameLen == HeadLen(bytes[pos..])
    ensures pos + 4 + frameLen <= |bytes| && ID_LEN <= frameLen
    ensures Scanned(bytes, pos + 4 + frameLen, done', index, segment,
              entered[HexEncode(bytes[pos + 4..pos + 4 + ID_LEN]) := FrameLoc(segment, pos, frameLen - ID_LEN)])
  {
    done' := done + [HeadFrame(bytes[pos..])];
    HeadFields(bytes, pos, frameLen);
    ScannedNext(bytes, pos, done, index, segment, entered, HeadFrame(bytes[pos..]), 4 + frameLen);
  }

  /** Where the fields of the frame at `pos` lie. */
  lemma HeadFields(bytes: seq<byte>, pos: nat, frameLen: nat)
    requires pos <= |bytes| && StartsWithFrame(bytes[pos..]) && frameLen == HeadLen(bytes[pos..])
    ensures ID_LEN <= frameLen && pos + 4 + frameLen <= |bytes|
    ensures HeadFrame(bytes[pos..]).raw == bytes[pos + 4..pos + 4 + ID_LEN]
    ensures |HeadFrame(bytes[pos..]).body| == frameLen - ID_LEN
  {
    HeadTest(bytes, pos);
  }

  lemma ScannedNext(
      bytes: seq<byte>, pos: nat, done: seq<Frame>, index: Index, segment: nat, entered: Index, f: Frame, n: nat)
    requires Scanned(bytes, pos, done, index, segment, entered)
    requires StartsWithFrame(bytes[pos..]) && f == HeadFrame(bytes[pos..]) && n == 4 + HeadLen(bytes[pos..])
    ensures pos + n <= |bytes|
    ensures Scanned(bytes, pos + n, done + [f], index, segment,
              entered[HexEncode(f.raw) := FrameLoc(segment, pos, |f.body|)])
  {
    EncodeParsedHead(bytes[pos..]);
    ScannedBytes(bytes, pos, done, f, n);
    ScannedRest(bytes, pos, done, n);
    ScannedEntry(index, segment, done, f);
  }

  lemma ScannedRest(bytes: seq<byte>, pos: nat, done: seq<Frame>, n: nat)
    requires pos + n <= |bytes| && StartsWithFrame(bytes[pos..]) && n == 4 + HeadLen(bytes[pos..])
    ensures done + Parse(bytes[pos..]) == (done + [HeadFrame(bytes[pos..])]) + Parse(bytes[pos + n..])
  {
    var rest := bytes[pos..];
    SplitTwice(bytes, pos, n);
    ParseTail(rest);
    assert Parse(rest) == [HeadFrame(rest)] + Parse(rest[n..]);
    Associative(done, [HeadFrame(rest)], Parse(rest[n..]));
  }

  lemma ScannedBytes(bytes: seq<byte>, pos: nat, done: seq<Frame>, f: Frame, n: nat)
    requires pos + n <= |bytes| && bytes[..pos] == EncodeAll(done) && bytes[pos..][..n] == Encode(f)
    ensures bytes[..pos + n] == EncodeAll(done + [f])
  {
    EncodeAllSnoc(done, f);
    SplitTwice(bytes, pos, n);
  }

  lemma ScannedEntry(index: Index, segment: nat, done: seq<Frame>, f: Frame)
    ensures IndexFrames(index, segment, done + [f]) ==
            IndexFrames(index, segment, done)[HexEncode(f.raw) := FrameLoc(segment, |EncodeAll(done)|, |f.body|)]
  {
    assert (done + [f])[..|done|] == done;
  }

  predicate AllLower(index: Index) {
    forall id {:trigger IsLowerHex(id)} :: id in index ==> IsLowerHex(id)
  }

  // ---- what one append does to the index ----

  /** Where the next frame goes; its body's length is cast to 32 bits. */
  function NextLoc(d: Disk, f: Frame): FrameLoc {
    var ready := Ready(d.segments);
    FrameLoc(|ready| - 1, |ready[|ready| - 1].bytes|, Cast32(|f.body|))
  }

  /** A length cast to 32 bits. */
  function Cast32(n: nat): nat {
    if n < TWO_TO_THE_32 then n else n % TWO_TO_THE_32
  }

  /** Getting ready for a frame moves no entry. */
  lemma ReadyKeepsIndex(d: Disk)
    requires Sound(d)
    ensures var ready := d.(segments := Ready(d.segments));
            && Sound(ready) && AllWhole(Data(ready.segments))
            && IndexOf(Data(ready.segments)) == IndexOf(Data(d.segments))
    ensures forall id, loc :: Locates(Data(d.segments), id, loc) ==> Locates(Data(Ready(d.segments)), id, loc)
  {
    if Rolls(d.segments) {
      SyncKeepsFrames(d);
      CreateKeepsFrames(Flushed(d));
      assert Data(Ready(d.segments)) == Data(d.segments) + [[]];
      IndexAfterRoll(Data(d.segments));
    }
  }

  lemma AppendToReady(ready: Disk, f: Frame)
    requires Sound(ready) && ready.segments != [] && Legal(f)
    ensures var segs, segs' := Data(ready.segments), Data(AppendLast(ready.segments, Encode(f)));
            && AllWhole(segs')
            && IndexOf(segs') == IndexOf(segs)[HexEncode(f.raw) :=
                 FrameLoc(|segs| - 1, |segs[|segs| - 1]|, |f.body|)]
            && (forall id, loc :: Locates(segs, id, loc) ==> Locates(segs', id, loc))
  {
    AppendKeepsDurable(ready, f);
    IndexAfterAppend(Data(ready.segments), Data(AppendLast(ready.segments, Encode(f))), f);
  }

  lemma AppendIndexes(d: Disk, f: Frame)
    requires Sound(d) && Legal(f)
    ensures AllWhole(Data(AppendFrame(d, f).segments))
    ensures IndexOf(Data(AppendFrame(d, f).segments)) == IndexOf(Data(d.segments))[HexEncode(f.raw) := NextLoc(d, f)]
  {
    ReadyKeepsIndex(d);
    AppendToReady(d.(segments := Ready(d.segments)), f);
  }

  lemma AppendKeepsEntry(d: Disk, f: Frame, id: string, loc: FrameLoc)
    requires Sound(d) && Legal(f) && Locates(Data(d.segments), id, loc)
    ensures Locates(Data(AppendFrame(d, f).segments), id, loc)
  {
    ReadyKeepsIndex(d);
    AppendToReady(d.(segments := Ready(d.segments)), f);
  }

  lemma NewFrameIsLocated(d: Disk, f: Frame, id: string)
    requires Sound(d) && Legal(f) && HexDecode(id) == Some(f.raw)
    ensures Locates(Data(AppendFrame(d, f).segments), id, NextLoc(d, f))
  {
    var loc := NextLoc(d, f);
    ReadyKeepsIndex(d);
    CastIsNoMore(|f.body|);
    var s := Ready(d.segments)[loc.segment].bytes;
    assert Whole(s) by {
      assert s == Data(Ready(d.segments))[loc.segment];
    }
    assert Data(AppendFrame(d, f).segments)[loc.segment] == s + Encode(f);
    LastFrameIsLocated(Data(AppendFrame(d, f).segments), loc, s, f, id);
  }

  lemma LastFrameIsLocated(segs: Segments, loc: FrameLoc, s: seq<byte>, f: Frame, id: string)
    requires Whole(s) && Legal(f) && HexDecode(id) == Some(f.raw)
    requires loc.segment < |segs| && segs[loc.segment] == s + Encode(f)
    requires loc.offset == |s| && loc.bodyLen == |f.body|
    ensures Locates(segs, id, loc)
  {
    WholeAppend(s, f);
    assert (Parse(s) + [f])[..|Parse(s)|] == Parse(s);
    assert LocatesFrame(segs, id, loc, |Parse(s)|);
  }

  /** The bytes just appended are read where the index says, as many of them as the cast has kept. */
  lemma NewFrameIsRead(d: Disk, f: Frame, id: string)
    requires |f.raw| == ID_LEN && HexDecode(id) == Some(f.raw)
    ensures Cast32(|f.body|) <= |f.body|
    ensures ReadAt(Data(AppendFrame(d, f).segments), NextLoc(d, f), id) ==
            if IsLowerHex(id) then Ok(f.body[..Cast32(|f.body|)]) else Err(Misdirected)
  {
    var loc, segs' := NextLoc(d, f), Data(AppendFrame(d, f).segments);
    var s := Ready(d.segments)[loc.segment].bytes;
    assert segs'[loc.segment] == s + Encode(f);
    CastIsNoMore(|f.body|);
    ReadAtEnd(s, f, Cast32(|f.body|));
    SpelledId(id, f.raw);
  }

  lemma CastIsNoMore(n: nat)
    ensures Cast32(n) <= n && (n < TWO_TO_THE_32 ==> Cast32(n) == n)
    ensures Cast32(n) < TWO_TO_THE_32 && (n - Cast32(n)) % TWO_TO_THE_32 == 0
  {
  }

  lemma ReadAtEnd(s: seq<byte>, f: Frame, n: nat)
    requires |f.raw| == ID_LEN && n <= |f.body|
    ensures |s + Encode(f)| == |s| + 4 + ID_LEN + |f.body|
    ensures RawAt(s + Encode(f), |s|) == f.raw
    ensures BodyAt(s + Encode(f), |s|, n) == f.body[..n]
  {
    LERoundTrip((ID_LEN + |f.body|) % TWO_TO_THE_32, 4);
  }

  /** A scan of the disk finds no more after the append of a frame that hides than before, nor anything that
      is appended to the same segment later. */
  lemma HiddenAppendAddsNothing(d: Disk, f: Frame, tail: seq<byte>)
    requires Sound(d) && |f.raw| == ID_LEN && WrappedLen(f) < MIN_FRAME_LEN
    ensures var packed := AppendFrame(d, f);
            && FrameList(packed) == FrameList(d)
            && FrameList(packed.(segments := AppendLast(packed.segments, tail))) == FrameList(d)
  {
    var packed := AppendFrame(d, f).segments;
    HiddenInSegment(d, f, []);
    HiddenInSegment(d, f, tail);
    var n := |packed| - 1;
    assert packed == Ready(d.segments)[..n] + [packed[n]];
    assert AppendLast(packed, tail) == Ready(d.segments)[..n] + [AppendLast(packed, tail)[n]];
    var s := Ready(d.segments)[n].bytes;
    assert packed[n].bytes == s + (Encode(f) + []);
    Associative(s, Encode(f), tail);
    FramesOfSnoc(Ready(d.segments)[..n], packed[n]);
    FramesOfSnoc(Ready(d.segments)[..n], AppendLast(packed, tail)[n]);
  }

  lemma HiddenInSegment(d: Disk, f: Frame, tail: seq<byte>)
    requires Sound(d) && |f.raw| == ID_LEN && WrappedLen(f) < MIN_FRAME_LEN
    ensures var ready := Ready(d.segments);
            var n := |ready| - 1;
            FramesOf(Data(ready[..n])) + Parse(ready[n].bytes + (Encode(f) + tail)) == FrameList(d)
  {
    var ready := Ready(d.segments);
    var n := |ready| - 1;
    SyncKeepsFrames(d);
    CreateKeepsFrames(Flushed(d));
    ReadyKeepsIndex(d);
    assert Whole(ready[n].bytes) by {
      assert ready[n].bytes == Data(ready)[n];
    }
    HiddenFrameHidesTheRest(ready[n].bytes, f, tail);
    SplitLast(ready);
    FramesOfSnoc(ready[..n], ready[n]);
  }

  /** What that does to a repack whose last artifact it is: the verification reads the body back, as much of
      it as the cast has kept, which is all of it for the 32 lengths below 2^32; the loose file goes; and a
      reopened store has lost the artifact. */
  lemma OversizedRepackLosesArtifact<V(!new)>(c: Codec<V>, d: Disk, id: string, v: V)
    requires Lawful(c) && Sound(d) && HexToRaw(id).Ok? && IsLowerHex(id)
    requires id in d.loose && c.fromJson(d.loose[id]) == Some(v) && LastBody(FrameList(d), id).None?
    requires WrappedLen(FrameFor(c, id, v)) < MIN_FRAME_LEN
    ensures var f := FrameFor(c, id, v);
            var packed := AppendFrame(d, f);
            && ReadOpened(c, d, id) == Ok(Some(v))
            && Cast32(|f.body|) <= |f.body|
            && ReadAt(Data(packed.segments), NextLoc(d, f), id) == Ok(f.body[..Cast32(|f.body|)])
            && (|f.body| < TWO_TO_THE_32 ==> f.body[..Cast32(|f.body|)] == Body(c, v))
            && ReadOpened(c, Unlink(Flushed(packed), id), id) == Ok(None)
  {
    var f := FrameFor(c, id, v);
    var packed := AppendFrame(d, f);
    NewFrameIsRead(d, f, id);
    HiddenAppendAddsNothing(d, f, []);
    ReadOpenedIsView(c, d, id);
    var gone := Unlink(Flushed(packed), id);
    assert Data(gone.segments) == Data(packed.segments) by {
      SyncLastKeepsBytes(packed.segments);
    }
    ReadOpenedIsView(c, gone, id);
  }

  /** Segments only grow at the end, so a located frame reads as before. */
  lemma AppendKeepsReads(d: Disk, f: Frame, id: string, loc: FrameLoc)
    requires Sound(d) && Locates(Data(d.segments), id, loc)
    ensures ReadAt(Data(AppendFrame(d, f).segments), loc, id) == ReadAt(Data(d.segments), loc, id)
  {
    LocatedIsInside(Data(d.segments), id, loc);
    AppendOnlyGrows(d, f, loc.segment);
    GrownReadsSame(Data(d.segments), Data(AppendFrame(d, f).segments), id, loc);
  }

  lemma AppendOnlyGrows(d: Disk, f: Frame, i: nat)
    requires i < |d.segments|
    ensures i < |AppendFrame(d, f).segments|
    ensures d.segments[i].bytes <= AppendFrame(d, f).segments[i].bytes
  {
    SyncLastKeepsBytes(d.segments);
    assert Ready(d.segments)[i].bytes == d.segments[i].bytes;
  }

  lemma LocatedIsInside(segs: Segments, id: string, loc: FrameLoc)
    requires AllWhole(segs) && Locates(segs, id, loc)
    ensures loc.segment < |segs| && loc.offset + 4 + ID_LEN + loc.bodyLen <= |segs[loc.segment]|
  {
    var k: nat :| LocatesFrame(segs, id, loc, k);
    FrameIn(segs[loc.segment], k, loc.offset);
  }

  lemma GrownReadsSame(segs: Segments, segs': Segments, id: string, loc: FrameLoc)
    requires loc.segment < |segs| <= |segs'| && segs[loc.segment] <= segs'[loc.segment]
    requires loc.offset + 4 + ID_LEN + loc.bodyLen <= |segs[loc.segment]|
    ensures ReadAt(segs', loc, id) == ReadAt(segs, loc, id)
  {
    var s, s' := segs[loc.segment], segs'[loc.segment];
    assert RawAt(s', loc.offset) == RawAt(s, loc.offset);
    assert BodyAt(s', loc.offset, loc.bodyLen) == BodyAt(s, loc.offset, loc.bodyLen);
  }

  /** An append changes what its own id reads and nothing else; under an id that is not in lower
      case the new frame cannot be read back. */
  lemma AppendReads<V(!new)>(c: Codec<V>, d: Disk, f: Frame, index: Index, id: string, v: V)
    requires Lawful(c) && Sound(d) && |f.raw| == ID_LEN && HexDecode(id) == Some(f.raw) && f.body == Body(c, v)
    requires AllLocated(Data(d.segments), index)
    ensures var segs, segs' := Data(d.segments), Data(AppendFrame(d, f).segments);
            var index' := index[id := NextLoc(d, f)];
            && (forall x :: x != id ==> ReadVia(c, segs', index', d.loose, x) == ReadVia(c, segs, index, d.loose, x))
            && (|f.body| < TWO_TO_THE_32 ==>
                  ReadVia(c, segs', index', d.loose, id) == if IsLowerHex(id) then Ok(Some(v)) else Err(Misdirected))
  {
    NewFrameIsRead(d, f, id);
    assert |f.body| < TWO_TO_THE_32 ==> f.body[..Cast32(|f.body|)] == f.body;
    forall x | x != id && x in index
      ensures ReadAt(Data(AppendFrame(d, f).segments), index[x], x) == ReadAt(Data(d.segments), index[x], x)
    {
      AppendKeepsReads(d, f, x, index[x]);
    }
  }

  /** Every entry leads to a frame with its id; while all ids are in lower case the index is what
      a scan of the bytes would build. */
  ghost predicate AllLocated(segs: Segments, index: Index) {
    forall id {:trigger Locates(segs, id, index[id])} :: id in index ==> Locates(segs, id, index[id])
  }

  ghost predicate IndexAgrees(segs: Segments, index: Index) {
    && AllLocated(segs, index)
    && (AllLower(index) ==> index == IndexOf(segs))
  }

  lemma AppendKeepsAgreement(d: Disk, f: Frame, index: Index, id: string)
    requires Sound(d) && Legal(f) && HexDecode(id) == Some(f.raw)
    requires IndexAgrees(Data(d.segments), index)
    ensures IndexAgrees(Data(AppendFrame(d, f).segments), index[id := NextLoc(d, f)])
  {
    AppendKeepsLocated(d, f, index, id);
    AppendKeepsScan(d, f, index, id);
  }

  lemma AppendKeepsLocated(d: Disk, f: Frame, index: Index, id: string)
    requires Sound(d) && Legal(f) && HexDecode(id) == Some(f.raw)
    requires AllLocated(Data(d.segments), index)
    ensures AllLocated(Data(AppendFrame(d, f).segments), index[id := NextLoc(d, f)])
  {
    NewFrameIsLocated(d, f, id);
    forall x | x in index && x != id ensures Locates(Data(AppendFrame(d, f).segments), x, index[x]) {
      AppendKeepsEntry(d, f, x, index[x]);
    }
  }

  lemma AppendKeepsScan(d: Disk, f: Frame, index: Index, id: string)
    requires Sound(d) && Legal(f) && HexDecode(id) == Some(f.raw)
    requires AllLower(index) ==> index == IndexOf(Data(d.segments))
    ensures AllLower(index[id := NextLoc(d, f)]) ==>
              index[id := NextLoc(d, f)] == IndexOf(Data(AppendFrame(d, f).segments))
  {
    AppendIndexes(d, f);
    LowerAfterInsert(index, id, NextLoc(d, f), f.raw);
  }

  lemma LowerAfterInsert(index: Index, id: string, loc: FrameLoc, raw: seq<byte>)
    requires HexDecode(id) == Some(raw)
    ensures AllLower(index[id := loc]) ==> AllLower(index) && HexEncode(raw) == id
  {
    if AllLower(index[id := loc]) {
      assert id in index[id := loc] && forall x :: x in index ==> x in index[id := loc];
      SpelledId(id, raw);
    }
  }

  /** The frame that holds `v` under the hash `id`. */
  function FrameFor<V>(c: Codec<V>, id: string, v: V): (f: Frame)
    requires HexToRaw(id).Ok?
    ensures HexDecode(id) == Some(f.raw) && |f.raw| == ID_LEN && f.body == Body(c, v)
  {
    Frame(HexToRaw(id).value, Body(c, v))
  }

  /** One artifact has been packed: its frame is the last, and the index leads to it. */
  predicate Packs<V>(c: Codec<V>, d: Disk, index: Index, id: string, v: V, d': Disk, index': Index) {
    && HexToRaw(id).Ok?
    && d' == AppendFrame(d, FrameFor(c, id, v))
    && index' == index[id := NextLoc(d, FrameFor(c, id, v))]
  }

  predicate WriteStep<V>(c: Codec<V>, d: Disk, id: string, v: V, step: Disk)
    requires HexToRaw(id).Ok?
  {
    AppendStep(d, FrameFor(c, id, v), step)
  }

  /** Packing changes what its own id reads and nothing else; under an id that is not in lower
      case the new frame cannot be read back. */
  lemma PackedReads<V(!new)>(c: Codec<V>, d: Disk, index: Index, id: string, v: V, d': Disk, index': Index)
    requires Lawful(c) && Sound(d) && IndexAgrees(Data(d.segments), index)
    requires Packs(c, d, index, id, v, d', index')
    ensures forall x :: x != id ==> ReadVia(c, Data(d'.segments), index', d'.loose, x)
                                    == ReadVia(c, Data(d.segments), index, d.loose, x)
    ensures |Body(c, v)| < TWO_TO_THE_32 ==>
              ReadVia(c, Data(d'.segments), index', d'.loose, id)
              == if IsLowerHex(id) then Ok(Some(v)) else Err(Misdirected)
  {
    AppendReads(c, d, FrameFor(c, id, v), index, id, v);
  }

  /** The verdict on an artifact read back after it was packed. */
  function Verified<V(==)>(back: Result<Option<V>, StoreError>, value: V): Result<(), StoreError> {
    match back
    case Err(e) => Err(e)
    case Ok(None) => Err(Unreadable)
    case Ok(Some(v)) => if v == value then Ok(()) else Err(NoRoundTrip)
  }

  /** Every loose artifact fits a frame. */
  predicate LooseFits<V>(c: Codec<V>, loose: map<string, seq<byte>>) {
    forall id :: id in loose && c.fromJson(loose[id]).Some? ==> Fits(c, c.fromJson(loose[id]).value)
  }

  /** The loose file is valid, and is packed already or has a hash in lower case for its name. */
  predicate Packable<V>(c: Codec<V>, index: Index, loose: map<string, seq<byte>>, id: string) {
    && id in loose && c.fromJson(loose[id]).Some?
    && (id !in index ==> HexToRaw(id).Ok? && IsLowerHex(id))
  }

  predicate AllPackable<V>(c: Codec<V>, index: Index, loose: map<string, seq<byte>>) {
    forall id :: id in loose ==> Packable(c, index, loose, id)
  }

  /** Every loose file still to be packed has a canonical name. */
  predicate NewAreCanonical(index: Index, loose: map<string, seq<byte>>) {
    forall id :: id in loose && id !in index ==> Canonical(id)
  }

  /** In no state the disk has passed through since, nor in the present one, can a crash lose a
      reading that it could not lose at the start. */
  ghost predicate Lossless<V(!new)>(c: Codec<V>, start: Disk, before: seq<Disk>, now: Disk, trace: seq<Disk>) {
    && before <= trace && Safe(c, start, now)
    && forall i :: |before| <= i < |trace| ==> Safe(c, start, trace[i])
  }

  /** So an artifact that was loose, and not packed, is readable after a crash in any of these states. */
  lemma LooseArtifactStaysReadable<V(!new)>(
      c: Codec<V>, start: Disk, before: seq<Disk>, now: Disk, trace: seq<Disk>, id: string, v: V)
    requires Sound(start) && Lossless(c, start, before, now, trace)
    requires id in start.loose && c.fromJson(start.loose[id]) == Some(v) && LastBody(FrameList(start), id).None?
    ensures Survives(c, now, id, Ok(Some(v)))
    ensures forall i :: |before| <= i < |trace| ==> Survives(c, trace[i], id, Ok(Some(v)))
  {
    LooseFileSurvives(c, start, id, v);
  }

  lemma StartIsLossless<V(!new)>(c: Codec<V>, start: Disk, trace: seq<Disk>)
    ensures Lossless(c, start, trace, start, trace)
  {
  }

  lemma PackingStepsAreSafe<V(!new)>(c: Codec<V>, start: Disk, d: Disk, index: Index, id: string, v: V)
    requires Lawful(c) && Sound(d) && Safe(c, start, d) && Fits(c, v)
    requires IndexAgrees(Data(d.segments), index) && AllLower(index) && id !in index
    requires HexToRaw(id).Ok? && IsLowerHex(id)
    requires id in d.loose && c.fromJson(d.loose[id]) == Some(v)
    ensures forall step :: WriteStep(c, d, id, v, step) ==> Safe(c, start, step)
  {
    var f := FrameFor(c, id, v);
    IndexIsSound(Data(d.segments), id);
    SpelledId(id, f.raw);
    ReadyStatesExtend(d, f);
    forall step | WriteStep(c, d, id, v, step) ensures Safe(c, start, step) {
      PackingIsSafe(c, start, d, step, f, id, v);
    }
  }

  /** As more is packed, what could be packed is packed or can be still. */
  lemma PackableLater<V>(c: Codec<V>, before: Index, now: Index, loose: map<string, seq<byte>>, id: string)
    requires id in before ==> id in now
    ensures Packable(c, before, loose, id) ==> Packable(c, now, loose, id)
    ensures (id in now ==> id in before) && Packable(c, now, loose, id) ==> Packable(c, before, loose, id)
    ensures Packable(c, before, loose, id) ==> id in before || Canonical(id)
  {
  }

  /** The first `i` of the names can be packed, as far as they are those of loose files. */
  predicate PackableTo<V>(c: Codec<V>, index: Index, loose: map<string, seq<byte>>, ids: seq<string>, i: nat)
    requires i <= |ids|
  {
    forall x :: x in ids[..i] && x in loose ==> Packable(c, index, loose, x)
  }

  lemma PackableNext<V>(c: Codec<V>, index: Index, loose: map<string, seq<byte>>, ids: seq<string>, i: nat)
    requires i < |ids|
    ensures PackableTo(c, index, loose, ids, i) && (ids[i] in loose ==> Packable(c, index, loose, ids[i])) ==>
              PackableTo(c, index, loose, ids, i + 1)
  {
    NextMember(ids, i);
  }

  /** After a repack every crash keeps every reading. */
  lemma AllSettled<V(!new)>(c: Codec<V>, d: Disk, index: Index)
    requires Sound(d) && AllDurable(d.segments) && AllLower(index) && IndexAgrees(Data(d.segments), index)
    requires forall x :: x in d.unlinked ==> x in index
    ensures forall x :: Survives(c, d, x, ReadVia(c, Data(d.segments), index, d.loose, x))
  {
    RecoveredSound(d.segments);
    forall x ensures Survives(c, d, x, ReadVia(c, Data(d.segments), index, d.loose, x)) {
      if x in d.unlinked {
        IndexedHasFrame(Data(d.segments), index, x);
      }
      SettledSurvives(c, d, x);
    }
  }

  lemma NextMember<T>(s: seq<T>, i: nat)
    requires i < |s|
    ensures forall x :: x in s[..i + 1] <==> x in s[..i] || x == s[i]
    ensures Distinct(s[..i + 1]) ==> s[i] !in s[..i]
  {
    assert s[..i + 1] == s[..i] + [s[i]];
  }

  /** What a failed read tells: the wrong case of an id, a body that does not decompress, or a text that is no
      JSON, in a frame or in a loose file; nothing else fails in a store in order. */
  lemma ReadTellsWhatFailed<V>(c: Codec<V>, segs: Segments, index: Index, loose: map<string, seq<byte>>, id: string)
    requires AllWhole(segs) && AllLocated(segs, index)
    ensures var r := ReadVia(c, segs, index, loose, id);
            && r != Err(Io)
            && (r == Err(Misdirected) <==> id in index && !IsLowerHex(id))
            && (id in index && IsLowerHex(id) ==>
                  && ReadAt(segs, index[id], id).Ok?
                  && var json := c.decompress(ReadAt(segs, index[id], id).value);
                     && (r == Err(BodyCorrupt) <==> json.None?)
                     && (r == Err(Json) <==> json.Some? && c.fromJson(json.value).None?)
                     && (r.Ok? ==> r.value.Some?))
            && (id !in index ==>
                  && (r == Ok(None) <==> id !in loose)
                  && (r == Err(Json) <==> id in loose && c.fromJson(loose[id]).None?))
  {
    if id in index {
      assert Locates(segs, id, index[id]);
      var k: nat :| LocatesFrame(segs, id, index[id], k);
      ReadLocated(segs, id, index[id], k);
    }
  }

  /** What `list` has put together from the first `i` names found, of which the first `n` are the loose files:
      it has no name twice exactly as long as no unpacked stray has come. */
  ghost predicate ListedTo(ids: seq<string>, found: seq<string>, i: nat, n: nat, index: Index) {
    && i <= |found| && n <= |found| && Distinct(found[..n])
    && (forall x :: x in ids <==> x in index || x in found[..i])
    && (i <= n ==> Distinct(ids))
    && ((forall k :: n <= k < i ==> found[k] in index) ==> Distinct(ids))
    && (Distinct(ids) ==> forall k :: n <= k < i && found[k] !in index ==> found[k] !in found[..n])
  }

  lemma ListNext(ids: seq<string>, found: seq<string>, i: nat, n: nat, index: Index)
    requires i < |found| && ListedTo(ids, found, i, n, index)
    ensures ListedTo(if found[i] in index then ids else ids + [found[i]], found, i + 1, n, index)
  {
    NextMember(found, i);
    DistinctSnoc(ids, found[i]);
    if i < n {
      assert found[..i + 1] == found[..n][..i + 1];
    }
    if n <= i {
      assert forall x :: x in found[..n] ==> x in found[..i];
    }
  }

  lemma ListedAll(
      ids: seq<string>, found: seq<string>, stray: seq<string>, loose: map<string, seq<byte>>, index: Index)
    requires IsListing(found, stray, loose) && ListedTo(ids, found, |found|, |loose|, index)
    ensures Distinct(ids) && (forall id :: id in ids ==> id in index || id in loose)
            <==> forall id :: id in stray ==> id in index
  {
    var n := |loose|;
    assert forall k :: n <= k < |found| ==> found[k] == stray[k - n];
    assert found[..|found|] == found && found == found[..n] + stray;
    if forall id :: id in stray ==> id in index {
      assert Distinct(ids);
    } else {
      var id :| id in stray && id !in index;
      var k :| 0 <= k < |stray| && stray[k] == id;
      assert found[n + k] == id;
    }
  }

  lemma DistinctSnoc<T>(s: seq<T>, x: T)
    ensures Distinct(s + [x]) <==> Distinct(s) && x !in s
  {
    if Distinct(s + [x]) {
      forall i, j | 0 <= i < j < |s| ensures s[i] != s[j] {
        assert (s + [x])[i] == s[i] && (s + [x])[j] == s[j];
      }
      forall i | 0 <= i < |s| ensures s[i] != x {
        assert (s + [x])[i] == s[i] && (s + [x])[|s|] == x;
      }
    }
  }

  lemma IndexedHasFrame(segs: Segments, index: Index, id: string)
    requires IndexAgrees(segs, index) && AllLower(index) && id in index
    ensures LastBody(FramesOf(segs), id).Some?
  {
    IndexIsSound(segs, id);
  }

  /** A fresh scan agrees with the bytes. */
  lemma ScannedAgrees(segs: Segments)
    requires AllWhole(segs)
    ensures IndexAgrees(segs, IndexOf(segs)) && AllLower(IndexOf(segs))
  {
    forall id | id in IndexOf(segs) ensures IsLowerHex(id) && Locates(segs, id, IndexOf(segs)[id]) {
      IndexIsSound(segs, id);
      ReadIndexed(segs, id);
    }
  }

  lemma OpenedIsSound(d: Disk)
    requires d.unlinked == map[]
    ensures Sound(Opened(d)) && AllDurable(Opened(d).segments)
  {
    FramesOfRecovered(d.segments);
  }

  predicate LengthsAgree(lens: seq<nat>, segments: seq<Segment>) {
    |lens| == |segments| && forall i :: 0 <= i < |lens| ==> lens[i] == |segments[i].bytes|
  }

  lemma AppendKeepsLengths(lens: seq<nat>, segments: seq<Segment>, data: seq<byte>)
    requires LengthsAgree(lens, segments) && segments != []
    ensures LengthsAgree(lens[|lens| - 1 := lens[|lens| - 1] + |data|], AppendLast(segments, data))
  {
  }

  lemma SyncLastKeepsBytes(segments: seq<Segment>)
    ensures |SyncLast(segments)| == |segments|
    ensures AllDurable(segments) ==> SyncLast(segments) == segments
    ensures forall i :: 0 <= i < |segments| ==> SyncLast(segments)[i].bytes == segments[i].bytes
  {
  }

  /** Scan all segments, in order. */
  method ScanAll(device: Device) returns (index: Index, segmentLens: seq<nat>)
    requires AllDurable(device.state.segments)
    modifies device
    ensures device.state == Opened(old(device.state))
    ensures index == IndexOf(Data(device.state.segments))
    ensures LengthsAgree(segmentLens, device.state.segments)
  {
    index := map[];
    segmentLens := [];
    ghost var before := device.state.segments;
    var n := |device.state.segments|;
    var segment := 0;
    PartlyEnds(before);
    while segment < n
      invariant segment <= n == |before|
      invariant device.state == old(device.state).(segments := Partly(before, segment))
      invariant AllScanned(before, segment, index, segmentLens)
    {
      PartlyStep(before, segment);
      ScannedMore(before, segment, index, segmentLens);
      var len, entered := ScanSegment(device, segment, index);
      index := entered;
      segmentLens := segmentLens + [len];
      segment := segment + 1;
    }
    ScannedEverything(before, index, segmentLens);
  }

  lemma ScannedEverything(before: seq<Segment>, index: Index, lens: seq<nat>)
    requires AllScanned(before, |before|, index, lens)
    ensures index == IndexOf(Data(Recovered(before))) && LengthsAgree(lens, Recovered(before))
  {
    assert Data(Recovered(before))[..|before|] == Data(Recovered(before));
  }

  /** The first `k` segments have been entered, and their lengths noted. */
  ghost predicate AllScanned(before: seq<Segment>, k: nat, index: Index, lens: seq<nat>) {
    && |lens| == k <= |before|
    && (forall i :: 0 <= i < k ==> lens[i] == |Recovered(before)[i].bytes|)
    && index == IndexOf(Data(Recovered(before))[..k])
  }

  lemma ScannedMore(before: seq<Segment>, k: nat, index: Index, lens: seq<nat>)
    requires k < |before| && AllScanned(before, k, index, lens)
    ensures AllScanned(before, k + 1,
              IndexFrames(index, k, Parse(before[k].bytes)), lens + [|Recovered(before)[k].bytes|])
  {
    IndexNext(before, k);
  }

  /** The first `k` segments scanned, the rest as found. */
  function Partly(before: seq<Segment>, k: nat): (r: seq<Segment>)
    requires k <= |before|
    ensures |r| == |before|
  {
    Recovered(before)[..k] + before[k..]
  }

  lemma PartlyEnds(before: seq<Segment>)
    ensures Partly(before, 0) == before && Partly(before, |before|) == Recovered(before)
  {
  }

  lemma PartlyStep(before: seq<Segment>, k: nat)
    requires k < |before|
    ensures Partly(before, k)[k] == before[k]
    ensures Recovered(Partly(before, k))[k] == Recovered(before)[k]
    ensures Partly(before, k)[k := Recovered(before)[k]] == Partly(before, k + 1)
  {
  }

  lemma IndexNext(before: seq<Segment>, k: nat)
    requires k < |before|
    ensures IndexOf(Data(Recovered(before))[..k + 1]) ==
            IndexFrames(IndexOf(Data(Recovered(before))[..k]), k, Parse(before[k].bytes))
  {
    ParseIsIdempotent(before[k].bytes);
    assert Data(Recovered(before))[..k + 1][..k] == Data(Recovered(before))[..k];
  }

  class PackArtifactStore<V(==,!new)> {
    const device: Device
    const codec: Codec<V>
    var index: Index
    var segmentLens: seq<nat>
    var writer: Option<nat>

    /** The lengths are those of the files, the append handle is on the last segment and all
        others are durable, and the index agrees with the bytes. */
    ghost predicate Valid()
      reads this, device
    {
      Sound(device.state) && FilesAgree() && IndexAgrees(Data(device.state.segments), index)
    }

    ghost predicate FilesAgree()
      reads this, device
    {
      && LengthsAgree(segmentLens, device.state.segments)
      && (writer.Some? ==> writer.value + 1 == |device.state.segments|)
      && (writer.None? ==> AllDurable(device.state.segments))
    }

    /** There is a length for every segment, and the append handle is on the last: enough for every call
        to go through, even where a frame too large for its length has put the lengths at odds with the
        files. */
    ghost predicate Usable()
      reads this, device
    {
      |segmentLens| == |device.state.segments| && (writer.Some? ==> writer.value + 1 == |device.state.segments|)
    }

    /** The lengths and the bytes agree; of the index nothing is said. */
    ghost predicate Orderly()
      reads this, device
    {
      Sound(device.state) && FilesAgree()
    }

    /** What a read answers in the present state. */
    function Reads(id: string): Result<Option<V>, StoreError>
      reads this, device
    {
      ReadVia(codec, Data(device.state.segments), index, device.state.loose, id)
    }

    /** Open the store on what an earlier run, finished or crashed, left on disk. */
    constructor Open(device: Device, codec: Codec<V>)
      requires AllDurable(device.state.segments) && device.state.unlinked == map[]
      modifies device
      ensures this.device == device && this.codec == codec
      ensures Valid() && writer == None && AllLower(index)
      ensures device.state == Opened(old(device.state))
      ensures Sound(old(device.state)) ==> device.state == old(device.state)
      ensures forall id :: Reads(id) == ReadOpened(codec, old(device.state), id)
    {
      this.device := device;
      this.codec := codec;
      writer := None;
      new;
      OpenedIsSound(device.state);
      if Sound(device.state) {
        RecoveredSound(device.state.segments);
      }
      index, segmentLens := ScanAll(device);
      ScannedAgrees(Data(device.state.segments));
    }

    /** Pick the active segment, or sync it and roll past it, and open it for appending. */
    method ActiveSegment() returns (segment: nat)
      requires Usable()
      modifies this, device
      ensures Usable() && index == old(index) && writer == Some(segment) && segment + 1 == |segmentLens|
      ensures device.state.loose == old(device.state).loose && device.state.unlinked == old(device.state).unlinked
      ensures old(device.trace) <= device.trace
      ensures old(Orderly()) ==> FilesAgree()
      ensures old(Orderly()) ==> device.state == old(device.state).(segments := Ready(old(device.state).segments))
      ensures old(Orderly()) ==> forall i :: |old(device.trace)| <= i < |device.trace| ==>
                device.trace[i] == Flushed(old(device.state)) || device.trace[i] == device.state
    {
      ghost var before := device.state.segments;
      var active := |segmentLens|;
      if active > 0 && segmentLens[active - 1] < SEGMENT_ROLL_BYTES {
        segment := active - 1;
      } else if active > 0 {
        if writer.Some? {
          device.SyncAll(writer.value);
          writer := None;
        }
        SyncLastKeepsBytes(before);
        segmentLens := segmentLens + [0];
        segment := |segmentLens| - 1;
      } else {
        segmentLens := segmentLens + [0];
        segment := 0;
      }
      if writer != Some(segment) {
        device.OpenAppend(segment);
        writer := Some(segment);
      }
    }

    /** Append a frame's bytes to the active segment and enter it into the index. The lengths agree with
        the files as long as the frame's length survives its cast. */
    method AppendToActive(id: string, rawId: seq<byte>, body: seq<byte>)
      requires Usable() && |rawId| == ID_LEN
      modifies this, device
      ensures Usable() && forall x :: x in index <==> x in old(index) || x == id
      ensures device.state.loose == old(device.state).loose && device.state.unlinked == old(device.state).unlinked
      ensures old(device.trace) <= device.trace
      ensures old(Orderly()) ==> device.state == AppendFrame(old(device.state), Frame(rawId, body))
      ensures old(Orderly()) ==> index == old(index)[id := NextLoc(old(device.state), Frame(rawId, body))]
      ensures old(Orderly()) && Legal(Frame(rawId, body)) ==> FilesAgree()
      ensures old(Orderly()) ==> forall i :: |old(device.trace)| <= i < |device.trace| ==>
                AppendStep(old(device.state), Frame(rawId, body), device.trace[i])
    {
      var frameLen := (ID_LEN + |body|) % TWO_TO_THE_32;
      LERoundTrip(frameLen, 4);
      AppendBytes(id, ToLE(frameLen, 4) + rawId + body, frameLen, Cast32(|body|), Frame(rawId, body));
    }

    method AppendBytes(id: string, data: seq<byte>, frameLen: nat, bodyLen: nat, ghost f: Frame)
      requires Usable()
      requires data == Encode(f) && bodyLen == Cast32(|f.body|)
      modifies this, device
      ensures Usable() && forall x :: x in index <==> x in old(index) || x == id
      ensures device.state.loose == old(device.state).loose && device.state.unlinked == old(device.state).unlinked
      ensures old(device.trace) <= device.trace
      ensures old(Orderly()) ==> device.state == AppendFrame(old(device.state), f)
      ensures old(Orderly()) ==> index == old(index)[id := NextLoc(old(device.state), f)]
      ensures old(Orderly()) && |data| == 4 + frameLen ==> FilesAgree()
      ensures old(Orderly()) ==> forall i :: |old(device.trace)| <= i < |device.trace| ==>
                AppendStep(old(device.state), f, device.trace[i])
    {
      ghost var orderly := Orderly();
      var segment := ActiveSegment();
      var offset := segmentLens[segment];
      if orderly {
        AppendKeepsLengths(segmentLens, device.state.segments, data);
      }
      device.Append(data);
      segmentLens := segmentLens[segment := offset + 4 + frameLen];
      index := index[id := FrameLoc(segment, offset, bodyLen)];
    }

    /** Pack one artifact under its id. What is too large for a frame's length is appended all the same,
        and leaves the store at odds with its files. */
    method WritePacked(id: string, artifact: V) returns (r: Result<(), StoreError>)
      requires Usable() && Lawful(codec)
      modifies this, device
      ensures Usable() && old(device.trace) <= device.trace
      ensures device.state.loose == old(device.state).loose && device.state.unlinked == old(device.state).unlinked
      ensures r == if HexToRaw(id).Err? then Err(HexToRaw(id).error) else Ok(())
      ensures r.Err? ==> index == old(index) && device.state == old(device.state) && device.trace == old(device.trace)
      ensures r.Ok? ==> forall x :: x in index <==> x in old(index) || x == id
      ensures old(Valid()) && (r.Err? || Fits(codec, artifact)) ==> Valid()
      ensures old(Valid()) && r.Ok? ==>
                Packs(codec, old(device.state), old(index), id, artifact, device.state, index)
      ensures old(Valid()) && r.Ok? ==> forall i :: |old(device.trace)| <= i < |device.trace| ==>
                WriteStep(codec, old(device.state), id, artifact, device.trace[i])
    {
      var decoded := HexToRaw(id);
      if decoded.Err? {
        return Err(decoded.error);
      }
      var rawId, body := decoded.value, Body(codec, artifact);
      if Valid() && Fits(codec, artifact) {
        AppendFrameEffect(device.state, Frame(rawId, body));
        AppendKeepsAgreement(device.state, Frame(rawId, body), index, id);
      }
      AppendToActive(id, rawId, body);
      return Ok(());
    }

    method Exists(id: string) returns (found: bool)
      requires |id| >= 2
      ensures found <==> id in index || id in device.state.loose
    {
      found := id in index || id in device.state.loose;
    }

    /** Read an artifact: its indexed frame, or else its loose file. */
    method Read(id: string) returns (r: Result<Option<V>, StoreError>)
      requires |id| >= 2
      ensures r == Reads(id)
    {
      if id !in index {
        return DecodeLoose(codec, LooseFile(device.state.loose, id));
      }
      var loc := index[id];
      var segments := device.state.segments;
      if loc.segment >= |segments| {
        return Err(Io);
      }
      var bytes := segments[loc.segment].bytes;
      if loc.offset + 4 + ID_LEN > |bytes| {
        return Err(Io);
      }
      var rawId := bytes[loc.offset + 4..loc.offset + 4 + ID_LEN];
      if HexEncode(rawId) != id {
        return Err(Misdirected);
      }
      if loc.offset + 4 + ID_LEN + loc.bodyLen > |bytes| {
        return Err(Io);
      }
      var body := bytes[loc.offset + 4 + ID_LEN..loc.offset + 4 + ID_LEN + loc.bodyLen];
      var json := codec.decompress(body);
      if json.None? {
        return Err(BodyCorrupt);
      }
      var value := codec.fromJson(json.value);
      return if value.None? then Err(Json) else Ok(value);
    }

    /** Write an artifact unless its id is stored: the first write wins. */
    method Write(id: string, artifact: V) returns (r: Result<bool, StoreError>)
      requires Valid() && Lawful(codec) && |id| >= 2
      modifies this, device
      ensures r != Ok(true) || Fits(codec, artifact) ==> Valid()
      ensures old(device.trace) <= device.trace
      ensures r == if id in old(index) || id in old(device.state).loose then Ok(false)
                   else if HexToRaw(id).Err? then Err(HexToRaw(id).error)
                   else Ok(true)
      ensures r != Ok(true) ==> index == old(index) && device.state == old(device.state)
      ensures forall x :: x != id ==> Reads(x) == old(Reads(x))
      ensures r == Ok(true) && |Body(codec, artifact)| < TWO_TO_THE_32 ==>
                Reads(id) == if IsLowerHex(id) then Ok(Some(artifact)) else Err(Misdirected)
      ensures AllLower(old(index)) ==> device.state == Written(codec, old(device.state), id, artifact)
      ensures AllLower(old(index)) && Canonical(id) ==> AllLower(index)
    {
      IndexIsSound(Data(device.state.segments), id);
      var found := Exists(id);
      if found {
        return Ok(false);
      }
      ghost var d, index0 := device.state, index;
      var packed := WritePacked(id, artifact);
      if packed.Err? {
        return Err(packed.error);
      }
      PackedReads(codec, d, index0, id, artifact, device.state, index);
      return Ok(true);
    }

    /** Every stored id; each once and nothing else exactly if every stray file bears a packed name. */
    method List() returns (ids: seq<string>)
      ensures forall id :: id in ids <==> id in index || id in device.state.loose || id in device.stray
      ensures Distinct(ids) && (forall id :: id in ids ==> id in index || id in device.state.loose)
              <==> forall id :: id in device.stray ==> id in index
    {
      ids := EnumerateSet(index.Keys);
      var found := device.ListLoose();
      CountListing(found, device.stray, device.state.loose);
      ghost var n := |device.state.loose|;
      var i := 0;
      while i < |found|
        invariant i <= |found| && ListedTo(ids, found, i, n, index)
      {
        ListNext(ids, found, i, n, index);
        if found[i] !in index {
          ids := ids + [found[i]];
        }
        i := i + 1;
      }
      assert found[..i] == found;
      ListedAll(ids, found, device.stray, device.state.loose, index);
    }

    /** Sync the active segment; with nothing appended since the open there is none to sync. */
    method Sync()
      requires Usable()
      modifies device
      ensures Usable()
      ensures device.state.loose == old(device.state).loose && device.state.unlinked == old(device.state).unlinked
      ensures device.trace == old(device.trace) || device.trace == old(device.trace) + [device.state]
      ensures writer.None? ==> device.state == old(device.state)
      ensures old(Valid()) ==> Valid() && AllDurable(device.state.segments)
      ensures old(Valid()) ==> device.state == Flushed(old(device.state))
      ensures old(Valid()) ==> forall x :: Reads(x) == old(Reads(x))
    {
      if Valid() {
        SyncKeepsFrames(device.state);
      }
      SyncLastKeepsBytes(device.state.segments);
      if writer.Some? {
        device.SyncAll(writer.value);
      }
    }

    /** The store is in order, and no loose artifact is too large to be packed. */
    ghost predicate Packing()
      reads this, device
    {
      Valid() && LooseFits(codec, device.state.loose)
    }

    /** Nothing that was safe from crashes in `start` has been put at risk since, and all ids are in lower
        case. */
    ghost predicate Careful(start: Disk, startTrace: seq<Disk>)
      reads this, device
    {
      AllLower(index) && Lossless(codec, start, startTrace, device.state, device.trace)
    }

    /** Pack the loose artifacts `ids` and read each back, before any loose file is touched. */
    method PackAll(ids: seq<string>) returns (r: Result<(nat, nat), StoreError>)
      requires Usable() && Lawful(codec)
      requires forall id :: id in device.state.loose ==> id in ids
      requires forall id :: id in ids ==> |id| >= 2
      modifies this, device
      ensures PackedFrom(old(index), old(device.state), old(device.trace), old(Packing()), r.Ok?)
      ensures r.Ok? ==> Counted(ids, |ids|, device.state.loose, old(index), r.value.0, r.value.1)
      ensures r.Ok? ==> forall id :: id in device.state.loose ==> id in index
    {
      StartIsLossless(codec, device.state, device.trace);
      ghost var index0, start, startTrace, packing := index, device.state, device.trace, Packing();
      var migrated, already := 0, 0;
      assert PackedTo(ids, 0, index0, start, startTrace, packing);
      var i := 0;
      while i < |ids|
        invariant PackedTo(ids, i, index0, start, startTrace, packing)
        invariant Counted(ids, i, start.loose, index0, migrated, already)
      {
        var packed := PackNext(ids, i, index0, start, startTrace, packing);
        if packed.Err? {
          return Err(packed.error);
        }
        CountedNext(ids, i, start.loose, index0, migrated, already, packed.value);
        match packed.value {
          case Some(true) => migrated := migrated + 1;
          case Some(false) => already := already + 1;
          case None =>
        }
        i := i + 1;
      }
      AllSeenTo(ids, i, index0, start, startTrace, packing);
      return Ok((migrated, already));
    }

    /** What reads answer is what they answered with the index `index0` on the disk `start`. */
    ghost predicate ReadsAs(index0: Index, start: Disk)
      reads this, device
    {
      forall x :: Reads(x) == ReadVia(codec, Data(start.segments), index0, start.loose, x)
    }

    /** How the packing of all loose artifacts leaves the store that had the index `index0`, the disk `start`
        and its trace. It is `ok` exactly if all of them can be packed. If it is, or has packed canonical names
        only, then reads answer what they answered and nothing that was safe is at risk. */
    ghost predicate PackedFrom(index0: Index, start: Disk, startTrace: seq<Disk>, packing: bool, ok: bool)
      reads this, device
    {
      && Usable() && device.state.loose == start.loose && device.state.unlinked == start.unlinked
      && (packing ==> Packing() && (ok <==> AllPackable(codec, index0, start.loose)))
      && (packing && (ok || NewAreCanonical(index0, start.loose)) ==> ReadsAs(index0, start))
      && (packing && (ok || NewAreCanonical(index0, start.loose)) && AllLower(index0) ==> Careful(start, startTrace))
    }

    /** The first `i` of the names are seen to, since the store had the index `index0` and the disk `start`. */
    ghost predicate PackedTo(ids: seq<string>, i: nat, index0: Index, start: Disk, startTrace: seq<Disk>, packing: bool)
      reads this, device
    {
      && i <= |ids| && Usable()
      && device.state.loose == start.loose && device.state.unlinked == start.unlinked
      && (forall x :: x in index <==> x in index0 || (x in ids[..i] && x in start.loose))
      && (packing ==> Packing() && PackableTo(codec, index0, start.loose, ids, i) && ReadsAs(index0, start))
      && (packing && AllLower(index0) ==> Careful(start, startTrace))
    }

    lemma AllSeenTo(ids: seq<string>, i: nat, index0: Index, start: Disk, startTrace: seq<Disk>, packing: bool)
      requires PackedTo(ids, i, index0, start, startTrace, packing) && i == |ids|
      requires forall id :: id in start.loose ==> id in ids
      ensures PackedFrom(index0, start, startTrace, packing, true)
      ensures forall id :: id in device.state.loose ==> id in index
    {
      assert ids[..i] == ids;
    }

    /** See to one name: `None` if it is that of a stray, else whether its artifact was packed now. */
    method PackNext(ids: seq<string>, i: nat, ghost index0: Index, ghost start: Disk, ghost startTrace: seq<Disk>,
                    ghost packing: bool)
      returns (r: Result<Option<bool>, StoreError>)
      requires Lawful(codec) && i < |ids| && |ids[i]| >= 2
      requires PackedTo(ids, i, index0, start, startTrace, packing)
      modifies this, device
      ensures r.Ok? ==> PackedTo(ids, i + 1, index0, start, startTrace, packing)
      ensures r.Ok? ==> (r.value.Some? <==> ids[i] in start.loose)
      ensures r.Ok? && r.value.Some? ==> (r.value.value <==> ids[i] !in index0 && ids[i] !in ids[..i])
      ensures r.Err? ==> PackedFrom(index0, start, startTrace, packing, false)
    {
      NextMember(ids, i);
      PackableNext(codec, index0, start.loose, ids, i);
      if ids[i] !in device.state.loose {
        return Ok(None);
      }
      PackableLater(codec, index0, index, device.state.loose, ids[i]);
      var packed := PackIfAbsent(ids[i], start, startTrace);
      if packed.Err? {
        return Err(packed.error);
      }
      assert forall x :: x in index <==> x in index0 || (x in ids[..i + 1] && x in start.loose);
      assert packing ==> ReadsAs(index0, start);
      return Ok(Some(packed.value));
    }

    /** Pack one loose artifact unless it is packed already; tells whether it packed it. */
    method PackIfAbsent(id: string, ghost start: Disk, ghost startTrace: seq<Disk>)
      returns (r: Result<bool, StoreError>)
      requires Usable() && Lawful(codec) && |id| >= 2 && id in device.state.loose
      modifies this, device
      ensures Usable()
      ensures device.state.loose == old(device.state).loose && device.state.unlinked == old(device.state).unlinked
      ensures r.Ok? ==> (r.value <==> id !in old(index))
      ensures codec.fromJson(device.state.loose[id]).None? ==> r == Err(Json)
      ensures r.Ok? ==> forall x :: x in index <==> x in old(index) || x == id
      ensures old(Packing()) ==> Packing()
      ensures old(Packing()) ==> (r.Ok? <==> Packable(codec, old(index), device.state.loose, id))
      ensures old(Packing()) && (id in old(index) || Canonical(id)) ==> forall x :: Reads(x) == old(Reads(x))
      ensures old(Packing()) && (id in old(index) || Canonical(id)) && old(Careful(start, startTrace)) ==>
                Careful(start, startTrace)
    {
      var value := codec.fromJson(device.state.loose[id]);
      if value.None? {
        return Err(Json);
      }
      if id in index {
        return Ok(false);
      }
      var packed := PackOne(id, value.value, start, startTrace);
      if packed.Err? {
        return Err(packed.error);
      }
      return Ok(true);
    }

    /** Pack one loose artifact and verify it by reading it back. The verification accepts every body whose
        length fits 32 bits, though the frame's length may not. */
    method PackOne(id: string, value: V, ghost start: Disk, ghost startTrace: seq<Disk>)
      returns (r: Result<(), StoreError>)
      requires Usable() && Lawful(codec)
      requires |id| >= 2 && id in device.state.loose && id !in index
      requires codec.fromJson(device.state.loose[id]) == Some(value)
      modifies this, device
      ensures Usable()
      ensures device.state.loose == old(device.state).loose && device.state.unlinked == old(device.state).unlinked
      ensures r.Ok? ==> forall x :: x in index <==> x in old(index) || x == id
      ensures r.Ok? ==> Reads(id) == Ok(Some(value))
      ensures old(Valid()) && |Body(codec, value)| < TWO_TO_THE_32 ==>
                (r.Ok? <==> HexToRaw(id).Ok? && IsLowerHex(id))
      ensures old(Valid()) && r.Ok? ==>
                Packs(codec, old(device.state), old(index), id, value, device.state, index)
      ensures old(Valid()) && Fits(codec, value) ==> Valid()
      ensures old(Valid()) && Fits(codec, value) && Canonical(id) ==> forall x :: Reads(x) == old(Reads(x))
      ensures old(Valid()) && Fits(codec, value) && Canonical(id) && old(Careful(start, startTrace)) ==>
                Careful(start, startTrace)
    {
      ghost var d, index0, valid := device.state, index, Valid();
      ghost var careful := Careful(start, startTrace);
      var packed := WritePacked(id, value);
      if packed.Err? {
        return Err(packed.error);
      }
      if valid {
        PackedReads(codec, d, index0, id, value, device.state, index);
        if Fits(codec, value) && careful && IsLowerHex(id) {
          PackingStepsAreSafe(codec, start, d, index0, id, value);
        }
      }
      var back := Read(id);
      return Verified(back, value);
    }

    /** Migrate every loose artifact into the segments: pack and verify all, sync, and only then
        remove the loose files. */
    method RepackLoose() returns (r: Result<(nat, nat), StoreError>)
      requires Usable() && Lawful(codec)
      requires forall id :: id in device.state.loose || id in device.stray ==> |id| >= 2
      modifies this, device
      ensures Usable()
      ensures r.Ok? ==> device.state.loose == map[]
      ensures r.Ok? ==> r.value.0 == |old(device.state).loose.Keys - old(index).Keys|
      ensures r.Ok? ==>
                r.value.0 + r.value.1 == |old(device.state).loose| + CountIn(device.stray, old(device.state).loose)
      ensures r.Err? ==> device.state.loose == old(device.state).loose
      ensures old(Packing()) ==> Valid()
      ensures old(Packing()) ==> (r.Ok? <==> AllPackable(codec, old(index), old(device.state).loose))
      ensures old(Packing()) && NewAreCanonical(old(index), old(device.state).loose) ==>
                forall x :: Reads(x) == old(Reads(x))
      ensures old(Packing()) && NewAreCanonical(old(index), old(device.state).loose) && AllLower(old(index)) ==>
                Lossless(codec, old(device.state), old(device.trace), device.state, device.trace)
      ensures old(Packing()) && r.Ok? && AllLower(old(index)) && old(device.state).unlinked == map[] ==>
                forall x :: Survives(codec, device.state, x, Reads(x))
    {
      var ids := device.ListLoose();
      ListingNames(ids, device.stray, device.state.loose);
      ghost var packing := Packing();
      r := PackAll(ids);
      if r.Err? {
        return;
      }
      CountedAll(ids, device.stray, device.state.loose, old(index), r.value.0, r.value.1);
      SyncLosslessly(old(device.state), old(device.trace));
      RemoveAll(ids, old(device.state), old(device.trace));
      assert device.state.loose == map[];
      if packing && AllLower(index) && old(device.state).unlinked == map[] {
        AllSettled(codec, device.state, index);
      }
    }

    method SyncLosslessly(ghost start: Disk, ghost startTrace: seq<Disk>)
      requires Usable()
      modifies device
      ensures Usable()
      ensures device.state.loose == old(device.state).loose && device.state.unlinked == old(device.state).unlinked
      ensures old(Valid()) ==> Valid() && AllDurable(device.state.segments)
      ensures old(Valid()) ==> forall x :: Reads(x) == old(Reads(x))
      ensures old(Valid()) && old(Careful(start, startTrace)) ==> Careful(start, startTrace)
    {
      if Valid() && Careful(start, startTrace) {
        FlushIsSafe(codec, start, device.state);
      }
      Sync();
    }

    /** Remove loose files; those whose artifacts are packed and durable are not missed. */
    method RemoveAll(ids: seq<string>, ghost start: Disk, ghost startTrace: seq<Disk>)
      requires Usable() && forall id :: id in ids && id in device.state.loose ==> id in index
      modifies device
      ensures Usable() && index == old(index) && old(device.trace) <= device.trace
      ensures device.state.segments == old(device.state).segments
      ensures forall x :: x in device.state.loose <==> x in old(device.state).loose && x !in ids
      ensures forall x :: x in device.state.unlinked ==> x in old(device.state).unlinked || x in index
      ensures old(Settled()) ==> Settled()
      ensures old(Settled()) ==> forall x :: Reads(x) == old(Reads(x))
      ensures old(Settled()) && old(Careful(start, startTrace)) ==> Careful(start, startTrace)
    {
      ghost var settled := Settled();
      var i := 0;
      while i < |ids|
        invariant i <= |ids|
        invariant Usable() && device.state.segments == old(device.state).segments
        invariant old(device.trace) <= device.trace
        invariant forall x :: x in device.state.loose <==> x in old(device.state).loose && x !in ids[..i]
        invariant forall x :: x in device.state.unlinked ==> x in old(device.state).unlinked || x in index
        invariant settled ==> Settled()
        invariant settled ==> forall x :: Reads(x) == old(Reads(x))
        invariant settled && old(Careful(start, startTrace)) ==> Careful(start, startTrace)
      {
        RemoveOne(ids[i], start, startTrace);
        assert ids[..i + 1] == ids[..i] + [ids[i]];
        i := i + 1;
      }
      assert ids[..i] == ids;
    }

    /** The store is in order and all its frames are durable. */
    ghost predicate Settled()
      reads this, device
    {
      Valid() && AllDurable(device.state.segments)
    }

    method RemoveOne(id: string, ghost start: Disk, ghost startTrace: seq<Disk>)
      requires Usable() && (id in device.state.loose ==> id in index)
      modifies device
      ensures Usable() && device.state.segments == old(device.state).segments
      ensures device.trace == old(device.trace) + [device.state]
      ensures forall x :: x in device.state.loose <==> x in old(device.state).loose && x != id
      ensures forall x :: x in device.state.unlinked ==> x in old(device.state).unlinked || x in index
      ensures old(Settled()) ==> Settled()
      ensures old(Settled()) ==> forall x :: Reads(x) == old(Reads(x))
      ensures old(Settled()) && old(Careful(start, startTrace)) ==> Careful(start, startTrace)
    {
      if Settled() {
        UnlinkKeepsSound(device.state, id);
        if Careful(start, startTrace) && id in device.state.loose {
          IndexedHasFrame(Data(device.state.segments), index, id);
          UnlinkIsSafe(codec, start, device.state, id);
        }
      }
      device.RemoveLoose(id);
    }
  }
}
