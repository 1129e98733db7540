/** The disk under a pack store, and what a crash may leave of it: per segment, any start of its
    bytes that holds at least the synced part; a created but unsynced last segment may be missing;
    an unlinked loose file may be back. Opening the store on what is left reads the value that the
    last surviving frame, or else the loose file, holds. */
module PackDisk {
  import opened Common
  import opened Bytes
  import opened Frames
  import opened PackIndex

  // ---- the artifact codec ----

  /** JSON text and zstd frames, left abstract. */
  datatype Codec<!V> = Codec(
    toJson: V -> seq<byte>,
    fromJson: seq<byte> -> Option<V>,
    compress: seq<byte> -> seq<byte>,
    decompress: seq<byte> -> Option<seq<byte>>)

  ghost predicate Lawful<V(!new)>(c: Codec<V>) {
    && (forall v :: c.fromJson(c.toJson(v)) == Some(v))
    && (forall b :: c.decompress(c.compress(b)) == Some(b) && |c.compress(b)| > 0)
  }

  function Body<V>(c: Codec<V>, v: V): seq<byte> {
    c.compress(c.toJson(v))
  }

  /** The compressed artifact fits a frame's 32-bit length. */
  predicate Fits<V>(c: Codec<V>, v: V) {
    ID_LEN + |Body(c, v)| < TWO_TO_THE_32
  }

  function DecodeBody<V>(c: Codec<V>, body: seq<byte>): Result<Option<V>, StoreError> {
    match c.decompress(body)
    case None => Err(BodyCorrupt)
    case Some(json) => DecodeLoose(c, Some(json))
  }

  /** A loose file's content, if there is one. */
  function DecodeLoose<V>(c: Codec<V>, file: Option<seq<byte>>): Result<Option<V>, StoreError> {
    if file.None? then Ok(None)
    else
      match c.fromJson(file.value)
      case None => Err(Json)
      case Some(v) => Ok(Some(v))
  }

  // ---- the disk ----

  datatype Segment = Segment(bytes: seq<byte>, durable: nat)

  /** `unlinked` are the loose files whose removal a crash may still undo. */
  datatype Disk = Disk(segments: seq<Segment>, loose: map<string, seq<byte>>, unlinked: map<string, seq<byte>>)

  function Data(segments: seq<Segment>): (data: Segments)
    ensures |data| == |segments|
    ensures forall i :: 0 <= i < |segments| ==> data[i] == segments[i].bytes
  {
    seq(|segments|, i requires 0 <= i < |segments| => segments[i].bytes)
  }

  function Synced(s: Segment): Segment {
    Segment(s.bytes, |s.bytes|)
  }

  predicate AllDurable(segments: seq<Segment>) {
    forall i {:trigger Synced(segments[i])} :: 0 <= i < |segments| ==> segments[i] == Synced(segments[i])
  }

  /** Segments hold legal frames only, and every one but the last is wholly durable. */
  predicate Sound(d: Disk) {
    && AllWhole(Data(d.segments))
    && d.loose.Keys !! d.unlinked.Keys
    && (d.segments != [] ==>
          && AllDurable(d.segments[..|d.segments| - 1])
          && d.segments[|d.segments| - 1].durable <= |d.segments[|d.segments| - 1].bytes|)
  }

  /** `loose` holds the loose files of `d` and perhaps some whose removal was not yet durable. */
  predicate LooseSurvives(d: Disk, loose: map<string, seq<byte>>) {
    && (forall id :: id in d.loose ==> id in loose && loose[id] == d.loose[id])
    && (forall id :: id in loose && id !in d.loose ==> id in d.unlinked && loose[id] == d.unlinked[id])
  }

  predicate SegmentSurvives(s: Segment, s': Segment) {
    s'.bytes <= s.bytes && s.durable <= |s'.bytes| && s' == Synced(s')
  }

  predicate SegmentsSurvive(a: seq<Segment>, b: seq<Segment>) {
    && (|b| == |a| || (|b| + 1 == |a| && a[|b|].durable == 0))
    && forall i :: 0 <= i < |b| ==> SegmentSurvives(a[i], b[i])
  }

  /** A crash in state `d` may leave `c`. Bytes found after it count as durable. */
  predicate CrashOf(d: Disk, c: Disk) {
    SegmentsSurvive(d.segments, c.segments) && LooseSurvives(d, c.loose) && c.unlinked == map[]
  }

  // ---- opening and reading ----

  /** What `open` leaves of a segment: its legal frames. */
  function Recovered(segments: seq<Segment>): (r: seq<Segment>)
    ensures |r| == |segments|
  {
    seq(|segments|, i requires 0 <= i < |segments| => Synced(Segment(EncodeAll(Parse(segments[i].bytes)), 0)))
  }

  /** The store's read: the indexed frame, else the loose file. */
  function ReadVia<V>(c: Codec<V>, segs: Segments, index: Index, loose: map<string, seq<byte>>, id: string)
    : Result<Option<V>, StoreError>
  {
    if id in index then
      match ReadAt(segs, index[id], id)
      case Err(e) => Err(e)
      case Ok(body) => DecodeBody(c, body)
    else DecodeLoose(c, LooseFile(loose, id))
  }

  function LooseFile(loose: map<string, seq<byte>>, id: string): Option<seq<byte>> {
    if id in loose then Some(loose[id]) else None
  }

  /** What a store opened on `d` reads for `id`. */
  function ReadOpened<V>(c: Codec<V>, d: Disk, id: string): Result<Option<V>, StoreError> {
    var segs := Data(Recovered(d.segments));
    ReadVia(c, segs, IndexOf(segs), d.loose, id)
  }

  /** The same, said on the frames: the last frame under `id` wins, else the loose file. */
  function View<V>(c: Codec<V>, fs: seq<Frame>, file: Option<seq<byte>>, id: string): Result<Option<V>, StoreError> {
    if LastBody(fs, id).Some? then DecodeBody(c, LastBody(fs, id).value) else DecodeLoose(c, file)
  }

  lemma ReadIsView<V>(c: Codec<V>, segs: Segments, loose: map<string, seq<byte>>, id: string)
    requires AllWhole(segs)
    ensures ReadVia(c, segs, IndexOf(segs), loose, id) == View(c, FramesOf(segs), LooseFile(loose, id), id)
  {
    IndexIsSound(segs, id);
    if id in IndexOf(segs) {
      ReadIndexed(segs, id);
    }
  }

  lemma FramesOfSnoc(segments: seq<Segment>, last: Segment)
    ensures FramesOf(Data(segments + [last])) == FramesOf(Data(segments)) + Parse(last.bytes)
  {
    assert Data(segments + [last])[..|segments|] == Data(segments);
  }

  lemma {:induction false} FramesOfRecovered(segments: seq<Segment>)
    ensures AllWhole(Data(Recovered(segments)))
    ensures FramesOf(Data(Recovered(segments))) == FramesOf(Data(segments))
    decreases |segments|
  {
    if segments != [] {
      var n := |segments| - 1;
      FramesOfRecovered(segments[..n]);
      ParseIsIdempotent(segments[n].bytes);
      assert Data(segments)[..n] == Data(segments[..n]);
      assert Data(Recovered(segments))[..n] == Data(Recovered(segments[..n]));
      forall i | 0 <= i < |segments| ensures Whole(Data(Recovered(segments))[i]) {
        ParseIsIdempotent(segments[i].bytes);
      }
    }
  }

  lemma ReadOpenedIsView<V>(c: Codec<V>, d: Disk, id: string)
    ensures ReadOpened(c, d, id) == View(c, FramesOf(Data(d.segments)), LooseFile(d.loose, id), id)
  {
    FramesOfRecovered(d.segments);
    ReadIsView(c, Data(Recovered(d.segments)), d.loose, id);
  }

  /** Opening a sound disk cuts nothing. */
  lemma RecoveredSound(segments: seq<Segment>)
    requires AllWhole(Data(segments)) && AllDurable(segments)
    ensures Recovered(segments) == segments
  {
    forall i | 0 <= i < |segments| ensures Recovered(segments)[i] == segments[i] {
      assert Whole(Data(segments)[i]) && segments[i] == Synced(segments[i]);
    }
  }

  // ---- what a crash keeps ----

  /** The number of frames that every crash keeps. */
  function DurableCount(segments: seq<Segment>): nat
    requires segments != [] ==> segments[|segments| - 1].durable <= |segments[|segments| - 1].bytes|
  {
    if segments == [] then 0
    else
      var last := segments[|segments| - 1];
      |FramesOf(Data(segments[..|segments| - 1]))| + |Parse(last.bytes[..last.durable])|
  }

  function FrameList(d: Disk): seq<Frame> {
    FramesOf(Data(d.segments))
  }

  /** After any crash exactly the frames wholly before the cut are found: a prefix of all frames
      ever written, and at least the durable ones. */
  lemma CrashKeepsPrefix(d: Disk, c: Disk)
    requires Sound(d) && CrashOf(d, c)
    ensures FrameList(c) <= FrameList(d)
    ensures DurableCount(d.segments) <= |FrameList(c)|
  {
    if d.segments != [] {
      var n := |d.segments| - 1;
      var last := d.segments[n];
      SplitLast(d.segments);
      FramesOfSnoc(d.segments[..n], last);
      CrashKeepsEarlier(d, c);
      if |c.segments| == n {
        assert c.segments[..n] == c.segments;
        assert Parse(last.bytes[..0]) == [];
      } else {
        CrashKeepsLast(d, c);
      }
    }
  }

  lemma CrashKeepsLast(d: Disk, c: Disk)
    requires Sound(d) && CrashOf(d, c) && d.segments != [] && |c.segments| == |d.segments|
    ensures var n := |d.segments| - 1;
            && Parse(c.segments[n].bytes) <= Parse(d.segments[n].bytes)
            && |Parse(d.segments[n].bytes[..d.segments[n].durable])| <= |Parse(c.segments[n].bytes)|
            && FrameList(c) == FramesOf(Data(c.segments[..n])) + Parse(c.segments[n].bytes)
  {
    var n := |d.segments| - 1;
    SplitLast(c.segments);
    FramesOfSnoc(c.segments[..n], c.segments[n]);
    assert SegmentSurvives(d.segments[n], c.segments[n]);
    CutKeepsPrefix(d.segments[n], c.segments[n]);
  }

  lemma SplitLast<T>(s: seq<T>)
    requires s != []
    ensures s == s[..|s| - 1] + [s[|s| - 1]]
  {
  }

  /** All but the last segment come through a crash whole. */
  lemma CrashKeepsEarlier(d: Disk, c: Disk)
    requires Sound(d) && CrashOf(d, c) && d.segments != []
    ensures var n := |d.segments| - 1; n <= |c.segments| && Data(c.segments[..n]) == Data(d.segments[..n])
  {
    var n := |d.segments| - 1;
    forall i | 0 <= i < n ensures c.segments[i].bytes == d.segments[i].bytes {
      assert d.segments[..n][i] == Synced(d.segments[..n][i]);
      assert SegmentSurvives(d.segments[i], c.segments[i]);
    }
  }

  lemma CutKeepsPrefix(s: Segment, s': Segment)
    requires s.durable <= |s.bytes| && SegmentSurvives(s, s')
    ensures Parse(s'.bytes) <= Parse(s.bytes)
    ensures |Parse(s.bytes[..s.durable])| <= |Parse(s'.bytes)|
  {
    var cut := |s'.bytes|;
    assert s'.bytes == s.bytes[..cut];
    ParseAfterCut(s.bytes, cut);
    ParseAfterCut(s.bytes[..cut], s.durable);
    assert s.bytes[..cut][..s.durable] == s.bytes[..s.durable];
  }

  /** A byte at or beyond the durable length where a cut leaves exactly `j` frames. */
  lemma CutForFrames(s: seq<byte>, durable: nat, j: nat) returns (cut: nat)
    requires durable <= |s| && |Parse(s[..durable])| <= j <= |Parse(s)|
    ensures durable <= cut <= |s| && Parse(s[..cut]) == Parse(s)[..j]
  {
    var fs := Parse(s);
    ParseIsPrefix(s);
    EncodeAllMonotone(fs, j);
    cut := if Offset(fs, j) < durable then durable else Offset(fs, j);
    ParseAfterCut(s, durable);
    ParseAfterCut(s, cut);
    assert |EncodeAll(fs[..j])| == Offset(fs, j);
    if j < |fs| {
      FrameAt(fs, j);
      assert |EncodeAll(fs[..j + 1])| == Offset(fs, j + 1);
    }
  }

  lemma CutLast(d: Disk, cut: nat, loose: map<string, seq<byte>>) returns (c: Disk)
    requires Sound(d) && d.segments != [] && LooseSurvives(d, loose)
    requires var last := d.segments[|d.segments| - 1]; last.durable <= cut <= |last.bytes|
    ensures CrashOf(d, c) && c.loose == loose
    ensures FrameList(c) == FramesOf(Data(d.segments[..|d.segments| - 1]))
                            + Parse(d.segments[|d.segments| - 1].bytes[..cut])
  {
    var n := |d.segments| - 1;
    var tail := Segment(d.segments[n].bytes[..cut], cut);
    c := Disk(d.segments[..n] + [tail], loose, map[]);
    forall i | 0 <= i < |c.segments| ensures SegmentSurvives(d.segments[i], c.segments[i]) {
      if i < n {
        assert d.segments[..n][i] == Synced(d.segments[..n][i]);
      }
    }
    FramesOfSnoc(d.segments[..n], tail);
  }

  /** And every such prefix is the outcome of some crash. */
  lemma CrashAtFrame(d: Disk, k: nat, loose: map<string, seq<byte>>) returns (c: Disk)
    requires Sound(d) && DurableCount(d.segments) <= k <= |FrameList(d)|
    requires LooseSurvives(d, loose)
    ensures CrashOf(d, c) && FrameList(c) == FrameList(d)[..k] && c.loose == loose
  {
    if d.segments == [] {
      return Disk([], loose, map[]);
    }
    var n := |d.segments| - 1;
    var last, before := d.segments[n], FramesOf(Data(d.segments[..n]));
    assert Data(d.segments)[..n] == Data(d.segments[..n]);
    var cut := CutForFrames(last.bytes, last.durable, k - |before|);
    c := CutLast(d, cut, loose);
    PrefixOfConcat(before, Parse(last.bytes), k);
  }

  lemma PrefixOfConcat<T>(a: seq<T>, b: seq<T>, k: nat)
    requires |a| <= k <= |a| + |b|
    ensures (a + b)[..k] == a + b[..k - |a|]
  {
  }
}
