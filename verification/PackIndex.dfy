/** The in-memory index of a pack store, as a function of the segment bytes: what the header scan
    builds on open, and where its entries lead. */
module PackIndex {
  import opened Common
  import opened Bytes
  import opened Frames

  type Segments = seq<seq<byte>>

  datatype FrameLoc = FrameLoc(segment: nat, offset: nat, bodyLen: nat)

  type Index = map<string, FrameLoc>

  datatype StoreError =
    | Io
    | Json
    | NotHex
    | NotAHash
    | Misdirected
    | BodyCorrupt
    | Unreadable
    | NoRoundTrip

  predicate AllWhole(segs: Segments) {
    forall i {:trigger Whole(segs[i])} :: 0 <= i < |segs| ==> Whole(segs[i])
  }

  /** Every frame of the store, oldest first. */
  function FramesOf(segs: Segments): seq<Frame> {
    if segs == [] then [] else FramesOf(segs[..|segs| - 1]) + Parse(segs[|segs| - 1])
  }

  // ---- building the index ----

  /** Enter the frames of one segment, in order; a later frame replaces an earlier one. */
  function IndexFrames(index: Index, segment: nat, fs: seq<Frame>): Index {
    if fs == [] then index
    else
      var n := |fs| - 1;
      IndexFrames(index, segment, fs[..n])
        [HexEncode(fs[n].raw) := FrameLoc(segment, Offset(fs, n), |fs[n].body|)]
  }

  function IndexOf(segs: Segments): Index {
    if segs == [] then map[]
    else
      var n := |segs| - 1;
      IndexFrames(IndexOf(segs[..n]), n, Parse(segs[n]))
  }

  /** The last frame with the given id. */
  function LastAt(fs: seq<Frame>, id: string): (k: Option<nat>)
    ensures k.Some? ==> k.value < |fs| && HexEncode(fs[k.value].raw) == id
  {
    if fs == [] then None
    else if HexEncode(fs[|fs| - 1].raw) == id then Some(|fs| - 1)
    else LastAt(fs[..|fs| - 1], id)
  }

  function LastBody(fs: seq<Frame>, id: string): Option<seq<byte>> {
    var k := LastAt(fs, id);
    if k.Some? then Some(fs[k.value].body) else None
  }

  lemma {:induction false} IndexFramesEntries(index: Index, segment: nat, fs: seq<Frame>, id: string)
    ensures id in IndexFrames(index, segment, fs) <==> id in index || LastAt(fs, id).Some?
    ensures LastAt(fs, id).Some? ==>
              var k := LastAt(fs, id).value;
              IndexFrames(index, segment, fs)[id] == FrameLoc(segment, Offset(fs, k), |fs[k].body|)
    ensures LastAt(fs, id).None? && id in index ==> IndexFrames(index, segment, fs)[id] == index[id]
    decreases |fs|
  {
    if fs != [] {
      var n := |fs| - 1;
      IndexFramesEntries(index, segment, fs[..n], id);
      var k := LastAt(fs[..n], id);
      if k.Some? {
        assert fs[..n][..k.value] == fs[..k.value];
      }
    }
  }

  lemma {:induction false} LastBodyConcat(a: seq<Frame>, b: seq<Frame>, id: string)
    ensures LastBody(a + b, id) == if LastBody(b, id).Some? then LastBody(b, id) else LastBody(a, id)
    decreases |b|
  {
    if b == [] {
      assert a + b == a;
    } else {
      var n := |b| - 1;
      LastBodyConcat(a, b[..n], id);
      assert (a + b)[..|a + b| - 1] == a + b[..n];
    }
  }

  // ---- reading through the index ----

  /** The body that a read at `loc` returns, after its check of the embedded id. */
  function ReadAt(segs: Segments, loc: FrameLoc, id: string): Result<seq<byte>, StoreError> {
    if loc.segment >= |segs| || loc.offset + 4 + ID_LEN > |segs[loc.segment]| then Err(Io)
    else
      var s := segs[loc.segment];
      if HexEncode(RawAt(s, loc.offset)) != id then Err(Misdirected)
      else if loc.offset + 4 + ID_LEN + loc.bodyLen > |s| then Err(Io)
      else Ok(BodyAt(s, loc.offset, loc.bodyLen))
  }

  /** `loc` is frame `k` of its segment, and that frame carries the id that `id` spells. */
  predicate LocatesFrame(segs: Segments, id: string, loc: FrameLoc, k: nat) {
    && loc.segment < |segs|
    && k < |Parse(segs[loc.segment])|
    && var fs := Parse(segs[loc.segment]);
       && loc.offset == Offset(fs, k) && loc.bodyLen == |fs[k].body|
       && HexDecode(id) == Some(fs[k].raw)
  }

  ghost predicate Locates(segs: Segments, id: string, loc: FrameLoc) {
    exists k: nat :: LocatesFrame(segs, id, loc, k)
  }

  lemma SpelledId(id: string, raw: seq<byte>)
    requires HexDecode(id) == Some(raw)
    ensures HexEncode(raw) == id <==> IsLowerHex(id)
  {
    HexTextRoundTrip(id);
  }

  /** A located frame is read in full; the id check fails exactly on an id that is not written
      in lower case. */
  lemma ReadLocated(segs: Segments, id: string, loc: FrameLoc, k: nat)
    requires AllWhole(segs) && LocatesFrame(segs, id, loc, k)
    ensures ReadAt(segs, loc, id) ==
            if IsLowerHex(id) then Ok(Parse(segs[loc.segment])[k].body) else Err(Misdirected)
  {
    FrameIn(segs[loc.segment], k, loc.offset);
    SpelledId(id, Parse(segs[loc.segment])[k].raw);
  }

  /** The scan enters exactly the ids of the frames; each entry leads to the last frame with that
      id, inside its segment. */
  lemma {:induction false} IndexIsSound(segs: Segments, id: string)
    ensures id in IndexOf(segs) <==> LastBody(FramesOf(segs), id).Some?
    ensures id in IndexOf(segs) ==>
              var loc := IndexOf(segs)[id];
              && loc.segment < |segs| && LastAt(Parse(segs[loc.segment]), id).Some?
              && LocatesFrame(segs, id, loc, LastAt(Parse(segs[loc.segment]), id).value)
              && LastBody(FramesOf(segs), id) == LastBody(Parse(segs[loc.segment]), id)
    decreases |segs|
  {
    if segs != [] {
      var n := |segs| - 1;
      var fs := Parse(segs[n]);
      IndexIsSound(segs[..n], id);
      IndexFramesEntries(IndexOf(segs[..n]), n, fs, id);
      LastBodyConcat(FramesOf(segs[..n]), fs, id);
      if LastAt(fs, id).Some? {
        HexRoundTrip(fs[LastAt(fs, id).value].raw);
      }
    }
  }

  /** Reading an indexed id yields the body of the last frame written under it: a store whose
      index was scanned never reports a misdirected frame. */
  lemma ReadIndexed(segs: Segments, id: string)
    requires AllWhole(segs) && id in IndexOf(segs)
    ensures LastBody(FramesOf(segs), id).Some? && IsLowerHex(id)
    ensures ReadAt(segs, IndexOf(segs)[id], id) == Ok(LastBody(FramesOf(segs), id).value)
  {
    IndexIsSound(segs, id);
    var loc := IndexOf(segs)[id];
    var k := LastAt(Parse(segs[loc.segment]), id).value;
    HexRoundTrip(Parse(segs[loc.segment])[k].raw);
    ReadLocated(segs, id, loc, k);
  }

  /** The byte ranges of two different indexed ids do not meet. */
  lemma IndexedFramesAreDisjoint(segs: Segments, a: string, b: string)
    requires a in IndexOf(segs) && b in IndexOf(segs) && a != b
    requires IndexOf(segs)[a].segment == IndexOf(segs)[b].segment
    ensures var x, y := IndexOf(segs)[a], IndexOf(segs)[b];
            || x.offset + 4 + ID_LEN + x.bodyLen <= y.offset
            || y.offset + 4 + ID_LEN + y.bodyLen <= x.offset
  {
    IndexIsSound(segs, a);
    IndexIsSound(segs, b);
    var fs := Parse(segs[IndexOf(segs)[a].segment]);
    ParseIsPrefix(segs[IndexOf(segs)[a].segment]);
    var j, k := LastAt(fs, a).value, LastAt(fs, b).value;
    if j < k {
      OffsetsAreDisjoint(fs, j, k);
    } else {
      OffsetsAreDisjoint(fs, k, j);
    }
  }

  // ---- growing ----

  /** Append one frame to the last segment. */
  lemma IndexAfterAppend(segs: Segments, segs': Segments, f: Frame)
    requires AllWhole(segs) && Legal(f) && segs != []
    requires segs' == segs[|segs| - 1 := segs[|segs| - 1] + Encode(f)]
    ensures AllWhole(segs')
    ensures FramesOf(segs') == FramesOf(segs) + [f]
    ensures IndexOf(segs') == IndexOf(segs)
              [HexEncode(f.raw) := FrameLoc(|segs| - 1, |segs[|segs| - 1]|, |f.body|)]
    ensures forall id, loc :: Locates(segs, id, loc) ==> Locates(segs', id, loc)
  {
    var n := |segs| - 1;
    var fs := Parse(segs[n]);
    WholeAppend(segs[n], f);
    assert segs'[..n] == segs[..n];
    assert (fs + [f])[..|fs|] == fs;
    Associative(FramesOf(segs[..n]), fs, [f]);
    forall id, loc | Locates(segs, id, loc) ensures Locates(segs', id, loc) {
      var k: nat :| LocatesFrame(segs, id, loc, k);
      if loc.segment == n {
        assert (fs + [f])[..k] == fs[..k];
      }
      assert LocatesFrame(segs', id, loc, k);
    }
  }

  /** An empty new segment changes neither the frames nor the index. */
  lemma IndexAfterRoll(segs: Segments)
    requires AllWhole(segs)
    ensures AllWhole(segs + [[]])
    ensures FramesOf(segs + [[]]) == FramesOf(segs) && IndexOf(segs + [[]]) == IndexOf(segs)
    ensures forall id, loc :: Locates(segs, id, loc) ==> Locates(segs + [[]], id, loc)
  {
    assert (segs + [[]])[..|segs|] == segs;
    assert FramesOf(segs) + [] == FramesOf(segs);
    forall id, loc | Locates(segs, id, loc) ensures Locates(segs + [[]], id, loc) {
      var k: nat :| LocatesFrame(segs, id, loc, k);
      assert LocatesFrame(segs + [[]], id, loc, k);
    }
  }
}
