/** The frame format of a pack segment, `[u32 length][32-byte id][body]`, printed and parsed
    (ekos/crates/artifact/src/pack.rs). Parsing stops at the first tail that is no legal frame. */
module Frames {
  import opened Common
  import opened Bytes

  const ID_LEN := 32
  const MIN_FRAME_LEN := ID_LEN + 1

  datatype Frame = Frame(raw: seq<byte>, body: seq<byte>)

  /** A 32-byte id, a non-empty body, and a length that fits its 32-bit field. */
  predicate Legal(f: Frame) {
    |f.raw| == ID_LEN && |f.body| > 0 && ID_LEN + |f.body| < TWO_TO_THE_32
  }

  predicate AllLegal(fs: seq<Frame>) {
    forall i :: 0 <= i < |fs| ==> Legal(fs[i])
  }

  /** The length field is a cast to 32 bits, so it wraps on a body too long for it. */
  function Encode(f: Frame): seq<byte> {
    ToLE((ID_LEN + |f.body|) % TWO_TO_THE_32, 4) + f.raw + f.body
  }

  function EncodeAll(fs: seq<Frame>): seq<byte> {
    if fs == [] then [] else EncodeAll(fs[..|fs| - 1]) + Encode(fs[|fs| - 1])
  }

  /** The length field of the frame that starts `s`. */
  function HeadLen(s: seq<byte>): int
    requires |s| >= 4
  {
    FromLE(s[..4])
  }

  predicate StartsWithFrame(s: seq<byte>) {
    |s| >= 4 && HeadLen(s) >= MIN_FRAME_LEN && 4 + HeadLen(s) <= |s|
  }

  function HeadFrame(s: seq<byte>): Frame
    requires StartsWithFrame(s)
  {
    Frame(s[4..4 + ID_LEN], s[4 + ID_LEN..4 + HeadLen(s)])
  }

  function Parse(s: seq<byte>): seq<Frame> {
    if StartsWithFrame(s) then [HeadFrame(s)] + Parse(s[4 + HeadLen(s)..]) else []
  }

  /** The segment holds legal frames and nothing else. */
  predicate Whole(s: seq<byte>) {
    EncodeAll(Parse(s)) == s
  }

  // ---- printing and parsing undo each other ----

  lemma {:induction false} EncodeAllSnoc(fs: seq<Frame>, f: Frame)
    ensures EncodeAll(fs + [f]) == EncodeAll(fs) + Encode(f)
  {
    assert (fs + [f])[..|fs|] == fs;
  }

  lemma {:induction false} EncodeAllConcat(a: seq<Frame>, b: seq<Frame>)
    ensures EncodeAll(a + b) == EncodeAll(a) + EncodeAll(b)
    decreases |b|
  {
    if b == [] {
      assert a + b == a;
      assert EncodeAll(a) + [] == EncodeAll(a);
    } else {
      var b', f := b[..|b| - 1], b[|b| - 1];
      EncodeAllConcat(a, b');
      EncodeAllSnoc(a + b', f);
      assert b == b' + [f];
      Associative(a, b', [f]);
      Associative(EncodeAll(a), EncodeAll(b'), Encode(f));
    }
  }

  lemma EncodeOne(f: Frame)
    ensures EncodeAll([f]) == Encode(f)
  {
    assert [f][..0] == [];
    assert EncodeAll([f]) == EncodeAll([]) + Encode(f);
  }

  lemma ParseEncodedHead(f: Frame, rest: seq<byte>)
    requires Legal(f)
    ensures StartsWithFrame(Encode(f) + rest)
    ensures HeadLen(Encode(f) + rest) == ID_LEN + |f.body|
    ensures HeadFrame(Encode(f) + rest) == f
    ensures (Encode(f) + rest)[4 + ID_LEN + |f.body|..] == rest
  {
    var s := Encode(f) + rest;
    var n := ID_LEN + |f.body|;
    assert n % TWO_TO_THE_32 == n;
    assert s[..4] == ToLE(n, 4);
    FourBytes();
    LERoundTrip(n, 4);
    assert s[4..4 + ID_LEN] == f.raw;
    assert s[4 + ID_LEN..4 + n] == f.body;
  }

  lemma EncodeParsedHead(s: seq<byte>)
    requires StartsWithFrame(s)
    ensures Legal(HeadFrame(s))
    ensures Encode(HeadFrame(s)) == s[..4 + HeadLen(s)]
  {
    FourBytes();
    FromLEInRange(s[..4]);
    var f := HeadFrame(s);
    assert ID_LEN + |f.body| == HeadLen(s);
    assert s[..4 + HeadLen(s)] == s[..4] + f.raw + f.body;
  }

  lemma ParseCons(f: Frame, rest: seq<byte>)
    requires Legal(f)
    ensures Parse(Encode(f) + rest) == [f] + Parse(rest)
  {
    ParseEncodedHead(f, rest);
  }

  lemma {:induction false} EncodeAllCons(fs: seq<Frame>)
    requires fs != []
    ensures EncodeAll(fs) == Encode(fs[0]) + EncodeAll(fs[1..])
  {
    assert fs == [fs[0]] + fs[1..];
    EncodeAllConcat([fs[0]], fs[1..]);
    EncodeOne(fs[0]);
  }

  lemma EncodeAllConsThen(fs: seq<Frame>, tail: seq<byte>)
    requires fs != []
    ensures EncodeAll(fs) + tail == Encode(fs[0]) + (EncodeAll(fs[1..]) + tail)
  {
    EncodeAllCons(fs);
    Associative(Encode(fs[0]), EncodeAll(fs[1..]), tail);
  }

  lemma ConsThen<T>(s: seq<T>, tail: seq<T>)
    requires s != []
    ensures [s[0]] + (s[1..] + tail) == s + tail
  {
  }

  /** Legal frames are read back as they were written, whatever follows them. */
  lemma {:induction false} ParseAfterFrames(fs: seq<Frame>, tail: seq<byte>)
    requires AllLegal(fs)
    ensures Parse(EncodeAll(fs) + tail) == fs + Parse(tail)
    decreases |fs|
  {
    if fs == [] {
      assert EncodeAll(fs) + tail == tail;
      assert fs + Parse(tail) == Parse(tail);
    } else {
      ParseAfterFrames(fs[1..], tail);
      EncodeAllConsThen(fs, tail);
      ParseCons(fs[0], EncodeAll(fs[1..]) + tail);
      ConsThen(fs, Parse(tail));
    }
  }

  lemma ParseEncoded(fs: seq<Frame>)
    requires AllLegal(fs)
    ensures Parse(EncodeAll(fs)) == fs && Whole(EncodeAll(fs))
  {
    ParseAfterFrames(fs, []);
    assert EncodeAll(fs) + [] == EncodeAll(fs);
    assert fs + Parse([]) == fs;
  }

  lemma SplitTwice<T>(s: seq<T>, head: nat, n: nat)
    requires head + n <= |s|
    ensures s[..head] + s[head..][..n] == s[..head + n] && s[head + n..] == s[head..][n..]
  {
  }

  lemma EncodedIsStart(s: seq<byte>, fs: seq<Frame>, head: nat, n: nat)
    requires fs != [] && head + n <= |s|
    requires Encode(fs[0]) == s[..head] && EncodeAll(fs[1..]) == s[head..][..n]
    ensures EncodeAll(fs) == s[..head + n]
  {
    EncodeAllCons(fs);
    SplitTwice(s, head, n);
  }

  lemma ParseTail(s: seq<byte>)
    requires StartsWithFrame(s)
    ensures Parse(s) != [] && Parse(s)[0] == HeadFrame(s) && Parse(s)[1..] == Parse(s[4 + HeadLen(s)..])
  {
  }

  lemma {:induction false} ParsedAreLegal(s: seq<byte>)
    ensures AllLegal(Parse(s))
    decreases |s|
  {
    if StartsWithFrame(s) {
      ParsedAreLegal(s[4 + HeadLen(s)..]);
      EncodeParsedHead(s);
    }
  }

  lemma {:induction false} ParsedIsStart(s: seq<byte>) returns (n: nat)
    ensures n <= |s| && EncodeAll(Parse(s)) == s[..n] && !StartsWithFrame(s[n..])
    decreases |s|
  {
    if StartsWithFrame(s) {
      var head := 4 + HeadLen(s);
      var rest := s[head..];
      var m := ParsedIsStart(rest);
      EncodeParsedHead(s);
      ParseTail(s);
      EncodedIsStart(s, Parse(s), head, m);
      n := head + m;
      assert s[n..] == rest[m..];
    } else {
      n := 0;
      assert s[0..] == s;
    }
  }

  /** Whatever the bytes, parsing yields legal frames that make up the start of them, and stops
      where no further frame starts. */
  lemma ParseIsPrefix(s: seq<byte>)
    ensures AllLegal(Parse(s))
    ensures EncodeAll(Parse(s)) <= s
    ensures !StartsWithFrame(s[|EncodeAll(Parse(s))|..])
  {
    ParsedAreLegal(s);
    var n := ParsedIsStart(s);
  }

  /** Parsing keeps the longest start of the bytes that splits into legal frames. */
  lemma ParseIsLongest(s: seq<byte>, fs: seq<Frame>)
    requires AllLegal(fs) && EncodeAll(fs) <= s
    ensures fs <= Parse(s)
  {
    var tail := s[|EncodeAll(fs)|..];
    assert s == EncodeAll(fs) + tail;
    ParseAfterFrames(fs, tail);
  }

  /** Truncating at the end of the last legal frame changes nothing on a second scan. */
  lemma ParseIsIdempotent(s: seq<byte>)
    ensures Parse(EncodeAll(Parse(s))) == Parse(s)
    ensures Whole(EncodeAll(Parse(s)))
  {
    ParseIsPrefix(s);
    ParseEncoded(Parse(s));
  }

  lemma WholeAppend(s: seq<byte>, f: Frame)
    requires Whole(s) && Legal(f)
    ensures Parse(s + Encode(f)) == Parse(s) + [f]
    ensures Whole(s + Encode(f))
  {
    ParseIsPrefix(s);
    EncodeAllConcat(Parse(s), [f]);
    EncodeOne(f);
    ParseEncoded(Parse(s) + [f]);
  }

  /** A frame appended to whole ones is found by a scan exactly when it is legal: on a body whose length
      does not fit its field the scan finds something else. */
  lemma AppendedIsFoundIffLegal(s: seq<byte>, f: Frame)
    requires Whole(s)
    ensures Parse(s + Encode(f)) == Parse(s) + [f] <==> Legal(f)
  {
    if Legal(f) {
      WholeAppend(s, f);
    }
    if Parse(s + Encode(f)) == Parse(s) + [f] {
      ParseIsPrefix(s + Encode(f));
      LastIsLegal(Parse(s), f);
    }
  }

  lemma LastIsLegal(fs: seq<Frame>, f: Frame)
    requires AllLegal(fs + [f])
    ensures Legal(f)
  {
    assert (fs + [f])[|fs|] == f;
  }

  // ---- cutting a segment ----

  lemma {:induction false} EncodeAllMonotone(fs: seq<Frame>, k: nat)
    requires k <= |fs|
    ensures EncodeAll(fs[..k]) <= EncodeAll(fs)
  {
    EncodeAllConcat(fs[..k], fs[k..]);
    assert fs == fs[..k] + fs[k..];
  }

  /** After a cut at any byte, parsing finds exactly the frames that lie wholly before it. */
  lemma {:induction false} ParseAfterCut(s: seq<byte>, cut: nat)
    requires cut <= |s|
    ensures Parse(s[..cut]) <= Parse(s)
    ensures forall k :: 0 <= k <= |Parse(s)| ==>
              (k <= |Parse(s[..cut])| <==> |EncodeAll(Parse(s)[..k])| <= cut)
  {
    var fs, gs := Parse(s), Parse(s[..cut]);
    ParseIsPrefix(s);
    ParseIsPrefix(s[..cut]);
    assert EncodeAll(gs) <= s;
    ParseIsLongest(s, gs);
    forall k | 0 <= k <= |fs| ensures k <= |gs| <==> |EncodeAll(fs[..k])| <= cut {
      CutKeepsFrame(s, cut, k);
    }
  }

  lemma {:induction false} CutKeepsFrame(s: seq<byte>, cut: nat, k: nat)
    requires cut <= |s| && k <= |Parse(s)| && Parse(s[..cut]) <= Parse(s)
    ensures k <= |Parse(s[..cut])| <==> |EncodeAll(Parse(s)[..k])| <= cut
  {
    var head := Parse(s)[..k];
    ParseIsPrefix(s);
    EncodeAllMonotone(Parse(s), k);
    if |EncodeAll(head)| <= cut {
      PrefixOfCut(s, EncodeAll(head), cut);
      ParseIsLongest(s[..cut], head);
    }
    if k <= |Parse(s[..cut])| {
      assert head == Parse(s[..cut])[..k];
      ParseIsPrefix(s[..cut]);
      EncodeAllMonotone(Parse(s[..cut]), k);
    }
  }

  lemma PrefixOfCut<T>(s: seq<T>, p: seq<T>, cut: nat)
    requires p <= s && |p| <= cut <= |s|
    ensures p <= s[..cut]
  {
  }

  // ---- one frame inside a segment ----

  /** The byte at which frame `k` starts. */
  function Offset(fs: seq<Frame>, k: nat): nat
    requires k <= |fs|
  {
    |EncodeAll(fs[..k])|
  }

  /** The id bytes of the frame at `offset`. */
  function RawAt(s: seq<byte>, offset: nat): seq<byte>
    requires offset + 4 + ID_LEN <= |s|
  {
    s[offset + 4..offset + 4 + ID_LEN]
  }

  function BodyAt(s: seq<byte>, offset: nat, bodyLen: nat): seq<byte>
    requires offset + 4 + ID_LEN + bodyLen <= |s|
  {
    s[offset + 4 + ID_LEN..offset + 4 + ID_LEN + bodyLen]
  }

  /** Frame `k` of a segment is found at its offset, id and body in place. */
  lemma {:induction false} FrameAt(fs: seq<Frame>, k: nat)
    requires AllLegal(fs) && k < |fs|
    ensures Offset(fs, k) + 4 + ID_LEN + |fs[k].body| == Offset(fs, k + 1) <= |EncodeAll(fs)|
    ensures RawAt(EncodeAll(fs), Offset(fs, k)) == fs[k].raw
    ensures BodyAt(EncodeAll(fs), Offset(fs, k), |fs[k].body|) == fs[k].body
  {
    EncodeAllMonotone(fs, k + 1);
    assert fs[..k + 1][..k] == fs[..k];
    var s, at := EncodeAll(fs[..k + 1]), Offset(fs, k);
    assert s == EncodeAll(fs[..k]) + Encode(fs[k]);
    assert RawAt(s, at) == fs[k].raw;
    assert BodyAt(s, at, |fs[k].body|) == fs[k].body;
  }

  lemma FrameIn(s: seq<byte>, k: nat, offset: nat)
    requires Whole(s) && k < |Parse(s)| && offset == Offset(Parse(s), k)
    ensures offset + 4 + ID_LEN + |Parse(s)[k].body| <= |s|
    ensures RawAt(s, offset) == Parse(s)[k].raw
    ensures BodyAt(s, offset, |Parse(s)[k].body|) == Parse(s)[k].body
  {
    ParseIsPrefix(s);
    FrameAt(Parse(s), k);
  }

  /** Frames do not overlap. */
  lemma {:induction false} OffsetsAreDisjoint(fs: seq<Frame>, j: nat, k: nat)
    requires AllLegal(fs) && j < k <= |fs|
    ensures Offset(fs, j) + 4 + ID_LEN + |fs[j].body| <= Offset(fs, k)
    decreases k
  {
    FrameAt(fs, j);
    if j + 1 < k {
      OffsetsAreDisjoint(fs, j, k - 1);
      FrameAt(fs, k - 1);
    }
  }
}
