/** The text normaliser of the Markdown port (demo/binary-demo/python-port/mdport/markdown.py): line ends
    become newlines, tabs become spaces, blank lines become empty ones. */
module Normalize {
  import opened Common

  const TAB_WIDTH := 4
  const SUBSTITUTE: char := '\U{1A}'

  // ---- the reference: a text is lines, and each line is cleaned by itself ----

  /** The first character of `rest` ends a line: a newline, or a carriage return that neither a newline
      nor the end of the text follows. */
  predicate EndsLine(rest: string)
    requires rest != ""
  {
    rest[0] == '\n' || (rest[0] == '\r' && |rest| > 1 && rest[1] != '\n')
  }

  predicate Dropped(c: char) {
    c == '\r' || c == SUBSTITUTE
  }

  /** The lines of a text whose first line begins with `begun`. */
  function LinesFrom(begun: string, rest: string): (lines: seq<string>)
    ensures lines != []
    decreases |rest|
  {
    if rest == "" then [begun]
    else if EndsLine(rest) then [begun] + LinesFrom("", rest[1..])
    else if Dropped(rest[0]) then LinesFrom(begun, rest[1..])
    else LinesFrom(begun + [rest[0]], rest[1..])
  }

  function Lines(text: string): seq<string> {
    LinesFrom("", text)
  }

  predicate IsText(c: char) {
    c != ' ' && c != '\t'
  }

  predicate HasText(line: string) {
    exists i :: 0 <= i < |line| && IsText(line[i])
  }

  function Spaces(n: nat): (s: string)
    ensures |s| == n && forall i :: 0 <= i < n ==> s[i] == ' '
  {
    seq(n, _ => ' ')
  }

  /** What the last character of a line becomes when `before` characters stand before it: the width of
      a tab goes by that count, however wide the tabs among them came out. */
  function Piece(before: nat, c: char): string {
    if c == '\t' then Spaces(TAB_WIDTH - before % TAB_WIDTH) else [c]
  }

  function Expand(line: string): string {
    if line == "" then ""
    else Expand(line[..|line| - 1]) + Piece(|line| - 1, line[|line| - 1])
  }

  function Clean(line: string): string {
    if HasText(line) then Expand(line) else ""
  }

  /** The lines written out, each cleaned and ended. */
  function Written(lines: seq<string>): string {
    if lines == [] then "" else Clean(lines[0]) + "\n" + Written(lines[1..])
  }

  function Normalized(text: string): string {
    Written(Lines(text)) + "\n\n"
  }

  // ---- the loop ----

  /** The strings of a list put end to end. */
  function Join(pieces: seq<string>): string {
    if pieces == [] then "" else Join(pieces[..|pieces| - 1]) + pieces[|pieces| - 1]
  }

  lemma JoinSnoc(pieces: seq<string>, piece: string)
    ensures Join(pieces + [piece]) == Join(pieces) + piece
  {
    assert (pieces + [piece])[..|pieces|] == pieces;
  }

  lemma ExpandSnoc(line: string, c: char)
    ensures Expand(line + [c]) == Expand(line) + Piece(|line|, c)
  {
    assert (line + [c])[..|line|] == line;
  }

  lemma HasTextConcat(a: string, b: string)
    ensures HasText(a + b) <==> HasText(a) || HasText(b)
  {
    if i :| 0 <= i < |a| && IsText(a[i]) {
      assert (a + b)[i] == a[i];
    }
    if i :| 0 <= i < |b| && IsText(b[i]) {
      assert (a + b)[|a| + i] == b[i];
    }
  }

  lemma HasTextSnoc(line: string, c: char)
    ensures HasText(line + [c]) <==> HasText(line) || IsText(c)
  {
    HasTextConcat(line, [c]);
    assert [c][0] == c;
  }

  lemma {:induction false} WrittenSnoc(lines: seq<string>, line: string)
    ensures Written(lines + [line]) == Written(lines) + Clean(line) + "\n"
  {
    if lines == [] {
      assert lines + [line] == [line] && [line][1..] == [];
    } else {
      WrittenSnoc(lines[1..], line);
      WrittenHead(lines, line);
      Regrouped(Clean(lines[0]) + "\n", Written(lines[1..]), Clean(line), "\n");
    }
  }

  lemma WrittenHead(lines: seq<string>, line: string)
    requires lines != []
    ensures Written(lines + [line]) == Clean(lines[0]) + "\n" + Written(lines[1..] + [line])
  {
    assert (lines + [line])[1..] == lines[1..] + [line];
  }

  lemma Regrouped(a: string, b: string, c: string, d: string)
    ensures a + (b + c + d) == a + b + c + d
  {
  }

  /** The loop's own test for a character that ends a line. */
  predicate EndsLineAt(text: string, i: nat)
    requires i < |text|
  {
    text[i] == '\n' || (text[i] == '\r' && i < |text| - 1 && text[i + 1] != '\n')
  }

  /** Reading the character at `i`. */
  lemma ReadOne(begun: string, text: string, i: nat)
    requires i < |text|
    ensures LinesFrom(begun, text[i..]) ==
              if EndsLineAt(text, i) then [begun] + LinesFrom("", text[i + 1..])
              else if Dropped(text[i]) then LinesFrom(begun, text[i + 1..])
              else LinesFrom(begun + [text[i]], text[i + 1..])
  {
    assert text[i..][0] == text[i] && text[i..][1..] == text[i + 1..];
    assert i < |text| - 1 ==> text[i..][1] == text[i + 1];
  }

  /** The loop has read the text up to `i`: `lines` are over and written, and `begun` is the line it is in. */
  predicate ReadTo(text: string, i: nat, lines: seq<string>, begun: string,
                   output: seq<string>, line: seq<string>, hasText: bool)
  {
    && i <= |text| && Lines(text) == lines + LinesFrom(begun, text[i..])
    && Join(output) == Written(lines)
    && Join(line) == Expand(begun) && |line| == |begun|
    && (hasText <==> HasText(begun))
  }

  lemma ReadCharacter(text: string, i: nat, lines: seq<string>, begun: string,
                      output: seq<string>, line: seq<string>, hasText: bool)
    requires i < |text| && ReadTo(text, i, lines, begun, output, line, hasText)
    requires !EndsLineAt(text, i) && !Dropped(text[i])
    ensures ReadTo(text, i + 1, lines, begun + [text[i]],
                   output, line + [Piece(|line|, text[i])], hasText || IsText(text[i]))
  {
    ReadOne(begun, text, i);
    JoinSnoc(line, Piece(|line|, text[i]));
    ExpandSnoc(begun, text[i]);
    HasTextSnoc(begun, text[i]);
  }

  lemma ReadEnd(text: string, i: nat, lines: seq<string>, begun: string,
                output: seq<string>, line: seq<string>, hasText: bool)
    requires i < |text| && ReadTo(text, i, lines, begun, output, line, hasText)
    requires EndsLineAt(text, i)
    ensures ReadTo(text, i + 1, lines + [begun], "",
                   (if hasText then output + [Join(line)] else output) + ["\n"], [], false)
  {
    ReadOne(begun, text, i);
    LineIsWritten(output, line, lines, begun);
    Regroup(lines, begun, LinesFrom("", text[i + 1..]));
  }

  lemma ReadDropped(text: string, i: nat, lines: seq<string>, begun: string,
                    output: seq<string>, line: seq<string>, hasText: bool)
    requires i < |text| && ReadTo(text, i, lines, begun, output, line, hasText)
    requires !EndsLineAt(text, i) && Dropped(text[i])
    ensures ReadTo(text, i + 1, lines, begun, output, line, hasText)
  {
    ReadOne(begun, text, i);
  }

  lemma ReadAll(text: string, lines: seq<string>, begun: string,
                output: seq<string>, line: seq<string>, hasText: bool)
    requires ReadTo(text, |text|, lines, begun, output, line, hasText)
    ensures Join((if hasText then output + [Join(line)] else output) + ["\n"]) + "\n\n" == Normalized(text)
  {
    assert text[|text|..] == "";
    LineIsWritten(output, line, lines, begun);
  }

  method Normalize(text: string) returns (result: string)
    ensures result == Normalized(text)
  {
    var output: seq<string> := [];
    var line: seq<string> := [];
    var hasText := false;
    var n := |text|;
    ghost var lines: seq<string> := [];
    ghost var begun := "";
    var i := 0;
    assert text[0..] == text;
    while i < n
      invariant i <= n && ReadTo(text, i, lines, begun, output, line, hasText)
    {
      var c := text[i];
      if c == '\t' {
        ReadCharacter(text, i, lines, begun, output, line, hasText);
        line := line + [Spaces(TAB_WIDTH - |line| % TAB_WIDTH)];
        begun := begun + [c];
      } else if c == '\n' || (c == '\r' && i < n - 1 && text[i + 1] != '\n') {
        ReadEnd(text, i, lines, begun, output, line, hasText);
        if hasText {
          output := output + [Join(line)];
        }
        output := output + ["\n"];
        lines := lines + [begun];
        line := [];
        hasText := false;
        begun := "";
      } else if c == '\r' || c == SUBSTITUTE {
        ReadDropped(text, i, lines, begun, output, line, hasText);
      } else {
        ReadCharacter(text, i, lines, begun, output, line, hasText);
        if !hasText && c != ' ' {
          hasText := true;
        }
        line := line + [[c]];
        begun := begun + [c];
      }
      i := i + 1;
    }
    ReadAll(text, lines, begun, output, line, hasText);
    if hasText {
      output := output + [Join(line)];
    }
    output := output + ["\n"];
    return Join(output) + "\n\n";
  }

  /** Putting out a line, if it has text, and its newline. */
  lemma LineIsWritten(output: seq<string>, line: seq<string>, lines: seq<string>, begun: string)
    requires Join(output) == Written(lines) && Join(line) == Expand(begun)
    ensures Join((if HasText(begun) then output + [Join(line)] else output) + ["\n"]) == Written(lines + [begun])
  {
    WrittenSnoc(lines, begun);
    JoinSnoc(output, Join(line));
    JoinSnoc(if HasText(begun) then output + [Join(line)] else output, "\n");
  }

  lemma Regroup(lines: seq<string>, line: string, rest: seq<string>)
    ensures lines + ([line] + rest) == (lines + [line]) + rest
  {
  }

  // ---- what the result is like ----

  predicate Plain(line: string) {
    forall i :: 0 <= i < |line| ==> line[i] != '\n' && !Dropped(line[i])
  }

  predicate NoTab(line: string) {
    forall i :: 0 <= i < |line| ==> line[i] != '\t'
  }

  lemma {:induction false} LinesArePlain(begun: string, rest: string)
    requires Plain(begun)
    ensures forall k :: 0 <= k < |LinesFrom(begun, rest)| ==> Plain(LinesFrom(begun, rest)[k])
    decreases |rest|
  {
    if rest != "" {
      if EndsLine(rest) {
        LinesArePlain("", rest[1..]);
      } else if Dropped(rest[0]) {
        LinesArePlain(begun, rest[1..]);
      } else {
        LinesArePlain(begun + [rest[0]], rest[1..]);
      }
    }
  }

  lemma {:induction false} ExpandIsPlain(line: string)
    requires Plain(line)
    ensures Plain(Expand(line)) && NoTab(Expand(line))
    ensures HasText(Expand(line)) <==> HasText(line)
  {
    if line != "" {
      var front, c := line[..|line| - 1], line[|line| - 1];
      ExpandIsPlain(front);
      assert line == front + [c];
      ExpandSnoc(front, c);
      HasTextSnoc(front, c);
      var piece := Piece(|front|, c);
      HasTextConcat(Expand(front), piece);
      assert HasText(piece) <==> IsText(c) by {
        if c != '\t' {
          assert piece[0] == c;
        }
      }
    }
  }

  lemma {:induction false} ExpandLeavesTabless(line: string)
    requires NoTab(line)
    ensures Expand(line) == line
  {
    if line != "" {
      ExpandLeavesTabless(line[..|line| - 1]);
      assert line == line[..|line| - 1] + [line[|line| - 1]];
    }
  }

  /** A clean line: no tab, no carriage return, no substitute, and empty unless it has text. */
  predicate IsClean(line: string) {
    Plain(line) && NoTab(line) && (line == "" || HasText(line))
  }

  lemma CleanIsClean(line: string)
    requires Plain(line)
    ensures IsClean(Clean(line)) && Clean(Clean(line)) == Clean(line)
  {
    if HasText(line) {
      ExpandIsPlain(line);
      ExpandLeavesTabless(Expand(line));
    }
  }

  function Cleaned(lines: seq<string>): (cleaned: seq<string>)
    ensures |cleaned| == |lines| && forall k :: 0 <= k < |lines| ==> cleaned[k] == Clean(lines[k])
  {
    seq(|lines|, k requires 0 <= k < |lines| => Clean(lines[k]))
  }

  /** Reading on through a plain stretch and the newline behind it. */
  lemma {:induction false} LinesOfPlain(begun: string, line: string, rest: string)
    requires Plain(line)
    ensures LinesFrom(begun, line + "\n" + rest) == [begun + line] + LinesFrom("", rest)
    decreases |line|
  {
    var text := line + "\n" + rest;
    if line == "" {
      assert text == "\n" + rest && text[1..] == rest && begun + line == begun;
    } else {
      assert text[0] == line[0] && text[1..] == line[1..] + "\n" + rest;
      LinesOfPlain(begun + [line[0]], line[1..], rest);
      assert begun + [line[0]] + line[1..] == begun + line;
    }
  }

  /** Reading on through a plain stretch. */
  lemma {:induction false} LinesThrough(begun: string, line: string, rest: string)
    requires Plain(line)
    ensures LinesFrom(begun, line + rest) == LinesFrom(begun + line, rest)
    decreases |line|
  {
    var text := line + rest;
    if line == "" {
      assert text == rest && begun + line == begun;
    } else {
      assert text[0] == line[0] && text[1..] == line[1..] + rest;
      LinesThrough(begun + [line[0]], line[1..], rest);
      assert begun + [line[0]] + line[1..] == begun + line;
    }
  }

  /** What ends a line: a newline, with or without a carriage return before it, and a carriage return that
      something else follows; one at the very end, and a substitute anywhere, is dropped. */
  lemma LineEnds(line: string, rest: string)
    requires Plain(line)
    ensures Lines(line + ("\n" + rest)) == [line] + Lines(rest)
    ensures Lines(line + ("\r\n" + rest)) == [line] + Lines(rest)
    ensures rest != "" && rest[0] != '\n' ==> Lines(line + ("\r" + rest)) == [line] + Lines(rest)
    ensures Lines(line + "\r") == [line]
    ensures Lines(line + ([SUBSTITUTE] + rest)) == LinesFrom(line, rest)
  {
    assert "" + line == line;
    LinesThrough("", line, "\n" + rest);
    LinesThrough("", line, "\r\n" + rest);
    LinesThrough("", line, "\r" + rest);
    LinesThrough("", line, "\r");
    LinesThrough("", line, [SUBSTITUTE] + rest);
    assert ("\n" + rest)[1..] == rest && ("\r" + rest)[1..] == rest && ([SUBSTITUTE] + rest)[1..] == rest;
    assert ("\r\n" + rest)[1..] == "\n" + rest && ("\r\n" + rest)[1] == '\n';
    assert "\r"[1..] == "";
  }

  lemma {:induction false} LinesOfWritten(lines: seq<string>, rest: string)
    requires forall k :: 0 <= k < |lines| ==> Plain(lines[k])
    ensures LinesFrom("", Written(lines) + rest) == Cleaned(lines) + LinesFrom("", rest)
  {
    if lines == [] {
      assert Written(lines) + rest == rest;
    } else {
      var line, tail := Clean(lines[0]), Written(lines[1..]);
      CleanIsClean(lines[0]);
      LinesOfWritten(lines[1..], rest);
      Reassociate(line, tail, rest);
      LinesOfPlain("", line, tail + rest);
      CleanedCons(lines, LinesFrom("", rest));
      assert "" + line == line;
    }
  }

  lemma Reassociate(line: string, tail: string, rest: string)
    ensures (line + "\n" + tail) + rest == line + "\n" + (tail + rest)
  {
  }

  lemma CleanedCons(lines: seq<string>, rest: seq<string>)
    requires lines != []
    ensures Cleaned(lines) + rest == [Clean(lines[0])] + (Cleaned(lines[1..]) + rest)
  {
  }

  lemma LinesOfTwoNewlines()
    ensures LinesFrom("", "\n\n") == ["", "", ""]
  {
    LinesOfPlain("", "", "\n");
    LinesOfPlain("", "", "");
    assert "" + "\n" + "\n" == "\n\n" && "" + "\n" + "" == "\n";
  }

  /** The lines of the result are the cleaned lines of the text and three empty ones; each of them is
      empty or has text, and none holds a tab, a carriage return or a substitute. */
  lemma LinesOfNormalized(text: string)
    ensures Lines(Normalized(text)) == Cleaned(Lines(text)) + ["", "", ""]
    ensures forall k :: 0 <= k < |Lines(Normalized(text))| ==> IsClean(Lines(Normalized(text))[k])
  {
    LinesArePlain("", text);
    LinesOfWritten(Lines(text), "\n\n");
    LinesOfTwoNewlines();
    forall k | 0 <= k < |Lines(text)| ensures IsClean(Clean(Lines(text)[k])) {
      CleanIsClean(Lines(text)[k]);
    }
  }

  lemma {:induction false} WrittenIsClean(lines: seq<string>)
    requires forall k :: 0 <= k < |lines| ==> Plain(lines[k])
    ensures NoTab(Written(lines)) && forall i :: 0 <= i < |Written(lines)| ==> !Dropped(Written(lines)[i])
  {
    if lines != [] {
      WrittenIsClean(lines[1..]);
      CleanIsClean(lines[0]);
    }
  }

  /** No tab, carriage return or substitute is left anywhere in the result. */
  lemma NormalizedIsClean(text: string)
    ensures '\t' !in Normalized(text) && '\r' !in Normalized(text) && '\U{1A}' !in Normalized(text)
  {
    LinesArePlain("", text);
    WrittenIsClean(Lines(text));
  }

  lemma {:induction false} WrittenOfCleaned(lines: seq<string>)
    requires forall k :: 0 <= k < |lines| ==> Plain(lines[k])
    ensures Written(Cleaned(lines)) == Written(lines)
  {
    if lines != [] {
      CleanIsClean(lines[0]);
      WrittenOfCleaned(lines[1..]);
      assert Cleaned(lines)[1..] == Cleaned(lines[1..]);
    }
  }

  lemma WrittenCons(line: string, rest: seq<string>)
    ensures Written([line] + rest) == Clean(line) + "\n" + Written(rest)
  {
    assert ([line] + rest)[1..] == rest;
  }

  lemma {:induction false} WrittenConcat(a: seq<string>, b: seq<string>)
    ensures Written(a + b) == Written(a) + Written(b)
  {
    if a == [] {
      assert a + b == b;
    } else {
      WrittenConcat(a[1..], b);
      assert a + b == [a[0]] + (a[1..] + b);
      WrittenCons(a[0], a[1..] + b);
      Reassociate(Clean(a[0]), Written(a[1..]), Written(b));
    }
  }

  /** Normalising its own result only adds three newlines. */
  lemma NormalizingTwiceAddsThreeNewlines(text: string)
    ensures Normalized(Normalized(text)) == Normalized(text) + "\n\n\n"
  {
    LinesOfNormalized(text);
    LinesArePlain("", text);
    WrittenConcat(Cleaned(Lines(text)), ["", "", ""]);
    WrittenOfCleaned(Lines(text));
    ThreeEmptyLines();
  }

  lemma ThreeEmptyLines()
    ensures Written(["", "", ""]) == "\n\n\n"
  {
    assert Clean("") == "";
    WrittenCons("", []);
    WrittenCons("", [""]);
    WrittenCons("", ["", ""]);
    assert [""] + [] == [""] && [""] + [""] == ["", ""] && [""] + ["", ""] == ["", "", ""];
  }

  // ---- the text itself ----

  /** The characters that are neither blank nor a line end, in order. */
  function TextOf(s: string): string {
    if s == "" then ""
    else TextOfOne(s[0]) + TextOf(s[1..])
  }

  /** What a character adds to the text. */
  function TextOfOne(c: char): string {
    if IsText(c) && c != '\n' && !Dropped(c) then [c] else ""
  }

  lemma {:induction false} TextOfSum(a: string, b: string)
    ensures TextOf(a + b) == TextOf(a) + TextOf(b)
  {
    if a == "" {
      assert a + b == b;
    } else {
      TextOfSum(a[1..], b);
      assert (a + b)[0] == a[0] && (a + b)[1..] == a[1..] + b;
      Associative(TextOfOne(a[0]), TextOf(a[1..]), TextOf(b));
    }
  }

  lemma {:induction false} TextOfSpaces(n: nat)
    ensures TextOf(Spaces(n)) == ""
  {
    if n > 0 {
      TextOfSpaces(n - 1);
      assert Spaces(n)[1..] == Spaces(n - 1);
    }
  }

  lemma {:induction false} TextOfExpanded(line: string)
    ensures TextOf(Expand(line)) == TextOf(line)
  {
    if line != "" {
      var front, c := line[..|line| - 1], line[|line| - 1];
      TextOfExpanded(front);
      assert line == front + [c];
      TextOfSum(front, [c]);
      TextOfSum(Expand(front), Piece(|front|, c));
      TextOfPiece(|front|, c);
      ExpandSnoc(front, c);
    }
  }

  lemma TextOfPiece(before: nat, c: char)
    ensures TextOf(Piece(before, c)) == TextOf([c])
  {
    TextOfSpaces(TAB_WIDTH - before % TAB_WIDTH);
  }

  lemma {:induction false} NoTextIsLost(line: string)
    requires !HasText(line)
    ensures TextOf(line) == ""
  {
    if line != "" {
      assert !IsText(line[0]);
      HasTextConcat([line[0]], line[1..]);
      assert line == [line[0]] + line[1..];
      NoTextIsLost(line[1..]);
    }
  }

  function TextOfLines(lines: seq<string>): string {
    if lines == [] then "" else TextOf(lines[0]) + TextOfLines(lines[1..])
  }

  lemma TextOfClean(line: string)
    ensures TextOf(Clean(line)) == TextOf(line)
  {
    if HasText(line) {
      TextOfExpanded(line);
    } else {
      NoTextIsLost(line);
    }
  }

  lemma {:induction false} TextOfWritten(lines: seq<string>)
    ensures TextOf(Written(lines)) == TextOfLines(lines)
  {
    if lines != [] {
      var line, tail := Clean(lines[0]), Written(lines[1..]);
      TextOfWritten(lines[1..]);
      TextOfClean(lines[0]);
      TextOfSum(line + "\n", tail);
      TextOfSum(line, "\n");
      NewlineIsNoText();
    }
  }

  lemma NewlineIsNoText()
    ensures TextOf("\n") == ""
  {
  }

  lemma {:induction false} TextOfSplit(begun: string, rest: string)
    ensures TextOfLines(LinesFrom(begun, rest)) == TextOf(begun) + TextOf(rest)
    decreases |rest|
  {
    if rest == "" {
      assert [begun][1..] == [];
    } else if EndsLine(rest) {
      TextOfSplit("", rest[1..]);
      assert ([begun] + LinesFrom("", rest[1..]))[1..] == LinesFrom("", rest[1..]);
    } else if Dropped(rest[0]) {
      TextOfSplit(begun, rest[1..]);
    } else {
      TextOfSplit(begun + [rest[0]], rest[1..]);
      TextOfSum(begun, [rest[0]]);
      TextOfSum([rest[0]], rest[1..]);
      assert rest == [rest[0]] + rest[1..];
    }
  }

  /** No text is lost, added or moved: only blanks and line ends change. */
  lemma TextIsKept(text: string)
    ensures TextOf(Normalized(text)) == TextOf(text)
  {
    TextOfSplit("", text);
    TextOfWritten(Lines(text));
    TextOfSum(Written(Lines(text)), "\n\n");
    TextOfSum("\n", "\n");
    assert "\n\n" == "\n" + "\n" && TextOf("\n") == "";
  }

  // ---- tab stops ----

  /** How many columns the tabs of a line add, all told, to the one that each character takes. */
  function Shortfall(line: string): nat {
    if line == "" then 0
    else
      var before := |line| - 1;
      Shortfall(line[..before]) + if line[before] == '\t' then TAB_WIDTH - 1 - before % TAB_WIDTH else 0
  }

  /** The width of a line, said on the line itself. */
  lemma {:induction false} ExpandedWidth(line: string)
    ensures |Expand(line)| == |line| + Shortfall(line)
  {
    if line != "" {
      ExpandedWidth(line[..|line| - 1]);
    }
  }

  /** A line comes out empty exactly if there is nothing in it but spaces and tabs; a line without tabs that does
      not comes out as it is. */
  lemma BlankLines(line: string)
    ensures Clean(line) == "" <==> forall i :: 0 <= i < |line| ==> line[i] == ' ' || line[i] == '\t'
    ensures (exists i :: 0 <= i < |line| && line[i] != ' ') && (forall i :: 0 <= i < |line| ==> line[i] != '\t') ==>
              Clean(line) == line
  {
    ExpandedWidth(line);
    if forall i :: 0 <= i < |line| ==> line[i] != '\t' {
      ExpandLeavesTabless(line);
    }
    if i :| 0 <= i < |line| && line[i] != ' ' && line[i] != '\t' {
      assert IsText(line[i]);
    }
  }

  /** A tab reaches a tab stop exactly when the earlier tabs of its line have added whole stops. */
  lemma TabReachesStop(line: string)
    ensures |Expand(line + "\t")| % TAB_WIDTH == 0 <==> Shortfall(line) % TAB_WIDTH == 0
  {
    ExpandSnoc(line, '\t');
    ExpandedWidth(line);
    assert line + ['\t'] == line + "\t";
    NextStop(|line|, Shortfall(line));
  }

  lemma NextStop(n: nat, added: nat)
    ensures (n + added + TAB_WIDTH - n % TAB_WIDTH) % TAB_WIDTH == 0 <==> added % TAB_WIDTH == 0
  {
  }

  /** So the second of two tabs misses its stop. */
  lemma SecondTabMissesStop()
    ensures |Expand("\t\t")| == 7
  {
    ExpandSnoc("", '\t');
    ExpandSnoc("\t", '\t');
    assert "" + ['\t'] == "\t" && "\t" + ['\t'] == "\t\t";
    assert |Piece(0, '\t')| == 4 && |Piece(1, '\t')| == 3;
  }
}
