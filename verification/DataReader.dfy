/**
 The receiving side of DATA as sections 4.1.1.4 and 4.5.2 of RFC 5321 have it:
 lines end in CRLF, a line of a single dot ends the text, and a dot at the start
 of any other line is dropped. The daemon sends its text raw, so this reader
 decides what the copy server gets.
 */
module DataReader {
  import opened Bytes
  import opened Message

  /** The first CRLF, or -1. */
  function FindCrLf(s: seq<byte>): (e: int)
    ensures e == -1 ==> forall k :: !CrLfAt(s, k)
    ensures e != -1 ==> CrLfAt(s, e) && forall k :: k < e ==> !CrLfAt(s, k)
  {
    if |s| < 2 then -1
    else if CrLfAt(s, 0) then 0
    else
      var e := FindCrLf(s[1..]);
      assert forall k :: 1 <= k ==> (CrLfAt(s, k) <==> CrLfAt(s[1..], k - 1));
      if e == -1 then -1 else e + 1
  }

  lemma FirstCrLf(s: seq<byte>, e: int)
    requires CrLfAt(s, e) && forall k :: k < e ==> !CrLfAt(s, k)
    ensures FindCrLf(s) == e
  {
    assert FindCrLf(s) != -1;
  }

  datatype Received = Received(text: seq<byte>, rest: seq<byte>)

  function Unstuffed(line: seq<byte>): seq<byte> {
    if line != [] && line[0] == DOT then line[1..] else line
  }

  /** Reads one text; None when the final line has not arrived yet. */
  function ReadData(s: seq<byte>): Option<Received>
    decreases |s|
  {
    var e := FindCrLf(s);
    if e == -1 then None
    else if s[..e] == [DOT] then Some(Received([], s[e + 2..]))
    else
      match ReadData(s[e + 2..])
      case None => None
      case Some(r) => Some(Received(Unstuffed(s[..e]) + CRLF + r.text, r.rest))
  }

  // ---------------------------------------------------------------- texts that survive

  predicate LineStart(s: seq<byte>, i: int) {
    i == 0 || CrLfAt(s, i - 2)
  }

  /** No line of the text starts with a dot. */
  ghost predicate NoDotLine(s: seq<byte>) {
    forall i :: 0 <= i < |s| && LineStart(s, i) ==> s[i] != DOT
  }

  /** The text consists of whole lines. */
  predicate WholeLines(s: seq<byte>) {
    s == [] || EndsInCrLf(s)
  }

  /** After its first line, a text has the line starts and the ending it had before. */
  lemma FirstLine(s: seq<byte>, e: nat)
    requires CrLfAt(s, e) && forall k :: k < e ==> !CrLfAt(s, k)
    ensures WholeLines(s) <==> WholeLines(s[e + 2..])
    ensures NoDotLine(s) <==> (e > 0 ==> s[0] != DOT) && NoDotLine(s[e + 2..])
  {
    var rest := s[e + 2..];
    forall k | e + 2 <= k ensures CrLfAt(s, k) <==> CrLfAt(rest, k - (e + 2)) {
    }
    forall i | 0 <= i < |rest| ensures LineStart(rest, i) <==> LineStart(s, i + e + 2) {
    }
    forall i | 0 < i < |s| && LineStart(s, i) ensures i >= e + 2 {
    }
    if NoDotLine(s) {
      forall i | 0 <= i < |rest| && LineStart(rest, i) ensures rest[i] != DOT {
        assert LineStart(s, i + e + 2);
      }
    }
    if (e > 0 ==> s[0] != DOT) && NoDotLine(rest) {
      forall i | 0 <= i < |s| && LineStart(s, i) ensures s[i] != DOT {
        if i >= e + 2 {
          assert LineStart(rest, i - (e + 2));
        }
      }
    }
  }

  /** `line` holds no line end of its own, not even together with the CR that follows it. */
  ghost predicate OneLine(line: seq<byte>) {
    forall k :: k < |line| ==> !CrLfAt(line + CRLF, k)
  }

  /** A head without CR takes no part in any line end. */
  lemma OneLineJoin(head: seq<byte>, line: seq<byte>)
    requires CR !in head
    ensures OneLine(head + line) <==> OneLine(line)
  {
    var s, t := head + line + CRLF, line + CRLF;
    forall k ensures CrLfAt(t, k) <==> CrLfAt(s, k + |head|) && k >= 0 {
      assert forall i :: 0 <= i < |t| ==> s[i + |head|] == t[i];
    }
    if OneLine(line) {
      forall k | k < |head + line| ensures !CrLfAt(s, k) {
        if 0 <= k < |head| {
          assert s[k] == head[k];
        } else if |head| <= k {
          assert !CrLfAt(t, k - |head|);
        }
      }
    }
    if OneLine(head + line) {
      forall k | k < |line| ensures !CrLfAt(t, k) {
        assert !CrLfAt(s, k + |head|);
      }
    }
  }

  /** What the reader does with one line that is not the last. */
  lemma ReadOneLine(line: seq<byte>, rest: seq<byte>)
    requires OneLine(line) && line != [DOT] && ReadData(rest).Some?
    ensures ReadData(line + CRLF + rest) ==
            Some(Received(Unstuffed(line) + CRLF + ReadData(rest).value.text, ReadData(rest).value.rest))
  {
    var s := line + CRLF + rest;
    assert forall k :: k < |line| ==> (CrLfAt(s, k) <==> CrLfAt(line + CRLF, k));
    CutLine(line, rest);
    FirstCrLf(s, |line|);
  }

  /** A single line, other than the dot, is no text. */
  lemma LineIsNoText(line: seq<byte>)
    requires OneLine(line) && line != [DOT]
    ensures ReadData(line + CRLF) == None
  {
    var s := line + CRLF;
    FirstCrLf(s, |line|);
    assert s[..|line|] == line && s[|line| + 2..] == [];
    assert ReadData([]) == None;
  }

  lemma ReadLastLine(rest: seq<byte>)
    ensures ReadData(END_LINE + rest) == Some(Received([], rest))
  {
    var s := END_LINE + rest;
    FirstCrLf(s, 1);
    assert s[..1] == [DOT] && s[3..] == rest;
  }

  /** A text with a CRLF at `e` is the line before it, the CRLF, and the rest. */
  lemma Splits(text: seq<byte>, e: nat)
    requires CrLfAt(text, e)
    ensures text == text[..e] + CRLF + text[e + 2..]
  {
    assert text[..e] + CRLF == text[..e + 2];
    assert text[..e + 2] + text[e + 2..] == text;
  }

  lemma FirstIsOneLine(text: seq<byte>, e: nat)
    requires CrLfAt(text, e) && forall k :: k < e ==> !CrLfAt(text, k)
    ensures OneLine(text[..e])
  {
    var line := text[..e] + CRLF;
    assert line == text[..e + 2];
    forall k | k < e ensures !CrLfAt(line, k) {
      assert CrLfAt(line, k) ==> CrLfAt(text, k);
    }
  }

  lemma NoDotFirst(text: seq<byte>, e: nat)
    requires CrLfAt(text, e) && NoDotLine(text)
    ensures text[..e] != [DOT] && Unstuffed(text[..e]) == text[..e]
  {
    assert LineStart(text, 0);
  }

  lemma ReadLineMore(line: seq<byte>, more: seq<byte>, tail: seq<byte>, rest: seq<byte>)
    requires OneLine(line) && line != [DOT] && Unstuffed(line) == line
    requires ReadData(more + tail) == Some(Received(more, rest))
    ensures ReadData(line + CRLF + more + tail) == Some(Received(line + CRLF + more, rest))
  {
    ReadOneLine(line, more + tail);
    Associates(line + CRLF, more, tail);
  }

  lemma {:induction false} CleanIsRead(text: seq<byte>, tail: seq<byte>, rest: seq<byte>)
    requires WholeLines(text) && NoDotLine(text)
    requires ReadData(tail) == Some(Received([], rest))
    ensures ReadData(text + tail) == Some(Received(text, rest))
    decreases |text|
  {
    if text == [] {
      assert text + tail == tail;
    } else {
      assert CrLfAt(text, |text| - 2);
      var e := FindCrLf(text);
      FirstLine(text, e);
      FirstIsOneLine(text, e);
      NoDotFirst(text, e);
      CleanIsRead(text[e + 2..], tail, rest);
      ReadLineMore(text[..e], text[e + 2..], tail, rest);
      Splits(text, e);
    }
  }

  /** Reading never makes a text longer, and each dropped dot makes it shorter. */
  lemma {:induction false} ReadLength(s: seq<byte>)
    requires ReadData(s).Some?
    ensures |ReadData(s).value.text| + 3 + |ReadData(s).value.rest| <= |s|
    decreases |s|
  {
    var e := FindCrLf(s);
    var line, more := s[..e], s[e + 2..];
    assert |line| == e && |more| == |s| - e - 2;
    if line != [DOT] {
      ReadLength(more);
      assert |Unstuffed(line)| <= |line|;
    }
  }

  /** Where the text is as long as its source, the line was not shortened. */
  lemma Resplit(text: seq<byte>, line: seq<byte>, tail: seq<byte>, s: seq<byte>, e: nat)
    requires s == text + END_LINE && CrLfAt(s, e) && forall k :: k < e ==> !CrLfAt(s, k)
    requires line == Unstuffed(s[..e]) && text == line + CRLF + tail
    requires |tail| + 3 <= |s| - e - 2
    ensures FindCrLf(text) == e && CrLfAt(text, e) && (e > 0 ==> text[0] != DOT)
    ensures tail == text[e + 2..] && s[e + 2..] == text[e + 2..] + END_LINE
  {
    assert |line| == e;
    assert forall k :: k <= e ==> (CrLfAt(s, k) <==> CrLfAt(text, k));
    FirstCrLf(text, e);
  }

  lemma {:induction false} ReadIsClean(text: seq<byte>)
    requires ReadData(text + END_LINE) == Some(Received(text, []))
    ensures WholeLines(text) && NoDotLine(text)
    decreases |text|
  {
    var s := text + END_LINE;
    var e := FindCrLf(s);
    if s[..e] != [DOT] {
      var tail := ReadData(s[e + 2..]).value.text;
      ReadLength(s[e + 2..]);
      Resplit(text, Unstuffed(s[..e]), tail, s, e);
      ReadIsClean(tail);
      FirstLine(text, e);
    }
  }

  /**
   The copy server gets back exactly the text that was sent, and nothing is left
   over, if and only if the text consists of whole lines of which none starts with a dot.
   */
  lemma DataRoundTrip(text: seq<byte>)
    ensures ReadData(text + END_LINE) == Some(Received(text, [])) <==> WholeLines(text) && NoDotLine(text)
  {
    if WholeLines(text) && NoDotLine(text) {
      ReadLastLine([]);
      assert END_LINE + [] == END_LINE;
      CleanIsRead(text, END_LINE, []);
    }
    if ReadData(text + END_LINE) == Some(Received(text, [])) {
      ReadIsClean(text);
    }
  }

  /** After an empty line, a line of a single dot ends the text, and what follows is left over. */
  lemma DotAfterEmptyLine(dot: seq<byte>, rest: seq<byte>)
    requires dot == END_LINE
    ensures ReadData(CRLF + dot + rest) == Some(Received(CRLF, rest))
  {
    Associates(CRLF, dot, rest);
    assert [] + CRLF + (dot + rest) == CRLF + (dot + rest);
    ReadLastLine(rest);
    ReadOneLine([], dot + rest);
    assert Unstuffed([]) + CRLF + [] == CRLF;
  }

  /** Where stuffing was needed: a line of a single dot ends the text, and the true end is left over as a command. */
  lemma DotLineEndsText()
    ensures ReadData(Payload([], [DOT] + CRLF) + END_LINE) == Some(Received(CRLF, END_LINE))
  {
    var dot := [DOT] + CRLF;
    assert dot == END_LINE;
    assert Payload([], dot) == CRLF + dot;
    DotAfterEmptyLine(dot, dot);
  }

  /** Where the last line has no end, its text and the final dot make one line, and the text does not end. */
  lemma UnendedTextRunsOn()
    ensures ReadData(Payload([], [DOT + 1]) + END_LINE) == None
  {
    var s := Payload([], [DOT + 1]) + END_LINE;
    var line := [DOT + 1, DOT, CR, LF];
    FirstCrLf(s, 0);
    FirstCrLf(line, 2);
    assert s[2..] == line && line[4..] == [];
    assert |line[..2]| == 2;
    assert ReadData([]) == None;
    assert ReadData(line) == None;
  }

  // ---------------------------------------------------------------- the dots a sender should add

  /** A line that starts with one dot more is read as the line without it. */
  lemma DotDropped(line: seq<byte>, rest: seq<byte>)
    requires OneLine(line) && line != [] && ReadData(rest).Some?
    ensures ReadData([46] + line + CRLF + rest) ==
            Some(Received(line + CRLF + ReadData(rest).value.text, ReadData(rest).value.rest))
  {
    var dotted := [46] + line;
    OneLineJoin([46], line);
    assert |dotted| > 1;
    ReadOneLine(dotted, rest);
    assert Unstuffed(dotted) == line;
  }

  /** A line that starts with no dot is read as it is. */
  lemma OtherLineKept(line: seq<byte>, rest: seq<byte>)
    requires OneLine(line) && (line != [] ==> line[0] != 46) && ReadData(rest).Some?
    ensures ReadData(line + CRLF + rest) ==
            Some(Received(line + CRLF + ReadData(rest).value.text, ReadData(rest).value.rest))
  {
    ReadOneLine(line, rest);
  }

  function StuffedLine(line: seq<byte>): seq<byte> {
    if line != [] && line[0] == 46 then [46] + line else line
  }

  /** The text as section 4.5.2 of RFC 5321 wants it sent: a dot more at the start of each line that starts with one. */
  function Stuffed(text: seq<byte>): seq<byte>
    decreases |text|
  {
    var e := FindCrLf(text);
    if e == -1 then text else StuffedLine(text[..e]) + CRLF + Stuffed(text[e + 2..])
  }

  lemma StuffedLineIsRead(line: seq<byte>, more: seq<byte>, stuffed: seq<byte>, tail: seq<byte>)
    requires OneLine(line) && ReadData(stuffed + tail) == Some(Received(more, []))
    ensures ReadData(StuffedLine(line) + CRLF + stuffed + tail) == Some(Received(line + CRLF + more, []))
  {
    Associates(StuffedLine(line) + CRLF, stuffed, tail);
    if line != [] && line[0] == 46 {
      DotDropped(line, stuffed + tail);
    } else {
      OtherLineKept(line, stuffed + tail);
    }
  }

  lemma {:induction false} StuffedIsRead(text: seq<byte>, tail: seq<byte>)
    requires WholeLines(text) && ReadData(tail) == Some(Received([], []))
    ensures ReadData(Stuffed(text) + tail) == Some(Received(text, []))
    decreases |text|
  {
    if text == [] {
      assert Stuffed(text) + tail == tail;
    } else {
      assert CrLfAt(text, |text| - 2);
      var e := FindCrLf(text);
      FirstLine(text, e);
      FirstIsOneLine(text, e);
      StuffedIsRead(text[e + 2..], tail);
      StuffedLineIsRead(text[..e], text[e + 2..], Stuffed(text[e + 2..]), tail);
      Splits(text, e);
    }
  }

  lemma {:induction false} ReadIsWhole(s: seq<byte>)
    requires ReadData(s).Some?
    ensures WholeLines(ReadData(s).value.text)
    decreases |s|
  {
    var e := FindCrLf(s);
    if s[..e] != [DOT] {
      var line, text := Unstuffed(s[..e]), ReadData(s[e + 2..]).value.text;
      ReadIsWhole(s[e + 2..]);
      assert text == [] ==> EndsInCrLf(line + CRLF + text);
      assert text != [] ==> EndsInCrLf(text) && EndsInCrLf(line + CRLF + text);
    }
  }

  /** A sender that stuffs its dots gets every text across that consists of whole lines, and no other. */
  lemma StuffedRoundTrip(text: seq<byte>)
    ensures ReadData(Stuffed(text) + END_LINE) == Some(Received(text, [])) <==> WholeLines(text)
  {
    if WholeLines(text) {
      ReadLastLine([]);
      assert END_LINE + [] == END_LINE;
      StuffedIsRead(text, END_LINE);
    }
    if ReadData(Stuffed(text) + END_LINE) == Some(Received(text, [])) {
      ReadIsWhole(Stuffed(text) + END_LINE);
    }
  }

  // ---------------------------------------------------------------- byte by byte

  /** Once a text has been read, more bytes only add to what is left over. */
  lemma {:induction false} ReadMore(s: seq<byte>, more: seq<byte>)
    requires ReadData(s).Some?
    ensures ReadData(s + more) == Some(Received(ReadData(s).value.text, ReadData(s).value.rest + more))
    decreases |s|
  {
    var e := FindCrLf(s);
    assert forall k :: k <= e ==> (CrLfAt(s + more, k) <==> CrLfAt(s, k));
    FirstCrLf(s + more, e);
    assert (s + more)[..e] == s[..e];
    assert (s + more)[e + 2..] == s[e + 2..] + more;
    if s[..e] != [DOT] {
      ReadMore(s[e + 2..], more);
    }
  }

  /** The reader has its text as soon as what it leaves over begins. */
  lemma {:induction false} ReadExactly(s: seq<byte>) returns (part: seq<byte>)
    requires ReadData(s).Some?
    ensures s == part + ReadData(s).value.rest
    ensures ReadData(part) == Some(Received(ReadData(s).value.text, []))
    decreases |s|
  {
    var e := FindCrLf(s);
    Splits(s, e);
    var line, more := s[..e], s[e + 2..];
    if line == [DOT] {
      part := END_LINE;
      ReadLastLine([]);
      assert END_LINE + [] == END_LINE;
    } else {
      var tail := ReadExactly(more);
      part := line + CRLF + tail;
      FirstIsOneLine(s, e);
      ReadOneLine(line, tail);
      Associates(line + CRLF, tail, ReadData(more).value.rest);
    }
  }

  /** At the byte with which the reader first has its text, nothing is left over. */
  lemma NothingLeft(seen: seq<byte>, b: byte)
    requires ReadData(seen) == None && ReadData(seen + [b]).Some?
    ensures ReadData(seen + [b]).value.rest == []
  {
    var s := seen + [b];
    var part := ReadExactly(s);
    var rest := ReadData(s).value.rest;
    if rest != [] {
      var more := rest[..|rest| - 1];
      assert seen == part + more by {
        assert seen == s[..|s| - 1];
      }
      ReadMore(part, more);
    }
  }

  /** Where nothing is left over, the last thing read was a line end. */
  lemma {:induction false} ReadEndsInCrLf(s: seq<byte>)
    requires ReadData(s).Some? && ReadData(s).value.rest == []
    ensures EndsInCrLf(s)
    decreases |s|
  {
    var e := FindCrLf(s);
    if s[..e] == [DOT] {
      assert |s| == e + 2;
    } else {
      ReadEndsInCrLf(s[e + 2..]);
    }
  }

  /** A clean text is not taken for finished before its last byte. */
  lemma NotBeforeTheEnd(text: seq<byte>, seen: seq<byte>)
    requires WholeLines(text) && NoDotLine(text) && seen < text + END_LINE
    ensures ReadData(seen) == None
  {
    if ReadData(seen).Some? {
      var more := (text + END_LINE)[|seen|..];
      assert seen + more == text + END_LINE;
      ReadMore(seen, more);
      DataRoundTrip(text);
    }
  }

  // ---------------------------------------------------------------- texts in parts

  lemma CleanConcat(a: seq<byte>, b: seq<byte>)
    requires WholeLines(a)
    ensures WholeLines(a + b) <==> WholeLines(b)
    ensures NoDotLine(a + b) <==> NoDotLine(a) && NoDotLine(b)
  {
    var s := a + b;
    forall i | 0 <= i < |a| ensures LineStart(s, i) <==> LineStart(a, i) {
    }
    forall i | 0 <= i < |b| ensures LineStart(s, |a| + i) <==> LineStart(b, i) {
    }
    if NoDotLine(s) {
      forall i | 0 <= i < |b| && LineStart(b, i) ensures b[i] != DOT {
        assert LineStart(s, |a| + i);
      }
      forall i | 0 <= i < |a| && LineStart(a, i) ensures a[i] != DOT {
        assert LineStart(s, i);
      }
    }
    if NoDotLine(a) && NoDotLine(b) {
      forall i | 0 <= i < |s| && LineStart(s, i) ensures s[i] != DOT {
        if i >= |a| {
          assert LineStart(b, i - |a|);
        }
      }
    }
  }
}
