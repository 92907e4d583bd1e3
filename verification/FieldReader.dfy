/**
 Reading a message text as sections 2.2 and 2.2.3 of RFC 5322 have it: a field
 ends at the first CRLF that white space does not follow, its name ends at the
 first colon and does not start with white space, CR and LF occur together only,
 and the first empty line starts the body. A field's value is given back with LF
 for CRLF, the form in which the mail server hands values over. A second, strict
 reader also wants names of printable ASCII, as section 2.2 has it.
 */
module FieldReader {
  import opened Bytes
  import opened Message
  import opened DataReader

  // ---------------------------------------------------------------- the reader

  /** A space or a tab. */
  predicate IsWsp(b: byte) {
    b == 32 || b == 9
  }

  /** A CRLF at `k` that ends a field rather than folding it. */
  predicate FieldEndAt(s: seq<byte>, k: int) {
    CrLfAt(s, k) && (k + 2 < |s| ==> !IsWsp(s[k + 2]))
  }

  function FindFieldEnd(s: seq<byte>): (e: int)
    ensures e == -1 ==> forall k :: !FieldEndAt(s, k)
    ensures e != -1 ==> FieldEndAt(s, e) && forall k :: k < e ==> !FieldEndAt(s, k)
  {
    if |s| < 2 then -1
    else if FieldEndAt(s, 0) then 0
    else
      var e := FindFieldEnd(s[1..]);
      assert forall k :: 1 <= k ==> (FieldEndAt(s, k) <==> FieldEndAt(s[1..], k - 1));
      if e == -1 then -1 else e + 1
  }

  function FindColon(s: seq<byte>): (c: int)
    ensures c == -1 ==> 58 !in s
    ensures c != -1 ==> 0 <= c < |s| && s[c] == 58 && 58 !in s[..c]
  {
    if s == [] then -1
    else if s[0] == 58 then 0
    else
      var c := FindColon(s[1..]);
      assert c != -1 ==> s[..c + 1] == [s[0]] + s[1..][..c];
      if c == -1 then -1 else c + 1
  }

  /** Not a colon, a CR or an LF. */
  predicate NameByte(b: byte) {
    b != 58 && b != 13 && b != 10
  }

  /** A name that can be told from what surrounds it. */
  predicate FieldName(name: seq<byte>) {
    name != [] && !IsWsp(name[0]) && forall k :: 0 <= k < |name| ==> NameByte(name[k])
  }

  /** CR and LF only as CRLF, and each CRLF folds: white space follows it. */
  predicate Folded(w: seq<byte>)
    decreases |w|
  {
    if w == [] then true
    else if CrLfAt(w, 0) then |w| > 2 && IsWsp(w[2]) && Folded(w[2..])
    else w[0] != CR && w[0] != LF && Folded(w[1..])
  }

  function ReadField(line: seq<byte>): Option<Header> {
    var c := FindColon(line);
    if c == -1 || !FieldName(line[..c]) || !Folded(line[c + 1..]) then None
    else Some(Header(line[..c], FromWire(line[c + 1..])))
  }

  datatype Letter = Letter(headers: seq<Header>, body: seq<byte>)

  function ReadLetter(s: seq<byte>): Option<Letter>
    decreases |s|
  {
    if CrLfAt(s, 0) then Some(Letter([], s[2..]))
    else
      var e := FindFieldEnd(s);
      if e == -1 then None
      else
        match ReadField(s[..e])
        case None => None
        case Some(h) =>
          match ReadLetter(s[e + 2..])
          case None => None
          case Some(l) => Some(Letter([h] + l.headers, l.body))
  }

  // ---------------------------------------------------------------- headers that survive

  /** At `k`, no CR, and no LF that white space does not follow. */
  predicate FoldedValueAt(v: seq<byte>, k: nat)
    requires k < |v|
  {
    v[k] != 13 && (v[k] == 10 ==> k + 1 < |v| && (v[k + 1] == 32 || v[k + 1] == 9))
  }

  /** No CR, and every LF is followed by white space. */
  predicate FoldedValue(v: seq<byte>) {
    forall k :: 0 <= k < |v| ==> FoldedValueAt(v, k)
  }

  /** Not empty, no space or tab at the start, and no colon, CR or LF. */
  predicate GoodName(name: seq<byte>) {
    && name != [] && name[0] != 32 && name[0] != 9
    && forall k :: 0 <= k < |name| ==> name[k] != 58 && name[k] != 13 && name[k] != 10
  }

  predicate GoodHeader(h: Header) {
    GoodName(h.name) && FoldedValue(h.value)
  }

  ghost predicate GoodHeaders(headers: seq<Header>) {
    forall k :: 0 <= k < |headers| ==> GoodHeader(headers[k])
  }

  lemma FoldedValueStep(v: seq<byte>)
    requires v != []
    ensures FoldedValue(v) <==> FoldedValueAt(v, 0) && FoldedValue(v[1..])
  {
    var rest := v[1..];
    forall k | 0 <= k < |rest| ensures FoldedValueAt(rest, k) <==> FoldedValueAt(v, k + 1) {
    }
    if FoldedValueAt(v, 0) && FoldedValue(rest) {
      forall k | 0 <= k < |v| ensures FoldedValueAt(v, k) {
        if k > 0 {
          assert FoldedValueAt(rest, k - 1);
        }
      }
    }
    if FoldedValue(v) {
      forall k | 0 <= k < |rest| ensures FoldedValueAt(rest, k) {
        assert FoldedValueAt(v, k + 1);
      }
    }
  }

  /** A good value is properly folded on the wire. */
  lemma {:induction false} ToWireFolds(v: seq<byte>)
    requires FoldedValue(v)
    ensures Folded(ToWire(v))
  {
    if v != [] {
      FoldedValueStep(v);
      ToWireFolds(v[1..]);
      var w := ToWire(v);
      if v[0] == LF {
        assert w[2..] == ToWire(v[1..]);
      } else {
        assert w[1..] == ToWire(v[1..]);
      }
    }
  }

  /** What the reader gives back as a value is a good one. */
  lemma {:induction false} FromWireIsGood(w: seq<byte>)
    requires Folded(w)
    ensures FoldedValue(FromWire(w))
    decreases |w|
  {
    if w != [] {
      var rest := if CrLfAt(w, 0) then w[2..] else w[1..];
      FromWireIsGood(rest);
      assert FromWire(w)[1..] == FromWire(rest);
      FoldedValueStep(FromWire(w));
    }
  }

  /** In a properly folded value, a CRLF never ends a field. */
  lemma {:induction false} FoldsOnly(w: seq<byte>, k: nat)
    requires Folded(w) && CrLfAt(w, k)
    ensures k + 2 < |w| && IsWsp(w[k + 2])
    decreases |w|
  {
    if CrLfAt(w, 0) {
      if k > 0 {
        FoldsOnly(w[2..], k - 2);
      }
    } else {
      FoldsOnly(w[1..], k - 1);
    }
  }

  // ---------------------------------------------------------------- printing and reading one field

  lemma FirstFieldEnd(s: seq<byte>, e: int)
    requires FieldEndAt(s, e) && forall k :: k < e ==> !FieldEndAt(s, k)
    ensures FindFieldEnd(s) == e
  {
    assert FindFieldEnd(s) != -1;
  }

  lemma {:induction false} FirstColon(name: seq<byte>, more: seq<byte>)
    requires 58 !in name
    ensures FindColon(name + [58] + more) == |name|
  {
    var s := name + [58] + more;
    if name != [] {
      assert s[1..] == name[1..] + [58] + more;
      FirstColon(name[1..], more);
    }
  }

  lemma FieldIsRead(h: Header)
    requires GoodHeader(h)
    ensures ReadField(h.name + [COLON] + ToWire(h.value)) == Some(h)
  {
    var w := ToWire(h.value);
    var line := h.name + [COLON] + w;
    assert 58 !in h.name;
    assert FieldName(h.name);
    FirstColon(h.name, w);
    assert line[..|h.name|] == h.name && line[|h.name| + 1..] == w;
    ToWireFolds(h.value);
    WireRoundTrip(h.value);
  }

  /** A good field ends where it was made to end, if white space does not follow it. */
  lemma FieldEnds(h: Header, more: seq<byte>)
    requires GoodHeader(h) && (more != [] ==> !IsWsp(more[0]))
    ensures var n := |h.name| + 1 + |ToWire(h.value)|;
            FindFieldEnd(HeaderLines(h) + more) == n && !CrLfAt(HeaderLines(h) + more, 0)
  {
    var w := ToWire(h.value);
    var s := HeaderLines(h) + more;
    var n := |h.name| + 1 + |w|;
    ToWireFolds(h.value);
    assert forall k :: 0 <= k < |h.name| ==> s[k] == h.name[k] && NameByte(h.name[k]);
    assert s[0] == h.name[0];
    forall k | |h.name| < k < n && CrLfAt(s, k) ensures k + 2 < |s| && IsWsp(s[k + 2]) {
      var j := k - |h.name| - 1;
      assert s[k] == w[j];
      FoldsOnly(w, j);
      assert s[k + 2] == w[j + 2];
    }
    assert s[|h.name|] == COLON;
    assert s[n] == CR && s[n + 1] == LF;
    assert more != [] ==> s[n + 2] == more[0];
    FirstFieldEnd(s, n);
  }

  // ---------------------------------------------------------------- whole messages

  lemma ReadLine(line: seq<byte>, more: seq<byte>, h: Header)
    requires FindFieldEnd(line + CRLF + more) == |line| && !CrLfAt(line + CRLF + more, 0)
    requires ReadField(line) == Some(h) && ReadLetter(more).Some?
    ensures ReadLetter(line + CRLF + more) ==
            Some(Letter([h] + ReadLetter(more).value.headers, ReadLetter(more).value.body))
  {
    CutLine(line, more);
  }

  lemma ReadOneField(h: Header, more: seq<byte>)
    requires GoodHeader(h) && more != [] && !IsWsp(more[0]) && ReadLetter(more).Some?
    ensures ReadLetter(HeaderLines(h) + more) ==
            Some(Letter([h] + ReadLetter(more).value.headers, ReadLetter(more).value.body))
  {
    FieldEnds(h, more);
    FieldIsRead(h);
    ReadLine(h.name + [COLON] + ToWire(h.value), more, h);
  }

  /** Neither a field nor the empty line before the body starts with white space. */
  lemma PayloadStart(headers: seq<Header>, body: seq<byte>)
    requires GoodHeaders(headers)
    ensures !IsWsp(Payload(headers, body)[0])
  {
    if headers != [] {
      assert GoodHeader(headers[0]);
    }
  }

  lemma PayloadStep(headers: seq<Header>, body: seq<byte>)
    requires headers != []
    ensures Payload(headers, body) == HeaderLines(headers[0]) + Payload(headers[1..], body)
  {
    Associates(HeaderLines(headers[0]), HeaderBlock(headers[1..]), CRLF);
    Associates(HeaderLines(headers[0]), HeaderBlock(headers[1..]) + CRLF, body);
  }

  lemma NoFieldsRead(body: seq<byte>)
    ensures ReadLetter(Payload([], body)) == Some(Letter([], body))
  {
    assert Payload([], body) == CRLF + body;
    assert (CRLF + body)[2..] == body;
  }

  lemma {:induction false} GoodIsRead(headers: seq<Header>, body: seq<byte>)
    requires GoodHeaders(headers)
    ensures ReadLetter(Payload(headers, body)) == Some(Letter(headers, body))
  {
    if headers == [] {
      NoFieldsRead(body);
    } else {
      var rest := headers[1..];
      assert GoodHeader(headers[0]) && GoodHeaders(rest);
      PayloadStep(headers, body);
      PayloadStart(rest, body);
      GoodIsRead(rest, body);
      ReadOneField(headers[0], Payload(rest, body));
      assert [headers[0]] + rest == headers;
    }
  }

  /** The reader accepts good headers only. */
  lemma {:induction false} ReadIsGood(s: seq<byte>)
    requires ReadLetter(s).Some?
    ensures GoodHeaders(ReadLetter(s).value.headers)
    decreases |s|
  {
    if !CrLfAt(s, 0) {
      var e := FindFieldEnd(s);
      var line := s[..e];
      FromWireIsGood(line[FindColon(line) + 1..]);
      ReadIsGood(s[e + 2..]);
    }
  }

  /**
   A reader of the message text gets back exactly the header fields and the body
   that the mail server handed over, if and only if every name is a field name and
   every value is without CR and folded after each LF.
   */
  lemma LetterRoundTrip(headers: seq<Header>, body: seq<byte>)
    ensures ReadLetter(Payload(headers, body)) == Some(Letter(headers, body)) <==> GoodHeaders(headers)
  {
    if GoodHeaders(headers) {
      GoodIsRead(headers, body);
    }
    if ReadLetter(Payload(headers, body)) == Some(Letter(headers, body)) {
      ReadIsGood(Payload(headers, body));
    }
  }

  lemma {:induction false} FoldedBack(w: seq<byte>)
    requires Folded(w)
    ensures ToWire(FromWire(w)) == w
    decreases |w|
  {
    if w != [] {
      var rest := if CrLfAt(w, 0) then w[2..] else w[1..];
      FoldedBack(rest);
      assert FromWire(w)[1..] == FromWire(rest);
      assert w == (if CrLfAt(w, 0) then CRLF else [w[0]]) + rest;
    }
  }

  lemma FieldIsPrinted(line: seq<byte>)
    requires ReadField(line).Some?
    ensures HeaderLines(ReadField(line).value) == line + CRLF
  {
    var c := FindColon(line);
    FoldedBack(line[c + 1..]);
    assert line == line[..c] + [COLON] + line[c + 1..];
  }

  /** The other way round: what the reader makes of any text is printed as that text. */
  lemma {:induction false} ReadIsPrinted(s: seq<byte>)
    requires ReadLetter(s).Some?
    ensures Payload(ReadLetter(s).value.headers, ReadLetter(s).value.body) == s
    decreases |s|
  {
    if CrLfAt(s, 0) {
      assert Payload([], s[2..]) == CRLF + s[2..] == s;
    } else {
      var e := FindFieldEnd(s);
      var headers := ReadLetter(s).value.headers;
      FieldIsPrinted(s[..e]);
      ReadIsPrinted(s[e + 2..]);
      assert headers[1..] == ReadLetter(s[e + 2..]).value.headers;
      PayloadStep(headers, ReadLetter(s).value.body);
      Splits(s, e);
    }
  }

  /** Where a value is not folded: the line after its LF is no field, and the message cannot be read. */
  lemma LooseValueIsNotRead()
    ensures ReadLetter(Payload([Header([65], [LF, 66])], [])) == None
  {
    var h := Header([65], [LF, 66]);
    var s := Payload([h], []);
    assert ToWire([LF, 66]) == [CR, LF, 66] by {
      assert [LF, 66][1..] == [66];
      ToWireNoLf([66]);
    }
    assert HeaderBlock([h]) == HeaderLines(h) + HeaderBlock([]);
    assert s == [65, COLON, CR, LF, 66, CR, LF, CR, LF];
    FirstFieldEnd(s, 2);
    var more := s[4..];
    assert more == [66, CR, LF, CR, LF];
    FirstFieldEnd(more, 1);
    assert more[..1] == [66];
    assert 58 !in more[..1];
  }

  /** Different good messages never look the same on the wire. */
  lemma PayloadInjective(headers: seq<Header>, body: seq<byte>, headers': seq<Header>, body': seq<byte>)
    requires GoodHeaders(headers) && GoodHeaders(headers')
    requires Payload(headers, body) == Payload(headers', body')
    ensures headers == headers' && body == body'
  {
    GoodIsRead(headers, body);
    GoodIsRead(headers', body');
  }

  // ---------------------------------------------------------------- names of printable ASCII

  predicate Printable(name: seq<byte>) {
    forall k :: 0 <= k < |name| ==> 33 <= name[k] <= 126
  }

  ghost predicate PrintableNames(headers: seq<Header>) {
    forall k :: 0 <= k < |headers| ==> Printable(headers[k].name)
  }

  /** The same reader, field by field, but no name outside printable ASCII is taken. */
  function ReadStrictly(s: seq<byte>): Option<Letter>
    decreases |s|
  {
    if CrLfAt(s, 0) then Some(Letter([], s[2..]))
    else
      var e := FindFieldEnd(s);
      if e == -1 then None
      else
        match ReadField(s[..e])
        case None => None
        case Some(h) =>
          match ReadStrictly(s[e + 2..])
          case None => None
          case Some(l) => if Printable(h.name) then Some(Letter([h] + l.headers, l.body)) else None
  }

  lemma PrintableStep(headers: seq<Header>)
    requires headers != []
    ensures PrintableNames(headers) <==> Printable(headers[0].name) && PrintableNames(headers[1..])
  {
    assert forall k :: 1 <= k < |headers| ==> headers[k] == headers[1..][k - 1];
  }

  /** It reads what the other reader reads, when all the names are printable, and nothing else. */
  lemma {:induction false} StrictIsPrintable(s: seq<byte>)
    ensures ReadStrictly(s).Some? <==> ReadLetter(s).Some? && PrintableNames(ReadLetter(s).value.headers)
    ensures ReadStrictly(s).Some? ==> ReadStrictly(s) == ReadLetter(s)
    decreases |s|
  {
    if !CrLfAt(s, 0) {
      var e := FindFieldEnd(s);
      if e != -1 {
        StrictIsPrintable(s[e + 2..]);
        if ReadLetter(s).Some? {
          PrintableStep(ReadLetter(s).value.headers);
        }
      }
    }
  }

  /** The strict reader returns the message if and only if, besides, the names are printable. */
  lemma StrictRoundTrip(headers: seq<Header>, body: seq<byte>)
    ensures ReadStrictly(Payload(headers, body)) == Some(Letter(headers, body)) <==>
            GoodHeaders(headers) && PrintableNames(headers)
  {
    StrictIsPrintable(Payload(headers, body));
    LetterRoundTrip(headers, body);
  }

  // ---------------------------------------------------------------- both readers together

  /** What a caller can check before the copy: nothing in the message would need dot-stuffing. */
  ghost predicate NeedsNoStuffing(headers: seq<Header>, body: seq<byte>) {
    && WholeLines(body) && NoDotLine(body)
    && forall k :: 0 <= k < |headers| && headers[k].name != [] ==> headers[k].name[0] != DOT
  }

  /** The lines of one good field are whole, and none but the first can start with a dot. */
  lemma FieldLinesClean(h: Header)
    requires GoodHeader(h)
    ensures WholeLines(HeaderLines(h))
    ensures NoDotLine(HeaderLines(h)) <==> h.name[0] != DOT
  {
    var s := HeaderLines(h);
    FieldEnds(h, []);
    assert s + [] == s;
    assert CrLfAt(s, |s| - 2);
    assert LineStart(s, 0) && s[0] == h.name[0];
    forall i | 0 < i < |s| && LineStart(s, i) ensures s[i] != DOT {
      assert !FieldEndAt(s, i - 2);
    }
  }

  lemma {:induction false} BlockClean(headers: seq<Header>)
    requires GoodHeaders(headers)
    ensures WholeLines(HeaderBlock(headers))
    ensures NoDotLine(HeaderBlock(headers)) <==> forall k :: 0 <= k < |headers| ==> headers[k].name[0] != DOT
  {
    if headers != [] {
      assert GoodHeader(headers[0]);
      FieldLinesClean(headers[0]);
      BlockClean(headers[1..]);
      CleanConcat(HeaderLines(headers[0]), HeaderBlock(headers[1..]));
      assert forall k :: 1 <= k < |headers| ==> headers[k] == headers[1..][k - 1];
    }
  }

  /** For good headers, the text is clean exactly when nothing in it needs dot-stuffing. */
  lemma PayloadClean(headers: seq<Header>, body: seq<byte>)
    requires GoodHeaders(headers)
    ensures WholeLines(Payload(headers, body)) && NoDotLine(Payload(headers, body)) <==> NeedsNoStuffing(headers, body)
  {
    BlockClean(headers);
    CleanConcat(HeaderBlock(headers), CRLF + body);
    CleanConcat(CRLF, body);
    assert HeaderBlock(headers) + (CRLF + body) == Payload(headers, body);
    forall k | 0 <= k < |headers| ensures headers[k].name != [] {
      assert GoodHeader(headers[k]);
    }
  }

  /**
   From what is written between DATA and its final dot, the copy server's two
   readers recover the header fields and the body the mail server handed over, if
   and only if the headers are good and nothing needs dot-stuffing.
   */
  lemma CopyRoundTrip(headers: seq<Header>, body: seq<byte>)
    ensures && ReadData(Payload(headers, body) + END_LINE) == Some(Received(Payload(headers, body), []))
            && ReadLetter(Payload(headers, body)) == Some(Letter(headers, body))
            <==> GoodHeaders(headers) && NeedsNoStuffing(headers, body)
  {
    DataRoundTrip(Payload(headers, body));
    LetterRoundTrip(headers, body);
    if GoodHeaders(headers) {
      PayloadClean(headers, body);
    }
  }
}
