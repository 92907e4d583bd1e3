/**
 What the bytes of one copied message are, as a function of the message alone:
 which turns the daemon takes, which callback contributes what, and why the two
 views agree.
 */
module Message {
  import opened Bytes
  import opened Wire

  // ---------------------------------------------------------------- header values

  /** The value with every LF replaced by CRLF. */
  function ToWire(v: seq<byte>): seq<byte> {
    if v == [] then []
    else (if v[0] == LF then CRLF else [v[0]]) + ToWire(v[1..])
  }

  /** The value with every CRLF replaced by LF. */
  function FromWire(w: seq<byte>): seq<byte> {
    if w == [] then []
    else if CrLfAt(w, 0) then [LF] + FromWire(w[2..])
    else [w[0]] + FromWire(w[1..])
  }

  function LineFeeds(v: seq<byte>): nat {
    if v == [] then 0 else (if v[0] == LF then 1 else 0) + LineFeeds(v[1..])
  }

  lemma {:induction false} ToWireConcat(a: seq<byte>, b: seq<byte>)
    ensures ToWire(a + b) == ToWire(a) + ToWire(b)
  {
    if a == [] {
      assert a + b == b;
    } else {
      assert (a + b)[1..] == a[1..] + b;
      ToWireConcat(a[1..], b);
    }
  }

  lemma {:induction false} ToWireNoLf(v: seq<byte>)
    requires LF !in v
    ensures ToWire(v) == v
  {
    if v != [] {
      ToWireNoLf(v[1..]);
    }
  }

  /** One line of a value, up to and with its LF, becomes that line and a CRLF. */
  lemma ToWireLine(v: seq<byte>, start: nat, end: nat)
    requires start <= end < |v| && v[end] == LF && LF !in v[start..end]
    ensures ToWire(v[..end + 1]) == ToWire(v[..start]) + v[start..end] + CRLF
  {
    assert v[..end + 1] == v[..start] + (v[start..end] + [LF]);
    ToWireConcat(v[..start], v[start..end] + [LF]);
    ToWireConcat(v[start..end], [LF]);
    ToWireNoLf(v[start..end]);
    assert ToWire([LF]) == CRLF + ToWire([]);
  }

  lemma {:induction false} ToWireLength(v: seq<byte>)
    ensures |ToWire(v)| == |v| + LineFeeds(v)
  {
    if v != [] {
      ToWireLength(v[1..]);
    }
  }

  /** The replacement loses nothing, whatever the value: turning CRLF back into LF restores it. */
  lemma {:induction false} WireRoundTrip(v: seq<byte>)
    ensures FromWire(ToWire(v)) == v
  {
    if v != [] {
      var rest := ToWire(v[1..]);
      WireRoundTrip(v[1..]);
      if v[0] == LF {
        assert ToWire(v)[2..] == rest;
      } else {
        assert ToWire(v)[1..] == rest;
        ToWireStart(v[1..]);
      }
    }
  }

  /** Bytes on the wire never start with a bare LF. */
  lemma ToWireStart(v: seq<byte>)
    ensures ToWire(v) == [] || ToWire(v)[0] != LF
  {
  }

  // ---------------------------------------------------------------- one message

  datatype Header = Header(name: seq<byte>, value: seq<byte>)

  /** A message as the mail server hands it over: recipients, header fields, body pieces. */
  datatype Mail = Mail(rcpts: seq<seq<byte>>, headers: seq<Header>, chunks: seq<seq<byte>>)

  function HeloLine(helo: seq<byte>): seq<byte> {
    [72, 69, 76, 79, 32] + helo + CRLF                                  // HELO <helo>
  }

  const MAIL_LINE: seq<byte> :=
    [77, 65, 73, 76, 32, 70, 82, 79, 77, 58, 32, 60, 62, 13, 10]       // MAIL FROM: <>

  function RcptLine(rcpt: seq<byte>): seq<byte> {
    [82, 67, 80, 84, 32, 84, 79, 58] + rcpt + CRLF                      // RCPT TO:<rcpt>
  }

  const DATA_LINE: seq<byte> := [68, 65, 84, 65, 13, 10]                // DATA

  const END_LINE: seq<byte> := [46, 13, 10]                             // .

  function HeaderLines(h: Header): seq<byte> {
    h.name + [COLON] + ToWire(h.value) + CRLF
  }

  /** A field takes its name, a colon, its value, one byte more for each LF of the value, and a CRLF. */
  lemma HeaderLength(h: Header)
    ensures |HeaderLines(h)| == |h.name| + 1 + |h.value| + LineFeeds(h.value) + 2
  {
    ToWireLength(h.value);
  }

  function Concat(parts: seq<seq<byte>>): seq<byte> {
    if parts == [] then [] else parts[0] + Concat(parts[1..])
  }

  function HeaderBlock(headers: seq<Header>): seq<byte> {
    if headers == [] then [] else HeaderLines(headers[0]) + HeaderBlock(headers[1..])
  }

  /** The message text: header fields, an empty line, the body. */
  function Payload(headers: seq<Header>, body: seq<byte>): seq<byte> {
    HeaderBlock(headers) + CRLF + body
  }

  function RcptTurns(rcpts: seq<seq<byte>>): seq<seq<byte>> {
    if rcpts == [] then [] else [RcptLine(rcpts[0])] + RcptTurns(rcpts[1..])
  }

  /** Everything the daemon says for one message, one turn a reply. */
  function Turns(helo: seq<byte>, m: Mail): seq<seq<byte>> {
    [HeloLine(helo), MAIL_LINE] + RcptTurns(m.rcpts)
    + [DATA_LINE, Payload(m.headers, Concat(m.chunks)) + END_LINE]
  }

  function MailLog(helo: seq<byte>, m: Mail): seq<Event> {
    Dialogue(Turns(helo, m))
  }

  // ---------------------------------------------------------------- callback by callback

  datatype Callback =
    | Envfrom
    | Envrcpt(rcpt: seq<byte>)
    | Data
    | Field(header: Header)
    | Eoh
    | Body(chunk: seq<byte>)
    | Eom

  /** What one callback puts on the connection when it succeeds. */
  function CallbackLog(helo: seq<byte>, cb: Callback): seq<Event> {
    match cb
    case Envfrom => Say(HeloLine(helo)) + [Reply] + Say(MAIL_LINE) + [Reply]
    case Envrcpt(rcpt) => Say(RcptLine(rcpt)) + [Reply]
    case Data => Say(DATA_LINE) + [Reply]
    case Field(header) => Say(HeaderLines(header))
    case Eoh => Say(CRLF)
    case Body(chunk) => Say(chunk)
    case Eom => Say(END_LINE) + [Reply]
  }

  function ScriptLog(helo: seq<byte>, script: seq<Callback>): seq<Event> {
    if script == [] then [] else CallbackLog(helo, script[0]) + ScriptLog(helo, script[1..])
  }

  lemma {:induction false} ScriptLogConcat(helo: seq<byte>, a: seq<Callback>, b: seq<Callback>)
    ensures ScriptLog(helo, a + b) == ScriptLog(helo, a) + ScriptLog(helo, b)
  {
    if a == [] {
      assert a + b == b;
    } else {
      assert (a + b)[1..] == a[1..] + b;
      ScriptLogConcat(helo, a[1..], b);
    }
  }

  lemma ScriptLogOne(helo: seq<byte>, cb: Callback)
    ensures ScriptLog(helo, [cb]) == CallbackLog(helo, cb)
  {
    assert ScriptLog(helo, [cb]) == CallbackLog(helo, cb) + ScriptLog(helo, []);
  }

  function Rcpts(rcpts: seq<seq<byte>>): (script: seq<Callback>)
    ensures |script| == |rcpts|
  {
    if rcpts == [] then [] else [Envrcpt(rcpts[0])] + Rcpts(rcpts[1..])
  }

  function Fields(headers: seq<Header>): (script: seq<Callback>)
    ensures |script| == |headers|
  {
    if headers == [] then [] else [Field(headers[0])] + Fields(headers[1..])
  }

  function Bodies(chunks: seq<seq<byte>>): (script: seq<Callback>)
    ensures |script| == |chunks|
  {
    if chunks == [] then [] else [Body(chunks[0])] + Bodies(chunks[1..])
  }

  /** The callbacks after the first one. */
  function Rest(m: Mail): seq<Callback> {
    Rcpts(m.rcpts) + [Data] + (Fields(m.headers) + [Eoh] + Bodies(m.chunks) + [Eom])
  }

  /** The callbacks the mail server runs for a message, in its order. */
  function Script(m: Mail): seq<Callback> {
    [Envfrom] + Rest(m)
  }

  lemma {:induction false} RcptsLog(helo: seq<byte>, rcpts: seq<seq<byte>>)
    ensures ScriptLog(helo, Rcpts(rcpts)) == Dialogue(RcptTurns(rcpts))
  {
    if rcpts != [] {
      RcptsLog(helo, rcpts[1..]);
      assert Rcpts(rcpts)[1..] == Rcpts(rcpts[1..]);
      assert RcptTurns(rcpts)[1..] == RcptTurns(rcpts[1..]);
    }
  }

  lemma {:induction false} FieldsLog(helo: seq<byte>, headers: seq<Header>)
    ensures ScriptLog(helo, Fields(headers)) == Say(HeaderBlock(headers))
  {
    if headers != [] {
      FieldsLog(helo, headers[1..]);
      assert Fields(headers)[1..] == Fields(headers[1..]);
      SayConcat(HeaderLines(headers[0]), HeaderBlock(headers[1..]));
    }
  }

  lemma {:induction false} BodiesLog(helo: seq<byte>, chunks: seq<seq<byte>>)
    ensures ScriptLog(helo, Bodies(chunks)) == Say(Concat(chunks))
  {
    if chunks != [] {
      BodiesLog(helo, chunks[1..]);
      assert Bodies(chunks)[1..] == Bodies(chunks[1..]);
      SayConcat(chunks[0], Concat(chunks[1..]));
    }
  }

  lemma TextLog(helo: seq<byte>, m: Mail)
    ensures ScriptLog(helo, Fields(m.headers) + [Eoh] + Bodies(m.chunks) + [Eom]) ==
            Say(Payload(m.headers, Concat(m.chunks)) + END_LINE) + [Reply]
  {
    var body := Concat(m.chunks);
    ScriptLogConcat(helo, Fields(m.headers) + [Eoh] + Bodies(m.chunks), [Eom]);
    ScriptLogConcat(helo, Fields(m.headers) + [Eoh], Bodies(m.chunks));
    ScriptLogConcat(helo, Fields(m.headers), [Eoh]);
    ScriptLogOne(helo, Eoh);
    ScriptLogOne(helo, Eom);
    FieldsLog(helo, m.headers);
    BodiesLog(helo, m.chunks);
    SayConcat(HeaderBlock(m.headers), CRLF);
    SayConcat(HeaderBlock(m.headers) + CRLF, body);
    SayConcat(Payload(m.headers, body), END_LINE);
  }

  lemma DialogueTwo(a: seq<byte>, b: seq<byte>)
    ensures Dialogue([a, b]) == Say(a) + [Reply] + Say(b) + [Reply]
  {
    assert [a, b] == [a] + [b];
    DialogueConcat([a], [b]);
    DialogueOne(a);
    DialogueOne(b);
  }

  lemma EnvelopeLog(helo: seq<byte>, m: Mail)
    ensures ScriptLog(helo, [Envfrom] + (Rcpts(m.rcpts) + [Data])) ==
            Dialogue([HeloLine(helo), MAIL_LINE] + RcptTurns(m.rcpts) + [DATA_LINE])
  {
    var hello, rcpts := [HeloLine(helo), MAIL_LINE], RcptTurns(m.rcpts);
    ScriptLogConcat(helo, [Envfrom], Rcpts(m.rcpts) + [Data]);
    ScriptLogConcat(helo, Rcpts(m.rcpts), [Data]);
    Associates(Dialogue(hello), Dialogue(rcpts), Dialogue([DATA_LINE]));
    DialogueConcat(hello + rcpts, [DATA_LINE]);
    DialogueConcat(hello, rcpts);
    assert ScriptLog(helo, [Envfrom]) == Dialogue(hello) by {
      ScriptLogOne(helo, Envfrom);
      DialogueTwo(HeloLine(helo), MAIL_LINE);
    }
    assert ScriptLog(helo, [Data]) == Dialogue([DATA_LINE]) by {
      ScriptLogOne(helo, Data);
      DialogueOne(DATA_LINE);
    }
    RcptsLog(helo, m.rcpts);
  }

  lemma DialogueOne(turn: seq<byte>)
    ensures Dialogue([turn]) == Say(turn) + [Reply]
  {
    assert Dialogue([turn]) == Say(turn) + [Reply] + Dialogue([]);
  }

  /** The callbacks of a message, one after another, hold exactly its conversation. */
  lemma ScriptIsMail(helo: seq<byte>, m: Mail)
    ensures ScriptLog(helo, Script(m)) == MailLog(helo, m)
  {
    var front := [Envfrom] + (Rcpts(m.rcpts) + [Data]);
    var back := Fields(m.headers) + [Eoh] + Bodies(m.chunks) + [Eom];
    var envelope := [HeloLine(helo), MAIL_LINE] + RcptTurns(m.rcpts) + [DATA_LINE];
    var text := Payload(m.headers, Concat(m.chunks)) + END_LINE;
    Associates([Envfrom], Rcpts(m.rcpts) + [Data], back);
    ScriptLogConcat(helo, front, back);
    EnvelopeLog(helo, m);
    TextLog(helo, m);
    assert Turns(helo, m) == envelope + [text];
    DialogueConcat(envelope, [text]);
    DialogueOne(text);
  }

  // ---------------------------------------------------------------- consequences

  lemma {:induction false} ConcatConcat(a: seq<seq<byte>>, b: seq<seq<byte>>)
    ensures Concat(a + b) == Concat(a) + Concat(b)
  {
    if a == [] {
      assert a + b == b;
    } else {
      assert (a + b)[1..] == a[1..] + b;
      ConcatConcat(a[1..], b);
    }
  }

  /** How the body was cut into pieces does not show. */
  lemma CutsDoNotShow(helo: seq<byte>, m: Mail, chunks: seq<seq<byte>>)
    requires Concat(chunks) == Concat(m.chunks)
    ensures ScriptLog(helo, Script(m.(chunks := chunks))) == ScriptLog(helo, Script(m))
  {
    ScriptIsMail(helo, m);
    ScriptIsMail(helo, m.(chunks := chunks));
  }

  /** Two replies to the envelope sender, one a recipient, one to DATA and one to the final dot. */
  lemma MailReplies(helo: seq<byte>, m: Mail)
    ensures Replies(ScriptLog(helo, Script(m))) == |m.rcpts| + 4
  {
    ScriptIsMail(helo, m);
    RcptTurnsLength(m.rcpts);
    DialogueReplies(Turns(helo, m));
  }

  lemma {:induction false} RcptTurnsLength(rcpts: seq<seq<byte>>)
    ensures |RcptTurns(rcpts)| == |rcpts|
  {
    if rcpts != [] {
      RcptTurnsLength(rcpts[1..]);
    }
  }

  lemma {:induction false} CarriedDialogue(turns: seq<seq<byte>>)
    ensures Carried(Dialogue(turns)) == Concat(turns)
  {
    if turns != [] {
      CarriedConcat(Say(turns[0]) + [Reply], Dialogue(turns[1..]));
      CarriedConcat(Say(turns[0]), [Reply]);
      CarriedSay(turns[0]);
      CarriedDialogue(turns[1..]);
    }
  }

  function RcptBlock(rcpts: seq<seq<byte>>): seq<byte> {
    if rcpts == [] then [] else RcptLine(rcpts[0]) + RcptBlock(rcpts[1..])
  }

  lemma {:induction false} RcptTurnsBlock(rcpts: seq<seq<byte>>)
    ensures Concat(RcptTurns(rcpts)) == RcptBlock(rcpts)
  {
    if rcpts != [] {
      RcptTurnsBlock(rcpts[1..]);
      assert RcptTurns(rcpts)[1..] == RcptTurns(rcpts[1..]);
    }
  }

  lemma ConcatTwo(a: seq<byte>, b: seq<byte>)
    ensures Concat([a, b]) == a + b
  {
    assert [a, b][1..] == [b];
    assert Concat([b]) == b + Concat([]);
  }

  /** The bytes a message puts on the socket. */
  lemma MailBytes(helo: seq<byte>, m: Mail)
    ensures Carried(ScriptLog(helo, Script(m))) ==
            HeloLine(helo) + MAIL_LINE + RcptBlock(m.rcpts)
            + (DATA_LINE + (Payload(m.headers, Concat(m.chunks)) + END_LINE))
  {
    var hello := [HeloLine(helo), MAIL_LINE];
    var last := [DATA_LINE, Payload(m.headers, Concat(m.chunks)) + END_LINE];
    ScriptIsMail(helo, m);
    CarriedDialogue(Turns(helo, m));
    ConcatConcat(hello + RcptTurns(m.rcpts), last);
    ConcatConcat(hello, RcptTurns(m.rcpts));
    RcptTurnsBlock(m.rcpts);
    ConcatTwo(HeloLine(helo), MAIL_LINE);
    ConcatTwo(DATA_LINE, Payload(m.headers, Concat(m.chunks)) + END_LINE);
  }
}
