/**
 A copy server that hears one whole connection. It insists on lock step: it
 speaks first, it hears nothing while it owes a reply, and nobody waits for a
 reply it does not owe. Lines end in CRLF; a command it does not know is answered
 and has no effect (section 4.2.4 of RFC 5321); the text after DATA is read as
 RFC 5321 has it. What it gets out of a connection is an independent account of
 what the daemon said.
 */
module CopyServer {
  import opened Bytes
  import opened Wire
  import opened Message
  import opened DataReader
  import opened FieldReader

  datatype Phase =
    | Hello                      // has to send the greeting
    | Ready(line: seq<byte>)     // hears a command, `line` so far
    | Owes(data: bool)           // owes a reply; the one to DATA opens the text
    | Text(seen: seq<byte>)      // hears a text, `seen` so far
    | Confused                   // out of step

  /** One message as it arrived. */
  datatype Copy = Copy(helo: seq<byte>, rcpts: seq<seq<byte>>, text: seq<byte>)

  datatype Server = Server(phase: Phase, helo: seq<byte>, rcpts: seq<seq<byte>>, got: seq<Copy>)

  const START := Server(Hello, [], [], [])

  const HELO: seq<byte> := [72, 69, 76, 79, 32]
  const MAIL: seq<byte> := [77, 65, 73, 76, 32, 70, 82, 79, 77, 58, 32, 60, 62]
  const RCPT: seq<byte> := [82, 67, 80, 84, 32, 84, 79, 58]
  const DATA: seq<byte> := [68, 65, 84, 65]

  function Command(s: Server, line: seq<byte>): (s': Server)
    ensures s'.got == s.got && s'.phase.Owes? && (s'.phase.data <==> line == DATA)
  {
    if HELO <= line then s.(phase := Owes(false), helo := line[|HELO|..])
    else if line == MAIL then s.(phase := Owes(false), rcpts := [])
    else if RCPT <= line then s.(phase := Owes(false), rcpts := s.rcpts + [line[|RCPT|..]])
    else if line == DATA then s.(phase := Owes(true))
    else s.(phase := Owes(false))
  }

  function Hear(s: Server, ev: Event): Server {
    match s.phase
    case Hello => s.(phase := if ev.Reply? then Ready([]) else Confused)
    case Ready(line) =>
      if ev.Reply? then s.(phase := Confused)
      else if EndsInCrLf(line + [ev.b]) then Command(s, (line + [ev.b])[..|line| - 1])
      else s.(phase := Ready(line + [ev.b]))
    case Owes(data) => s.(phase := if ev.Sent? then Confused else if data then Text([]) else Ready([]))
    case Text(seen) =>
      if ev.Reply? then s.(phase := Confused)
      else (
        match ReadData(seen + [ev.b])
        case None => s.(phase := Text(seen + [ev.b]))
        case Some(r) => s.(phase := Owes(false), rcpts := [], got := s.got + [Copy(s.helo, s.rcpts, r.text)]))
    case Confused => s
  }

  function Listen(s: Server, log: seq<Event>): Server
    decreases |log|
  {
    if log == [] then s else Listen(Hear(s, log[0]), log[1..])
  }

  lemma {:induction false} ListenConcat(s: Server, a: seq<Event>, b: seq<Event>)
    ensures Listen(s, a + b) == Listen(Listen(s, a), b)
    decreases |a|
  {
    if a == [] {
      assert a + b == b;
    } else {
      assert (a + b)[1..] == a[1..] + b;
      ListenConcat(Hear(s, a[0]), a[1..], b);
    }
  }

  lemma ListenOne(s: Server, ev: Event)
    ensures Listen(s, [ev]) == Hear(s, ev)
  {
    assert Listen(s, [ev]) == Listen(Hear(s, ev), []);
  }

  lemma SayMore(b: byte, more: seq<byte>)
    ensures Say([b] + more)[0] == Sent(b) && Say([b] + more)[1..] == Say(more)
  {
  }

  lemma {:induction false} StaysConfused(s: Server, log: seq<Event>)
    requires s.phase.Confused?
    ensures Listen(s, log) == s
    decreases |log|
  {
    if log != [] {
      StaysConfused(s, log[1..]);
    }
  }

  /** What was got stays got. */
  lemma {:induction false} GotGrows(s: Server, log: seq<Event>)
    ensures s.got <= Listen(s, log).got
    decreases |log|
  {
    if log != [] {
      GotGrows(Hear(s, log[0]), log[1..]);
    }
  }

  /** Whatever is said while a reply is owed. */
  lemma TooEarly(s: Server, said: seq<byte>)
    requires s.phase.Owes? && said != []
    ensures Listen(s, Say(said)).phase.Confused? && Listen(s, Say(said)).got == s.got
  {
    SayMore(said[0], said[1..]);
    assert said == [said[0]] + said[1..];
    StaysConfused(Hear(s, Sent(said[0])), Say(said[1..]));
  }

  // ---------------------------------------------------------------- commands

  ghost predicate NoCrLf(s: seq<byte>) {
    forall k :: !CrLfAt(s, k)
  }

  /** As long as no CRLF comes, the line grows. */
  lemma {:induction false} PartHeard(s: Server, line: seq<byte>, part: seq<byte>)
    requires s.phase == Ready(line) && NoCrLf(line + part)
    ensures Listen(s, Say(part)) == s.(phase := Ready(line + part))
    decreases |part|
  {
    if part == [] {
      assert line + part == line;
    } else {
      var b, more := part[0], part[1..];
      assert part == [b] + more;
      SayMore(b, more);
      assert line + [b] + more == line + part;
      assert CrLfAt(line + [b], |line| - 1) ==> CrLfAt(line + part, |line| - 1);
      PartHeard(s.(phase := Ready(line + [b])), line + [b], more);
    }
  }

  lemma OneLineNoCrLf(line: seq<byte>)
    ensures OneLine(line) <==> NoCrLf(line + [CR])
  {
    assert forall k :: k < |line| ==> (CrLfAt(line + CRLF, k) <==> CrLfAt(line + [CR], k));
  }

  lemma LineEndHeard(s: Server, line: seq<byte>)
    requires s.phase == Ready(line + [CR])
    ensures Hear(s, Sent(LF)) == Command(s, line)
  {
    var full := line + [CR] + [LF];
    assert EndsInCrLf(full) && full[..|line|] == line;
  }

  /** A command line without a line end of its own is heard as that line. */
  lemma LineHeard(s: Server, line: seq<byte>, rest: seq<byte>)
    requires s.phase == Ready(line) && OneLine(line + rest)
    ensures Listen(s, Say(rest + CRLF)) == Command(s, line + rest)
  {
    var part := rest + [CR];
    assert rest + CRLF == part + [LF];
    SayConcat(part, [LF]);
    ListenConcat(s, Say(part), Say([LF]));
    Associates(line, rest, [CR]);
    OneLineNoCrLf(line + rest);
    PartHeard(s, line, part);
    var s' := s.(phase := Ready(line + part));
    assert Say([LF]) == [Sent(LF)];
    ListenOne(s', Sent(LF));
    LineEndHeard(s', line + rest);
  }

  /** A whole turn: the line, and the reply to it. */
  lemma CommandHeard(s: Server, line: seq<byte>)
    requires s.phase == Ready([]) && OneLine(line)
    ensures Listen(s, Say(line + CRLF) + [Reply]) == Hear(Command(s, line), Reply)
  {
    ListenConcat(s, Say(line + CRLF), [Reply]);
    assert [] + line == line;
    LineHeard(s, [], line);
    ListenOne(Command(s, line), Reply);
  }

  lemma HeloHeard(s: Server, helo: seq<byte>)
    requires s.phase == Ready([]) && OneLine(helo)
    ensures Listen(s, Say(HeloLine(helo)) + [Reply]) == s.(helo := helo)
  {
    assert HeloLine(helo) == (HELO + helo) + CRLF;
    assert (HELO + helo)[|HELO|..] == helo;
    OneLineJoin(HELO, helo);
    CommandHeard(s, HELO + helo);
  }

  lemma MailHeard(s: Server)
    requires s.phase == Ready([])
    ensures Listen(s, Say(MAIL_LINE) + [Reply]) == s.(rcpts := [])
  {
    assert MAIL_LINE == MAIL + CRLF;
    assert MAIL[0] != HELO[0];
    CommandHeard(s, MAIL);
  }

  lemma RcptHeard(s: Server, rcpt: seq<byte>)
    requires s.phase == Ready([]) && OneLine(rcpt)
    ensures Listen(s, Say(RcptLine(rcpt)) + [Reply]) == s.(rcpts := s.rcpts + [rcpt])
  {
    assert RcptLine(rcpt) == (RCPT + rcpt) + CRLF;
    assert (RCPT + rcpt)[|RCPT|..] == rcpt;
    OneLineJoin(RCPT, rcpt);
    assert (RCPT + rcpt)[0] != HELO[0] && (RCPT + rcpt)[0] != MAIL[0];
    CommandHeard(s, RCPT + rcpt);
  }

  lemma DataHeard(s: Server)
    requires s.phase == Ready([])
    ensures Listen(s, Say(DATA_LINE) + [Reply]) == s.(phase := Text([]))
  {
    assert DATA_LINE == DATA + CRLF;
    assert DATA[0] != HELO[0] && DATA[0] != MAIL[0] && DATA[0] != RCPT[0];
    CommandHeard(s, DATA);
  }

  lemma {:induction false} RcptsHeard(s: Server, rcpts: seq<seq<byte>>)
    requires s.phase == Ready([]) && forall k :: 0 <= k < |rcpts| ==> OneLine(rcpts[k])
    ensures Listen(s, Dialogue(RcptTurns(rcpts))) == s.(rcpts := s.rcpts + rcpts)
    decreases |rcpts|
  {
    if rcpts == [] {
      assert s.rcpts + rcpts == s.rcpts;
    } else {
      var turn, turns := Say(RcptLine(rcpts[0])) + [Reply], Dialogue(RcptTurns(rcpts[1..]));
      assert Dialogue(RcptTurns(rcpts)) == turn + turns by {
        assert RcptTurns(rcpts)[1..] == RcptTurns(rcpts[1..]);
      }
      ListenConcat(s, turn, turns);
      RcptHeard(s, rcpts[0]);
      RcptsHeard(s.(rcpts := s.rcpts + [rcpts[0]]), rcpts[1..]);
      FirstMoved(s.rcpts, rcpts);
    }
  }

  lemma FirstMoved<T>(a: seq<T>, b: seq<T>)
    requires b != []
    ensures (a + [b[0]]) + b[1..] == a + b
  {
  }

  // ---------------------------------------------------------------- the text

  function WithText(s: Server, text: seq<byte>): Server {
    s.(phase := Ready([]), rcpts := [], got := s.got + [Copy(s.helo, s.rcpts, text)])
  }

  /** As long as the text does not end, it grows. */
  lemma {:induction false} StillText(s: Server, seen: seq<byte>, part: seq<byte>)
    requires s.phase == Text(seen) && ReadData(seen + part) == None
    ensures Listen(s, Say(part)) == s.(phase := Text(seen + part))
    decreases |part|
  {
    if part == [] {
      assert seen + part == seen;
    } else {
      var b, more := part[0], part[1..];
      assert part == [b] + more;
      SayMore(b, more);
      Associates(seen, [b], more);
      if ReadData(seen + [b]).Some? {
        ReadMore(seen + [b], more);
      }
      StillText(s.(phase := Text(seen + [b])), seen + [b], more);
    }
  }

  /** The byte at which the reader first has a whole text, between what comes before and after it. */
  lemma {:induction false} FirstRead(s: seq<byte>) returns (seen: seq<byte>, b: byte, rest: seq<byte>)
    requires ReadData(s).Some?
    ensures s == seen + [b] + rest
    ensures ReadData(seen) == None && ReadData(seen + [b]).Some?
    decreases |s|
  {
    ReadLength(s);
    var front, last := s[..|s| - 1], s[|s| - 1];
    assert front + [last] == s;
    if ReadData(front) == None {
      seen, b, rest := front, last, [];
    } else {
      seen, b, rest := FirstRead(front);
      Associates(seen + [b], rest, [last]);
      rest := rest + [last];
    }
  }

  /** The byte that ends the text. */
  lemma TextEndHeard(s: Server, seen: seq<byte>, b: byte)
    requires s.phase == Text([]) && ReadData(seen) == None && ReadData(seen + [b]).Some?
    ensures Listen(s, Say(seen + [b])) ==
            WithText(s, ReadData(seen + [b]).value.text).(phase := Owes(false))
  {
    SayConcat(seen, [b]);
    ListenConcat(s, Say(seen), Say([b]));
    assert [] + seen == seen;
    StillText(s, [], seen);
    assert Say([b]) == [Sent(b)];
    ListenOne(s.(phase := Text(seen)), Sent(b));
  }

  /** The text has ended after `b`; anything after that comes too early. */
  lemma TextOver(s: Server, seen: seq<byte>, b: byte, rest: seq<byte>)
    requires s.phase == Text([]) && ReadData(seen) == None && ReadData(seen + [b]).Some?
    ensures var s' := Listen(s, Say(seen + [b] + rest));
            && s'.got == s.got + [Copy(s.helo, s.rcpts, ReadData(seen + [b]).value.text)]
            && if rest == [] then s'.phase == Owes(false) else s'.phase.Confused?
  {
    TextEndHeard(s, seen, b);
    SayConcat(seen + [b], rest);
    ListenConcat(s, Say(seen + [b]), Say(rest));
    if rest != [] {
      TooEarly(Listen(s, Say(seen + [b])), rest);
    }
  }

  /** Any bytes after DATA: the text goes on, or has just ended, or something came too early after its end. */
  lemma TextRun(s: Server, said: seq<byte>)
    requires s.phase == Text([])
    ensures var s' := Listen(s, Say(said));
            match ReadData(said)
            case None => s' == s.(phase := Text(said))
            case Some(r) =>
              && s'.got == s.got + [Copy(s.helo, s.rcpts, r.text)]
              && if r.rest == [] then s'.phase == Owes(false) else s'.phase.Confused?
  {
    if ReadData(said) == None {
      assert [] + said == said;
      StillText(s, [], said);
    } else {
      var seen, b, rest := FirstRead(said);
      TextOver(s, seen, b, rest);
      NothingLeft(seen, b);
      ReadMore(seen + [b], rest);
      assert [] + rest == rest;
    }
  }

  lemma TextHeard(s: Server, text: seq<byte>)
    requires WholeLines(text) && NoDotLine(text) && s.phase == Text([])
    ensures Listen(s, Say(text + END_LINE)) == WithText(s, text).(phase := Owes(false))
  {
    var seen := text + [DOT, CR];
    assert seen + [LF] == text + END_LINE;
    NotBeforeTheEnd(text, seen);
    DataRoundTrip(text);
    TextEndHeard(s, seen, LF);
  }

  lemma TextTurnHeard(s: Server, text: seq<byte>)
    requires WholeLines(text) && NoDotLine(text) && s.phase == Text([])
    ensures Listen(s, Say(text + END_LINE) + [Reply]) == WithText(s, text)
  {
    ListenConcat(s, Say(text + END_LINE), [Reply]);
    TextHeard(s, text);
    ListenOne(Listen(s, Say(text + END_LINE)), Reply);
  }

  // ---------------------------------------------------------------- whole messages

  function BodyOf(m: Mail): seq<byte> {
    Concat(m.chunks)
  }

  function TextOf(m: Mail): seq<byte> {
    Payload(m.headers, BodyOf(m))
  }

  /** The envelope stays within its lines, and the text needs no dot-stuffing. */
  ghost predicate Transparent(m: Mail) {
    && (forall k :: 0 <= k < |m.rcpts| ==> OneLine(m.rcpts[k]))
    && WholeLines(TextOf(m)) && NoDotLine(TextOf(m))
  }

  /** What the daemon says for a message after HELO. */
  function AfterHello(m: Mail): seq<Event> {
    Say(MAIL_LINE) + [Reply] + Dialogue(RcptTurns(m.rcpts)) + (Say(DATA_LINE) + [Reply])
    + (Say(TextOf(m) + END_LINE) + [Reply])
  }

  lemma MailLogHello(helo: seq<byte>, m: Mail)
    ensures MailLog(helo, m) == Say(HeloLine(helo)) + [Reply] + AfterHello(m)
  {
    var hello, rcpts := [HeloLine(helo), MAIL_LINE], RcptTurns(m.rcpts);
    var last := [DATA_LINE, TextOf(m) + END_LINE];
    var h, f := Say(HeloLine(helo)) + [Reply], Say(MAIL_LINE) + [Reply];
    var d, t := Say(DATA_LINE) + [Reply], Say(TextOf(m) + END_LINE) + [Reply];
    DialogueConcat(hello + rcpts, last);
    DialogueConcat(hello, rcpts);
    DialogueTwo(HeloLine(helo), MAIL_LINE);
    DialogueTwo(DATA_LINE, TextOf(m) + END_LINE);
    assert Dialogue(hello) == h + f && Dialogue(last) == d + t;
    Regroup(h, f, Dialogue(rcpts), d, t);
  }

  lemma Regroup<T>(a: seq<T>, b: seq<T>, c: seq<T>, d: seq<T>, e: seq<T>)
    ensures ((a + b) + c) + (d + e) == a + (b + c + d + e)
  {
  }

  /** The envelope is heard as it was meant, and DATA opens the text. */
  lemma EnvelopeHeard(s: Server, m: Mail)
    requires s.phase == Ready([]) && forall k :: 0 <= k < |m.rcpts| ==> OneLine(m.rcpts[k])
    ensures Listen(s, Say(MAIL_LINE) + [Reply] + Dialogue(RcptTurns(m.rcpts)) + (Say(DATA_LINE) + [Reply])) ==
            s.(phase := Text([]), rcpts := m.rcpts)
  {
    var f, r, d := Say(MAIL_LINE) + [Reply], Dialogue(RcptTurns(m.rcpts)), Say(DATA_LINE) + [Reply];
    ListenConcat(s, f + r, d);
    ListenConcat(s, f, r);
    MailHeard(s);
    RcptsHeard(s.(rcpts := []), m.rcpts);
    assert [] + m.rcpts == m.rcpts;
    DataHeard(s.(rcpts := m.rcpts));
  }

  lemma AfterHelloHeard(s: Server, m: Mail)
    requires s.phase == Ready([]) && Transparent(m)
    ensures Listen(s, AfterHello(m)) == s.(rcpts := [], got := s.got + [Copy(s.helo, m.rcpts, TextOf(m))])
  {
    var e := Say(MAIL_LINE) + [Reply] + Dialogue(RcptTurns(m.rcpts)) + (Say(DATA_LINE) + [Reply]);
    ListenConcat(s, e, Say(TextOf(m) + END_LINE) + [Reply]);
    EnvelopeHeard(s, m);
    TextTurnHeard(s.(phase := Text([]), rcpts := m.rcpts), TextOf(m));
  }

  lemma MailHeardWhole(s: Server, helo: seq<byte>, m: Mail)
    requires s.phase == Ready([]) && OneLine(helo) && Transparent(m)
    ensures Listen(s, MailLog(helo, m)) ==
            s.(helo := helo, rcpts := [], got := s.got + [Copy(helo, m.rcpts, TextOf(m))])
  {
    MailLogHello(helo, m);
    ListenConcat(s, Say(HeloLine(helo)) + [Reply], AfterHello(m));
    HeloHeard(s, helo);
    AfterHelloHeard(s.(helo := helo), m);
  }

  // ---------------------------------------------------------------- messages that do not survive

  /** Up to its first line end, what is said is a command; anything after that comes too early. */
  lemma FirstLineHeard(s: Server, line: seq<byte>, first: seq<byte>, rest: seq<byte>)
    requires s.phase == Ready(line) && OneLine(line + first)
    ensures var s' := Listen(s, Say(first + CRLF + rest));
            s'.got == s.got && if rest == [] then s'.phase.Owes? else s'.phase.Confused?
  {
    SayConcat(first + CRLF, rest);
    ListenConcat(s, Say(first + CRLF), Say(rest));
    LineHeard(s, line, first);
    if rest != [] {
      TooEarly(Command(s, line + first), rest);
    }
  }

  /** A line end inside a command line makes two lines of it, and the second comes too early. */
  lemma LineSpoilt(s: Server, line: seq<byte>)
    requires s.phase == Ready([]) && !OneLine(line)
    ensures var s' := Listen(s, Say(line + CRLF)); s'.phase.Confused? && s'.got == s.got
  {
    var full := line + CRLF;
    var e := FindCrLf(full);
    Splits(full, e);
    FirstIsOneLine(full, e);
    assert [] + full[..e] == full[..e];
    FirstLineHeard(s, [], full[..e], full[e + 2..]);
  }

  lemma TurnSpoilt(s: Server, line: seq<byte>, more: seq<Event>)
    requires s.phase == Ready([]) && !OneLine(line)
    ensures var s' := Listen(s, Say(line + CRLF) + [Reply] + more); s'.phase.Confused? && s'.got == s.got
  {
    LineSpoilt(s, line);
    Associates(Say(line + CRLF), [Reply], more);
    ListenConcat(s, Say(line + CRLF), [Reply] + more);
    StaysConfused(Listen(s, Say(line + CRLF)), [Reply] + more);
  }

  lemma {:induction false} RcptsSpoilt(s: Server, rcpts: seq<seq<byte>>)
    requires s.phase == Ready([]) && exists k :: 0 <= k < |rcpts| && !OneLine(rcpts[k])
    ensures var s' := Listen(s, Dialogue(RcptTurns(rcpts))); s'.phase.Confused? && s'.got == s.got
    decreases |rcpts|
  {
    var turn, turns := Say(RcptLine(rcpts[0])) + [Reply], Dialogue(RcptTurns(rcpts[1..]));
    assert Dialogue(RcptTurns(rcpts)) == turn + turns by {
      assert RcptTurns(rcpts)[1..] == RcptTurns(rcpts[1..]);
    }
    if OneLine(rcpts[0]) {
      var k :| 0 <= k < |rcpts| && !OneLine(rcpts[k]);
      assert !OneLine(rcpts[1..][k - 1]);
      ListenConcat(s, turn, turns);
      RcptHeard(s, rcpts[0]);
      RcptsSpoilt(s.(rcpts := s.rcpts + [rcpts[0]]), rcpts[1..]);
    } else {
      OneLineJoin(RCPT, rcpts[0]);
      assert RcptLine(rcpts[0]) == RCPT + rcpts[0] + CRLF;
      TurnSpoilt(s, RCPT + rcpts[0], turns);
    }
  }

  /** Nothing came of the message, or another text than the one that was sent. */
  ghost predicate Spoilt(s: Server, s': Server, text: seq<byte>) {
    || (s'.phase.Confused? && s'.got == s.got)
    || (|s'.got| > |s.got| && s'.got[|s.got|].text != text)
  }

  lemma StaysSpoilt(s: Server, s': Server, text: seq<byte>, log: seq<Event>)
    requires Spoilt(s, s', text)
    ensures Spoilt(s, Listen(s', log), text)
  {
    GotGrows(s', log);
    if s'.phase.Confused? {
      StaysConfused(s', log);
    }
  }

  lemma TextSpoilt(s: Server, text: seq<byte>)
    requires s.phase == Text([]) && !(WholeLines(text) && NoDotLine(text))
    ensures Spoilt(s, Listen(s, Say(text + END_LINE) + [Reply]), text)
  {
    var full := text + END_LINE;
    ListenConcat(s, Say(full), [Reply]);
    TextRun(s, full);
    ListenOne(Listen(s, Say(full)), Reply);
    if ReadData(full).Some? {
      WholeTextOnly(text, full);
    }
  }

  /** If part of what is sent for a text reads as that text, it is all of it, and the text is clean. */
  lemma WholeTextOnly(text: seq<byte>, said: seq<byte>)
    requires said <= text + END_LINE && ReadData(said).Some?
    ensures ReadData(said).value.text == text <==> said == text + END_LINE && WholeLines(text) && NoDotLine(text)
  {
    ReadLength(said);
    DataRoundTrip(text);
    if |said| == |text + END_LINE| {
      assert said == text + END_LINE;
    }
  }

  lemma AfterHelloSpoilt(s: Server, m: Mail)
    requires s.phase == Ready([]) && !Transparent(m)
    ensures Spoilt(s, Listen(s, AfterHello(m)), TextOf(m))
  {
    var f, r, d := Say(MAIL_LINE) + [Reply], Dialogue(RcptTurns(m.rcpts)), Say(DATA_LINE) + [Reply];
    var t := Say(TextOf(m) + END_LINE) + [Reply];
    ListenConcat(s, f + r + d, t);
    if forall k :: 0 <= k < |m.rcpts| ==> OneLine(m.rcpts[k]) {
      EnvelopeHeard(s, m);
      TextSpoilt(s.(phase := Text([]), rcpts := m.rcpts), TextOf(m));
    } else {
      ListenConcat(s, f + r, d);
      ListenConcat(s, f, r);
      MailHeard(s);
      RcptsSpoilt(s.(rcpts := []), m.rcpts);
      StaysConfused(Listen(s, f + r), d);
      StaysConfused(Listen(s, f + r + d), t);
    }
  }

  lemma MailSpoilt(s: Server, helo: seq<byte>, m: Mail)
    requires s.phase == Ready([]) && !(OneLine(helo) && Transparent(m))
    ensures Spoilt(s, Listen(s, MailLog(helo, m)), TextOf(m))
  {
    MailLogHello(helo, m);
    if OneLine(helo) {
      ListenConcat(s, Say(HeloLine(helo)) + [Reply], AfterHello(m));
      HeloHeard(s, helo);
      AfterHelloSpoilt(s.(helo := helo), m);
    } else {
      OneLineJoin(HELO, helo);
      assert HeloLine(helo) == HELO + helo + CRLF;
      TurnSpoilt(s, HELO + helo, AfterHello(m));
    }
  }

  // ---------------------------------------------------------------- whole connections

  /** The conversations of several messages, one after another. */
  function MailLogs(helo: seq<byte>, mails: seq<Mail>): seq<Event> {
    if mails == [] then [] else MailLog(helo, mails[0]) + MailLogs(helo, mails[1..])
  }

  function Copies(helo: seq<byte>, mails: seq<Mail>): (copies: seq<Copy>)
    ensures |copies| == |mails|
    ensures forall k :: 0 <= k < |mails| ==> copies[k] == Copy(helo, mails[k].rcpts, TextOf(mails[k]))
  {
    if mails == [] then [] else [Copy(helo, mails[0].rcpts, TextOf(mails[0]))] + Copies(helo, mails[1..])
  }

  lemma {:induction false} MailsHeard(s: Server, helo: seq<byte>, mails: seq<Mail>)
    requires s.phase == Ready([]) && s.rcpts == [] && OneLine(helo)
    requires forall k :: 0 <= k < |mails| ==> Transparent(mails[k])
    ensures Listen(s, MailLogs(helo, mails)).phase == Ready([])
    ensures Listen(s, MailLogs(helo, mails)).got == s.got + Copies(helo, mails)
    decreases |mails|
  {
    if mails == [] {
      assert s.got + Copies(helo, mails) == s.got;
    } else {
      var copies := Copies(helo, mails);
      MailHeardWhole(s, helo, mails[0]);
      var s' := s.(helo := helo, rcpts := [], got := s.got + [copies[0]]);
      ListenConcat(s, MailLog(helo, mails[0]), MailLogs(helo, mails[1..]));
      MailsHeard(s', helo, mails[1..]);
      assert copies[1..] == Copies(helo, mails[1..]);
      FirstMoved(s.got, copies);
    }
  }

  lemma {:induction false} MailsSpoilt(s: Server, helo: seq<byte>, mails: seq<Mail>)
    requires s.phase == Ready([]) && exists k :: 0 <= k < |mails| && !(OneLine(helo) && Transparent(mails[k]))
    ensures Listen(s, MailLogs(helo, mails)).got != s.got + Copies(helo, mails)
    decreases |mails|
  {
    var copies := Copies(helo, mails);
    ListenConcat(s, MailLog(helo, mails[0]), MailLogs(helo, mails[1..]));
    if OneLine(helo) && Transparent(mails[0]) {
      var k :| 0 <= k < |mails| && !Transparent(mails[k]);
      assert !Transparent(mails[1..][k - 1]);
      MailHeardWhole(s, helo, mails[0]);
      MailsSpoilt(Listen(s, MailLog(helo, mails[0])), helo, mails[1..]);
      assert copies[1..] == Copies(helo, mails[1..]);
      FirstMoved(s.got, copies);
    } else {
      MailSpoilt(s, helo, mails[0]);
      StaysSpoilt(s, Listen(s, MailLog(helo, mails[0])), TextOf(mails[0]), MailLogs(helo, mails[1..]));
      assert (s.got + copies)[|s.got|] == copies[0];
    }
  }

  /**
   End to end: over a whole connection that carries any number of messages, a
   server that insists on lock step gets every message with its recipients and
   its text, in order, if and only if the HELO name and the recipients stay within
   their lines and no text needs dot-stuffing. It is then ready for the next message.
   */
  lemma ConnectionHeard(helo: seq<byte>, mails: seq<Mail>)
    ensures Listen(START, [Reply] + MailLogs(helo, mails)).got == Copies(helo, mails) <==>
            forall k :: 0 <= k < |mails| ==> OneLine(helo) && Transparent(mails[k])
    ensures Listen(START, [Reply] + MailLogs(helo, mails)).got == Copies(helo, mails) ==>
            Listen(START, [Reply] + MailLogs(helo, mails)).phase == Ready([])
  {
    var ready := START.(phase := Ready([]));
    ListenConcat(START, [Reply], MailLogs(helo, mails));
    ListenOne(START, Reply);
    assert START.got + Copies(helo, mails) == Copies(helo, mails);
    if forall k :: 0 <= k < |mails| ==> OneLine(helo) && Transparent(mails[k]) {
      if mails == [] {
        assert MailLogs(helo, mails) == [];
      } else {
        assert OneLine(helo) && Transparent(mails[0]);
        MailsHeard(ready, helo, mails);
      }
    } else {
      MailsSpoilt(ready, helo, mails);
    }
  }

  /** One line each for the HELO name and the recipients, good headers, and nothing that needs dot-stuffing. */
  ghost predicate Copyable(helo: seq<byte>, m: Mail) {
    && OneLine(helo) && (forall r :: 0 <= r < |m.rcpts| ==> OneLine(m.rcpts[r]))
    && GoodHeaders(m.headers) && NeedsNoStuffing(m.headers, BodyOf(m))
  }

  /** Each copy has the message's envelope, and a reader makes its header fields and its body of the text. */
  ghost predicate Faithful(got: seq<Copy>, helo: seq<byte>, mails: seq<Mail>) {
    && |got| == |mails|
    && forall k :: 0 <= k < |mails| ==>
         && got[k].helo == helo && got[k].rcpts == mails[k].rcpts
         && ReadLetter(got[k].text) == Some(Letter(mails[k].headers, BodyOf(mails[k])))
  }

  /** A text that reads as the message is the text of the message. */
  lemma FaithfulAreCopies(got: seq<Copy>, helo: seq<byte>, mails: seq<Mail>)
    requires Faithful(got, helo, mails)
    ensures got == Copies(helo, mails)
  {
    forall k | 0 <= k < |mails| ensures got[k] == Copies(helo, mails)[k] {
      ReadIsPrinted(got[k].text);
    }
  }

  lemma CopyableIsGood(helo: seq<byte>, m: Mail)
    ensures Copyable(helo, m) <==>
            OneLine(helo) && Transparent(m) && ReadLetter(TextOf(m)) == Some(Letter(m.headers, BodyOf(m)))
  {
    LetterRoundTrip(m.headers, BodyOf(m));
    if GoodHeaders(m.headers) {
      PayloadClean(m.headers, BodyOf(m));
    }
  }

  /**
   The same down to header fields and bodies: over a whole connection every message
   is recovered if and only if each is copyable.
   */
  lemma CopiesAreFaithful(helo: seq<byte>, mails: seq<Mail>)
    ensures Faithful(Listen(START, [Reply] + MailLogs(helo, mails)).got, helo, mails) <==>
            forall k :: 0 <= k < |mails| ==> Copyable(helo, mails[k])
  {
    var got := Listen(START, [Reply] + MailLogs(helo, mails)).got;
    ConnectionHeard(helo, mails);
    forall k | 0 <= k < |mails|
      ensures Copyable(helo, mails[k]) <==>
              OneLine(helo) && Transparent(mails[k])
              && ReadLetter(TextOf(mails[k])) == Some(Letter(mails[k].headers, BodyOf(mails[k])))
    {
      CopyableIsGood(helo, mails[k]);
    }
    if Faithful(got, helo, mails) {
      FaithfulAreCopies(got, helo, mails);
    }
  }

  // ---------------------------------------------------------------- what the server insists on

  /** The log is a greeting, turns that each end in CRLF and were answered, and `said`, not answered yet. */
  ghost predicate LockStepLog(log: seq<Event>, turns: seq<seq<byte>>, said: seq<byte>) {
    && (forall k :: 0 <= k < |turns| ==> EndsInCrLf(turns[k]))
    && log == [Reply] + Dialogue(turns) + Say(said)
  }

  /** What the server has heard since its last reply. */
  ghost predicate HasHeard(phase: Phase, said: seq<byte>) {
    match phase
    case Hello => false
    case Ready(line) => said == line
    case Owes(_) => EndsInCrLf(said)
    case Text(seen) => said == seen && ReadData(seen) == None
    case Confused => false
  }

  lemma SaidMore(log: seq<Event>, turns: seq<seq<byte>>, said: seq<byte>, b: byte)
    requires LockStepLog(log, turns, said)
    ensures LockStepLog(log + [Sent(b)], turns, said + [b])
  {
    SayConcat(said, [b]);
    assert Say([b]) == [Sent(b)];
    Associates([Reply] + Dialogue(turns), Say(said), [Sent(b)]);
  }

  lemma AnsweredMore(log: seq<Event>, turns: seq<seq<byte>>, said: seq<byte>)
    requires LockStepLog(log, turns, said) && EndsInCrLf(said)
    ensures LockStepLog(log + [Reply], turns + [said], [])
  {
    DialogueConcat(turns, [said]);
    DialogueOne(said);
    var whole := Dialogue(turns) + (Say(said) + [Reply]);
    assert Dialogue(turns + [said]) == whole;
    assert [Reply] + whole + Say([]) == [Reply] + Dialogue(turns) + Say(said) + [Reply];
  }

  lemma HearsMore(s: Server, said: seq<byte>, b: byte)
    requires HasHeard(s.phase, said) && !Hear(s, Sent(b)).phase.Confused?
    ensures HasHeard(Hear(s, Sent(b)).phase, said + [b])
  {
    if s.phase.Text? && ReadData(said + [b]).Some? {
      NothingLeft(said, b);
      ReadEndsInCrLf(said + [b]);
    }
  }

  lemma NextInLockStep(s: Server, front: seq<Event>, ev: Event, turns: seq<seq<byte>>, said: seq<byte>)
    requires LockStepLog(front, turns, said) && HasHeard(s.phase, said) && !Hear(s, ev).phase.Confused?
    ensures exists turns', said' :: LockStepLog(front + [ev], turns', said') && HasHeard(Hear(s, ev).phase, said')
  {
    if ev.Sent? {
      SaidMore(front, turns, said, ev.b);
      HearsMore(s, said, ev.b);
      assert LockStepLog(front + [ev], turns, said + [ev.b]);
    } else {
      AnsweredMore(front, turns, said);
      assert ReadData([]) == None;
      assert LockStepLog(front + [ev], turns + [said], []);
    }
  }

  /**
   The server insists on lock step: it is not out of step only if it spoke first, every
   turn but the last was a whole line or text and had exactly one reply, and nothing was
   said while a reply was owed.
   */
  lemma {:induction false} InsistsOnLockStep(log: seq<Event>)
    requires log != [] && !Listen(START, log).phase.Confused?
    ensures exists turns, said :: LockStepLog(log, turns, said) && HasHeard(Listen(START, log).phase, said)
    decreases |log|
  {
    var n := |log| - 1;
    var front, ev := log[..n], log[n];
    assert log == front + [ev];
    ListenConcat(START, front, [ev]);
    var s := Listen(START, front);
    ListenOne(s, ev);
    assert !s.phase.Confused?;
    if n == 0 {
      assert front == [] && log == [Reply] + Dialogue([]) + Say([]);
      assert LockStepLog(log, [], []) && HasHeard(Listen(START, log).phase, []);
    } else {
      InsistsOnLockStep(front);
      var turns, said :| LockStepLog(front, turns, said) && HasHeard(s.phase, said);
      NextInLockStep(s, front, ev, turns, said);
    }
  }

  // ---------------------------------------------------------------- lock step over a whole connection

  function AllTurns(helo: seq<byte>, mails: seq<Mail>): seq<seq<byte>> {
    if mails == [] then [] else Turns(helo, mails[0]) + AllTurns(helo, mails[1..])
  }

  lemma {:induction false} MailLogsAreTurns(helo: seq<byte>, mails: seq<Mail>)
    ensures MailLogs(helo, mails) == Dialogue(AllTurns(helo, mails))
  {
    if mails != [] {
      MailLogsAreTurns(helo, mails[1..]);
      DialogueConcat(Turns(helo, mails[0]), AllTurns(helo, mails[1..]));
    }
  }

  function ExpectedReplies(mails: seq<Mail>): nat {
    if mails == [] then 0 else |mails[0].rcpts| + 4 + ExpectedReplies(mails[1..])
  }

  lemma {:induction false} AllTurnsLength(helo: seq<byte>, mails: seq<Mail>)
    ensures |AllTurns(helo, mails)| == ExpectedReplies(mails)
  {
    if mails != [] {
      RcptTurnsLength(mails[0].rcpts);
      AllTurnsLength(helo, mails[1..]);
    }
  }

  /**
   For any messages, whatever their contents: at every moment of a connection the
   greeting has been read before anything was said, and every command but the one
   being written has had its reply; over the whole connection one greeting is read,
   and for each message two replies to the sender, one a recipient, one to DATA and
   one to the final dot.
   */
  lemma ConnectionInStep(helo: seq<byte>, mails: seq<Mail>, seen: seq<Event>)
    requires seen <= [Reply] + MailLogs(helo, mails)
    ensures seen == [] || (seen[0].Reply? &&
              exists k: nat, said :: InTurn(AllTurns(helo, mails), seen[1..], k, said))
    ensures Replies([Reply] + MailLogs(helo, mails)) == 1 + ExpectedReplies(mails)
  {
    MailLogsAreTurns(helo, mails);
    AllTurnsLength(helo, mails);
    DialogueReplies(AllTurns(helo, mails));
    RepliesConcat([Reply], MailLogs(helo, mails));
    if seen != [] {
      var whole := [Reply] + MailLogs(helo, mails);
      assert seen == whole[..|seen|];
      assert seen[1..] == MailLogs(helo, mails)[..|seen| - 1];
      LockStep(AllTurns(helo, mails), seen[1..]);
    }
  }
}
