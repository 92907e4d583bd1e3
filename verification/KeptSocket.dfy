/**
 A socket kept after a failed message. What a message left unanswered on it meets
 the next message, and a copy server that insists on lock step may or may not
 recover. Here is exactly what it gets, whatever the messages are, and when it
 gets them as they were sent.
 */
module KeptSocket {
  import opened Bytes
  import opened Wire
  import opened Message
  import opened DataReader
  import opened CopyServer
  import opened Network
  import opened Program
  import opened Libmilter

  // ---------------------------------------------------------------- what a message leaves behind

  /** The command of turn `j`, its line end left out. */
  function CommandOf(helo: seq<byte>, m: Mail, j: nat): seq<byte>
    requires j <= |m.rcpts| + 2
  {
    if j == 0 then HELO + helo
    else if j == 1 then MAIL
    else if j < |m.rcpts| + 2 then RCPT + m.rcpts[j - 2]
    else DATA
  }

  /** The commands before turn `j` are single lines. */
  ghost predicate CommandsAreLines(helo: seq<byte>, m: Mail, j: nat) {
    forall i :: 0 <= i < j && i <= |m.rcpts| + 2 ==> OneLine(CommandOf(helo, m, i))
  }

  /** The server takes the last dot of the message for the end of its text. */
  predicate EndsAtItsDot(m: Mail) {
    var r := ReadData(TextOf(m) + END_LINE);
    r.Some? && r.value.rest == []
  }

  /**
   After the message, the server is waiting for the next command, or for more of the
   current one. What was answered were single lines; and either no complete line
   of a command is without a reply, or the whole message was answered and its
   text ended where it should.
   */
  ghost predicate InStep(helo: seq<byte>, seg: Segment) {
    var j, said := Replies(seg.log), Unanswered(seg.log);
    && CommandsAreLines(helo, seg.mail, j)
    && if j <= |seg.mail.rcpts| + 2 then NoCrLf(said) else j == |seg.mail.rcpts| + 4 && EndsAtItsDot(seg.mail)
  }

  /** All of the message was said; at most the reply to its final dot was not read. */
  predicate Finished(helo: seq<byte>, seg: Segment) {
    seg.outcome.Completed? || seg.log + [Reply] == MailLog(helo, seg.mail)
  }

  /** What a copy server is for: whom a text is for, and the text. */
  datatype Delivery = Delivery(rcpts: seq<seq<byte>>, text: seq<byte>)

  function DeliveryOf(m: Mail): Delivery {
    Delivery(m.rcpts, TextOf(m))
  }

  /** What was said after the reply to DATA. */
  function SaidAsText(seg: Segment): seq<byte> {
    if Replies(seg.log) == |seg.mail.rcpts| + 3 then Unanswered(seg.log) else TextOf(seg.mail) + END_LINE
  }

  /** What a server that is in step makes of the message: the text it takes from what was said as text, if it ends. */
  ghost function Yield(helo: seq<byte>, seg: Segment): seq<Delivery> {
    var j := Replies(seg.log);
    if j >= |seg.mail.rcpts| + 3 && CommandsAreLines(helo, seg.mail, j) && ReadData(SaidAsText(seg)).Some?
    then [Delivery(seg.mail.rcpts, ReadData(SaidAsText(seg)).value.text)]
    else []
  }

  /** The server hears a command, no part of which is a line end. */
  ghost predicate Hearing(phase: Phase) {
    phase.Ready? && NoCrLf(phase.line)
  }

  /** The server owes a reply, is in the middle of a text, or is out of step. */
  ghost predicate Lost(helo: seq<byte>, phase: Phase) {
    !phase.Ready? && (phase.Text? ==> ReadData(phase.seen) == None && OneLine(helo))
  }

  // ---------------------------------------------------------------- the turns of a message

  lemma {:induction false} RcptTurnAt(rcpts: seq<seq<byte>>, k: nat)
    requires k < |rcpts|
    ensures |RcptTurns(rcpts)| == |rcpts| && RcptTurns(rcpts)[k] == RcptLine(rcpts[k])
  {
    RcptTurnsLength(rcpts);
    if k > 0 {
      RcptTurnAt(rcpts[1..], k - 1);
    }
  }

  lemma TurnsLength(helo: seq<byte>, m: Mail)
    ensures |Turns(helo, m)| == |m.rcpts| + 4
    ensures Turns(helo, m)[|m.rcpts| + 3] == TextOf(m) + END_LINE
    ensures MailLog(helo, m) == Dialogue(Turns(helo, m)[..|m.rcpts| + 4])
  {
    RcptTurnsLength(m.rcpts);
    assert Turns(helo, m)[..|Turns(helo, m)|] == Turns(helo, m);
  }

  lemma TurnAt(helo: seq<byte>, m: Mail, j: nat)
    requires j <= |m.rcpts| + 2
    ensures j < |Turns(helo, m)| && Turns(helo, m)[j] == CommandOf(helo, m, j) + CRLF
  {
    RcptTurnsLength(m.rcpts);
    if 2 <= j < |m.rcpts| + 2 {
      RcptTurnAt(m.rcpts, j - 2);
    }
  }

  lemma DialogueNext(turns: seq<seq<byte>>, j: nat)
    requires j < |turns|
    ensures Dialogue(turns[..j + 1]) == Dialogue(turns[..j]) + (Say(turns[j]) + [Reply])
  {
    assert turns[..j + 1] == turns[..j] + [turns[j]];
    DialogueConcat(turns[..j], [turns[j]]);
    DialogueOne(turns[j]);
  }

  /** Commands start with a letter. */
  lemma CommandStarts(helo: seq<byte>, m: Mail, j: nat)
    requires j <= |m.rcpts| + 2
    ensures |CommandOf(helo, m, j)| >= 4 && CommandOf(helo, m, j)[0] != CR && CommandOf(helo, m, j)[0] != LF
    ensures j == 0 ==> |CommandOf(helo, m, j)| > 4
    ensures CommandOf(helo, m, j) == DATA <==> j == |m.rcpts| + 2
  {
  }

  /** The envelope's commands are lines when HELO name and recipients are. */
  lemma LinesOfMail(helo: seq<byte>, m: Mail, j: nat)
    requires j >= |m.rcpts| + 2
    ensures CommandsAreLines(helo, m, j) <==> OneLine(helo) && forall k :: 0 <= k < |m.rcpts| ==> OneLine(m.rcpts[k])
  {
    OneLineJoin(HELO, helo);
    assert CommandOf(helo, m, 0) == HELO + helo;
    forall k | 0 <= k < |m.rcpts|
      ensures OneLine(m.rcpts[k]) <==> OneLine(CommandOf(helo, m, k + 2))
    {
      OneLineJoin(RCPT, m.rcpts[k]);
    }
    if OneLine(helo) && forall k :: 0 <= k < |m.rcpts| ==> OneLine(m.rcpts[k]) {
      forall i | 0 <= i < j && i <= |m.rcpts| + 2 ensures OneLine(CommandOf(helo, m, i)) {
        if 2 <= i < |m.rcpts| + 2 {
          assert OneLine(m.rcpts[i - 2]);
        }
      }
    }
  }

  // ---------------------------------------------------------------- commands, wherever the line has stopped

  lemma JoinedAt(line: seq<byte>, more: seq<byte>, k: int)
    requires NoCrLf(line) && (more != [] ==> more[0] != LF)
    ensures CrLfAt(line + more, k) <==> k >= |line| && CrLfAt(more, k - |line|)
  {
    if 0 <= k < |line| {
      assert CrLfAt(line + more, k) ==> CrLfAt(line, k);
    }
  }

  /** What is said goes on where the line so far has stopped. */
  lemma PartJoined(line: seq<byte>, more: seq<byte>)
    requires NoCrLf(line) && (more != [] ==> more[0] != LF)
    ensures NoCrLf(line + more) <==> NoCrLf(more)
  {
    forall k ensures CrLfAt(line + more, k) <==> k >= |line| && CrLfAt(more, k - |line|) {
      JoinedAt(line, more, k);
    }
    if NoCrLf(line + more) {
      forall k ensures !CrLfAt(more, k) {
        assert k >= 0 ==> !CrLfAt(line + more, k + |line|);
      }
    }
  }

  lemma Joined(line: seq<byte>, more: seq<byte>)
    requires NoCrLf(line) && (more != [] ==> more[0] != LF)
    ensures OneLine(line + more) <==> OneLine(more)
  {
    OneLineNoCrLf(line + more);
    OneLineNoCrLf(more);
    Associates(line, more, [CR]);
    PartJoined(line, more + [CR]);
  }

  /** Something was said that completes no line. */
  lemma NoLineHeard(s: Server, said: seq<byte>)
    requires Hearing(s.phase) && NoCrLf(said) && (said != [] ==> said[0] != LF)
    ensures Hearing(Listen(s, Say(said)).phase) && Listen(s, Say(said)).got == s.got
  {
    PartJoined(s.phase.line, said);
    PartHeard(s, s.phase.line, said);
  }

  /** Something was said that completes a line; a reply is owed, or more was said too early. */
  lemma SomeLineHeard(s: Server, said: seq<byte>)
    requires Hearing(s.phase) && !NoCrLf(said) && said[0] != LF
    ensures var s' := Listen(s, Say(said));
            && s'.got == s.got
            && if FindCrLf(said) + 2 == |said| then s'.phase.Owes? else s'.phase.Confused?
  {
    var e := FindCrLf(said);
    assert e != -1;
    Splits(said, e);
    FirstIsOneLine(said, e);
    Joined(s.phase.line, said[..e]);
    FirstLineHeard(s, s.phase.line, said[..e], said[e + 2..]);
  }

  /** A command that is a single line, and its reply. */
  lemma CommandAnswered(s: Server, command: seq<byte>)
    requires Hearing(s.phase) && OneLine(command) && command != [] && command[0] != LF
    ensures var s' := Listen(s, Say(command + CRLF) + [Reply]);
            && s'.got == s.got
            && s'.phase == if s.phase.line + command == DATA then Text([]) else Ready([])
  {
    Joined(s.phase.line, command);
    ListenConcat(s, Say(command + CRLF), [Reply]);
    LineHeard(s, s.phase.line, command);
    ListenOne(Listen(s, Say(command + CRLF)), Reply);
  }

  /** A command that is more than a line. */
  lemma CommandConfuses(s: Server, command: seq<byte>)
    requires Hearing(s.phase) && !OneLine(command) && command != [] && command[0] != LF
    ensures var s' := Listen(s, Say(command + CRLF) + [Reply]); s'.got == s.got && s'.phase.Confused?
  {
    var full := command + CRLF;
    var k :| k < |command| && CrLfAt(full, k);
    assert FindCrLf(full) <= k;
    SomeLineHeard(s, full);
    ListenConcat(s, Say(full), [Reply]);
    StaysConfused(Listen(s, Say(full)), [Reply]);
  }

  /** Only the DATA turn is heard as DATA; a HELO line is too long for that, whatever precedes it. */
  lemma NeverData(line: seq<byte>, helo: seq<byte>, m: Mail, j: nat)
    requires j <= |m.rcpts| + 2 && (j > 0 ==> line == [])
    ensures line + CommandOf(helo, m, j) == DATA <==> j == |m.rcpts| + 2
  {
    CommandStarts(helo, m, j);
    if j == 0 {
      assert |line + CommandOf(helo, m, j)| > |DATA|;
    } else {
      assert line + CommandOf(helo, m, j) == CommandOf(helo, m, j);
    }
  }

  /** Turn `j`, a command, and its reply. */
  lemma TurnHeard(s: Server, helo: seq<byte>, m: Mail, j: nat)
    requires Hearing(s.phase) && j <= |m.rcpts| + 2 && (j > 0 ==> s.phase.line == [])
    ensures var s' := Listen(s, Say(CommandOf(helo, m, j) + CRLF) + [Reply]);
            && s'.got == s.got
            && if !OneLine(CommandOf(helo, m, j)) then s'.phase.Confused?
               else s'.phase == if j == |m.rcpts| + 2 then Text([]) else Ready([])
  {
    var command := CommandOf(helo, m, j);
    CommandStarts(helo, m, j);
    if OneLine(command) {
      CommandAnswered(s, command);
      NeverData(s.phase.line, helo, m, j);
    } else {
      CommandConfuses(s, command);
    }
  }

  /** From `s` to `s'`, the commands before turn `j` were heard and answered, or confused the server. */
  ghost predicate CommandsHeard(s: Server, s': Server, helo: seq<byte>, m: Mail, j: nat) {
    && s'.got == s.got
    && if !CommandsAreLines(helo, m, j) then s'.phase.Confused?
       else s'.phase == if j == 0 then s.phase else if j == |m.rcpts| + 3 then Text([]) else Ready([])
  }

  lemma NextHeard(s: Server, before: seq<Event>, helo: seq<byte>, m: Mail, j: nat)
    requires Hearing(s.phase) && j <= |m.rcpts| + 2 && CommandsHeard(s, Listen(s, before), helo, m, j)
    ensures CommandsHeard(s, Listen(s, before + (Say(CommandOf(helo, m, j) + CRLF) + [Reply])), helo, m, j + 1)
  {
    var command := Say(CommandOf(helo, m, j) + CRLF) + [Reply];
    ListenConcat(s, before, command);
    if CommandsAreLines(helo, m, j) {
      TurnHeard(Listen(s, before), helo, m, j);
    } else {
      StaysConfused(Listen(s, before), command);
    }
  }

  /** The turns before turn `j`, with their replies. */
  function Answered(helo: seq<byte>, m: Mail, j: nat): seq<Event>
    requires j <= |m.rcpts| + 3
  {
    if j == 0 then [] else Answered(helo, m, j - 1) + (Say(CommandOf(helo, m, j - 1) + CRLF) + [Reply])
  }

  lemma {:induction false} AnsweredTurns(helo: seq<byte>, m: Mail, j: nat)
    requires j <= |m.rcpts| + 3
    ensures j <= |Turns(helo, m)| && Answered(helo, m, j) == Dialogue(Turns(helo, m)[..j])
  {
    TurnsLength(helo, m);
    if j == 0 {
      assert Turns(helo, m)[..0] == [];
    } else {
      AnsweredTurns(helo, m, j - 1);
      TurnAt(helo, m, j - 1);
      DialogueNext(Turns(helo, m), j - 1);
    }
  }

  /**
   Before turn `j`, if all commands before it are lines, they have been heard and
   answered, whatever they were joined to; if not, the server is out of step.
   */
  lemma {:induction false} AnsweredHeard(s: Server, helo: seq<byte>, m: Mail, j: nat)
    requires Hearing(s.phase) && j <= |m.rcpts| + 3
    ensures CommandsHeard(s, Listen(s, Answered(helo, m, j)), helo, m, j)
    decreases j
  {
    if j > 0 {
      AnsweredHeard(s, helo, m, j - 1);
      NextHeard(s, Answered(helo, m, j - 1), helo, m, j - 1);
    }
  }

  lemma TurnsHeard(s: Server, helo: seq<byte>, m: Mail, j: nat)
    requires Hearing(s.phase) && j <= |m.rcpts| + 3 && j <= |Turns(helo, m)|
    ensures CommandsHeard(s, Listen(s, Dialogue(Turns(helo, m)[..j])), helo, m, j)
  {
    AnsweredTurns(helo, m, j);
    AnsweredHeard(s, helo, m, j);
  }

  // ---------------------------------------------------------------- one message, heard from anywhere

  lemma TextTurns(helo: seq<byte>, m: Mail)
    requires |m.rcpts| + 3 <= |Turns(helo, m)|
    ensures Dialogue(Turns(helo, m)[..|m.rcpts| + 3]) ==
            Say(HeloLine(helo)) + [Reply]
            + (Say(MAIL_LINE) + [Reply] + Dialogue(RcptTurns(m.rcpts)) + (Say(DATA_LINE) + [Reply]))
  {
    var before := Dialogue(Turns(helo, m)[..|m.rcpts| + 3]);
    var hello := Say(HeloLine(helo)) + [Reply];
    var envelope := Say(MAIL_LINE) + [Reply] + Dialogue(RcptTurns(m.rcpts)) + (Say(DATA_LINE) + [Reply]);
    var text := Say(TextOf(m) + END_LINE) + [Reply];
    TurnsLength(helo, m);
    DialogueNext(Turns(helo, m), |m.rcpts| + 3);
    MailLogHello(helo, m);
    Associates(hello, envelope, text);
    SameFront(before, hello + envelope, text);
  }

  lemma SameFront<T>(a: seq<T>, b: seq<T>, end: seq<T>)
    requires a + end == b + end
    ensures a == b
  {
    assert |a| == |b|;
    assert a == (a + end)[..|a|] == (b + end)[..|b|] == b;
  }

  /** After the reply to DATA, the server has the recipients. */
  lemma TextOpened(s: Server, helo: seq<byte>, m: Mail)
    requires Hearing(s.phase) && |m.rcpts| + 3 <= |Turns(helo, m)|
    requires CommandsAreLines(helo, m, |m.rcpts| + 3)
    ensures var s' := Listen(s, Dialogue(Turns(helo, m)[..|m.rcpts| + 3]));
            s'.phase == Text([]) && s'.got == s.got && s'.rcpts == m.rcpts
  {
    var hello := Say(HeloLine(helo)) + [Reply];
    var envelope := Say(MAIL_LINE) + [Reply] + Dialogue(RcptTurns(m.rcpts)) + (Say(DATA_LINE) + [Reply]);
    LinesOfMail(helo, m, |m.rcpts| + 3);
    OneLineJoin(HELO, helo);
    assert HeloLine(helo) == (HELO + helo) + CRLF;
    CommandAnswered(s, HELO + helo);
    assert |s.phase.line + (HELO + helo)| > |DATA|;
    TextTurns(helo, m);
    ListenConcat(s, hello, envelope);
    EnvelopeHeard(Listen(s, hello), m);
  }

  function Deliveries(got: seq<Copy>): seq<Delivery> {
    if got == [] then []
    else
      var n := |got| - 1;
      Deliveries(got[..n]) + [Delivery(got[n].rcpts, got[n].text)]
  }

  lemma OneMore(got: seq<Copy>, copy: Copy)
    ensures Deliveries(got + [copy]) == Deliveries(got) + [Delivery(copy.rcpts, copy.text)]
  {
    assert (got + [copy])[..|got|] == got;
  }

  /** From `s` to `s'`, the server got what the segment yields, and is lost unless the segment leaves it in step. */
  ghost predicate Heard(s: Server, s': Server, helo: seq<byte>, seg: Segment) {
    && Deliveries(s'.got) == Deliveries(s.got) + Yield(helo, seg)
    && if InStep(helo, seg) then Hearing(s'.phase) else Lost(helo, s'.phase)
  }

  lemma StoppedBeforeText(s: Server, helo: seq<byte>, seg: Segment, j: nat, said: seq<byte>)
    requires Hearing(s.phase) && InTurn(Turns(helo, seg.mail), seg.log, j, said)
    requires j <= |seg.mail.rcpts| + 2
    ensures Heard(s, Listen(s, seg.log), helo, seg)
  {
    var m := seg.mail;
    var before := Dialogue(Turns(helo, m)[..j]);
    StandsInTurn(Turns(helo, m), seg.log, j, said);
    TurnAt(helo, m, j);
    CommandStarts(helo, m, j);
    TurnsHeard(s, helo, m, j);
    ListenConcat(s, before, Say(said));
    var now := Listen(s, before);
    assert Deliveries(s.got) + [] == Deliveries(s.got);
    if !CommandsAreLines(helo, m, j) {
      StaysConfused(now, Say(said));
    } else if NoCrLf(said) {
      NoLineHeard(now, said);
    } else {
      SomeLineHeard(now, said);
    }
  }

  /** The bytes said as text are heard, if the text was opened. */
  lemma TextSaid(s: Server, helo: seq<byte>, m: Mail, said: seq<byte>)
    requires Hearing(s.phase) && |m.rcpts| + 3 <= |Turns(helo, m)|
    ensures var s' := Listen(s, Dialogue(Turns(helo, m)[..|m.rcpts| + 3]) + Say(said));
            if !CommandsAreLines(helo, m, |m.rcpts| + 3) then s'.phase.Confused? && s'.got == s.got
            else
              match ReadData(said)
              case None => s'.phase == Text(said) && s'.got == s.got
              case Some(r) =>
                && Deliveries(s'.got) == Deliveries(s.got) + [Delivery(m.rcpts, r.text)]
                && if r.rest == [] then s'.phase == Owes(false) else s'.phase.Confused?
  {
    var before := Dialogue(Turns(helo, m)[..|m.rcpts| + 3]);
    var now := Listen(s, before);
    ListenConcat(s, before, Say(said));
    TurnsHeard(s, helo, m, |m.rcpts| + 3);
    if CommandsAreLines(helo, m, |m.rcpts| + 3) {
      TextOpened(s, helo, m);
      TextRun(now, said);
      if ReadData(said).Some? {
        OneMore(s.got, Copy(now.helo, now.rcpts, ReadData(said).value.text));
      }
    } else {
      StaysConfused(now, Say(said));
    }
  }

  lemma StoppedInText(s: Server, helo: seq<byte>, seg: Segment, said: seq<byte>)
    requires Hearing(s.phase) && InTurn(Turns(helo, seg.mail), seg.log, |seg.mail.rcpts| + 3, said)
    ensures Heard(s, Listen(s, seg.log), helo, seg)
  {
    var m := seg.mail;
    StandsInTurn(Turns(helo, m), seg.log, |m.rcpts| + 3, said);
    LinesOfMail(helo, m, |m.rcpts| + 3);
    TextSaid(s, helo, m, said);
    assert Deliveries(s.got) + [] == Deliveries(s.got);
  }

  /** The text was said and answered. */
  lemma TextAnswered(s: Server, helo: seq<byte>, m: Mail)
    requires Hearing(s.phase)
    ensures var s' := Listen(s, MailLog(helo, m));
            if !CommandsAreLines(helo, m, |m.rcpts| + 3) then s'.phase.Confused? && s'.got == s.got
            else
              match ReadData(TextOf(m) + END_LINE)
              case None => s'.phase.Confused? && s'.got == s.got
              case Some(r) =>
                && Deliveries(s'.got) == Deliveries(s.got) + [Delivery(m.rcpts, r.text)]
                && if r.rest == [] then s'.phase == Ready([]) else s'.phase.Confused?
  {
    TurnsLength(helo, m);
    DialogueNext(Turns(helo, m), |m.rcpts| + 3);
    var text := TextOf(m) + END_LINE;
    var before := Dialogue(Turns(helo, m)[..|m.rcpts| + 3]) + Say(text);
    Associates(Dialogue(Turns(helo, m)[..|m.rcpts| + 3]), Say(text), [Reply]);
    TextSaid(s, helo, m, text);
    ListenConcat(s, before, [Reply]);
    ListenOne(Listen(s, before), Reply);
  }

  lemma NotStopped(s: Server, helo: seq<byte>, seg: Segment)
    requires Hearing(s.phase) && seg.log == MailLog(helo, seg.mail)
    ensures Heard(s, Listen(s, seg.log), helo, seg)
  {
    var m := seg.mail;
    WholeStands(helo, m);
    LinesOfMail(helo, m, |m.rcpts| + 3);
    LinesOfMail(helo, m, |m.rcpts| + 4);
    TextAnswered(s, helo, m);
    assert SaidAsText(seg) == TextOf(m) + END_LINE;
    assert Deliveries(s.got) + [] == Deliveries(s.got);
  }

  lemma WholeStands(helo: seq<byte>, m: Mail)
    ensures Replies(MailLog(helo, m)) == |m.rcpts| + 4 && Unanswered(MailLog(helo, m)) == []
  {
    TurnsLength(helo, m);
    assert MailLog(helo, m) == Dialogue(Turns(helo, m)[..|m.rcpts| + 4]) + Say([]);
    StandsInTurn(Turns(helo, m), MailLog(helo, m), |m.rcpts| + 4, []);
  }

  /** Any message, stopped anywhere, heard by a server that hears commands. */
  lemma SegmentHeard(s: Server, helo: seq<byte>, seg: Segment)
    requires Hearing(s.phase) && SegmentOk(helo, seg)
    ensures Heard(s, Listen(s, seg.log), helo, seg)
  {
    var m := seg.mail;
    TurnsLength(helo, m);
    LockStep(Turns(helo, m), seg.log);
    var j: nat, said :| InTurn(Turns(helo, m), seg.log, j, said);
    if j <= |m.rcpts| + 2 {
      StoppedBeforeText(s, helo, seg, j, said);
    } else if j == |m.rcpts| + 3 {
      StoppedInText(s, helo, seg, said);
    } else {
      assert seg.log == MailLog(helo, m) + Say([]) == MailLog(helo, m);
      NotStopped(s, helo, seg);
    }
  }

  // ---------------------------------------------------------------- what being in step means

  /**
   Wherever any message stopped, in turn `j` with `said` of it written: where the
   commands up to there are single lines, it leaves the server in step exactly when that
   turn is a command not all of which was written, or there is no turn left and the text
   ended at its dot. A failed write of a command leaves it in step, a failed read never.
   */
  lemma InStepAt(helo: seq<byte>, seg: Segment, j: nat, said: seq<byte>)
    requires InTurn(Turns(helo, seg.mail), seg.log, j, said)
    requires CommandsAreLines(helo, seg.mail, j + 1)
    ensures InStep(helo, seg) <==>
            if j <= |seg.mail.rcpts| + 2 then said != CommandOf(helo, seg.mail, j) + CRLF
            else j == |seg.mail.rcpts| + 4 && EndsAtItsDot(seg.mail)
  {
    StandsInTurn(Turns(helo, seg.mail), seg.log, j, said);
    if j <= |seg.mail.rcpts| + 2 {
      TurnAt(helo, seg.mail, j);
      PartOfLine(CommandOf(helo, seg.mail, j), said);
    }
  }

  lemma PartOfLine(line: seq<byte>, said: seq<byte>)
    requires OneLine(line) && said <= line + CRLF
    ensures NoCrLf(said) <==> said != line + CRLF
  {
    if said == line + CRLF {
      assert CrLfAt(said, |line|);
    } else {
      forall k ensures !CrLfAt(said, k) {
        assert CrLfAt(said, k) ==> CrLfAt(line + CRLF, k);
      }
    }
  }

  /** A message that ended between two turns, before the text, leaves the server in step if what it said were lines. */
  lemma BetweenTurnsIsInStep(helo: seq<byte>, seg: Segment, j: nat)
    requires j <= |seg.mail.rcpts| + 2 && j < |Turns(helo, seg.mail)|
    requires seg.log == Dialogue(Turns(helo, seg.mail)[..j])
    ensures InStep(helo, seg) <==> CommandsAreLines(helo, seg.mail, j)
  {
    assert seg.log == Dialogue(Turns(helo, seg.mail)[..j]) + Say([]);
    StandsInTurn(Turns(helo, seg.mail), seg.log, j, []);
  }

  /** Of a message, its own text is got exactly when all of it was said and it needs no dot-stuffing. */
  lemma YieldsItself(helo: seq<byte>, seg: Segment)
    requires SegmentOk(helo, seg)
    ensures Yield(helo, seg) == [DeliveryOf(seg.mail)] <==>
            Finished(helo, seg) && OneLine(helo) && Transparent(seg.mail)
  {
    var m := seg.mail;
    var text := TextOf(m) + END_LINE;
    TurnsLength(helo, m);
    WholeStands(helo, m);
    LockStep(Turns(helo, m), seg.log);
    var j: nat, said :| InTurn(Turns(helo, m), seg.log, j, said);
    StandsInTurn(Turns(helo, m), seg.log, j, said);
    FinishedIsSaid(helo, seg, j, said);
    if j >= |m.rcpts| + 3 {
      LinesOfMail(helo, m, j);
      if ReadData(SaidAsText(seg)).Some? {
        WholeTextOnly(TextOf(m), SaidAsText(seg));
      } else if WholeLines(TextOf(m)) && NoDotLine(TextOf(m)) {
        DataRoundTrip(TextOf(m));
      }
    }
  }

  /** A message is finished when only its last reply, or nothing, is missing. */
  lemma FinishedIsSaid(helo: seq<byte>, seg: Segment, j: nat, said: seq<byte>)
    requires SegmentOk(helo, seg) && InTurn(Turns(helo, seg.mail), seg.log, j, said)
    ensures Finished(helo, seg) <==>
            j == |seg.mail.rcpts| + 4 || (j == |seg.mail.rcpts| + 3 && said == TextOf(seg.mail) + END_LINE)
  {
    var m := seg.mail;
    var turns := Turns(helo, m);
    var last := |m.rcpts| + 3;
    var text := TextOf(m) + END_LINE;
    TurnsLength(helo, m);
    WholeStands(helo, m);
    StandsInTurn(turns, seg.log, j, said);
    DialogueNext(turns, last);
    Associates(Dialogue(turns[..last]), Say(text), [Reply]);
    if j == last + 1 {
      assert seg.log == MailLog(helo, m) + Say([]) == MailLog(helo, m);
    } else if seg.log + [Reply] == MailLog(helo, m) {
      RepliesConcat(seg.log, [Reply]);
      SameFront(seg.log, Dialogue(turns[..last]) + Say(text), [Reply]);
      assert InTurn(turns, seg.log, last, text);
      StandsInTurn(turns, seg.log, last, text);
    }
  }

  // ---------------------------------------------------------------- a lost server stays lost

  /** A HELO line, or part of one, never ends a text: no line of it is a single dot. */
  lemma {:induction false} HeloEndsNothing(seen: seq<byte>, helo: seq<byte>)
    requires ReadData(seen) == None && OneLine(helo)
    ensures ReadData(seen + HeloLine(helo)) == None
    decreases |seen|
  {
    var e := FindCrLf(seen);
    if e == -1 {
      HeloEndsLine(seen, helo);
    } else {
      HeloEndsNothing(seen[e + 2..], helo);
      MoreAfterLine(seen, e, HeloLine(helo));
    }
  }

  lemma HeloEndsLine(seen: seq<byte>, helo: seq<byte>)
    requires NoCrLf(seen) && OneLine(helo)
    ensures ReadData(seen + HeloLine(helo)) == None
  {
    var line := HELO + helo;
    OneLineJoin(HELO, helo);
    Joined(seen, line);
    Associates(seen, line, CRLF);
    LineIsNoText(seen + line);
  }

  /** What follows does not change the first line. */
  lemma MoreAfterLine(seen: seq<byte>, e: nat, more: seq<byte>)
    requires FindCrLf(seen) == e && ReadData(seen) == None && ReadData(seen[e + 2..] + more) == None
    ensures ReadData(seen + more) == None
  {
    var s := seen + more;
    assert forall k :: k <= e ==> (CrLfAt(s, k) <==> CrLfAt(seen, k));
    FirstCrLf(s, e);
    assert s[..e] == seen[..e];
    assert s[e + 2..] == seen[e + 2..] + more;
  }

  lemma PartEndsNothing(seen: seq<byte>, helo: seq<byte>, part: seq<byte>)
    requires ReadData(seen) == None && OneLine(helo) && part <= HeloLine(helo)
    ensures ReadData(seen + part) == None
  {
    HeloEndsNothing(seen, helo);
    var rest := HeloLine(helo)[|part|..];
    assert HeloLine(helo) == part + rest;
    Associates(seen, part, rest);
    if ReadData(seen + part).Some? {
      ReadMore(seen + part, rest);
    }
  }

  /** Whatever part of a message follows, a lost server gets nothing of it and stays lost. */
  lemma LostHeard(s: Server, helo: seq<byte>, m: Mail, log: seq<Event>)
    requires Lost(helo, s.phase) && log <= MailLog(helo, m)
    ensures Lost(helo, Listen(s, log).phase) && Listen(s, log).got == s.got
  {
    MailLogHello(helo, m);
    if log == [] {
    } else if !s.phase.Text? {
      assert log[0] == Say(HeloLine(helo))[0];
      StaysConfused(Hear(s, log[0]), log[1..]);
    } else if |log| <= |HeloLine(helo)| {
      var part := HeloLine(helo)[..|log|];
      PartOfHello(helo, AfterHello(m), log);
      PartEndsNothing(s.phase.seen, helo, part);
      StillText(s, s.phase.seen, part);
    } else {
      PastHello(helo, AfterHello(m), log);
      WaitsInText(s, helo, log[|HeloLine(helo)| + 1..]);
    }
  }

  lemma PartOfHello(helo: seq<byte>, more: seq<Event>, log: seq<Event>)
    requires log <= Say(HeloLine(helo)) + [Reply] + more && |log| <= |HeloLine(helo)|
    ensures log == Say(HeloLine(helo)[..|log|])
  {
  }

  lemma PastHello(helo: seq<byte>, more: seq<Event>, log: seq<Event>)
    requires log <= Say(HeloLine(helo)) + [Reply] + more && |log| > |HeloLine(helo)|
    ensures log == Say(HeloLine(helo)) + ([Reply] + log[|HeloLine(helo)| + 1..])
  {
  }

  /** A HELO line is taken for text, and nobody answers it. */
  lemma WaitsInText(s: Server, helo: seq<byte>, rest: seq<Event>)
    requires Lost(helo, s.phase) && s.phase.Text?
    ensures var s' := Listen(s, Say(HeloLine(helo)) + ([Reply] + rest)); s'.phase.Confused? && s'.got == s.got
  {
    var hello := Say(HeloLine(helo));
    PartEndsNothing(s.phase.seen, helo, HeloLine(helo));
    StillText(s, s.phase.seen, HeloLine(helo));
    ListenConcat(s, hello, [Reply] + rest);
    var now := Listen(s, hello);
    ListenConcat(now, [Reply], rest);
    ListenOne(now, Reply);
    StaysConfused(Hear(now, Reply), rest);
  }

  // ---------------------------------------------------------------- a whole connection

  predicate All<T>(p: T -> bool, s: seq<T>) {
    forall k :: 0 <= k < |s| ==> p(s[k])
  }

  lemma AllSnoc<T>(p: T -> bool, s: seq<T>)
    requires s != []
    ensures All(p, s) <==> All(p, s[..|s| - 1]) && p(s[|s| - 1])
  {
    assert forall k :: 0 <= k < |s| - 1 ==> s[..|s| - 1][k] == s[k];
  }

  lemma AllBefore<T>(p: T -> bool, s: seq<T>, n: nat)
    requires n <= |s|
    ensures All(p, s[..n]) <==> forall k :: 0 <= k < n ==> p(s[k])
  {
    assert forall k :: 0 <= k < n ==> s[..n][k] == s[k];
  }

  ghost predicate AllInStep(helo: seq<byte>, segs: seq<Segment>) {
    All((seg: Segment) => InStep(helo, seg), segs)
  }

  /** What the messages yield up to the first that does not leave the server in step, and nothing after it. */
  ghost function Delivered(helo: seq<byte>, segs: seq<Segment>): seq<Delivery> {
    if segs == [] then []
    else
      var n := |segs| - 1;
      Delivered(helo, segs[..n]) + if AllInStep(helo, segs[..n]) then Yield(helo, segs[n]) else []
  }

  lemma {:induction false} SegmentsHeard(s: Server, helo: seq<byte>, segs: seq<Segment>)
    requires Hearing(s.phase) && forall k :: 0 <= k < |segs| ==> SegmentOk(helo, segs[k])
    ensures var s' := Listen(s, Flatten(segs));
            && Deliveries(s'.got) == Deliveries(s.got) + Delivered(helo, segs)
            && if AllInStep(helo, segs) then Hearing(s'.phase) else Lost(helo, s'.phase)
  {
    if segs != [] {
      var n := |segs| - 1;
      var before, last := segs[..n], segs[n];
      assert SegmentOk(helo, last);
      SegmentsHeard(s, helo, before);
      AllSnoc((seg: Segment) => InStep(helo, seg), segs);
      ListenConcat(s, Flatten(before), last.log);
      var now := Listen(s, Flatten(before));
      if AllInStep(helo, before) {
        SegmentHeard(now, helo, last);
        Associates(Deliveries(s.got), Delivered(helo, before), Yield(helo, last));
      } else {
        LostHeard(now, helo, last.mail, last.log);
        assert Delivered(helo, before) + [] == Delivered(helo, before);
      }
    }
  }

  /**
   What a copy server that insists on lock step gets out of any greeted connection,
   whatever the messages on it and whatever was completed, failed or aborted: what
   they yield up to the first one that does not leave it in step. It can go on exactly
   when all of them do.
   */
  lemma {:induction false} ConnectionDelivers(helo: seq<byte>, conn: Connection, segs: seq<Segment>)
    requires LifeOk(helo, conn, segs) && conn.log != []
    ensures Deliveries(Listen(START, conn.log).got) == Delivered(helo, segs)
    ensures if AllInStep(helo, segs) then Hearing(Listen(START, conn.log).phase)
            else Lost(helo, Listen(START, conn.log).phase)
  {
    ListenConcat(START, [Reply], Flatten(segs));
    ListenOne(START, Reply);
    SegmentsHeard(START.(phase := Ready([])), helo, segs);
    assert [] + Delivered(helo, segs) == Delivered(helo, segs);
  }

  /** What the server has got out of a connection once its first `n` messages are over. */
  ghost function GotAfter(segs: seq<Segment>, n: nat): seq<Delivery>
    requires n <= |segs|
  {
    Deliveries(Listen(START, [Reply] + Flatten(segs[..n])).got)
  }

  /**
   Message by message: the server gets message number `n` as it was sent if and only
   if all of it was said, HELO name and recipients are single lines, its text needs no
   dot-stuffing, and every message before it on the connection left the server in step.
   So a message that the daemon takes for delivered, and that would arrive by itself, is
   lost exactly when an earlier one on the kept socket did not.
   */
  lemma {:induction false} HeardExactlyWhen(helo: seq<byte>, conn: Connection, segs: seq<Segment>, n: nat)
    requires LifeOk(helo, conn, segs) && n < |segs|
    ensures GotAfter(segs, n + 1) == GotAfter(segs, n) + [DeliveryOf(segs[n].mail)] <==>
            && Finished(helo, segs[n]) && OneLine(helo) && Transparent(segs[n].mail)
            && forall k :: 0 <= k < n ==> InStep(helo, segs[k])
    ensures (exists k :: 0 <= k < n && !InStep(helo, segs[k])) ==> GotAfter(segs, n + 1) == GotAfter(segs, n)
  {
    EachDelivers(helo, conn, segs, n);
    YieldsItself(helo, segs[n]);
    SameEnd(GotAfter(segs, n), Yield(helo, segs[n]), [DeliveryOf(segs[n].mail)]);
    assert GotAfter(segs, n) + [DeliveryOf(segs[n].mail)] != GotAfter(segs, n);
  }

  /** Each message adds what it yields, if every message before it left the server in step. */
  lemma {:induction false} EachDelivers(helo: seq<byte>, conn: Connection, segs: seq<Segment>, n: nat)
    requires LifeOk(helo, conn, segs) && n < |segs|
    ensures SegmentOk(helo, segs[n])
    ensures if forall k :: 0 <= k < n ==> InStep(helo, segs[k])
            then GotAfter(segs, n + 1) == GotAfter(segs, n) + Yield(helo, segs[n])
            else GotAfter(segs, n + 1) == GotAfter(segs, n)
  {
    PartDelivers(helo, conn, segs, n);
    PartDelivers(helo, conn, segs, n + 1);
    assert segs[..n + 1][..n] == segs[..n] && segs[..n + 1][n] == segs[n];
    DeliveredStep(helo, segs[..n + 1]);
    AllBefore((seg: Segment) => InStep(helo, seg), segs, n);
  }

  lemma DeliveredStep(helo: seq<byte>, segs: seq<Segment>)
    requires segs != []
    ensures var front, last := segs[..|segs| - 1], segs[|segs| - 1];
            Delivered(helo, segs) ==
            if AllInStep(helo, front) then Delivered(helo, front) + Yield(helo, last) else Delivered(helo, front)
  {
    var front := segs[..|segs| - 1];
    assert Delivered(helo, front) + [] == Delivered(helo, front);
  }

  lemma SameEnd<T>(front: seq<T>, a: seq<T>, b: seq<T>)
    ensures front + a == front + b <==> a == b
  {
    if front + a == front + b {
      assert a == (front + a)[|front|..] == (front + b)[|front|..] == b;
    }
  }

  lemma {:induction false} PartDelivers(helo: seq<byte>, conn: Connection, segs: seq<Segment>, n: nat)
    requires LifeOk(helo, conn, segs) && n <= |segs|
    ensures GotAfter(segs, n) == Delivered(helo, segs[..n])
  {
    var part := segs[..n];
    assert forall k :: 0 <= k < n ==> part[k] == segs[k];
    ConnectionDelivers(helo, Connection([Reply] + Flatten(part), false), part);
  }

  // ---------------------------------------------------------------- and it matters

  /**
   A failed message that does not leave the server in step: the reply to HELO could not be read and the
   socket is kept. Of the next message on it, completed as far as the daemon can tell,
   the server gets nothing, whatever the message.
   */
  lemma ResidueConfuses(helo: seq<byte>, m: Mail)
    ensures var segs := [Segment(m, Failed, Say(HeloLine(helo))), Segment(m, Completed, MailLog(helo, m))];
            var conn := Connection([Reply] + (Say(HeloLine(helo)) + MailLog(helo, m)), true);
            && LifeOk(helo, conn, segs)
            && Listen(START, conn.log).phase.Confused? && Listen(START, conn.log).got == []
  {
    var hello, mail := Say(HeloLine(helo)), MailLog(helo, m);
    var segs := [Segment(m, Failed, hello), Segment(m, Completed, mail)];
    assert segs[..1] == [segs[0]] && segs[..1][..0] == [];
    assert Flatten(segs[..1]) == [] + hello;
    assert Flatten(segs) == hello + mail;
    MailLogHello(helo, m);
    ListenConcat(START, [Reply], hello + mail);
    ListenOne(START, Reply);
    var ready := START.(phase := Ready([]));
    ListenConcat(ready, hello, mail);
    UnansweredHello(ready, helo);
    var now := Listen(ready, hello);
    assert mail[0] == hello[0] == Sent(HELO[0]);
    StaysConfused(Hear(now, mail[0]), mail[1..]);
  }

  lemma UnansweredHello(s: Server, helo: seq<byte>)
    requires s.phase == Ready([])
    ensures var s' := Listen(s, Say(HeloLine(helo))); s'.got == s.got && (s'.phase.Owes? || s'.phase.Confused?)
  {
    assert HeloLine(helo) == (HELO + helo) + CRLF;
    if OneLine(HELO + helo) {
      assert [] + (HELO + helo) == HELO + helo;
      LineHeard(s, [], HELO + helo);
    } else {
      LineSpoilt(s, HELO + helo);
    }
  }
}
