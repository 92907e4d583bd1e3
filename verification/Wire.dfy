/**
 What one SMTP connection sees: the bytes the kernel accepted and the replies
 that were read, in the order in which both happened.
 */
module Wire {
  import opened Bytes

  /** One byte accepted by `write`, or one `read` that did not fail. */
  datatype Event = Sent(b: byte) | Reply

  /** The events of writing all of `bytes`. */
  function Say(bytes: seq<byte>): (log: seq<Event>)
    ensures |log| == |bytes|
  {
    seq(|bytes|, i requires 0 <= i < |bytes| => Sent(bytes[i]))
  }

  lemma SayConcat(a: seq<byte>, b: seq<byte>)
    ensures Say(a + b) == Say(a) + Say(b)
  {
  }

  /** The bytes of a log: what the socket itself carries. */
  function Carried(log: seq<Event>): seq<byte> {
    if log == [] then []
    else (if log[0].Sent? then [log[0].b] else []) + Carried(log[1..])
  }

  lemma {:induction false} CarriedConcat(a: seq<Event>, b: seq<Event>)
    ensures Carried(a + b) == Carried(a) + Carried(b)
  {
    if a == [] {
      assert a + b == b;
    } else {
      var first := if a[0].Sent? then [a[0].b] else [];
      assert (a + b)[1..] == a[1..] + b;
      CarriedConcat(a[1..], b);
      Associates(first, Carried(a[1..]), Carried(b));
    }
  }

  lemma {:induction false} CarriedSay(bytes: seq<byte>)
    ensures Carried(Say(bytes)) == bytes
  {
    if bytes != [] {
      assert Say(bytes)[1..] == Say(bytes[1..]);
      CarriedSay(bytes[1..]);
    }
  }

  /** The number of replies read in a log. */
  function Replies(log: seq<Event>): nat {
    if log == [] then 0
    else (if log[0].Reply? then 1 else 0) + Replies(log[1..])
  }

  lemma {:induction false} RepliesConcat(a: seq<Event>, b: seq<Event>)
    ensures Replies(a + b) == Replies(a) + Replies(b)
  {
    if a == [] {
      assert a + b == b;
    } else {
      assert (a + b)[1..] == a[1..] + b;
      RepliesConcat(a[1..], b);
    }
  }

  lemma {:induction false} RepliesSay(bytes: seq<byte>)
    ensures Replies(Say(bytes)) == 0
  {
    if bytes != [] {
      assert Say(bytes)[1..] == Say(bytes[1..]);
      RepliesSay(bytes[1..]);
    }
  }

  /** A lock-step conversation: each turn is written in full, then its reply is read. */
  function Dialogue(turns: seq<seq<byte>>): seq<Event> {
    if turns == [] then []
    else Say(turns[0]) + [Reply] + Dialogue(turns[1..])
  }

  lemma {:induction false} DialogueConcat(a: seq<seq<byte>>, b: seq<seq<byte>>)
    ensures Dialogue(a + b) == Dialogue(a) + Dialogue(b)
  {
    if a == [] {
      assert a + b == b;
    } else {
      assert (a + b)[1..] == a[1..] + b;
      DialogueConcat(a[1..], b);
    }
  }

  lemma {:induction false} DialogueReplies(turns: seq<seq<byte>>)
    ensures Replies(Dialogue(turns)) == |turns|
  {
    if turns != [] {
      RepliesConcat(Say(turns[0]) + [Reply], Dialogue(turns[1..]));
      RepliesConcat(Say(turns[0]), [Reply]);
      RepliesSay(turns[0]);
      DialogueReplies(turns[1..]);
    }
  }

  /**
   After `seen`, the first `k` turns have been written and answered, and of turn
   `k` exactly `said` has been written, not yet answered.
   */
  ghost predicate InTurn(turns: seq<seq<byte>>, seen: seq<Event>, k: nat, said: seq<byte>) {
    && k <= |turns|
    && (if k < |turns| then said <= turns[k] else said == [])
    && seen == Dialogue(turns[..k]) + Say(said)
  }

  /** The bytes said since the last reply. */
  function Unanswered(log: seq<Event>): seq<byte> {
    if log == [] || log[|log| - 1].Reply? then []
    else Unanswered(log[..|log| - 1]) + [log[|log| - 1].b]
  }

  lemma UnansweredMore(log: seq<Event>, b: byte)
    ensures Unanswered(log + [Sent(b)]) == Unanswered(log) + [b]
  {
    assert (log + [Sent(b)])[..|log|] == log;
  }

  lemma {:induction false} UnansweredSay(before: seq<Event>, said: seq<byte>)
    requires before == [] || before[|before| - 1].Reply?
    ensures Unanswered(before + Say(said)) == said
    decreases |said|
  {
    if said == [] {
      assert before + Say(said) == before;
    } else {
      var front, b := said[..|said| - 1], said[|said| - 1];
      assert front + [b] == said;
      UnansweredSay(before, front);
      SayConcat(front, [b]);
      assert Say([b]) == [Sent(b)];
      Associates(before, Say(front), [Sent(b)]);
      UnansweredMore(before + Say(front), b);
    }
  }

  lemma {:induction false} DialogueEnds(turns: seq<seq<byte>>)
    requires turns != []
    ensures Dialogue(turns) != [] && Dialogue(turns)[|Dialogue(turns)| - 1].Reply?
  {
    if |turns| > 1 {
      DialogueEnds(turns[1..]);
    }
  }

  /** Where a conversation stands can be read off its log. */
  lemma StandsInTurn(turns: seq<seq<byte>>, seen: seq<Event>, k: nat, said: seq<byte>)
    requires InTurn(turns, seen, k, said)
    ensures Replies(seen) == k && Unanswered(seen) == said
  {
    var before := Dialogue(turns[..k]);
    if k > 0 {
      DialogueEnds(turns[..k]);
    }
    UnansweredSay(before, said);
    DialogueReplies(turns[..k]);
    RepliesConcat(before, Say(said));
    RepliesSay(said);
  }

  /**
   Lock step, at every moment: whatever part of a conversation has happened so
   far, every turn but the one being written has been answered, and the bytes
   without an answer belong to a single turn.
   */
  lemma {:induction false} LockStep(turns: seq<seq<byte>>, seen: seq<Event>)
    requires seen <= Dialogue(turns)
    ensures exists k: nat, said :: InTurn(turns, seen, k, said)
  {
    if turns == [] {
      assert turns[..0] == [];
      assert InTurn(turns, seen, 0, []);
    } else if |seen| <= |turns[0]| {
      assert turns[..0] == [];
      assert seen == Dialogue(turns)[..|seen|] == Say(turns[0][..|seen|]);
      assert InTurn(turns, seen, 0, turns[0][..|seen|]);
    } else {
      var head := Say(turns[0]) + [Reply];
      var rest := seen[|head|..];
      assert rest == Dialogue(turns[1..])[..|rest|];
      LockStep(turns[1..], rest);
      var k: nat, said :| InTurn(turns[1..], rest, k, said);
      assert turns[..k + 1][1..] == turns[1..][..k];
      assert InTurn(turns, seen, k + 1, said);
    }
  }

  /**
   The outcome of trying to append `full` to a log: all of it on success, a
   proper prefix of it on failure.
   */
  ghost predicate Progress(before: seq<Event>, after: seq<Event>, full: seq<Event>, ok: bool) {
    if ok then after == before + full
    else before <= after < before + full
  }

  lemma ProgressStops(before: seq<Event>, after: seq<Event>, first: seq<Event>, second: seq<Event>)
    requires Progress(before, after, first, false)
    ensures Progress(before, after, first + second, false)
  {
    assert before + (first + second) == (before + first) + second;
  }

  lemma ProgressContinues(
    before: seq<Event>, middle: seq<Event>, after: seq<Event>,
    first: seq<Event>, second: seq<Event>, ok: bool)
    requires Progress(before, middle, first, true)
    requires Progress(middle, after, second, ok)
    ensures Progress(before, after, first + second, ok)
  {
    assert before + (first + second) == (before + first) + second;
  }

  /** The same in bytes: the socket gained all of the bytes, or a prefix of them. */
  lemma ProgressInBytes(before: seq<Event>, after: seq<Event>, full: seq<Event>, ok: bool)
    requires Progress(before, after, full, ok)
    ensures if ok then Carried(after) == Carried(before) + Carried(full)
            else Carried(before) <= Carried(after) <= Carried(before) + Carried(full)
  {
    CarriedConcat(before, full);
    if !ok {
      var gained, missing := after[|before|..], (before + full)[|after|..];
      assert after == before + gained;
      assert before + full == after + missing;
      CarriedConcat(before, gained);
      CarriedConcat(after, missing);
    }
  }
}
