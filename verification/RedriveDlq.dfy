/**
 src/app/scripts/redrive_dlq.py: pulling dead letters and publishing them again.

 The dead-letter queue is a sequence, head first; a message that is put back goes to
 the head again.  No new dead letter arrives during a run.
 */
module RedriveDlq {
  import opened Options

  /** One x-death record; `keys` is None when the record has no routing-keys. */
  datatype Death = Death(keys: Option<seq<string>>)

  /** `deaths` is None without an x-death list; an absent routing key is empty. */
  datatype Message = Message(body: string, routingKey: string, deaths: Option<seq<Death>>)

  /** The key to publish under, or None.  An empty recovered key is returned as it is. */
  function ExtractRoutingKey(m: Message): Option<string> {
    if && m.deaths.Some? && m.deaths.value != []
       && m.deaths.value[0].keys.Some? && m.deaths.value[0].keys.value != []
    then Some(m.deaths.value[0].keys.value[0])
    else if m.routingKey != "" then Some(m.routingKey) else None
  }

  predicate Keyed(m: Message) { ExtractRoutingKey(m).Some? && ExtractRoutingKey(m).value != "" }

  /** What is published for a dead letter: its body, under its key, without its history. */
  function Republished(m: Message): Message
    requires Keyed(m)
  {
    Message(m.body, ExtractRoutingKey(m).value, None)
  }

  /** What the broker makes of a rejected message: the newest record first, under the queue's own key. */
  function DeadLettered(m: Message, deadLetterKey: string): Message {
    Message(m.body, deadLetterKey, Some([Death(Some([m.routingKey]))] + if m.deaths.Some? then m.deaths.value else []))
  }

  /** Rejection followed by redrive gives the message back under its own key, its history cleared. */
  lemma RedriveUndoesRejection(m: Message, deadLetterKey: string)
    ensures Keyed(DeadLettered(m, deadLetterKey)) <==> m.routingKey != ""
    ensures m.routingKey != "" ==> Republished(DeadLettered(m, deadLetterKey)) == m.(deaths := None)
  {
    var d := DeadLettered(m, deadLetterKey);
    assert d.deaths.value[0] == Death(Some([m.routingKey]));
  }

  /** The first routing key of the newest death record, if there is a record with keys. */
  predicate Recorded(m: Message, key: string) {
    m.deaths.Some? && |m.deaths.value| > 0 && m.deaths.value[0].keys.Some? && [key] <= m.deaths.value[0].keys.value
  }

  /**
   What becomes of any dead letter: its body is published again, without history, under the
   recorded key, or if none is recorded under the key it carries; and it is skipped if that
   key is empty, even when the other is not.
   */
  lemma RedrivenExactly(m: Message)
    ensures forall key :: Recorded(m, key) ==> PublishedFor([m]) == if key == "" then [] else [Message(m.body, key, None)]
    ensures (forall key :: !Recorded(m, key)) ==>
      PublishedFor([m]) == if m.routingKey == "" then [] else [Message(m.body, m.routingKey, None)]
  {
    assert [m][..0] == [] && PublishedFor([m]) == if Keyed(m) then [Republished(m)] else [];
    if m.deaths.Some? && |m.deaths.value| > 0 && m.deaths.value[0].keys.Some? && m.deaths.value[0].keys.value != [] {
      var first := m.deaths.value[0].keys.value[0];
      assert Recorded(m, first);
      forall key | Recorded(m, key) ensures key == first {
        assert m.deaths.value[0].keys.value[0] == [key][0];
      }
    }
  }

  /** `--limit`: any integer, or none. */
  predicate Reached(limit: Option<int>, processed: int) { limit.Some? && processed >= limit.value }

  /** What a real run publishes for these messages, in order. */
  function PublishedFor(q: seq<Message>): seq<Message> {
    if q == [] then []
    else PublishedFor(q[..|q| - 1]) + if Keyed(q[|q| - 1]) then [Republished(q[|q| - 1])] else []
  }

  predicate AllUnkeyed(q: seq<Message>) { forall i :: 0 <= i < |q| ==> !Keyed(q[i]) }

  /** The state of the loop; `ended` once it is left. */
  datatype Run = Run(queue: seq<Message>, published: seq<Message>, processed: nat, skipped: nat, ended: bool)

  function Start(dlq: seq<Message>): Run { Run(dlq, [], 0, 0, false) }

  /** One turn of the loop. */
  function Turn(r: Run, limit: Option<int>, dryRun: bool): Run {
    if r.ended || Reached(limit, r.processed) || r.queue == [] then r.(ended := true)
    else if !Keyed(r.queue[0]) then r.(queue := r.queue[1..], skipped := r.skipped + 1)
    else if dryRun then r.(processed := r.processed + 1)
    else Run(r.queue[1..], r.published + [Republished(r.queue[0])], r.processed + 1, r.skipped, false)
  }

  function Turns(r: Run, limit: Option<int>, dryRun: bool, n: nat): Run {
    if n == 0 then r else Turn(Turns(r, limit, dryRun, n - 1), limit, dryRun)
  }

  /** A real run has taken the first `n` messages, no more than it may publish. */
  ghost predicate RealRun(dlq: seq<Message>, limit: Option<int>, r: Run) {
    var n := |dlq| - |r.queue|;
    && n >= 0 && r.queue == dlq[n..]
    && r.published == PublishedFor(dlq[..n])
    && r.processed == |r.published| && r.skipped == n - r.processed
    && forall k :: 0 <= k < n ==> !Reached(limit, |PublishedFor(dlq[..k])|)
  }

  /** A dry run has rejected the first `n` messages, none of which has a key. */
  ghost predicate DryRun(dlq: seq<Message>, limit: Option<int>, r: Run) {
    var n := |dlq| - |r.queue|;
    && n >= 0 && r.queue == dlq[n..] && AllUnkeyed(dlq[..n])
    && r.published == [] && r.skipped == n
    && (r.processed > 0 ==> r.queue != [] && Keyed(r.queue[0]) && (limit.Some? ==> r.processed <= limit.value))
    && (Reached(limit, 0) ==> n == 0)
  }

  lemma TakeOne(dlq: seq<Message>, n: nat)
    requires n < |dlq|
    ensures dlq[n..][0] == dlq[n] && dlq[n..][1..] == dlq[n + 1..]
    ensures PublishedFor(dlq[..n + 1]) == PublishedFor(dlq[..n]) + if Keyed(dlq[n]) then [Republished(dlq[n])] else []
    ensures AllUnkeyed(dlq[..n + 1]) <==> AllUnkeyed(dlq[..n]) && !Keyed(dlq[n])
  {
    assert dlq[..n + 1][..n] == dlq[..n];
    assert forall i :: 0 <= i < n ==> dlq[..n + 1][i] == dlq[..n][i];
  }

  lemma RealTurn(dlq: seq<Message>, limit: Option<int>, r: Run)
    requires RealRun(dlq, limit, r) && !r.ended
    ensures RealRun(dlq, limit, Turn(r, limit, false))
  {
    hide PublishedFor, Republished, Keyed;
    if r.queue != [] {
      TakeOne(dlq, |dlq| - |r.queue|);
    }
  }

  lemma DryTurn(dlq: seq<Message>, limit: Option<int>, r: Run)
    requires DryRun(dlq, limit, r) && !r.ended
    ensures DryRun(dlq, limit, Turn(r, limit, true))
  {
    hide PublishedFor, Republished, Keyed, AllUnkeyed;
    if r.queue != [] {
      TakeOne(dlq, |dlq| - |r.queue|);
    }
  }

  /**
   The main loop.  It ends for a real run and for a limited one, and for an unlimited
   dry run if no message has a key; `UnlimitedDryRunEnds` shows that it ends in no
   other case.
   */
  method Redrive(dlq: seq<Message>, limit: Option<int>, dryRun: bool)
    returns (left: seq<Message>, published: seq<Message>, processed: nat, skipped: nat)
    requires dryRun && limit.None? ==> AllUnkeyed(dlq)
    ensures !dryRun ==> RealRun(dlq, limit, Run(left, published, processed, skipped, true))
    ensures dryRun ==> DryRun(dlq, limit, Run(left, published, processed, skipped, true))
    ensures left == [] || Reached(limit, processed)
  {
    hide PublishedFor, Republished, Keyed;
    left, published, processed, skipped := dlq, [], 0, 0;
    StartOk(dlq, limit);
    while true
      invariant !dryRun ==> RealRun(dlq, limit, Run(left, published, processed, skipped, false))
      invariant dryRun ==> DryRun(dlq, limit, Run(left, published, processed, skipped, false))
      decreases |left|, if dryRun && limit.Some? then limit.value - processed else 0
    {
      ghost var r := Run(left, published, processed, skipped, false);
      if dryRun {
        DryTurn(dlq, limit, r);
      } else {
        RealTurn(dlq, limit, r);
      }
      if Reached(limit, processed) {
        break;
      }
      if left == [] {
        break;
      }
      var m := left[0];
      if !Keyed(m) {
        skipped := skipped + 1;
        left := left[1..];
        continue;
      }
      if dryRun {
        assert dlq[|dlq| - |left|] == m;
        processed := processed + 1;
        continue;
      }
      published := published + [Republished(m)];
      left := left[1..];
      processed := processed + 1;
    }
  }

  lemma StartOk(dlq: seq<Message>, limit: Option<int>)
    ensures RealRun(dlq, limit, Start(dlq)) && DryRun(dlq, limit, Start(dlq))
  {
    assert dlq[..0] == [];
  }

  lemma {:induction false} DryTurns(dlq: seq<Message>, limit: Option<int>, n: nat)
    ensures DryRun(dlq, limit, Turns(Start(dlq), limit, true, n).(ended := false))
  {
    hide DryRun;
    if n == 0 {
      StartOk(dlq, limit);
    } else {
      DryTurns(dlq, limit, n - 1);
      DryTurn(dlq, limit, Turns(Start(dlq), limit, true, n - 1).(ended := false));
    }
  }

  lemma {:induction false} NeverEnds(dlq: seq<Message>, n: nat)
    requires !AllUnkeyed(dlq)
    ensures !Turns(Start(dlq), None, true, n).ended
  {
    if n > 0 {
      NeverEnds(dlq, n - 1);
      var r := Turns(Start(dlq), None, true, n - 1);
      DryTurns(dlq, None, n - 1);
      assert r.(ended := false) == r;
      assert dlq[..|dlq|] == dlq;
    }
  }

  lemma {:induction false} UnkeyedTurns(dlq: seq<Message>, n: nat)
    requires AllUnkeyed(dlq) && n <= |dlq|
    ensures Turns(Start(dlq), None, true, n) == Run(dlq[n..], [], 0, n, false)
  {
    if n > 0 {
      UnkeyedTurns(dlq, n - 1);
      TakeOne(dlq, n - 1);
    }
  }

  /** A dry run without a limit ends if and only if no dead letter has a key to publish it under. */
  lemma UnlimitedDryRunEnds(dlq: seq<Message>)
    ensures (exists n: nat :: Turns(Start(dlq), None, true, n).ended) <==> AllUnkeyed(dlq)
  {
    if AllUnkeyed(dlq) {
      UnkeyedTurns(dlq, |dlq|);
      assert Turns(Start(dlq), None, true, |dlq| + 1).ended;
    } else {
      forall n: nat ensures !Turns(Start(dlq), None, true, n).ended {
        NeverEnds(dlq, n);
      }
    }
  }

  /**
   What a finished dry run leaves.  It removes nothing exactly when it stops at once or
   the head has a key: unlike its documentation says, it rejects every message without
   a key that it meets first.
   */
  lemma DryRunRemoves(dlq: seq<Message>, limit: Option<int>, r: Run)
    requires DryRun(dlq, limit, r) && (r.queue == [] || Reached(limit, r.processed))
    ensures r.queue == dlq <==> Reached(limit, 0) || dlq == [] || Keyed(dlq[0])
  {
    var n := |dlq| - |r.queue|;
    assert n > 0 ==> dlq[..n][0] == dlq[0];
  }

  lemma {:induction false} PublishedForConcat(a: seq<Message>, b: seq<Message>)
    ensures PublishedFor(a + b) == PublishedFor(a) + PublishedFor(b)
    decreases |b|
  {
    if b == [] {
      assert a + b == a;
    } else {
      PublishedForConcat(a, b[..|b| - 1]);
      assert (a + b)[..|a + b| - 1] == a + b[..|b| - 1];
    }
  }

  lemma {:induction false} PublishedForRejected(ms: seq<Message>, deadLetterKey: string)
    requires forall i :: 0 <= i < |ms| ==> ms[i].routingKey != ""
    ensures PublishedFor(seq(|ms|, i requires 0 <= i < |ms| => DeadLettered(ms[i], deadLetterKey)))
         == seq(|ms|, i requires 0 <= i < |ms| => ms[i].(deaths := None))
  {
    if ms != [] {
      var rest, last := ms[..|ms| - 1], ms[|ms| - 1];
      PublishedForRejected(rest, deadLetterKey);
      RedriveUndoesRejection(last, deadLetterKey);
      var dead := seq(|ms|, i requires 0 <= i < |ms| => DeadLettered(ms[i], deadLetterKey));
      assert dead[..|ms| - 1] == seq(|rest|, i requires 0 <= i < |rest| => DeadLettered(rest[i], deadLetterKey));
    }
  }

  /**
   An unlimited real run over messages that a consumer rejected publishes all of them
   again, in order, under their own keys, with nothing left and nothing skipped.
   */
  lemma RedriveRestores(ms: seq<Message>, deadLetterKey: string, r: Run)
    requires forall i :: 0 <= i < |ms| ==> ms[i].routingKey != ""
    requires var dlq := seq(|ms|, i requires 0 <= i < |ms| => DeadLettered(ms[i], deadLetterKey));
      RealRun(dlq, None, r) && r.queue == []
    ensures r.published == seq(|ms|, i requires 0 <= i < |ms| => ms[i].(deaths := None))
    ensures r.skipped == 0
  {
    var dlq := seq(|ms|, i requires 0 <= i < |ms| => DeadLettered(ms[i], deadLetterKey));
    PublishedForRejected(ms, deadLetterKey);
    assert dlq[..|dlq|] == dlq;
  }

  /** A limited real run continued by an unlimited one publishes what one unlimited run would. */
  lemma LimitedThenRest(dlq: seq<Message>, limit: Option<int>, first: Run, rest: Run)
    requires RealRun(dlq, limit, first) && RealRun(first.queue, None, rest) && rest.queue == []
    ensures first.published + rest.published == PublishedFor(dlq)
    ensures first.skipped + rest.skipped + first.processed + rest.processed == |dlq|
    ensures limit.Some? && limit.value >= 0 ==> first.processed <= limit.value
  {
    hide Keyed, Republished, PublishedFor;
    var n := |dlq| - |first.queue|;
    assert first.queue[..|first.queue|] == first.queue;
    assert dlq[..n] + dlq[n..] == dlq;
    PublishedForConcat(dlq[..n], dlq[n..]);
    StaysWithinLimit(dlq, limit, first);
  }

  lemma StaysWithinLimit(dlq: seq<Message>, limit: Option<int>, r: Run)
    requires RealRun(dlq, limit, r)
    ensures limit.Some? && limit.value >= 0 ==> r.processed <= limit.value
  {
    hide Keyed, Republished;
    var n := |dlq| - |r.queue|;
    if n > 0 {
      TakeOne(dlq, n - 1);
      assert !Reached(limit, |PublishedFor(dlq[..n - 1])|);
    }
  }
}
