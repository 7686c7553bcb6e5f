/**
 src/connectors/consumers/activity_writer.py: the background writer that batches
 signals and inserts them with ON CONFLICT DO NOTHING.

 The queue holds everything that is enqueued before the final drain, in order; how
 each wait of the loop ends, and where the cancellation of `close` lands, is a plan
 chosen by the environment.  One `_write_signal` is one step: it takes effect or fails.
 */
module ActivityWriter {
  import opened Options

  datatype Target = Target(entityType: Option<string>, id: Option<string>, source: Option<string>, url: Option<string>)

  datatype Relationship = Relationship(kind: string, direction: Option<string>, target: Target, properties: map<string, string>)

  datatype Signal = Signal(signalId: string, source: string, entityType: string, id: string, eventTime: int,
                           attributes: map<string, string>, relationships: seq<Relationship>)

  /** The unique constraint; the content hash stands for the content, being injective. */
  datatype Key = Key(source: string, entityType: string, id: string, eventTime: int,
                     attributes: map<string, string>, relationships: seq<Relationship>)

  function KeyOf(s: Signal): Key { Key(s.source, s.entityType, s.id, s.eventTime, s.attributes, s.relationships) }

  datatype Action = Action(signalId: string, source: string, eventTime: int, actorType: string, actorId: string,
                           kind: string, targetType: string, targetId: string, targetSource: string,
                           summary: Option<string>, url: Option<string>)

  function Or(value: Option<string>, fallback: string): string {
    if value.Some? && value.value != "" then value.value else fallback
  }

  function Attribute(s: Signal, name: string): Option<string> {
    if name in s.attributes && s.attributes[name] != "" then Some(s.attributes[name]) else None
  }

  /** The first non-empty of title, summary and key. */
  function SummaryOf(s: Signal): Option<string> {
    if Attribute(s, "title").Some? then Attribute(s, "title")
    else if Attribute(s, "summary").Some? then Attribute(s, "summary")
    else Attribute(s, "key")
  }

  function ActionOf(s: Signal, r: Relationship): Action {
    Action(s.signalId, s.source, s.eventTime, s.entityType, s.id, r.kind, Or(r.target.entityType, ""),
           Or(r.target.id, ""), Or(r.target.source, s.source), SummaryOf(s), r.target.url)
  }

  function Actions(s: Signal): seq<Action> {
    seq(|s.relationships|, i requires 0 <= i < |s.relationships| => ActionOf(s, s.relationships[i]))
  }

  predicate NonEmpty(m: map<string, string>, name: string) { name in m && m[name] != "" }

  /** The row of one relationship, field by field. */
  predicate RowFor(s: Signal, r: Relationship, a: Action) {
    && a.signalId == s.signalId && a.source == s.source && a.eventTime == s.eventTime
    && a.actorType == s.entityType && a.actorId == s.id && a.kind == r.kind && a.url == r.target.url
    && a.targetType == (match r.target.entityType case Some(t) => t case None => "")
    && a.targetId == (match r.target.id case Some(i) => i case None => "")
    && a.targetSource == (if r.target.source.None? || r.target.source.value == "" then s.source else r.target.source.value)
    && a.summary == (if NonEmpty(s.attributes, "title") then Some(s.attributes["title"])
                     else if NonEmpty(s.attributes, "summary") then Some(s.attributes["summary"])
                     else if NonEmpty(s.attributes, "key") then Some(s.attributes["key"])
                     else None)
  }

  method DecomposeRelationships(s: Signal) returns (actions: seq<Action>)
    ensures actions == Actions(s)
    ensures |actions| == |s.relationships| && forall i :: 0 <= i < |actions| ==> RowFor(s, s.relationships[i], actions[i])
  {
    actions := [];
    for i := 0 to |s.relationships|
      invariant actions == Actions(s)[..i]
    {
      actions := actions + [ActionOf(s, s.relationships[i])];
    }
  }

  // ------------------------------------------------------------------ Tables

  /** An event row is the signal it was made from; rows of a table have no order. */
  datatype Tables = Tables(events: map<Key, Signal>, actions: multiset<Action>)

  function Insert(t: Tables, s: Signal): Tables {
    if KeyOf(s) in t.events then t
    else Tables(t.events[KeyOf(s) := s], t.actions + multiset(Actions(s)))
  }

  /** The one-at-a-time writer. */
  function InsertAll(t: Tables, ss: seq<Signal>): Tables {
    if ss == [] then t else Insert(InsertAll(t, ss[..|ss| - 1]), ss[|ss| - 1])
  }

  predicate HasKey(ss: seq<Signal>, k: Key) { exists i :: 0 <= i < |ss| && KeyOf(ss[i]) == k }

  lemma HasKeyLast(ss: seq<Signal>, k: Key)
    requires ss != []
    ensures HasKey(ss, k) <==> HasKey(ss[..|ss| - 1], k) || KeyOf(ss[|ss| - 1]) == k
  {
    if HasKey(ss, k) {
      var i :| 0 <= i < |ss| && KeyOf(ss[i]) == k;
      assert i < |ss| - 1 ==> KeyOf(ss[..|ss| - 1][i]) == k;
    }
    if HasKey(ss[..|ss| - 1], k) {
      var i :| 0 <= i < |ss| - 1 && KeyOf(ss[..|ss| - 1][i]) == k;
      assert KeyOf(ss[i]) == k;
    }
  }

  function First(ss: seq<Signal>, k: Key): (s: Signal)
    requires HasKey(ss, k)
    ensures s in ss && KeyOf(s) == k
  {
    HasKeyLast(ss, k);
    if HasKey(ss[..|ss| - 1], k) then First(ss[..|ss| - 1], k) else ss[|ss| - 1]
  }

  /** The signals that are new when their turn comes. */
  function KeepFirst(ss: seq<Signal>, known: set<Key>): seq<Signal> {
    if ss == [] then []
    else
      var last := ss[|ss| - 1];
      KeepFirst(ss[..|ss| - 1], known)
      + if KeyOf(last) in known || HasKey(ss[..|ss| - 1], KeyOf(last)) then [] else [last]
  }

  function ActionRows(ss: seq<Signal>): multiset<Action> {
    if ss == [] then multiset{} else ActionRows(ss[..|ss| - 1]) + multiset(Actions(ss[|ss| - 1]))
  }

  lemma {:induction false} InsertAllEvents(t: Tables, ss: seq<Signal>, k: Key)
    ensures k in InsertAll(t, ss).events <==> k in t.events || HasKey(ss, k)
    ensures k in InsertAll(t, ss).events ==>
      InsertAll(t, ss).events[k] == if k in t.events then t.events[k] else First(ss, k)
  {
    hide Actions, KeyOf, HasKey;
    if ss == [] {
      NoKeys(k);
    } else {
      InsertAllEvents(t, ss[..|ss| - 1], k);
      HasKeyLast(ss, k);
    }
  }

  lemma NoKeys(k: Key)
    ensures !HasKey([], k)
  {
  }

  lemma {:induction false} InsertAllActions(t: Tables, ss: seq<Signal>)
    ensures InsertAll(t, ss).actions == t.actions + ActionRows(KeepFirst(ss, t.events.Keys))
  {
    hide Actions, KeyOf, HasKey;
    if ss != [] {
      var rest, last := ss[..|ss| - 1], ss[|ss| - 1];
      InsertAllActions(t, rest);
      InsertAllEvents(t, rest, KeyOf(last));
      var kept := KeepFirst(rest, t.events.Keys);
      assert (kept + [last])[..|kept|] == kept;
      assert kept + [] == kept;
    }
  }

  /** What inserting leaves: the row there was, else the first signal of each key; actions of new signals only. */
  lemma InsertAllMeaning(t: Tables, ss: seq<Signal>)
    ensures forall k :: k in InsertAll(t, ss).events <==> k in t.events || HasKey(ss, k)
    ensures forall k :: k in InsertAll(t, ss).events ==>
      InsertAll(t, ss).events[k] == if k in t.events then t.events[k] else First(ss, k)
    ensures InsertAll(t, ss).actions == t.actions + ActionRows(KeepFirst(ss, t.events.Keys))
  {
    hide InsertAll, HasKey, KeepFirst, First;
    InsertAllActions(t, ss);
    forall k ensures k in InsertAll(t, ss).events <==> k in t.events || HasKey(ss, k) {
      InsertAllEvents(t, ss, k);
    }
    forall k | k in InsertAll(t, ss).events
      ensures InsertAll(t, ss).events[k] == if k in t.events then t.events[k] else First(ss, k)
    {
      InsertAllEvents(t, ss, k);
    }
  }

  lemma {:induction false} InsertAllConcat(t: Tables, a: seq<Signal>, b: seq<Signal>)
    ensures InsertAll(t, a + b) == InsertAll(InsertAll(t, a), b)
    decreases |b|
  {
    hide Insert;
    if b == [] {
      assert a + b == a;
    } else {
      InsertAllConcat(t, a, b[..|b| - 1]);
      assert (a + b)[..|a + b| - 1] == a + b[..|b| - 1];
    }
  }

  lemma {:induction false} KnownInsertsNothing(t: Tables, ss: seq<Signal>)
    requires forall i :: 0 <= i < |ss| ==> KeyOf(ss[i]) in t.events
    ensures InsertAll(t, ss) == t
  {
    if ss != [] {
      KnownInsertsNothing(t, ss[..|ss| - 1]);
    }
  }

  /** Writing a batch again after it was written in part changes nothing more. */
  lemma RewriteIsIdempotent(t: Tables, batch: seq<Signal>, k: nat)
    requires k <= |batch|
    ensures InsertAll(InsertAll(t, batch[..k]), batch) == InsertAll(t, batch)
  {
    hide Insert, InsertAll;
    var part := InsertAll(t, batch[..k]);
    forall i | 0 <= i < k ensures KeyOf(batch[..k][i]) in part.events {
      hide KeyOf;
      InsertAllEvents(t, batch[..k], KeyOf(batch[..k][i]));
      assert HasKey(batch[..k], KeyOf(batch[..k][i]));
    }
    KnownInsertsNothing(part, batch[..k]);
    assert batch == batch[..k] + batch[k..];
    InsertAllConcat(part, batch[..k], batch[k..]);
    InsertAllConcat(t, batch[..k], batch[k..]);
  }

  // ------------------------------------------------------------------ Writer

  /** One call of `_write_signal`, and whether it took effect. */
  datatype Attempt = Attempt(signal: Signal, written: bool)

  ghost predicate AllWritten(a: seq<Attempt>) { forall i :: 0 <= i < |a| ==> a[i].written }

  ghost predicate Attempted(a: seq<Attempt>, ss: seq<Signal>) {
    forall i :: 0 <= i < |ss| ==> WasAttempted(a, ss[i])
  }

  ghost predicate WasAttempted(a: seq<Attempt>, s: Signal) { exists j :: 0 <= j < |a| && a[j].signal == s }

  /** How a wait of the loop ends; `cancelAt` is the signal of the following flush at which the cancel lands. */
  datatype Wait = Got(cancelAt: Option<nat>) | TimedOut(cancelAt: Option<nat>) | Cancelled

  const BATCH_SIZE := 100

  /** The cancel lands within a timeout flush of `held` signals. */
  predicate CutsShort(w: Wait, held: nat) { w.TimedOut? && w.cancelAt.Some? && w.cancelAt.value < held }

  /** Signals queued and held after one wait, or None when the loop has ended. */
  function AfterWait(w: Wait, queued: nat, held: nat): Option<(nat, nat)> {
    match w
    case Got(cancelAt) =>
      if queued == 0 then Some((0, held))
      else if held + 1 < BATCH_SIZE then Some((queued - 1, held + 1))
      else if cancelAt.Some? && cancelAt.value < held + 1 then None
      else Some((queued - 1, 0))
    case TimedOut(_) => if CutsShort(w, held) then None else Some((queued, 0))
    case Cancelled => None
  }

  /** How many signals a plan loses: the rest of the batch at which it is cut short, if it is. */
  function LostBy(plan: seq<Wait>, queued: nat, held: nat): nat {
    if plan == [] then 0
    else if CutsShort(plan[0], held) then held - plan[0].cancelAt.value
    else match AfterWait(plan[0], queued, held)
      case None => 0
      case Some(next) => LostBy(plan[1..], next.0, next.1)
  }

  class ActivityWriter {
    var queue: seq<Signal>
    var tables: Tables
    ghost var attempts: seq<Attempt>

    constructor (enqueued: seq<Signal>, tables: Tables)
      ensures queue == enqueued && this.tables == tables && attempts == []
    {
      this.queue, this.tables, this.attempts := enqueued, tables, [];
    }

    /** None for a duplicate, else the number of action rows; `failed` when the database refused. */
    method WriteSignal(s: Signal) returns (written: Option<nat>, failed: bool)
      modifies `tables, `attempts
      ensures attempts == old(attempts) + [Attempt(s, !failed)]
      ensures tables == if failed then old(tables) else Insert(old(tables), s)
      ensures !failed ==> (written.None? <==> KeyOf(s) in old(tables).events)
      ensures !failed && written.Some? ==> written.value == |s.relationships|
    {
      failed := *;
      attempts := attempts + [Attempt(s, !failed)];
      written := None;
      if !failed && KeyOf(s) !in tables.events {
        var actions := DecomposeRelationships(s);
        tables := Tables(tables.events[KeyOf(s) := s], tables.actions + multiset(actions));
        written := Some(|actions|);
      }
    }

    /** Attempts the signals in order, going on after failures, up to where a cancel lands. */
    method WriteBatch(batch: seq<Signal>, cancelAt: Option<nat>) returns (cancelled: bool)
      modifies `tables, `attempts
      ensures cancelled <==> cancelAt.Some? && cancelAt.value < |batch|
      ensures var n := if cancelled then cancelAt.value else |batch|;
        && old(attempts) <= attempts
        && Attempted(attempts, batch[..n])
        && (AllWritten(attempts) ==> tables == InsertAll(old(tables), batch[..n]))
    {
      hide Insert;
      for i := 0 to |batch|
        invariant cancelAt.Some? ==> i <= cancelAt.value
        invariant old(attempts) <= attempts
        invariant Attempted(attempts, batch[..i])
        invariant AllWritten(attempts) ==> tables == InsertAll(old(tables), batch[..i])
      {
        if cancelAt == Some(i) {
          return true;
        }
        ghost var before := attempts;
        var _, failed := WriteSignal(batch[i]);
        assert batch[..i + 1][..i] == batch[..i];
        MoreAttempted(before, attempts, batch, i);
        if AllWritten(attempts) {
          assert AllWritten(before);
        }
      }
      assert batch[..|batch|] == batch;
      cancelled := false;
    }

    /** The first `m` signals that were queued have been attempted, and are what the tables hold. */
    ghost predicate Flushed(before: seq<Attempt>, t: Tables, all: seq<Signal>, m: nat)
      reads `tables, `attempts
    {
      && m <= |all| && before <= attempts
      && Attempted(attempts, all[..m])
      && (AllWritten(attempts) ==> tables == InsertAll(t, all[..m]))
    }

    lemma NothingHeldYet()
      ensures Holding(attempts, tables, queue, [], 0)
    {
      NothingFlushed(tables, queue);
    }

    /** Flushes what may be cancelled and, if it was, flushes it all again: the batch-full and the shutdown flush. */
    method FlushFull(batch: seq<Signal>, cancelAt: Option<nat>, ghost before: seq<Attempt>, ghost t: Tables,
                     ghost all: seq<Signal>, ghost m: nat)
      returns (cancelled: bool)
      requires Flushed(before, t, all, m) && m + |batch| <= |all| && batch == all[m..m + |batch|]
      modifies `tables, `attempts
      ensures Flushed(before, t, all, m + |batch|)
      ensures cancelled <==> cancelAt.Some? && cancelAt.value < |batch|
    {
      hide InsertAll, Attempted, AllWritten;
      ghost var t0, a0 := tables, attempts;
      cancelled := WriteBatch(batch, cancelAt);
      if cancelled {
        ghost var t1, a1 := tables, attempts;
        var _ := WriteBatch(batch, None);
        RewriteIsIdempotent(t0, batch, cancelAt.value);
        PrefixWritten(a1, attempts);
      }
      assert batch[..|batch|] == batch;
      PrefixWritten(a0, attempts);
      Extend(t, all, m, batch, |batch|);
      AttemptedMore(a0, attempts, all, m, batch, |batch|);
    }

    /** A flush after inactivity; a cancel that lands here ends the loop without another flush. */
    method FlushOnTimeout(batch: seq<Signal>, cancelAt: Option<nat>, ghost before: seq<Attempt>, ghost t: Tables,
                          ghost all: seq<Signal>, ghost m: nat)
      returns (cancelled: bool)
      requires Flushed(before, t, all, m) && m + |batch| <= |all| && batch == all[m..m + |batch|]
      modifies `tables, `attempts
      ensures cancelled <==> cancelAt.Some? && cancelAt.value < |batch|
      ensures Flushed(before, t, all, m + if cancelled then cancelAt.value else |batch|)
    {
      hide InsertAll, Attempted, AllWritten;
      ghost var a0 := attempts;
      cancelled := WriteBatch(batch, cancelAt);
      ghost var n := if cancelled then cancelAt.value else |batch|;
      PrefixWritten(a0, attempts);
      Extend(t, all, m, batch, n);
      AttemptedMore(a0, attempts, all, m, batch, n);
    }

    /** A wait that got a signal: it joins the batch, and a full batch is flushed. */
    method OnGot(batch: seq<Signal>, cancelAt: Option<nat>, ghost before: seq<Attempt>, ghost t: Tables,
                 ghost all: seq<Signal>, ghost m: nat)
      returns (batch': seq<Signal>, cancelled: bool, ghost m': nat)
      requires Holding(before, t, all, batch, m)
      modifies this
      ensures Holding(before, t, all, batch', m')
      ensures var next := AfterWait(Got(cancelAt), |old(queue)|, |batch|);
        if cancelled then next.None? && batch' == [] else next == Some((|queue|, |batch'|))
    {
      hide Attempted, AllWritten, InsertAll, Flushed;
      batch', cancelled, m' := batch, false, m;
      if queue != [] {
        batch' := batch + [queue[0]];
        queue := queue[1..];
        assert batch' == all[m..m + |batch'|];
        if |batch'| >= BATCH_SIZE {
          cancelled := FlushFull(batch', cancelAt, before, t, all, m);
          m' := m + |batch'|;
          batch' := [];
        }
      }
    }

    /** What the loop keeps: `m` signals flushed, the batch next, and the queue after it. */
    ghost predicate Holding(before: seq<Attempt>, t: Tables, all: seq<Signal>, batch: seq<Signal>, m: nat)
      reads this
    {
      && |queue| <= |all| && queue == all[|all| - |queue|..]
      && m + |batch| == |all| - |queue| && batch == all[m..m + |batch|]
      && |batch| < BATCH_SIZE && Flushed(before, t, all, m)
    }

    /** What the loop leaves: `m` signals flushed, the next `lost` ones dropped, and the queue after them. */
    ghost predicate Through(before: seq<Attempt>, t: Tables, all: seq<Signal>, m: nat, lost: nat)
      reads this
    {
      && |queue| <= |all| && queue == all[|all| - |queue|..]
      && m + lost == |all| - |queue| && lost < BATCH_SIZE && Flushed(before, t, all, m)
    }

    /** The flush on shutdown. */
    method OnCancelled(batch: seq<Signal>, ghost before: seq<Attempt>, ghost t: Tables, ghost all: seq<Signal>, ghost m: nat)
      returns (ghost m': nat)
      requires Holding(before, t, all, batch, m)
      modifies `tables, `attempts
      ensures Through(before, t, all, m', 0)
    {
      hide Attempted, AllWritten, InsertAll, Flushed;
      m' := m + |batch|;
      if batch != [] {
        var _ := FlushFull(batch, None, before, t, all, m);
      }
    }

    /** A wait that timed out: what is held is flushed, if anything is. */
    method OnTimeout(batch: seq<Signal>, cancelAt: Option<nat>, ghost before: seq<Attempt>, ghost t: Tables,
                     ghost all: seq<Signal>, ghost m: nat)
      returns (cancelled: bool, ghost m': nat)
      requires Holding(before, t, all, batch, m)
      modifies `tables, `attempts
      ensures cancelled <==> CutsShort(TimedOut(cancelAt), |batch|)
      ensures Through(before, t, all, m', if cancelled then |batch| - cancelAt.value else 0)
      ensures !cancelled ==> Holding(before, t, all, [], m')
    {
      hide Attempted, AllWritten, InsertAll, Flushed;
      cancelled, m' := false, m;
      if batch != [] {
        cancelled := FlushOnTimeout(batch, cancelAt, before, t, all, m);
        m' := if cancelled then m + cancelAt.value else m + |batch|;
      }
    }

    /**
     The background loop, up to its end by cancellation; a plan that runs out is
     cancelled while waiting.  `m` signals are flushed; those between `m` and the queue
     are lost, as many as the plan says.
     */
    method WriterLoop(plan: seq<Wait>) returns (ghost m: nat)
      modifies this
      ensures Through(old(attempts), old(tables), old(queue), m, LostBy(plan, |old(queue)|, 0))
      ensures |queue| <= |old(queue)| && |old(queue)| - |queue| - m == LostBy(plan, |old(queue)|, 0)
      ensures NoCancelInTimeoutFlush(plan) ==> m == |old(queue)| - |queue|
    {
      hide InsertAll, Attempted, AllWritten, Flushed, LostBy, AfterWait, Holding;
      ghost var all := queue;
      ghost var t, before := tables, attempts;
      var batch: seq<Signal> := [];
      m := 0;
      NothingHeldYet();
      NoCancelNoLoss(plan, |all|, 0);
      assert plan[0..] == plan;
      var ended := false;
      var i := 0;
      while i < |plan| && !ended
        invariant i <= |plan|
        invariant Holding(before, t, all, batch, m)
        invariant LostBy(plan, |all|, 0) == if ended then 0 else LostBy(plan[i..], |queue|, |batch|)
        decreases |plan| - i
      {
        LostTurn(plan, i, |queue|, |batch|);
        match plan[i] {
          case Got(cancelAt) =>
            batch, ended, m := OnGot(batch, cancelAt, before, t, all, m);
          case TimedOut(cancelAt) =>
            var cancelled;
            ghost var held := |batch|;
            cancelled, m := OnTimeout(batch, cancelAt, before, t, all, m);
            if cancelled {
              return;
            }
            TimeoutGoesOn(cancelAt, |queue|, held);
            batch := [];
          case Cancelled =>
            CancelEnds(|queue|, |batch|);
            ended := true;
        }
        i := i + 1;
      }
      NothingLost(plan);
      m := OnCancelled(batch, before, t, all, m);
    }

    /** Takes whatever is left in the queue. */
    method Drain() returns (remaining: seq<Signal>)
      modifies `queue
      ensures remaining == old(queue) && queue == []
    {
      remaining := [];
      while queue != []
        invariant remaining + queue == old(queue)
        decreases |queue|
      {
        remaining := remaining + [queue[0]];
        queue := queue[1..];
      }
    }

    /**
     The life of a writer: the loop, its cancellation by `close`, and the final drain.
     Every signal is attempted except `lost`, the rest of a batch whose timeout flush
     was cancelled, if the plan has such a cancel; and when the database refuses nothing, the tables are those of the
     one-at-a-time writer over the signals that are not lost.
     */
    method RunAndClose(plan: seq<Wait>) returns (ghost before: seq<Signal>, ghost lost: seq<Signal>, ghost after: seq<Signal>)
      requires attempts == []
      modifies this
      ensures before + lost + after == old(queue) && queue == []
      ensures Attempted(attempts, before + after)
      ensures AllWritten(attempts) ==> tables == InsertAll(old(tables), before + after)
      ensures |lost| == LostBy(plan, |old(queue)|, 0) && |lost| < 100
      ensures lost == [] <==> LostBy(plan, |old(queue)|, 0) == 0
      ensures NoCancelInTimeoutFlush(plan) ==> lost == [] && before + after == old(queue)
    {
      hide InsertAll, Attempted, AllWritten, LostBy, NoCancelInTimeoutFlush;
      ghost var all, t := queue, tables;
      ghost var m := WriterLoop(plan);
      ghost var n := |all| - |queue|;
      before, lost, after := all[..m], all[m..n], all[n..];
      ghost var a0, t0 := attempts, tables;
      var remaining := Drain();
      if remaining != [] {
        var _ := WriteBatch(remaining, None);
      }
      assert remaining[..|remaining|] == remaining;
      DrainedAll(t, before, after, a0, attempts, t0, tables);
    }
  }

  /** Writing the drained signals after the others. */
  lemma DrainedAll(t: Tables, before: seq<Signal>, after: seq<Signal>, a0: seq<Attempt>, a: seq<Attempt>, t0: Tables, t1: Tables)
    requires a0 <= a && Attempted(a0, before) && (AllWritten(a0) ==> t0 == InsertAll(t, before))
    requires if after == [] then a == a0 && t1 == t0 else Attempted(a, after) && (AllWritten(a) ==> t1 == InsertAll(t0, after))
    ensures Attempted(a, before + after)
    ensures AllWritten(a) ==> t1 == InsertAll(t, before + after)
  {
    hide InsertAll, Attempted, AllWritten;
    PrefixWritten(a0, a);
    InsertAllConcat(t, before, after);
    InsertNone(InsertAll(t, before));
    AttemptedBoth(a0, a, before, after);
  }

  predicate NoCancelInTimeoutFlush(plan: seq<Wait>) {
    forall i :: 0 <= i < |plan| && plan[i].TimedOut? ==> plan[i].cancelAt.None?
  }

  /** One turn of the loop, in terms of what the rest of the plan loses. */
  lemma LostTurn(plan: seq<Wait>, i: nat, queued: nat, held: nat)
    requires i < |plan|
    ensures LostBy(plan[i..], queued, held) ==
      if CutsShort(plan[i], held) then held - plan[i].cancelAt.value
      else if AfterWait(plan[i], queued, held).None? then 0
      else LostBy(plan[i + 1..], AfterWait(plan[i], queued, held).value.0, AfterWait(plan[i], queued, held).value.1)
  {
    assert plan[i..][0] == plan[i] && plan[i..][1..] == plan[i + 1..];
  }

  lemma {:induction false} NoCancelNoLoss(plan: seq<Wait>, queued: nat, held: nat)
    ensures NoCancelInTimeoutFlush(plan) ==> LostBy(plan, queued, held) == 0
    decreases |plan|
  {
    if plan != [] && NoCancelInTimeoutFlush(plan) {
      var next := AfterWait(plan[0], queued, held);
      if next.Some? {
        NoCancelNoLoss(plan[1..], next.value.0, next.value.1);
      }
    }
  }

  lemma TimeoutGoesOn(cancelAt: Option<nat>, queued: nat, held: nat)
    requires !CutsShort(TimedOut(cancelAt), held)
    ensures AfterWait(TimedOut(cancelAt), queued, held) == Some((queued, 0))
  {
  }

  lemma CancelEnds(queued: nat, held: nat)
    ensures AfterWait(Cancelled, queued, held) == None
  {
  }

  lemma NothingLost(plan: seq<Wait>)
    ensures forall queued: nat, held: nat :: LostBy(plan[|plan|..], queued, held) == 0
  {
  }

  /** What a plan has made of the signals once it is through, or None when the loop has ended. */
  function AfterWaits(plan: seq<Wait>, queued: nat, held: nat): Option<(nat, nat)> {
    if plan == [] then Some((queued, held))
    else match AfterWait(plan[0], queued, held)
      case None => None
      case Some(next) => AfterWaits(plan[1..], next.0, next.1)
  }

  /** The loop gets to wait `i`, and the flush that follows it is cut short. */
  predicate CutShortAt(plan: seq<Wait>, queued: nat, held: nat, i: nat) {
    && i < |plan|
    && var now := AfterWaits(plan[..i], queued, held);
       now.Some? && CutsShort(plan[i], now.value.1)
  }

  lemma CutShortStep(plan: seq<Wait>, queued: nat, held: nat, i: nat)
    requires plan != [] && 0 < i
    ensures CutShortAt(plan, queued, held, i) <==>
      var next := AfterWait(plan[0], queued, held);
      next.Some? && CutShortAt(plan[1..], next.value.0, next.value.1, i - 1)
    ensures CutShortAt(plan, queued, held, i) ==>
      var next := AfterWait(plan[0], queued, held).value;
      AfterWaits(plan[..i], queued, held) == AfterWaits(plan[1..][..i - 1], next.0, next.1)
  {
    if i < |plan| {
      assert plan[..i][0] == plan[0] && plan[..i][1..] == plan[1..][..i - 1];
    }
  }

  lemma {:induction false} LossAt(plan: seq<Wait>, queued: nat, held: nat, i: nat)
    requires CutShortAt(plan, queued, held, i)
    ensures LostBy(plan, queued, held) == AfterWaits(plan[..i], queued, held).value.1 - plan[i].cancelAt.value > 0
    decreases i
  {
    if i == 0 {
      assert plan[..0] == [];
    } else {
      CutShortStep(plan, queued, held, i);
      var next := AfterWait(plan[0], queued, held).value;
      LossAt(plan[1..], next.0, next.1, i - 1);
    }
  }

  lemma {:induction false} LossSomewhere(plan: seq<Wait>, queued: nat, held: nat) returns (i: nat)
    requires LostBy(plan, queued, held) > 0
    ensures CutShortAt(plan, queued, held, i)
    decreases |plan|
  {
    if CutsShort(plan[0], held) {
      i := 0;
      assert plan[..0] == [];
    } else {
      var next := AfterWait(plan[0], queued, held).value;
      i := LossSomewhere(plan[1..], next.0, next.1);
      i := i + 1;
      CutShortStep(plan, queued, held, i);
    }
  }

  /**
   When a plan loses anything: if and only if the loop gets to a timeout flush whose
   cancel lands before the end of the batch it holds; then the loss is the rest of that
   batch.
   */
  lemma LossExactly(plan: seq<Wait>, queued: nat, held: nat)
    ensures LostBy(plan, queued, held) > 0 <==> exists i: nat :: CutShortAt(plan, queued, held, i)
    ensures forall i: nat :: CutShortAt(plan, queued, held, i) ==>
      LostBy(plan, queued, held) == AfterWaits(plan[..i], queued, held).value.1 - plan[i].cancelAt.value
  {
    forall i: nat | CutShortAt(plan, queued, held, i)
      ensures LostBy(plan, queued, held) == AfterWaits(plan[..i], queued, held).value.1 - plan[i].cancelAt.value > 0
    {
      LossAt(plan, queued, held, i);
    }
    if LostBy(plan, queued, held) > 0 {
      var i := LossSomewhere(plan, queued, held);
    }
  }

  /** `n` signals are taken, the wait times out, and the cancel lands at signal `c` of the flush. */
  function CancelledFlush(n: nat, c: nat): seq<Wait> { seq(n, _ => Got(None)) + [TimedOut(Some(c))] }

  /** Such a plan loses every signal from `c` on, for each size a batch can have. */
  lemma {:induction false} CancelledFlushLoses(n: nat, c: nat, queued: nat, held: nat)
    requires n <= queued && c < held + n < 100
    ensures LostBy(CancelledFlush(n, c), queued, held) == held + n - c
    decreases n
  {
    var plan := CancelledFlush(n, c);
    if n > 0 {
      CancelledFlushLoses(n - 1, c, queued - 1, held + 1);
      assert plan[0] == Got(None) && plan[1..] == CancelledFlush(n - 1, c);
    } else {
      assert plan == [TimedOut(Some(c))];
    }
  }

  lemma InsertNone(t: Tables)
    ensures InsertAll(t, []) == t
  {
  }

  lemma NothingFlushed(t: Tables, all: seq<Signal>)
    ensures InsertAll(t, all[..0]) == t && forall a :: Attempted(a, all[..0])
  {
  }

  lemma PrefixWritten(before: seq<Attempt>, after: seq<Attempt>)
    requires before <= after
    ensures AllWritten(after) ==> AllWritten(before)
  {
  }

  lemma Extend(t: Tables, all: seq<Signal>, m: nat, batch: seq<Signal>, n: nat)
    requires m + |batch| <= |all| && batch == all[m..m + |batch|] && n <= |batch|
    ensures InsertAll(InsertAll(t, all[..m]), batch[..n]) == InsertAll(t, all[..m + n])
  {
    hide Insert;
    assert all[..m + n] == all[..m] + batch[..n];
    InsertAllConcat(t, all[..m], batch[..n]);
  }

  lemma AttemptedBoth(a0: seq<Attempt>, a: seq<Attempt>, x: seq<Signal>, y: seq<Signal>)
    requires a0 <= a && Attempted(a0, x) && (y != [] ==> Attempted(a, y))
    ensures Attempted(a, x + y)
  {
    var both := x + y;
    forall i | 0 <= i < |both| ensures WasAttempted(a, both[i]) {
      if i < |x| {
        StillAttempted(a0, a, x[i]);
      }
    }
  }

  lemma AttemptedMore(a0: seq<Attempt>, a: seq<Attempt>, all: seq<Signal>, m: nat, batch: seq<Signal>, n: nat)
    requires m + |batch| <= |all| && batch == all[m..m + |batch|] && n <= |batch|
    requires a0 <= a && Attempted(a0, all[..m]) && Attempted(a, batch[..n])
    ensures Attempted(a, all[..m + n])
  {
    hide WasAttempted;
    assert all[..m + n] == all[..m] + batch[..n];
    AttemptedBoth(a0, a, all[..m], batch[..n]);
  }

  lemma MoreAttempted(before: seq<Attempt>, after: seq<Attempt>, batch: seq<Signal>, i: nat)
    requires i < |batch| && Attempted(before, batch[..i])
    requires |after| == |before| + 1 && before <= after && after[|before|].signal == batch[i]
    ensures Attempted(after, batch[..i + 1])
    ensures AllWritten(after) ==> after[|before|].written && AllWritten(before)
  {
    var part := batch[..i + 1];
    forall k | 0 <= k < |part| ensures WasAttempted(after, part[k]) {
      if k < i {
        assert batch[..i][k] == batch[k];
        StillAttempted(before, after, batch[k]);
      } else {
        assert after[|before|].signal == batch[i];
      }
    }
  }

  lemma StillAttempted(before: seq<Attempt>, after: seq<Attempt>, s: Signal)
    requires before <= after && WasAttempted(before, s)
    ensures WasAttempted(after, s)
  {
    var j :| 0 <= j < |before| && before[j].signal == s;
    assert after[j].signal == s;
  }

  // ------------------------------------------------------ What a loss changes

  lemma {:induction false} FirstOfConcat(a: seq<Signal>, b: seq<Signal>, k: Key)
    ensures HasKey(a + b, k) <==> HasKey(a, k) || HasKey(b, k)
    ensures HasKey(a + b, k) ==> First(a + b, k) == if HasKey(a, k) then First(a, k) else First(b, k)
    decreases |b|
  {
    hide KeyOf, HasKey;
    if b == [] {
      assert a + b == a;
      NoKeys(k);
    } else {
      FirstOfConcat(a, b[..|b| - 1], k);
      assert (a + b)[..|a + b| - 1] == a + b[..|b| - 1];
      HasKeyLast(a + b, k);
      HasKeyLast(b, k);
    }
  }

  /** The lost signal's row is there all the same: written before, or by an equal signal afterwards. */
  ghost predicate Recovered(known: Tables, lost: seq<Signal>, after: seq<Signal>, k: Key)
    requires HasKey(lost, k)
  {
    k in known.events || (HasKey(after, k) && First(after, k) == First(lost, k))
  }

  lemma {:induction false} KeptAre(ss: seq<Signal>, known: set<Key>, s: Signal)
    ensures s in KeepFirst(ss, known) <==> KeyOf(s) !in known && HasKey(ss, KeyOf(s)) && First(ss, KeyOf(s)) == s
  {
    hide KeyOf, HasKey;
    if ss == [] {
      NoKeys(KeyOf(s));
    } else {
      var rest, last := ss[..|ss| - 1], ss[|ss| - 1];
      KeptAre(rest, known, s);
      HasKeyLast(ss, KeyOf(s));
    }
  }

  lemma {:induction false} KeptOnce(ss: seq<Signal>, known: set<Key>)
    ensures NoRepeats(KeepFirst(ss, known))
  {
    hide KeyOf, HasKey;
    if ss != [] {
      KeptOnce(ss[..|ss| - 1], known);
      KeptAre(ss[..|ss| - 1], known, ss[|ss| - 1]);
    }
  }

  ghost predicate SameSignals(a: seq<Signal>, b: seq<Signal>) { forall s :: s in a <==> s in b }

  ghost predicate NoRepeats(ss: seq<Signal>) { forall i, j :: 0 <= i < j < |ss| ==> ss[i] != ss[j] }

  function Without(ss: seq<Signal>, j: nat): seq<Signal>
    requires j < |ss|
  {
    ss[..j] + ss[j + 1..]
  }

  lemma {:induction false} RowsWithout(ss: seq<Signal>, j: nat)
    requires j < |ss|
    ensures ActionRows(ss) == ActionRows(Without(ss, j)) + multiset(Actions(ss[j]))
  {
    hide Actions, ActionRows;
    var n := |ss| - 1;
    var less := Without(ss, j);
    RowsLast(ss[..n], ss[n]);
    assert ss[..n] + [ss[n]] == ss;
    if j == n {
      assert less == ss[..n];
    } else {
      RowsWithout(ss[..n], j);
      RowsLast(Without(ss[..n], j), ss[n]);
      assert less == Without(ss[..n], j) + [ss[n]];
    }
  }

  lemma RowsLast(ss: seq<Signal>, s: Signal)
    ensures ActionRows(ss + [s]) == ActionRows(ss) + multiset(Actions(s))
  {
    hide Actions;
    assert (ss + [s])[..|ss|] == ss;
  }

  lemma NoSignals(a: seq<Signal>, b: seq<Signal>)
    requires SameSignals(a, b)
    ensures a == [] ==> b == []
  {
    if b != [] {
      assert b[0] in b;
    }
  }

  lemma OneLess(a: seq<Signal>, b: seq<Signal>, i: nat, j: nat)
    requires i < |a| && j < |b| && a[i] == b[j] && SameSignals(a, b) && NoRepeats(a) && NoRepeats(b)
    ensures SameSignals(Without(a, i), Without(b, j)) && NoRepeats(Without(b, j))
  {
    WithoutMembers(a, i);
    WithoutMembers(b, j);
  }

  lemma WithoutMembers(ss: seq<Signal>, j: nat)
    requires j < |ss| && NoRepeats(ss)
    ensures NoRepeats(Without(ss, j))
    ensures forall s :: s in Without(ss, j) <==> s in ss && s != ss[j]
  {
    var less := Without(ss, j);
    forall s ensures s in less <==> s in ss && s != ss[j] {
      if s in ss && s != ss[j] {
        var x :| 0 <= x < |ss| && ss[x] == s;
        assert if x < j then less[x] == s else less[x - 1] == s;
      }
    }
  }

  /** Action rows depend on which signals are kept, not on their order. */
  lemma {:induction false} SameSignalsSameRows(a: seq<Signal>, b: seq<Signal>)
    requires SameSignals(a, b) && NoRepeats(a) && NoRepeats(b)
    ensures ActionRows(a) == ActionRows(b)
    decreases |a|
  {
    hide Actions, ActionRows, Without;
    if a == [] {
      NoSignals(a, b);
    } else {
      var i := |a| - 1;
      assert a[i] in a;
      var j :| 0 <= j < |b| && b[j] == a[i];
      RowsWithout(a, i);
      RowsWithout(b, j);
      OneLess(a, b, i, j);
      WithoutMembers(a, i);
      ShorterWithout(a, i);
      SameSignalsSameRows(Without(a, i), Without(b, j));
    }
  }

  lemma ShorterWithout(ss: seq<Signal>, j: nat)
    requires j < |ss|
    ensures |Without(ss, j)| == |ss| - 1
  {
  }

  /**
   Losing the rest of a batch leaves the tables, event rows and action rows alike, as the
   one-at-a-time writer would have them if and only if every lost signal was a duplicate
   of an earlier one, or comes again unchanged before any other signal of its key.
   */
  lemma LossIsInvisible(t: Tables, before: seq<Signal>, lost: seq<Signal>, after: seq<Signal>)
    ensures InsertAll(t, before + lost + after) == InsertAll(t, before + after)
      <==> forall k :: HasKey(lost, k) ==> Recovered(InsertAll(t, before), lost, after, k)
  {
    hide KeyOf, HasKey, InsertAll, First;
    LossInEvents(t, before, lost, after);
    if forall k :: HasKey(lost, k) ==> Recovered(InsertAll(t, before), lost, after, k) {
      RecoveredActions(InsertAll(t, before), lost, after);
      InsertAllConcat(t, before, lost + after);
      InsertAllConcat(t, before, after);
      assert before + lost + after == before + (lost + after);
    }
  }

  lemma RecoveredActions(known: Tables, lost: seq<Signal>, after: seq<Signal>)
    requires forall k :: HasKey(lost, k) ==> Recovered(known, lost, after, k)
    ensures InsertAll(known, lost + after).actions == InsertAll(known, after).actions
  {
    hide KeyOf, HasKey, InsertAll, First, ActionRows, KeepFirst;
    var keys := known.events.Keys;
    var full, part := KeepFirst(lost + after, keys), KeepFirst(after, keys);
    forall s ensures s in full <==> s in part {
      KeptAre(lost + after, keys, s);
      KeptAre(after, keys, s);
      FirstOfConcat(lost, after, KeyOf(s));
    }
    KeptOnce(lost + after, keys);
    KeptOnce(after, keys);
    SameSignalsSameRows(full, part);
    InsertAllActions(known, lost + after);
    InsertAllActions(known, after);
  }

  lemma LossInEvents(t: Tables, before: seq<Signal>, lost: seq<Signal>, after: seq<Signal>)
    ensures InsertAll(t, before + lost + after).events == InsertAll(t, before + after).events
      <==> forall k :: HasKey(lost, k) ==> Recovered(InsertAll(t, before), lost, after, k)
  {
    hide KeyOf, HasKey, InsertAll, First;
    var known := InsertAll(t, before);
    var full, part := InsertAll(known, lost + after), InsertAll(known, after);
    InsertAllConcat(t, before, lost + after);
    InsertAllConcat(t, before, after);
    assert before + lost + after == before + (lost + after);
    forall k
      ensures k in full.events <==> k in part.events || HasKey(lost, k)
      ensures k in part.events && !HasKey(lost, k) ==> full.events[k] == part.events[k]
      ensures HasKey(lost, k) ==>
        ((k in part.events && full.events[k] == part.events[k]) <==> Recovered(known, lost, after, k))
    {
      InsertAllEvents(known, lost + after, k);
      InsertAllEvents(known, after, k);
      FirstOfConcat(lost, after, k);
    }
    if full.events == part.events {
      assert forall k :: HasKey(lost, k) ==> k in full.events;
    }
  }
}
