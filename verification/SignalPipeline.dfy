/**
 The journey of a signal: published (common/messaging/rabbitmq.py), consumed and
 acknowledged (connectors/consumers/main.py), dead-lettered, redriven
 (app/scripts/redrive_dlq.py).  Every step is one await of one of these programs;
 a crash may come between any two of them.
 */
module SignalPipeline {
  import opened Options
  import opened RedriveDlq
  import opened TopicRouting

  datatype Signal = Signal(body: string, source: string, entityType: string)

  function KeyOf(sig: Signal): string { PublishKey(sig.source, sig.entityType) }

  function Original(sig: Signal): Message { Message(sig.body, KeyOf(sig), None) }

  /** Where one copy of a message is; the broker makes a new copy for every queue it delivers to. */
  datatype Place =
    | Queued(queue: string)
    | InFlight(queue: string, upserted: bool)
    | Dead
    | Redriving(published: bool)
    | Acked
    | Redriven
    | Dropped

  /**
   `signal` is history: what the copy was published for, or None for a foreign dead
   letter.  `interrupted` too: a consumer was cut off while it had the copy in flight.
   */
  datatype Copy = Copy(signal: Option<Signal>, message: Message, place: Place, interrupted: bool)

  /** `upserted`: the signals whose graph write has finished; `routed`: those a queue has accepted. */
  datatype State = State(copies: seq<Copy>, upserted: set<Signal>, routed: set<Signal>)

  const EMPTY := State([], {}, {})

  datatype Event =
    | Publish(signal: Signal)
    | ForeignDeadLetter(message: Message)
    | Deliver(c: nat)
    | Upsert(c: nat)
    | LateUpsert(c: nat)
    | Ack(c: nat)
    | Reject(c: nat)
    | CrashConsumer(queue: string)
    | Take(c: nat)
    | Republish(c: nat)
    | AckDead(c: nat)
    | PutBack(c: nat)
    | Skip(c: nat)
    | CrashRedrive

  predicate At(s: State, c: nat, place: Place) { c < |s.copies| && s.copies[c].place == place }

  /**
   What each await needs.  Reject is a failed parse, a failed upsert or a failed ack;
   LateUpsert is the worker thread that outlives a cancelled consumer, wherever the copy
   is by then; PutBack is the dry run, or any exception.
   */
  predicate Enabled(s: State, e: Event) {
    match e
    case Publish(_) => true
    case ForeignDeadLetter(_) => true
    case Deliver(c) => c < |s.copies| && s.copies[c].place.Queued?
    case Upsert(c) => c < |s.copies| && s.copies[c].place.InFlight?
    case LateUpsert(c) => c < |s.copies| && s.copies[c].interrupted
    case Ack(c) => c < |s.copies| && s.copies[c].place.InFlight? && s.copies[c].place.upserted
    case Reject(c) => c < |s.copies| && s.copies[c].place.InFlight?
    case CrashConsumer(_) => true
    case Take(c) => At(s, c, Dead)
    case Republish(c) => At(s, c, Redriving(false)) && Keyed(s.copies[c].message)
    case AckDead(c) => At(s, c, Redriving(true))
    case PutBack(c) => c < |s.copies| && s.copies[c].place.Redriving?
    case Skip(c) => At(s, c, Redriving(false)) && !Keyed(s.copies[c].message)
    case CrashRedrive => true
  }

  /** One copy for each source queue the message's key reaches. */
  function Delivered(signal: Option<Signal>, m: Message): seq<Copy> {
    (if "github_queue" in Routes(SOURCE_QUEUES, m.routingKey) then [Copy(signal, m, Queued("github_queue"), false)] else [])
    + (if "jira_queue" in Routes(SOURCE_QUEUES, m.routingKey) then [Copy(signal, m, Queued("jira_queue"), false)] else [])
    + (if "confluence_queue" in Routes(SOURCE_QUEUES, m.routingKey) then [Copy(signal, m, Queued("confluence_queue"), false)] else [])
  }

  function Move(s: State, c: nat, place: Place): State
    requires c < |s.copies|
  {
    s.(copies := s.copies[c := s.copies[c].(place := place)])
  }

  function Written(s: State, c: nat): State
    requires c < |s.copies|
  {
    s.(upserted := s.upserted + if s.copies[c].signal.Some? then {s.copies[c].signal.value} else {})
  }

  /** The broker returns what a closed connection had not acknowledged. */
  function Requeued(c: Copy, queue: string): Copy {
    if c.place.InFlight? && c.place.queue == queue then c.(place := Queued(queue), interrupted := true) else c
  }

  function Returned(c: Copy): Copy { if c.place.Redriving? then c.(place := Dead) else c }

  function Step(s: State, e: Event): State
    requires Enabled(s, e)
  {
    match e
    case Publish(sig) =>
      var arrivals := Delivered(Some(sig), Original(sig));
      s.(copies := s.copies + arrivals, routed := s.routed + if arrivals != [] then {sig} else {})
    case ForeignDeadLetter(m) => s.(copies := s.copies + [Copy(None, m, Dead, false)])
    case Deliver(c) => Move(s, c, InFlight(s.copies[c].place.queue, false))
    case Upsert(c) => Move(Written(s, c), c, InFlight(s.copies[c].place.queue, true))
    case LateUpsert(c) => Written(s, c)
    case Ack(c) => Move(s, c, Acked)
    case Reject(c) =>
      s.(copies := s.copies[c := Copy(s.copies[c].signal, DeadLettered(s.copies[c].message, DLQ_NAME), Dead, s.copies[c].interrupted)])
    case CrashConsumer(q) => s.(copies := seq(|s.copies|, i requires 0 <= i < |s.copies| => Requeued(s.copies[i], q)))
    case Take(c) => Move(s, c, Redriving(false))
    case Republish(c) =>
      var moved := Move(s, c, Redriving(true));
      moved.(copies := moved.copies + Delivered(s.copies[c].signal, Republished(s.copies[c].message)))
    case AckDead(c) => Move(s, c, Redriven)
    case PutBack(c) => Move(s, c, Dead)
    case Skip(c) => Move(s, c, Dropped)
    case CrashRedrive => s.(copies := seq(|s.copies|, i requires 0 <= i < |s.copies| => Returned(s.copies[i])))
  }

  /** The events lead from one state to another. */
  ghost predicate Leads(s: State, es: seq<Event>, s1: State)
    decreases |es|
  {
    if es == [] then s == s1 else Enabled(s, es[0]) && Leads(Step(s, es[0]), es[1..], s1)
  }

  // --------------------------------------------------------------- Invariant

  /** What is true of a copy of a routed signal, wherever it is. */
  ghost predicate CopyOk(sig: Signal, c: Copy, upserted: set<Signal>) {
    match c.place
    case Queued(q) => c.message == Original(sig) && Routes(SOURCE_QUEUES, KeyOf(sig)) == {q}
    case InFlight(q, done) =>
      c.message == Original(sig) && Routes(SOURCE_QUEUES, KeyOf(sig)) == {q} && (done ==> sig in upserted)
    case Dead => c.message == DeadLettered(Original(sig), DLQ_NAME)
    case Redriving(_) => c.message == DeadLettered(Original(sig), DLQ_NAME)
    case Acked => sig in upserted
    case Redriven => true
    case Dropped => false
  }

  /** A later copy of the same signal exists. */
  ghost predicate Superseded(s: State, i: nat) {
    exists j :: i < j < |s.copies| && i < |s.copies| && s.copies[j].signal == s.copies[i].signal
  }

  ghost predicate HasCopy(s: State, sig: Signal) { exists i :: 0 <= i < |s.copies| && s.copies[i].signal == Some(sig) }

  ghost predicate AtOk(s: State, i: nat) {
    i < |s.copies| && s.copies[i].signal.Some? ==>
      var sig := s.copies[i].signal.value;
      && sig in s.routed && Routes(SOURCE_QUEUES, KeyOf(sig)) != {}
      && CopyOk(sig, s.copies[i], s.upserted)
      && (s.copies[i].place == Redriven || s.copies[i].place == Redriving(true) ==> Superseded(s, i))
  }

  ghost predicate Inv(s: State) {
    && (forall i: nat :: AtOk(s, i))
    && (forall sig :: sig in s.routed ==> HasCopy(s, sig))
  }

  lemma RouteIsOne(key: string)
    ensures Routes(SOURCE_QUEUES, key) in {{}, {"github_queue"}, {"jira_queue"}, {"confluence_queue"}}
  {
    RoutedByFirstWord(key);
  }

  /** A message reaches one queue or none. */
  lemma DeliveredOnce(signal: Option<Signal>, m: Message)
    ensures var r := Routes(SOURCE_QUEUES, m.routingKey);
      if r == {} then Delivered(signal, m) == []
      else exists q :: r == {q} && Delivered(signal, m) == [Copy(signal, m, Queued(q), false)]
  {
    hide Routes;
    RouteIsOne(m.routingKey);
    var r := Routes(SOURCE_QUEUES, m.routingKey);
    if r == {"github_queue"} {
      assert Delivered(signal, m) == [Copy(signal, m, Queued("github_queue"), false)];
    } else if r == {"jira_queue"} {
      assert Delivered(signal, m) == [Copy(signal, m, Queued("jira_queue"), false)];
    } else if r == {"confluence_queue"} {
      assert Delivered(signal, m) == [Copy(signal, m, Queued("confluence_queue"), false)];
    }
  }

  /** Signals stay with their copies and routed signals stay routed: what no step changes. */
  ghost predicate Extends(s: State, s1: State) {
    && |s.copies| <= |s1.copies| && s.upserted <= s1.upserted && s.routed <= s1.routed
    && forall i :: 0 <= i < |s.copies| ==> s1.copies[i].signal == s.copies[i].signal
  }

  lemma StepExtends(s: State, e: Event)
    requires Enabled(s, e)
    ensures Extends(s, Step(s, e))
  {
    hide Delivered, DeadLettered, Republished, Keyed;
  }

  lemma StillSuperseded(s: State, s1: State, i: nat)
    requires Extends(s, s1) && Superseded(s, i)
    ensures Superseded(s1, i)
  {
    var j :| i < j < |s.copies| && i < |s.copies| && s.copies[j].signal == s.copies[i].signal;
    assert s1.copies[j].signal == s1.copies[i].signal;
  }

  lemma StillHasCopy(s: State, s1: State, sig: Signal)
    requires Extends(s, s1) && HasCopy(s, sig)
    ensures HasCopy(s1, sig)
  {
    var i :| 0 <= i < |s.copies| && s.copies[i].signal == Some(sig);
    assert s1.copies[i].signal == Some(sig);
  }

  /** A copy whose message and place a step leaves alone stays in order. */
  lemma UntouchedOk(s: State, s1: State, i: nat)
    requires Extends(s, s1) && AtOk(s, i) && i < |s.copies| && s1.copies[i] == s.copies[i]
    ensures AtOk(s1, i)
  {
    hide Routes, DeadLettered, Original, Superseded;
    if s.copies[i].signal.Some? && Superseded(s, i) {
      StillSuperseded(s, s1, i);
    }
  }

  lemma RequeueOk(s: State, s1: State, i: nat, q: string)
    requires Extends(s, s1) && AtOk(s, i) && i < |s.copies| && s1.copies[i] == Requeued(s.copies[i], q)
    ensures AtOk(s1, i)
  {
    hide Routes, DeadLettered, Original, Superseded;
    if s.copies[i].signal.Some? && Superseded(s, i) {
      StillSuperseded(s, s1, i);
    }
  }

  lemma ReturnOk(s: State, s1: State, i: nat)
    requires Extends(s, s1) && AtOk(s, i) && i < |s.copies| && s1.copies[i] == Returned(s.copies[i])
    ensures AtOk(s1, i)
  {
    hide Routes, DeadLettered, Original, Superseded;
    if s.copies[i].signal.Some? && Superseded(s, i) {
      StillSuperseded(s, s1, i);
    }
  }

  function Target(e: Event): Option<nat> {
    match e
    case Publish(_) => None
    case ForeignDeadLetter(_) => None
    case CrashConsumer(_) => None
    case CrashRedrive => None
    case _ => Some(e.c)
  }

  /** What a redriven message of a pipeline signal becomes. */
  lemma RedrivenCopy(sig: Signal)
    requires Routes(SOURCE_QUEUES, KeyOf(sig)) != {}
    ensures Keyed(DeadLettered(Original(sig), DLQ_NAME))
    ensures Republished(DeadLettered(Original(sig), DLQ_NAME)) == Original(sig)
  {
    RedriveUndoesRejection(Original(sig), DLQ_NAME);
  }

  lemma FreshOk(s: State, i: nat, sig: Signal, q: string)
    requires i < |s.copies| && s.copies[i] == Copy(Some(sig), Original(sig), Queued(q), false)
    requires sig in s.routed && Routes(SOURCE_QUEUES, KeyOf(sig)) == {q}
    ensures AtOk(s, i)
  {
    hide Routes;
  }

  lemma PublishKeepsInv(s: State, sig: Signal)
    requires Inv(s)
    ensures Inv(Step(s, Publish(sig)))
  {
    hide Routes, Delivered, AtOk;
    var s1 := Step(s, Publish(sig));
    StepExtends(s, Publish(sig));
    DeliveredOnce(Some(sig), Original(sig));
    forall i: nat ensures AtOk(s1, i) {
      if i < |s.copies| {
        UntouchedOk(s, s1, i);
      } else if i < |s1.copies| {
        FreshOk(s1, i, sig, s1.copies[i].place.queue);
      } else {
        BeyondOk(s1, i);
      }
    }
    forall r | r in s1.routed ensures HasCopy(s1, r) {
      if r in s.routed {
        StillHasCopy(s, s1, r);
      } else {
        assert s1.copies[|s.copies|].signal == Some(r);
      }
    }
  }

  lemma BeyondOk(s: State, i: nat)
    requires i >= |s.copies| || s.copies[i].signal.None?
    ensures AtOk(s, i)
  {
  }

  lemma RepublishKeepsTarget(s: State, c: nat)
    requires Inv(s) && Enabled(s, Republish(c))
    ensures AtOk(Step(s, Republish(c)), c)
    ensures forall i :: |s.copies| <= i < |Step(s, Republish(c)).copies| ==> AtOk(Step(s, Republish(c)), i)
  {
    hide Routes, Delivered, Republished, DeadLettered, Keyed;
    var s1 := Step(s, Republish(c));
    StepExtends(s, Republish(c));
    assert AtOk(s, c);
    DeliveredOnce(s.copies[c].signal, Republished(s.copies[c].message));
    if s.copies[c].signal.Some? {
      var sig := s.copies[c].signal.value;
      RedrivenCopy(sig);
      assert s1.copies[|s.copies|].signal == s1.copies[c].signal;
      FreshOk(s1, |s.copies|, sig, s1.copies[|s.copies|].place.queue);
    }
  }

  lemma MoveKeepsTarget(s: State, e: Event)
    requires Inv(s) && Enabled(s, e) && Target(e).Some? && !e.Republish?
    ensures |Step(s, e).copies| == |s.copies| && AtOk(Step(s, e), Target(e).value)
  {
    hide Routes, DeadLettered, Keyed, Original;
    var c := Target(e).value;
    StepExtends(s, e);
    assert AtOk(s, c);
    if s.copies[c].signal.Some? {
      if e.Skip? {
        TakenIsKeyed(s, c);
      }
      if Superseded(s, c) {
        StillSuperseded(s, Step(s, e), c);
      }
    }
  }

  /** Redrive can always name the key of a signal it has taken. */
  lemma TakenIsKeyed(s: State, c: nat)
    requires AtOk(s, c) && At(s, c, Redriving(false)) && s.copies[c].signal.Some?
    ensures Keyed(s.copies[c].message)
  {
    hide Routes;
    RedrivenCopy(s.copies[c].signal.value);
  }

  lemma TargetedKeepsInv(s: State, e: Event)
    requires Inv(s) && Enabled(s, e) && Target(e).Some?
    ensures Inv(Step(s, e))
  {
    hide AtOk, Delivered, DeadLettered, Republished, Keyed, HasCopy;
    var s1 := Step(s, e);
    StepExtends(s, e);
    if e.Republish? {
      RepublishKeepsTarget(s, e.c);
    } else {
      MoveKeepsTarget(s, e);
    }
    forall i: nat ensures AtOk(s1, i) {
      if i >= |s1.copies| {
        BeyondOk(s1, i);
      } else if i < |s.copies| && i != Target(e).value {
        UntouchedOk(s, s1, i);
      }
    }
    forall r | r in s1.routed ensures HasCopy(s1, r) {
      StillHasCopy(s, s1, r);
    }
  }

  lemma StepKeepsInv(s: State, e: Event)
    requires Inv(s) && Enabled(s, e)
    ensures Inv(Step(s, e))
  {
    if e.Publish? {
      PublishKeepsInv(s, e.signal);
    } else if Target(e).Some? {
      TargetedKeepsInv(s, e);
    } else {
      hide AtOk, HasCopy;
      var s1 := Step(s, e);
      StepExtends(s, e);
      forall i: nat ensures AtOk(s1, i) {
        if i >= |s.copies| {
          BeyondOk(s1, i);
        } else if e.CrashConsumer? {
          RequeueOk(s, s1, i, e.queue);
        } else if e.CrashRedrive? {
          ReturnOk(s, s1, i);
        } else {
          UntouchedOk(s, s1, i);
        }
      }
      forall r | r in s1.routed ensures HasCopy(s1, r) {
        StillHasCopy(s, s1, r);
      }
    }
  }

  lemma {:induction false} RunKeepsInv(s: State, es: seq<Event>, s1: State)
    requires Inv(s) && Leads(s, es, s1)
    ensures Inv(s1)
    decreases |es|
  {
    hide Inv, Step, Enabled;
    if es != [] {
      StepKeepsInv(s, es[0]);
      RunKeepsInv(Step(s, es[0]), es[1..], s1);
    }
  }

  // ------------------------------------------------------------ Main results

  /** A place from which the signal is not lost. */
  predicate Safe(p: Place) { !p.Redriven? && !p.Dropped? }

  ghost predicate HasSafeCopy(s: State, sig: Signal) {
    exists i :: 0 <= i < |s.copies| && s.copies[i].signal == Some(sig) && Safe(s.copies[i].place)
  }

  /** The last copy of a signal, which nothing supersedes, is a safe one. */
  lemma LastCopyIsSafe(s: State, sig: Signal) returns (i: nat)
    requires Inv(s) && sig in s.routed
    ensures i < |s.copies| && s.copies[i].signal == Some(sig) && AtOk(s, i)
    ensures Safe(s.copies[i].place) && s.copies[i].place != Redriving(true)
  {
    hide Routes, DeadLettered, Original;
    assert HasCopy(s, sig);
    i :| 0 <= i < |s.copies| && s.copies[i].signal == Some(sig);
    while Superseded(s, i)
      invariant i < |s.copies| && s.copies[i].signal == Some(sig)
      decreases |s.copies| - i
    {
      var j :| i < j < |s.copies| && i < |s.copies| && s.copies[j].signal == s.copies[i].signal;
      i := j;
    }
    assert AtOk(s, i);
  }

  /**
   No loss: in every reachable state, whatever crashed in between, a signal that a
   queue accepted is in its source queue, in flight, dead-lettered, being redriven or
   acknowledged; redrive never drops one.
   */
  lemma RoutedNeverLost(es: seq<Event>, s: State, sig: Signal)
    requires Leads(EMPTY, es, s) && sig in s.routed
    ensures HasSafeCopy(s, sig)
  {
    hide Leads, Inv;
    EmptyOk();
    RunKeepsInv(EMPTY, es, s);
    var i := LastCopyIsSafe(s, sig);
  }

  lemma EmptyOk()
    ensures Inv(EMPTY)
  {
  }

  /** Acknowledged by a consumer means written to the graph, in every reachable state. */
  lemma AckedWasUpserted(es: seq<Event>, s: State, i: nat)
    requires Leads(EMPTY, es, s) && i < |s.copies| && s.copies[i].signal.Some? && s.copies[i].place == Acked
    ensures s.copies[i].signal.value in s.upserted
  {
    hide Leads, Inv;
    EmptyOk();
    RunKeepsInv(EMPTY, es, s);
    assert AtOk(s, i) by { AllOk(s, i); }
  }

  lemma AllOk(s: State, i: nat)
    requires Inv(s)
    ensures AtOk(s, i)
  {
    hide AtOk;
  }

  /**
   Redriven signals come back to where they came from: all copies of a signal that wait
   in a queue or are in flight are of one source queue, the one its first word names,
   and carry the body and the key it was published with.
   */
  lemma CopiesStayInOneQueue(es: seq<Event>, s: State, i: nat)
    requires Leads(EMPTY, es, s) && i < |s.copies| && s.copies[i].signal.Some?
    requires s.copies[i].place.Queued? || s.copies[i].place.InFlight?
    ensures var sig := s.copies[i].signal.value;
      s.copies[i].message == Message(sig.body, sig.source + "." + sig.entityType, None)
    ensures {s.copies[i].place.queue} == QueueOf(Words(s.copies[i].signal.value.source)[0])
  {
    hide Leads, Inv, Routes, Words, QueueOf;
    EmptyOk();
    RunKeepsInv(EMPTY, es, s);
    AllOk(s, i);
    var sig := s.copies[i].signal.value;
    PublishReachesSource(sig.source, sig.entityType);
  }

  /** Redrive drops only what did not come through the pipeline and has no key. */
  lemma DroppedIsForeign(es: seq<Event>, s: State, i: nat)
    requires Leads(EMPTY, es, s) && i < |s.copies| && s.copies[i].place == Dropped
    ensures s.copies[i].signal.None?
  {
    hide Leads, Inv, Routes, Original, DeadLettered, Superseded;
    EmptyOk();
    RunKeepsInv(EMPTY, es, s);
    AllOk(s, i);
  }

  /** A consumer has had the copy: it has left its queue, or come back to it. */
  predicate Taken(c: Copy) { c.interrupted || !c.place.Queued? }

  ghost predicate HasTakenCopy(s: State, sig: Signal) {
    exists i :: 0 <= i < |s.copies| && s.copies[i].signal == Some(sig) && Taken(s.copies[i])
  }

  ghost predicate WritesOk(s: State) { forall sig :: sig in s.upserted ==> HasTakenCopy(s, sig) }

  lemma TakenStays(s: State, e: Event, i: nat)
    requires Enabled(s, e) && i < |s.copies|
    ensures i < |Step(s, e).copies| && (Taken(s.copies[i]) ==> Taken(Step(s, e).copies[i]))
  {
    hide Delivered, DeadLettered, Republished, Keyed;
  }

  /** Only a consumer that has the copy in flight, or was cut off while it had, writes its signal. */
  lemma WriterIsTaker(s: State, e: Event, sig: Signal)
    requires Enabled(s, e) && sig in Step(s, e).upserted && sig !in s.upserted
    ensures (e.Upsert? || e.LateUpsert?) && e.c < |s.copies|
    ensures s.copies[e.c].signal == Some(sig) && Taken(s.copies[e.c])
  {
    hide Delivered, DeadLettered, Republished, Keyed;
  }

  lemma StepKeepsWrites(s: State, e: Event)
    requires WritesOk(s) && Enabled(s, e)
    ensures WritesOk(Step(s, e))
  {
    hide Step, Enabled, Taken;
    var s1 := Step(s, e);
    StepExtends(s, e);
    forall sig | sig in s1.upserted ensures HasTakenCopy(s1, sig) {
      var i: nat;
      if sig in s.upserted {
        i :| 0 <= i < |s.copies| && s.copies[i].signal == Some(sig) && Taken(s.copies[i]);
      } else {
        WriterIsTaker(s, e, sig);
        i := e.c;
      }
      TakenStays(s, e, i);
      assert s1.copies[i].signal == Some(sig) && Taken(s1.copies[i]);
    }
  }

  lemma {:induction false} RunKeepsWrites(s: State, es: seq<Event>, s1: State)
    requires WritesOk(s) && Leads(s, es, s1)
    ensures WritesOk(s1)
    decreases |es|
  {
    hide WritesOk, Step, Enabled;
    if es != [] {
      StepKeepsWrites(s, es[0]);
      RunKeepsWrites(Step(s, es[0]), es[1..], s1);
    }
  }

  /** A write on record is one of a signal that a consumer has had in flight, in every reachable state. */
  lemma UpsertedWasTaken(es: seq<Event>, s: State, sig: Signal)
    requires Leads(EMPTY, es, s) && sig in s.upserted
    ensures HasTakenCopy(s, sig)
  {
    hide Leads, HasTakenCopy;
    RunKeepsWrites(EMPTY, es, s);
  }

  // ----------------------------------------------------------- The itinerary

  /** Where a copy can go in one step, and by which event. */
  predicate Goes(p: Place, p1: Place, e: Event, c: nat) {
    || (e == Deliver(c) && p.Queued? && p1 == InFlight(p.queue, false))
    || (e == Upsert(c) && p.InFlight? && p1 == InFlight(p.queue, true))
    || (e == Ack(c) && p.InFlight? && p.upserted && p1 == Acked)
    || (e == Reject(c) && p.InFlight? && p1 == Dead)
    || (e.CrashConsumer? && p.InFlight? && e.queue == p.queue && p1 == Queued(p.queue))
    || (e == Take(c) && p == Dead && p1 == Redriving(false))
    || (e == Republish(c) && p == Redriving(false) && p1 == Redriving(true))
    || (e == AckDead(c) && p == Redriving(true) && p1 == Redriven)
    || (e in {PutBack(c), CrashRedrive} && p.Redriving? && p1 == Dead)
    || (e == Skip(c) && p == Redriving(false) && p1 == Dropped)
  }

  /** The event moves this copy. */
  predicate Concerns(e: Event, p: Place, c: nat) {
    match e
    case CrashConsumer(queue) => p.InFlight? && p.queue == queue
    case CrashRedrive => p.Redriving?
    case LateUpsert(_) => false
    case Publish(_) => false
    case ForeignDeadLetter(_) => false
    case _ => e.c == c
  }

  /**
   The itinerary of every copy: a step moves exactly the copies it concerns, one place on.
   A rejection, and nothing else, changes the message: it goes under the key of the
   dead-letter queue, with its own key recorded first.
   */
  lemma Itinerary(s: State, e: Event, c: nat)
    requires Enabled(s, e) && c < |s.copies|
    ensures var copy, copy1 := s.copies[c], Step(s, e).copies[c];
      && (if Concerns(e, copy.place, c) then Goes(copy.place, copy1.place, e, c) else copy1 == copy)
      && copy1.signal == copy.signal && copy1.message.body == copy.message.body
      && (e != Reject(c) ==> copy1.message == copy.message)
      && (e == Reject(c) ==>
            && copy1.message.routingKey == "activity_signals_dlq" && copy1.message.deaths.Some?
            && copy1.message.deaths.value ==
                 [Death(Some([copy.message.routingKey]))] + (if copy.message.deaths.Some? then copy.message.deaths.value else []))
      && copy1.interrupted == (copy.interrupted || (e.CrashConsumer? && copy.place.InFlight? && copy.place.queue == e.queue))
  {
    hide Delivered, Republished, Keyed;
  }

  /** A graph write is recorded when a consumer finishes it, in time or late, and never otherwise or undone. */
  lemma WrittenExactly(s: State, e: Event, sig: Signal)
    requires Enabled(s, e)
    ensures sig in Step(s, e).upserted <==>
      sig in s.upserted || ((e.Upsert? || e.LateUpsert?) && s.copies[e.c].signal == Some(sig))
  {
    hide Delivered, DeadLettered, Republished, Keyed;
  }

  /** What can happen at any time: publishing, a foreign dead letter, a crash of either program. */
  lemma AlwaysPossible(s: State, sig: Signal, m: Message, queue: string)
    ensures Enabled(s, Publish(sig)) && Enabled(s, ForeignDeadLetter(m)) && Enabled(s, CrashConsumer(queue)) && Enabled(s, CrashRedrive)
  {
  }

  /** And for a copy where it stands. */
  lemma PossibleNext(s: State, c: nat)
    requires c < |s.copies|
    ensures var p := s.copies[c].place;
      && (p.Queued? <==> Enabled(s, Deliver(c)))
      && (p.InFlight? <==> Enabled(s, Upsert(c))) && (p.InFlight? <==> Enabled(s, Reject(c)))
      && (p.InFlight? && p.upserted <==> Enabled(s, Ack(c)))
      && (s.copies[c].interrupted <==> Enabled(s, LateUpsert(c)))
      && (p == Dead <==> Enabled(s, Take(c)))
      && (p == Redriving(false) <==> Enabled(s, Republish(c)) || Enabled(s, Skip(c)))
      && (p == Redriving(true) <==> Enabled(s, AckDead(c)))
      && (p.Redriving? <==> Enabled(s, PutBack(c)))
  {
  }

  /** Publishing: a signal of one of the three sources is routed and waits in its queue; any other is dropped by the exchange. */
  lemma PublishedExactly(s: State, sig: Signal)
    ensures var s1, word := Step(s, Publish(sig)), Words(sig.source)[0];
      if word in {"github", "jira", "confluence"}
      then s1.routed == s.routed + {sig}
           && s1.copies == s.copies
                + [Copy(Some(sig), Message(sig.body, sig.source + "." + sig.entityType, None), Queued(word + "_queue"), false)]
      else s1.routed == s.routed && s1.copies == s.copies
  {
    hide Routes, Words, Delivered;
    PublishReachesSource(sig.source, sig.entityType);
    DeliveredOnce(Some(sig), Original(sig));
    assert "github" + "_queue" == "github_queue" && "jira" + "_queue" == "jira_queue" && "confluence" + "_queue" == "confluence_queue";
  }

  // ------------------------------------------------------------- No dead end

  ghost predicate HasAckedCopy(s: State, sig: Signal) {
    exists i :: 0 <= i < |s.copies| && s.copies[i].signal == Some(sig) && s.copies[i].place == Acked
  }

  lemma AckQueued(s: State, c: nat, sig: Signal) returns (es: seq<Event>, s1: State)
    requires c < |s.copies| && s.copies[c].signal == Some(sig) && s.copies[c].place.Queued?
    ensures Leads(s, es, s1) && HasAckedCopy(s1, sig)
  {
    var q := s.copies[c].place.queue;
    var flying := Step(s, Deliver(c));
    var rest;
    rest, s1 := AckInFlight(flying, c, sig);
    es := [Deliver(c)] + rest;
    assert es[1..] == rest;
  }

  lemma AckInFlight(s: State, c: nat, sig: Signal) returns (es: seq<Event>, s1: State)
    requires c < |s.copies| && s.copies[c].signal == Some(sig) && s.copies[c].place.InFlight?
    ensures Leads(s, es, s1) && HasAckedCopy(s1, sig)
  {
    var written := Step(s, Upsert(c));
    s1 := Step(written, Ack(c));
    es := [Upsert(c), Ack(c)];
    assert es[1..] == [Ack(c)] && es[1..][1..] == [];
    assert Leads(written, [Ack(c)], s1);
    assert s1.copies[c].signal == Some(sig) && s1.copies[c].place == Acked;
  }

  lemma AckTaken(s: State, c: nat, sig: Signal) returns (es: seq<Event>, s1: State)
    requires c < |s.copies| && s.copies[c].signal == Some(sig) && At(s, c, Redriving(false)) && AtOk(s, c)
    ensures Leads(s, es, s1) && HasAckedCopy(s1, sig)
  {
    hide Routes, Delivered, DeadLettered, Republished, Keyed, HasAckedCopy;
    RedrivenCopy(sig);
    DeliveredOnce(Some(sig), Original(sig));
    var again := Step(s, Republish(c));
    var rest;
    rest, s1 := AckQueued(again, |s.copies|, sig);
    es := [Republish(c)] + rest;
    assert es[1..] == rest;
  }

  /**
   No dead end: from every reachable state there is a continuation in which the
   signal's graph write finishes and is acknowledged, through redrive if need be.
   */
  lemma CanStillBeAcked(before: seq<Event>, s: State, sig: Signal) returns (es: seq<Event>, s1: State)
    requires Leads(EMPTY, before, s) && sig in s.routed
    ensures Leads(s, es, s1) && HasAckedCopy(s1, sig)
  {
    hide Inv, Routes, DeadLettered, Original;
    EmptyOk();
    RunKeepsInv(EMPTY, before, s);
    var c := LastCopyIsSafe(s, sig);
    match s.copies[c].place
    case Queued(_) => es, s1 := AckQueued(s, c, sig);
    case InFlight(_, _) => es, s1 := AckInFlight(s, c, sig);
    case Acked => es, s1 := [], s;
    case Redriving(_) => es, s1 := AckTaken(s, c, sig);
    case Dead =>
      var taken := Step(s, Take(c));
      StepKeepsInv(s, Take(c));
      AllOk(taken, c);
      var rest;
      rest, s1 := AckTaken(taken, c, sig);
      es := [Take(c)] + rest;
      assert es[1..] == rest;
  }

  // ---------------------------------------------------------- Foreign letters

  /**
   What redrive makes of any dead letter with a key: it reaches a source queue if and
   only if the first word of the recovered key is a source.  Without its x-death record
   a dead letter has only the key of the dead-letter queue, and is lost.
   */
  lemma RedriveReaches(signal: Option<Signal>, m: Message)
    requires Keyed(m)
    ensures Delivered(signal, Republished(m)) != [] <==> QueueOf(Words(ExtractRoutingKey(m).value)[0]) != {}
    ensures m.deaths.None? && m.routingKey == DLQ_NAME ==> Delivered(signal, Republished(m)) == []
  {
    hide Routes, Words, QueueOf, Delivered;
    RoutedByFirstWord(ExtractRoutingKey(m).value);
    DeliveredOnce(signal, Republished(m));
    DeadLetterKeyIsUnroutable();
  }
}
