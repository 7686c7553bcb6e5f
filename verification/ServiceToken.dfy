/**
 The process-wide service token of src/common/auth/service_token.py.

 The state is two fields behind one lock, but the fast path reads them without
 the lock and one at a time.  So the model is a state machine whose steps are the
 single reads and writes of any number of threads, in any interleaving, with time
 passing in between.  `installs`, `failure` and the counters some threads carry
 are history, kept to state the properties; no step consults them.
 */
module ServiceToken {
  import opened Options

  const REFRESH_MARGIN := 60
  const FAILURE_BACKOFF := 30

  /** A token that was written to the cache: when, and the expiry recorded for it. */
  datatype Install = Install(at: int, expiry: int)

  /** Where a thread stands; `locked` tells the re-check under the lock from the fast path. */
  datatype Pc =
    | Idle
    // _cached_token
    | ReadToken(locked: bool)
    | ReadClock(locked: bool)
    | ReadExpiry(locked: bool, at: int, seen: nat)
    | ReadAgain(locked: bool, at: int, seen: nat)
    // _in_failure_backoff
    | BackoffToken(locked: bool, checked: Option<int>)
    | BackoffClock(locked: bool)
    | BackoffExpiry(locked: bool, at: int)
    // get_service_token, the part under the lock
    | WantLock
    | Settings(checkedAt: int)
    | Requesting(checkedAt: int)
    | WriteToken(checkedAt: int, expiry: int)
    | WriteExpiry(token: nat, expiry: int)
    | FailToken
    | FailClock
    | FailExpiry(at: int)
    // invalidate_service_token
    | WantInvalidate
    | ClearToken
    | ClearExpiry
    // how a call ended
    | Returned(token: nat, locked: bool, at: int, seen: nat)
    | Fetched(token: nat)
    | BackedOff(locked: bool, at: int)
    | Raised

  /** What the expiry field was last written from. */
  datatype Source = Blank | FromToken(token: nat) | FromFailure(at: int)

  datatype State = State(
    token: Option<nat>,
    expiry: int,
    holder: Option<nat>,
    clock: int,
    threads: map<nat, Pc>,
    installs: seq<Install>,
    failure: Option<int>,
    source: Source)

  const Init := State(None, 0, None, 0, map[], [], None, Blank)

  function PcOf(s: State, tid: nat): Pc { if tid in s.threads then s.threads[tid] else Idle }

  function At(s: State, tid: nat, pc: Pc): State { s.(threads := s.threads[tid := pc]) }

  datatype Event =
    | Tick(elapsed: nat)
    | CallGet(tid: nat)
    | CallInvalidate(tid: nat)
    | Advance(tid: nat)
    | Respond(tid: nat, expiresIn: int)
    | FailRequest(tid: nat)
    | NoSecret(tid: nat)

  /** The thread's last call is over, so it may make another. */
  predicate AtRest(pc: Pc) {
    pc.Idle? || pc.Returned? || pc.Fetched? || pc.BackedOff? || pc.Raised?
  }

  predicate Enabled(s: State, e: Event) {
    match e
    case Tick(_) => true
    case CallGet(tid) => AtRest(PcOf(s, tid))
    case CallInvalidate(tid) => AtRest(PcOf(s, tid))
    case Advance(tid) =>
      var pc := PcOf(s, tid);
      !AtRest(pc) && !pc.Requesting? && (pc.WantLock? || pc.WantInvalidate? ==> s.holder.None?)
    case Respond(tid, _) => PcOf(s, tid).Requesting?
    case FailRequest(tid) => PcOf(s, tid).Requesting?
    case NoSecret(tid) => PcOf(s, tid).Settings?
  }

  /** The call raises or returns without a fetch: the lock is given up if it was held. */
  function Leave(s: State, tid: nat, locked: bool, pc: Pc): State {
    At(if locked then s.(holder := None) else s, tid, pc)
  }

  /** One read or one write of one thread. */
  function Move(s: State, tid: nat): State
    requires Enabled(s, Advance(tid))
  {
    match PcOf(s, tid)
    case ReadToken(l) => At(s, tid, if s.token.Some? then ReadClock(l) else BackoffToken(l, None))
    case ReadClock(l) => At(s, tid, ReadExpiry(l, s.clock, |s.installs|))
    case ReadExpiry(l, t, seen) =>
      At(s, tid, if t < s.expiry then ReadAgain(l, t, seen) else BackoffToken(l, Some(t)))
    case ReadAgain(l, t, seen) =>
      if s.token.Some? then Leave(s, tid, l, Returned(s.token.value, l, t, seen)) else At(s, tid, BackoffToken(l, Some(t)))
    case BackoffToken(l, checked) =>
      if s.token.None? then At(s, tid, BackoffClock(l))
      else At(s, tid, if l then Settings(if checked.Some? then checked.value else s.clock) else WantLock)
    case BackoffClock(l) => At(s, tid, BackoffExpiry(l, s.clock))
    case BackoffExpiry(l, t) =>
      if t < s.expiry then Leave(s, tid, l, BackedOff(l, t))
      else At(s, tid, if l then Settings(t) else WantLock)
    case WantLock => At(s.(holder := Some(tid)), tid, ReadToken(true))
    case Settings(c) => At(s, tid, Requesting(c))
    case WriteToken(c, exp) =>
      var i := |s.installs|;
      At(s.(token := Some(i), installs := s.installs + [Install(s.clock, exp)]), tid, WriteExpiry(i, exp))
    case WriteExpiry(i, exp) => Leave(s.(expiry := exp, source := FromToken(i)), tid, true, Fetched(i))
    case FailToken => At(s.(token := None), tid, FailClock)
    case FailClock => At(s, tid, FailExpiry(s.clock))
    case FailExpiry(t) => 
      Leave(s.(expiry := t + FAILURE_BACKOFF, failure := Some(t), source := FromFailure(t)), tid, true, Raised)
    case WantInvalidate => At(s.(holder := Some(tid)), tid, ClearToken)
    case ClearToken => At(s.(token := None), tid, ClearExpiry)
    case ClearExpiry => Leave(s.(expiry := 0, failure := None, source := Blank), tid, true, Idle)
  }

  function Step(s: State, e: Event): State
    requires Enabled(s, e)
  {
    match e
    case Tick(elapsed) => s.(clock := s.clock + elapsed)
    case CallGet(tid) => At(s, tid, ReadToken(false))
    case CallInvalidate(tid) => At(s, tid, WantInvalidate)
    case Advance(tid) => Move(s, tid)
    case Respond(tid, expiresIn) => At(s, tid, WriteToken(PcOf(s, tid).checkedAt, s.clock + expiresIn - REFRESH_MARGIN))
    case FailRequest(tid) => At(s, tid, FailToken)
    case NoSecret(tid) => Leave(s, tid, true, Raised)
  }

  ghost predicate IsRun(ss: seq<State>, es: seq<Event>) {
    && |ss| == |es| + 1 && ss[0] == Init
    && forall i :: 0 <= i < |es| ==> Enabled(ss[i], es[i]) && ss[i + 1] == Step(ss[i], es[i])
  }

  // -------------------------------------------------------------- Invariant

  /** Between acquiring and releasing the lock. */
  predicate Holds(pc: Pc) {
    match pc
    case ReadToken(l) => l
    case ReadClock(l) => l
    case ReadExpiry(l, _, _) => l
    case ReadAgain(l, _, _) => l
    case BackoffToken(l, _) => l
    case BackoffClock(l) => l
    case BackoffExpiry(l, _) => l
    case Settings(_) => true
    case Requesting(_) => true
    case WriteToken(_, _) => true
    case WriteExpiry(_, _) => true
    case FailToken => true
    case FailClock => true
    case FailExpiry(_) => true
    case ClearToken => true
    case ClearExpiry => true
    case _ => false
  }

  /** The two fields agree with each other: nobody is between writing one and the other. */
  ghost predicate Settled(s: State) {
    match s.token
    case Some(i) => i < |s.installs| && s.expiry == s.installs[i].expiry
    case None => s.expiry == if s.failure.Some? then s.failure.value + FAILURE_BACKOFF else 0
  }

  /** No failure still within its backoff, unless the fields say so. */
  ghost predicate BackoffKept(s: State) {
    s.failure.Some? ==>
      s.failure.value + FAILURE_BACKOFF <= s.clock || (s.token.None? && s.expiry == s.failure.value + FAILURE_BACKOFF)
  }

  /** The fields as the lock holder, standing at `pc`, has left them. */
  ghost predicate FieldsAt(s: State, pc: Pc) {
    match pc
    case Settings(c) => Settled(s) && Checked(s, c)
    case Requesting(c) => Settled(s) && Checked(s, c)
    case WriteToken(c, _) => Settled(s) && Checked(s, c)
    case WriteExpiry(i, exp) =>
      s.token == Some(i) && i + 1 == |s.installs| && s.installs[i].expiry == exp && s.expiry <= s.installs[i].at
      && FailureOver(s)
    case FailToken => Settled(s) && FailureOver(s)
    case FailClock => s.token.None? && FailureOver(s)
    case FailExpiry(t) => s.token.None? && t <= s.clock && FailureOver(s) && (s.failure.Some? ==> s.failure.value <= t)
    case ClearExpiry => s.token.None?
    case ReadClock(_) => Settled(s) && s.token.Some?
    case ReadExpiry(_, _, seen) => Settled(s) && s.token.Some? && seen == |s.installs|
    case ReadAgain(_, _, seen) => Settled(s) && s.token.Some? && seen == |s.installs|
    case BackoffToken(_, checked) => Settled(s) && (s.token.Some? ==> checked.Some? && Checked(s, checked.value))
    case BackoffClock(_) => Settled(s) && s.token.None?
    case BackoffExpiry(_, _) => Settled(s) && s.token.None?
    case _ => Settled(s)
  }

  ghost predicate FailureOver(s: State) { s.failure.Some? ==> s.failure.value + FAILURE_BACKOFF <= s.clock }

  /** A clock reading that found the fields expired. */
  ghost predicate Checked(s: State, c: int) { s.expiry <= c <= s.clock && FailureOver(s) }

  /** What a thread knows from its own readings. */
  ghost predicate ThreadOk(s: State, pc: Pc) {
    match pc
    case ReadExpiry(_, t, seen) => ReadingOk(s, t, seen)
    case ReadAgain(_, t, seen) => ReadingOk(s, t, seen) && (s.token.Some? ==> FreshOrLater(s, s.token.value, t, seen))
    case BackoffExpiry(_, t) => 0 <= t <= s.clock
    case Returned(i, l, t, seen) =>
      i < |s.installs| && seen <= |s.installs| && FreshOrLater(s, i, t, seen) && (l ==> i < seen)
    case BackedOff(_, t) => t <= s.clock
    case _ => true
  }

  /** The clock was read as `t`, when the first `seen` tokens had been installed. */
  ghost predicate ReadingOk(s: State, t: int, seen: nat) {
    t <= s.clock && seen <= |s.installs| && forall i :: 0 <= i < seen ==> s.installs[i].at <= t
  }

  /** Token `i` was installed after the reading, or had not expired at it. */
  ghost predicate FreshOrLater(s: State, i: nat, t: int, seen: nat) {
    seen <= i || (i < |s.installs| && t < s.installs[i].expiry)
  }

  ghost predicate LockOk(s: State) { forall tid: nat :: Holds(PcOf(s, tid)) <==> s.holder == Some(tid) }

  ghost predicate ThreadsOk(s: State) { forall tid: nat :: ThreadOk(s, PcOf(s, tid)) }

  ghost predicate FieldsOk(s: State) {
    if s.holder.Some? then FieldsAt(s, PcOf(s, s.holder.value)) else Settled(s)
  }

  ghost predicate HistoryOk(s: State) {
    && 0 <= s.clock
    && (forall i :: 0 <= i < |s.installs| ==> s.installs[i].at <= s.clock)
    && (s.token.Some? ==> s.token.value + 1 == |s.installs|)
    && BackoffKept(s)
  }

  ghost predicate Inv(s: State) { HistoryOk(s) && LockOk(s) && FieldsOk(s) && ThreadsOk(s) }

  // ------------------------------------------------------------- Preservation

  /** What any step does to the shared state, as another thread sees it. */
  ghost predicate Later(s: State, s1: State) {
    && s.clock <= s1.clock && s.installs <= s1.installs
    && (s1.token == s.token || s1.token.None? || (s1.token == Some(|s.installs|) && |s.installs| < |s1.installs|))
  }

  lemma StillOk(s: State, s1: State, pc: Pc)
    requires Later(s, s1) && ThreadOk(s, pc)
    ensures ThreadOk(s1, pc)
  {
  }

  lemma StepIsLater(s: State, e: Event)
    requires Enabled(s, e)
    ensures Later(s, Step(s, e))
  {
  }

  function Mover(e: Event): Option<nat> {
    match e
    case Tick(_) => None
    case _ => Some(e.tid)
  }

  lemma OthersStay(s: State, e: Event, tid: nat)
    requires Enabled(s, e) && Mover(e) != Some(tid)
    ensures PcOf(Step(s, e), tid) == PcOf(s, tid)
  {
    if e.Advance? {
      hide Move;
      OthersStayMove(s, e.tid, tid);
    } else {
      hide Move;
    }
  }

  lemma OthersStayMove(s: State, mover: nat, tid: nat)
    requires Enabled(s, Advance(mover)) && mover != tid
    ensures PcOf(Move(s, mover), tid) == PcOf(s, tid)
  {
  }

  /** The expiry field never outlives the token in the cache, seen from after the token's installation. */
  lemma ExpiryOfToken(s: State)
    requires Inv(s) && s.token.Some?
    ensures var i := s.token.value;
      s.expiry == s.installs[i].expiry || s.expiry <= s.installs[i].at
  {
    if s.holder.Some? {
      assert Holds(PcOf(s, s.holder.value));
    }
  }

  lemma MoverOk(s: State, e: Event)
    requires Inv(s) && Enabled(s, e) && Mover(e).Some?
    ensures ThreadOk(Step(s, e), PcOf(Step(s, e), Mover(e).value))
  {
    hide FieldsAt, ThreadOk, HistoryOk, LockOk, Settled;
    var tid := Mover(e).value;
    match PcOf(s, tid)
    case ReadExpiry(l, t, seen) => ReadExpiryOk(s, tid);
    case ReadAgain(l, t, seen) => ReadAgainOk(s, tid);
    case _ => OtherMoverOk(s, e);
  }

  lemma OtherMoverOk(s: State, e: Event)
    requires HistoryOk(s) && Enabled(s, e) && Mover(e).Some?
    requires !PcOf(s, Mover(e).value).ReadExpiry? && !PcOf(s, Mover(e).value).ReadAgain?
    requires ThreadOk(s, PcOf(s, Mover(e).value))
    ensures ThreadOk(Step(s, e), PcOf(Step(s, e), Mover(e).value))
  {
    hide BackoffKept;
  }

  lemma ReadExpiryOk(s: State, tid: nat)
    requires Inv(s) && PcOf(s, tid).ReadExpiry? && Enabled(s, Advance(tid))
    ensures ThreadOk(Move(s, tid), PcOf(Move(s, tid), tid))
  {
    hide FieldsAt;
    assert ThreadOk(s, PcOf(s, tid));
    if s.token.Some? {
      ExpiryOfToken(s);
    }
  }

  lemma ReadAgainOk(s: State, tid: nat)
    requires Inv(s) && PcOf(s, tid).ReadAgain? && Enabled(s, Advance(tid))
    ensures ThreadOk(Move(s, tid), PcOf(Move(s, tid), tid))
  {
    assert ThreadOk(s, PcOf(s, tid));
    assert Holds(PcOf(s, tid)) <==> s.holder == Some(tid);
  }

  lemma StepKeepsLock(s: State, e: Event)
    requires LockOk(s) && Enabled(s, e)
    ensures LockOk(Step(s, e))
  {
    var s1 := Step(s, e);
    forall tid: nat ensures Holds(PcOf(s1, tid)) <==> s1.holder == Some(tid) {
      assert Holds(PcOf(s, tid)) <==> s.holder == Some(tid);
      if Mover(e) != Some(tid) {
        OthersStay(s, e, tid);
        if Mover(e).Some? {
          assert Holds(PcOf(s, Mover(e).value)) <==> s.holder == Mover(e);
        }
      }
    }
  }

  /** Only time passed for the two fields. */
  ghost predicate OnlyTime(s: State, s1: State) {
    && s1.token == s.token && s1.expiry == s.expiry && s1.installs == s.installs && s1.failure == s.failure
    && s.clock <= s1.clock
  }

  lemma OutsiderWritesNothing(s: State, e: Event)
    requires Enabled(s, e) && (Mover(e).Some? ==> !Holds(PcOf(s, Mover(e).value)))
    ensures OnlyTime(s, Step(s, e))
    ensures s.holder.Some? ==> Step(s, e).holder == s.holder
    ensures s.holder.None? && Step(s, e).holder.Some? ==>
      Step(s, e).holder == Mover(e) && PcOf(Step(s, e), Mover(e).value) in {ReadToken(true), ClearToken}
  {
  }

  lemma TimeKeepsFields(s: State, s1: State, pc: Pc)
    requires OnlyTime(s, s1)
    ensures FieldsAt(s, pc) ==> FieldsAt(s1, pc)
    ensures HistoryOk(s) ==> HistoryOk(s1)
    ensures Settled(s) <==> Settled(s1)
  {
  }

  predicate Rechecks(pc: Pc) { pc.ReadToken? || pc.ReadClock? || pc.ReadExpiry? || pc.ReadAgain? }

  predicate LooksForFailure(pc: Pc) { pc.BackoffToken? || pc.BackoffClock? || pc.BackoffExpiry? || pc.Settings? }

  /** What the lock holder's own step leaves in the fields: while it checks the cache again, */
  lemma CheckKeepsFields(s: State, tid: nat)
    requires HistoryOk(s) && Enabled(s, Advance(tid)) && s.holder == Some(tid) && Holds(PcOf(s, tid))
    requires FieldsAt(s, PcOf(s, tid)) && ThreadOk(s, PcOf(s, tid))
    requires Rechecks(PcOf(s, tid))
    ensures FieldsOk(Move(s, tid))
  {
  }

  /** while it looks for a failure, */
  lemma BackoffKeepsFields(s: State, tid: nat)
    requires HistoryOk(s) && Enabled(s, Advance(tid)) && s.holder == Some(tid) && Holds(PcOf(s, tid))
    requires FieldsAt(s, PcOf(s, tid)) && ThreadOk(s, PcOf(s, tid))
    requires LooksForFailure(PcOf(s, tid))
    ensures FieldsOk(Move(s, tid))
  {
  }

  /** and while it writes. */
  lemma WritesKeepFields(s: State, tid: nat)
    requires HistoryOk(s) && Enabled(s, Advance(tid)) && s.holder == Some(tid) && Holds(PcOf(s, tid))
    requires FieldsAt(s, PcOf(s, tid)) && ThreadOk(s, PcOf(s, tid))
    requires !Rechecks(PcOf(s, tid)) && !LooksForFailure(PcOf(s, tid))
    ensures FieldsOk(Move(s, tid))
  {
    hide BackoffKept;
  }

  lemma ResponseKeepsFields(s: State, e: Event)
    requires HistoryOk(s) && Enabled(s, e) && Mover(e).Some? && s.holder == Mover(e) && !e.Advance?
    requires FieldsAt(s, PcOf(s, Mover(e).value)) && Holds(PcOf(s, Mover(e).value))
    ensures FieldsOk(Step(s, e))
  {
    hide BackoffKept;
  }

  lemma HolderKeepsFields(s: State, e: Event)
    requires HistoryOk(s) && Enabled(s, e) && Mover(e).Some? && s.holder == Mover(e) && Holds(PcOf(s, Mover(e).value))
    requires FieldsAt(s, PcOf(s, Mover(e).value)) && ThreadOk(s, PcOf(s, Mover(e).value))
    ensures FieldsOk(Step(s, e))
  {
    hide HistoryOk, FieldsAt, ThreadOk, FieldsOk, Move;
    if e.Advance? {
      if Rechecks(PcOf(s, e.tid)) {
        CheckKeepsFields(s, e.tid);
      } else if LooksForFailure(PcOf(s, e.tid)) {
        BackoffKeepsFields(s, e.tid);
      } else {
        WritesKeepFields(s, e.tid);
      }
    } else {
      ResponseKeepsFields(s, e);
    }
  }

  lemma WritesKeepHistory(s: State, tid: nat)
    requires HistoryOk(s) && Enabled(s, Advance(tid)) && s.holder == Some(tid) && FieldsAt(s, PcOf(s, tid))
    requires !Rechecks(PcOf(s, tid)) && !LooksForFailure(PcOf(s, tid))
    ensures HistoryOk(Move(s, tid))
  {
    hide Settled;
    if PcOf(s, tid).FailToken? {
      assert FailureOver(s);
    }
  }

  lemma ReadsKeepHistory(s: State, e: Event)
    requires HistoryOk(s) && Enabled(s, e) && Mover(e).Some?
    requires e.Advance? ==> Rechecks(PcOf(s, e.tid)) || LooksForFailure(PcOf(s, e.tid))
    ensures HistoryOk(Step(s, e))
  {
  }

  lemma HolderKeepsHistory(s: State, e: Event)
    requires HistoryOk(s) && Enabled(s, e) && Mover(e).Some? && s.holder == Mover(e)
    requires FieldsAt(s, PcOf(s, Mover(e).value))
    ensures HistoryOk(Step(s, e))
  {
    hide HistoryOk, FieldsAt, Move, Rechecks, LooksForFailure;
    if e.Advance? && !Rechecks(PcOf(s, e.tid)) && !LooksForFailure(PcOf(s, e.tid)) {
      WritesKeepHistory(s, e.tid);
    } else {
      ReadsKeepHistory(s, e);
    }
  }

  lemma StepKeepsFields(s: State, e: Event)
    requires Inv(s) && Enabled(s, e)
    ensures FieldsOk(Step(s, e)) && HistoryOk(Step(s, e))
  {
    hide Step, Enabled, ThreadOk, FieldsAt, HistoryOk, Settled, OnlyTime;
    if Mover(e).Some? && Holds(PcOf(s, Mover(e).value)) {
      assert s.holder == Mover(e);
      HolderKeepsFields(s, e);
      HolderKeepsHistory(s, e);
    } else {
      OutsiderWritesNothing(s, e);
      var s1 := Step(s, e);
      if s.holder.Some? {
        OthersStay(s, e, s.holder.value);
        TimeKeepsFields(s, s1, PcOf(s, s.holder.value));
      } else {
        TimeKeepsFields(s, s1, Idle);
        if s1.holder.Some? {
          JustLocked(s1, PcOf(s1, s1.holder.value));
        }
      }
    }
  }

  lemma JustLocked(s: State, pc: Pc)
    requires Settled(s) && pc in {ReadToken(true), ClearToken}
    ensures FieldsAt(s, pc)
  {
  }

  lemma StepKeepsInv(s: State, e: Event)
    requires Inv(s) && Enabled(s, e)
    ensures Inv(Step(s, e))
  {
    hide Step, Enabled, ThreadOk, FieldsOk, HistoryOk, Holds;
    StepKeepsLock(s, e);
    StepKeepsFields(s, e);
    StepIsLater(s, e);
    forall tid: nat ensures ThreadOk(Step(s, e), PcOf(Step(s, e), tid)) {
      if Mover(e) == Some(tid) {
        MoverOk(s, e);
      } else {
        OthersStay(s, e, tid);
        StillOk(s, Step(s, e), PcOf(s, tid));
      }
    }
  }

  lemma {:induction false} RunKeepsInv(ss: seq<State>, es: seq<Event>, i: nat)
    requires IsRun(ss, es) && i < |ss|
    ensures Inv(ss[i])
  {
    hide Step, Enabled;
    if i == 0 {
      InitInv();
    } else {
      RunKeepsInv(ss, es, i - 1);
      assert ss[i - 1 + 1] == Step(ss[i - 1], es[i - 1]);
      StepKeepsInv(ss[i - 1], es[i - 1]);
    }
  }

  lemma InitInv()
    ensures Inv(Init)
  {
  }

  // --------------------------------------------------------------- The claims

  /** The clock reading and the number of installs a thread carries, if it carries them. */
  function Reading(pc: Pc): Option<(int, nat)> {
    match pc
    case ReadExpiry(_, t, seen) => Some((t, seen))
    case ReadAgain(_, t, seen) => Some((t, seen))
    case Returned(_, _, t, seen) => Some((t, seen))
    case _ => None
  }

  /** At state `j` the thread read the clock as `at`, with `seen` tokens installed until then. */
  ghost predicate ReadAt(ss: seq<State>, j: nat, tid: nat, at: int, seen: nat) {
    j < |ss| && PcOf(ss[j], tid).ReadClock? && ss[j].clock == at && |ss[j].installs| == seen
  }

  lemma ReadingComesFrom(s: State, e: Event, tid: nat)
    requires Enabled(s, e) && Reading(PcOf(Step(s, e), tid)).Some?
    ensures e != CallGet(tid)
    ensures Reading(PcOf(s, tid)) == Reading(PcOf(Step(s, e), tid)) ||
      (PcOf(s, tid).ReadClock? && Reading(PcOf(Step(s, e), tid)) == Some((s.clock, |s.installs|)))
  {
    hide Move;
    if Mover(e) != Some(tid) {
      OthersStay(s, e, tid);
    } else if e.Advance? {
      ReadingMoves(s, tid);
    }
  }

  lemma ReadingMoves(s: State, tid: nat)
    requires Enabled(s, Advance(tid)) && Reading(PcOf(Move(s, tid), tid)).Some?
    ensures Reading(PcOf(s, tid)) == Reading(PcOf(Move(s, tid), tid)) ||
      (PcOf(s, tid).ReadClock? && Reading(PcOf(Move(s, tid), tid)) == Some((s.clock, |s.installs|)))
  {
  }

  lemma {:induction false} ReadingHappened(ss: seq<State>, es: seq<Event>, i: nat, tid: nat) returns (j: nat)
    requires IsRun(ss, es) && i < |ss| && Reading(PcOf(ss[i], tid)).Some?
    ensures j < i && ReadAt(ss, j, tid, Reading(PcOf(ss[i], tid)).value.0, Reading(PcOf(ss[i], tid)).value.1)
    ensures forall k :: j <= k < i ==> es[k] != CallGet(tid)
  {
    hide Step, Enabled;
    if i == 0 {
      assert false;
    } else {
      assert ss[i - 1 + 1] == Step(ss[i - 1], es[i - 1]);
      ReadingComesFrom(ss[i - 1], es[i - 1], tid);
      if Reading(PcOf(ss[i - 1], tid)) == Reading(PcOf(ss[i], tid)) {
        j := ReadingHappened(ss, es, i - 1, tid);
      } else {
        j := i - 1;
      }
    }
  }

  // ------------------------------------------------- Where tokens come from

  lemma PendingComesFrom(s: State, e: Event, tid: nat)
    requires Enabled(s, e) && PcOf(Step(s, e), tid).WriteToken?
    ensures Mover(e) != Some(tid) ==> PcOf(s, tid) == PcOf(Step(s, e), tid)
    ensures Mover(e) == Some(tid) ==> e.Respond? && PcOf(Step(s, e), tid).expiry == s.clock + e.expiresIn - 60
  {
  }

  /** Thread `tid` got an answer good for `lifetime` at state `j`, and did nothing else before state `m`. */
  ghost predicate Answered(es: seq<Event>, j: nat, m: nat, tid: nat, lifetime: int) {
    && j < m <= |es| && es[j] == Respond(tid, lifetime)
    && forall k :: j < k < m ==> Mover(es[k]) != Some(tid)
  }

  lemma {:induction false} AnswerHappened(ss: seq<State>, es: seq<Event>, m: nat, tid: nat) returns (j: nat, lifetime: int)
    requires IsRun(ss, es) && m < |ss| && PcOf(ss[m], tid).WriteToken?
    ensures Answered(es, j, m, tid, lifetime) && PcOf(ss[m], tid).expiry == ss[j].clock + lifetime - 60
  {
    hide Step, Enabled;
    if m == 0 {
      assert false;
    } else {
      assert ss[m - 1 + 1] == Step(ss[m - 1], es[m - 1]);
      PendingComesFrom(ss[m - 1], es[m - 1], tid);
      if Mover(es[m - 1]) == Some(tid) {
        j, lifetime := m - 1, es[m - 1].expiresIn;
      } else {
        j, lifetime := AnswerHappened(ss, es, m - 1, tid);
      }
    }
  }

  /** At state `m` thread `tid` writes token `n`, whose expiry it then records. */
  ghost predicate Installs(ss: seq<State>, es: seq<Event>, m: nat, tid: nat, n: nat)
    requires |ss| == |es| + 1
  {
    && m < |es| && es[m] == Advance(tid) && PcOf(ss[m], tid).WriteToken?
    && |ss[m].installs| == n && ss[m + 1].token == Some(n)
    && ss[m + 1].installs == ss[m].installs + [Install(ss[m].clock, PcOf(ss[m], tid).expiry)]
    && PcOf(ss[m + 1], tid) == WriteExpiry(n, PcOf(ss[m], tid).expiry)
  }

  lemma InstallStep(s: State, e: Event)
    requires Enabled(s, e)
    ensures s.installs <= Step(s, e).installs
    ensures Step(s, e).installs == s.installs ||
      (e.Advance? && PcOf(s, e.tid).WriteToken? && Step(s, e).token == Some(|s.installs|)
       && Step(s, e).installs == s.installs + [Install(s.clock, PcOf(s, e.tid).expiry)]
       && PcOf(Step(s, e), e.tid) == WriteExpiry(|s.installs|, PcOf(s, e.tid).expiry))
  {
  }

  lemma {:induction false} InstallHappened(ss: seq<State>, es: seq<Event>, i: nat, n: nat) returns (m: nat, tid: nat)
    requires IsRun(ss, es) && i < |ss| && n < |ss[i].installs|
    ensures m < i && Installs(ss, es, m, tid, n)
    ensures ss[i].installs[n] == Install(ss[m].clock, PcOf(ss[m], tid).expiry)
  {
    hide Step, Enabled;
    if i == 0 {
      assert false;
    } else {
      assert ss[i - 1 + 1] == Step(ss[i - 1], es[i - 1]);
      InstallStep(ss[i - 1], es[i - 1]);
      if n < |ss[i - 1].installs| {
        m, tid := InstallHappened(ss, es, i - 1, n);
      } else {
        m, tid := i - 1, es[i - 1].tid;
      }
    }
  }

  /**
   Every token in the cache came with a server's answer to the thread that put it
   there, and its expiry is a minute less than the lifetime the server gave it,
   counted from the clock at the answer.
   */
  lemma TokenComesFromAnswer(ss: seq<State>, es: seq<Event>, i: nat, n: nat) returns (j: nat, m: nat, tid: nat, lifetime: int)
    requires IsRun(ss, es) && i < |ss| && n < |ss[i].installs|
    ensures m < i && Answered(es, j, m, tid, lifetime) && Installs(ss, es, m, tid, n)
    ensures ss[i].installs[n].expiry == ss[j].clock + lifetime - 60
  {
    hide Step, Enabled;
    m, tid := InstallHappened(ss, es, i, n);
    j, lifetime := AnswerHappened(ss, es, m, tid);
  }

  /**
   A token returned from the cache had more than a minute of the lifetime its server
   gave it left at the clock reading taken in that call, or was installed after that
   reading.  Returned from the re-check under the lock, it had at the reading.
   */
  lemma ReturnedTokenIsFresh(ss: seq<State>, es: seq<Event>, i: nat, tid: nat)
    returns (j: nat, answer: nat, m: nat, fetcher: nat, lifetime: int)
    requires IsRun(ss, es) && i < |ss| && PcOf(ss[i], tid).Returned?
    ensures var Returned(token, locked, at, seen) := PcOf(ss[i], tid);
      && m < i && Answered(es, answer, m, fetcher, lifetime) && Installs(ss, es, m, fetcher, token)
      && j < i && ReadAt(ss, j, tid, at, seen) && (forall k :: j <= k < i ==> es[k] != CallGet(tid))
      && (at + 60 < ss[answer].clock + lifetime || |ss[j].installs| <= token)
      && (locked ==> at + 60 < ss[answer].clock + lifetime)
  {
    hide Step, Enabled;
    j := ReadingHappened(ss, es, i, tid);
    RunKeepsInv(ss, es, i);
    assert ThreadOk(ss[i], PcOf(ss[i], tid));
    answer, m, fetcher, lifetime := TokenComesFromAnswer(ss, es, i, PcOf(ss[i], tid).token);
  }

  /** At most one token request is in flight. */
  lemma OneRequestInFlight(ss: seq<State>, es: seq<Event>, i: nat, t1: nat, t2: nat)
    requires IsRun(ss, es) && i < |ss| && PcOf(ss[i], t1).Requesting? && PcOf(ss[i], t2).Requesting?
    ensures t1 == t2
  {
    RunKeepsInv(ss, es, i);
    assert Holds(PcOf(ss[i], t1)) && Holds(PcOf(ss[i], t2));
  }

  ghost predicate StartsRequest(s: State, e: Event) { e.Advance? && PcOf(s, e.tid).Settings? }

  /** The failure of a request is recorded, with the clock read after it. */
  ghost predicate RecordsFailure(s: State, e: Event, at: int) { e.Advance? && PcOf(s, e.tid) == FailExpiry(at) }

  ghost predicate Invalidates(s: State, e: Event) { e.Advance? && PcOf(s, e.tid).ClearExpiry? }

  lemma FailureStays(s: State, e: Event)
    requires Inv(s) && Enabled(s, e) && !Invalidates(s, e)
    ensures s.failure.Some? ==> Step(s, e).failure.Some? && s.failure.value <= Step(s, e).failure.value
    ensures forall at :: RecordsFailure(s, e, at) ==> Step(s, e).failure == Some(at)
  {
    if Mover(e).Some? {
      assert Holds(PcOf(s, Mover(e).value)) <==> s.holder == Mover(e);
    }
  }

  lemma {:induction false} FailureRemembered(ss: seq<State>, es: seq<Event>, j: nat, i: nat, at: int)
    requires IsRun(ss, es) && j < i <= |es| && RecordsFailure(ss[j], es[j], at)
    requires forall k :: j <= k < i ==> !Invalidates(ss[k], es[k])
    ensures ss[i].failure.Some? && at <= ss[i].failure.value
  {
    hide Step, Enabled, RecordsFailure, Invalidates;
    RunKeepsInv(ss, es, i - 1);
    assert ss[i - 1 + 1] == Step(ss[i - 1], es[i - 1]);
    FailureStays(ss[i - 1], es[i - 1]);
    if j < i - 1 {
      FailureRemembered(ss, es, j, i - 1, at);
    }
  }

  /** No request starts within the backoff of a recorded failure, unless the cache was invalidated in between. */
  lemma RequestsWaitOutFailures(ss: seq<State>, es: seq<Event>, j: nat, i: nat, at: int)
    requires IsRun(ss, es) && j < i < |es| && RecordsFailure(ss[j], es[j], at) && StartsRequest(ss[i], es[i])
    requires forall k :: j <= k < i ==> !Invalidates(ss[k], es[k])
    ensures at + 30 <= ss[i].clock
  {
    FailureRemembered(ss, es, j, i, at);
    RunKeepsInv(ss, es, i);
    assert Holds(PcOf(ss[i], es[i].tid));
  }

  /** Under the lock a call backs off exactly when a failure is on record and its window is open at the reading. */
  lemma LockedBackoffIsReal(ss: seq<State>, es: seq<Event>, i: nat, tid: nat)
    requires IsRun(ss, es) && i < |es| && es[i] == Advance(tid)
    requires PcOf(ss[i], tid).BackoffExpiry? && PcOf(ss[i], tid).locked
    ensures PcOf(ss[i + 1], tid).BackedOff? <==>
      ss[i].failure.Some? && PcOf(ss[i], tid).at < ss[i].failure.value + FAILURE_BACKOFF
  {
    RunKeepsInv(ss, es, i);
    assert ss[i + 1] == Step(ss[i], es[i]);
    assert Holds(PcOf(ss[i], tid)) && ThreadOk(ss[i], PcOf(ss[i], tid));
  }

  // ------------------------------------------------ The unlocked backoff check

  /** A failure is on record and its window is open at the reading. */
  ghost predicate OpenWindow(s: State, at: int) { s.failure.Some? && at < s.failure.value + FAILURE_BACKOFF }

  /** The expiry field holds the end of a failure's window, or nothing at all. */
  ghost predicate ShowsFailure(s: State) {
    match s.source
    case Blank => s.expiry == 0
    case FromFailure(t) => s.failure == Some(t) && s.expiry == t + FAILURE_BACKOFF
    case FromToken(_) => false
  }

  /** The expiry field holds the expiry of a token. */
  ghost predicate ShowsToken(s: State) {
    s.source.FromToken? && s.source.token < |s.installs| && s.expiry == s.installs[s.source.token].expiry
  }

  /**
   The fields do not describe a missing token: there is one, or the lock holder has
   taken it away and not yet written the expiry.
   */
  ghost predicate Torn(s: State) {
    || s.token.Some?
    || (s.holder.Some? && var pc := PcOf(s, s.holder.value); pc.FailClock? || pc.FailExpiry? || pc.ClearExpiry?)
  }

  /** Where the lock holder stands when the token field may be empty over a token's expiry. */
  ghost predicate SourceOk(s: State) {
    && (ShowsFailure(s) || ShowsToken(s))
    && (ShowsToken(s) ==> Torn(s))
    && (s.source.Blank? ==> s.failure.None?)
  }

  lemma SourceStays(s: State, e: Event)
    requires Inv(s) && SourceOk(s) && Enabled(s, e) && Mover(e).Some? && Holds(PcOf(s, Mover(e).value))
    ensures SourceOk(Step(s, e))
  {
    assert s.holder == Mover(e);
  }

  lemma OutsiderLeavesSource(s: State, e: Event)
    requires Inv(s) && SourceOk(s) && Enabled(s, e) && (Mover(e).Some? ==> !Holds(PcOf(s, Mover(e).value)))
    ensures SourceOk(Step(s, e))
  {
    hide FieldsAt, ThreadOk, HistoryOk, Settled;
    OutsiderWritesNothing(s, e);
    if s.holder.Some? {
      assert Mover(e) != s.holder;
    }
  }

  lemma {:induction false} RunKeepsSource(ss: seq<State>, es: seq<Event>, i: nat)
    requires IsRun(ss, es) && i < |ss|
    ensures SourceOk(ss[i])
  {
    hide Step, Enabled, Inv, SourceOk;
    if i == 0 {
      InitSource();
    } else {
      RunKeepsInv(ss, es, i - 1);
      RunKeepsSource(ss, es, i - 1);
      var s, e := ss[i - 1], es[i - 1];
      assert ss[i - 1 + 1] == Step(s, e);
      if Mover(e).Some? && Holds(PcOf(s, Mover(e).value)) {
        SourceStays(s, e);
      } else {
        OutsiderLeavesSource(s, e);
      }
    }
  }

  lemma InitSource()
    ensures SourceOk(Init)
  {
  }

  /** The next read of the thread is that of the expiry field, in a backoff check without the lock. */
  ghost predicate ReadsUnlocked(s: State, e: Event, tid: nat) {
    e == Advance(tid) && PcOf(s, tid).BackoffExpiry? && !PcOf(s, tid).locked
  }

  /**
   What an unlocked check reports, in every run and interleaving: a backoff if the
   expiry field shows a failure whose window is open at the reading, or shows a token
   that is unexpired at it.  The second needs a torn reading; without one the report is
   made exactly when a failure is on record and its window is open.
   */
  lemma UnlockedBackoffExactly(ss: seq<State>, es: seq<Event>, i: nat, tid: nat)
    requires IsRun(ss, es) && i < |es| && ReadsUnlocked(ss[i], es[i], tid)
    ensures var s, at := ss[i], PcOf(ss[i], tid).at;
      && (PcOf(ss[i + 1], tid).BackedOff? <==>
            (ShowsFailure(s) && OpenWindow(s, at)) || (ShowsToken(s) && at < s.installs[s.source.token].expiry))
      && (ShowsToken(s) ==> Torn(s))
      && (!Torn(s) ==> (PcOf(ss[i + 1], tid).BackedOff? <==> OpenWindow(s, at)))
  {
    hide FieldsAt, Settled, FieldsOk;
    RunKeepsInv(ss, es, i);
    RunKeepsSource(ss, es, i);
    assert ss[i + 1] == Step(ss[i], es[i]);
    assert ThreadOk(ss[i], PcOf(ss[i], tid));
  }

  /** Nobody holds the lock from state `j` to state `i`. */
  ghost predicate LockFree(ss: seq<State>, j: nat, i: nat) {
    i < |ss| && forall k :: j <= k <= i ==> ss[k].holder.None?
  }

  lemma {:induction false} FreeLockKeepsToken(ss: seq<State>, es: seq<Event>, j: nat, i: nat)
    requires IsRun(ss, es) && j <= i && LockFree(ss, j, i)
    ensures ss[i].token == ss[j].token
  {
    hide Step, Enabled, FieldsAt, ThreadOk, HistoryOk, Holds;
    if j < i {
      FreeLockKeepsToken(ss, es, j, i - 1);
      RunKeepsInv(ss, es, i - 1);
      assert ss[i - 1 + 1] == Step(ss[i - 1], es[i - 1]);
      OutsiderWritesNothing(ss[i - 1], es[i - 1]);
    }
  }

  /**
   A check that nobody disturbs is right: if the lock stays free from the read of the
   token, at `j`, to that of the expiry, the call backs off exactly when a failure is on
   record and its window is open.  So every report that is not real has a refresh or an
   invalidation under way between its two reads.
   */
  lemma UndisturbedBackoffIsReal(ss: seq<State>, es: seq<Event>, j: nat, i: nat, tid: nat)
    requires IsRun(ss, es) && j < i < |es| && ReadsUnlocked(ss[i], es[i], tid)
    requires es[j] == Advance(tid) && PcOf(ss[j], tid).BackoffToken? && PcOf(ss[j + 1], tid).BackoffClock?
    requires LockFree(ss, j, i)
    ensures PcOf(ss[i + 1], tid).BackedOff? <==> OpenWindow(ss[i], PcOf(ss[i], tid).at)
  {
    assert ss[j + 1] == Step(ss[j], es[j]);
    hide Step, Inv;
    FreeLockKeepsToken(ss, es, j, i);
    UnlockedBackoffExactly(ss, es, i, tid);
  }

  // ------------------------------------------------------- A spurious backoff

  ghost predicate NoFailures(es: seq<Event>) { forall i :: 0 <= i < |es| ==> !es[i].FailRequest? }

  /** `s` occurs at the end of a run in which no request fails. */
  ghost predicate Reachable(s: State) {
    exists ss, es :: IsRun(ss, es) && NoFailures(es) && ss[|ss| - 1] == s
  }

  lemma Reach(s: State, e: Event) returns (s1: State)
    requires Reachable(s) && Enabled(s, e) && !e.FailRequest?
    ensures s1 == Step(s, e) && Reachable(s1)
  {
    s1 := Step(s, e);
    hide Step, Enabled;
    var ss, es :| IsRun(ss, es) && NoFailures(es) && ss[|ss| - 1] == s;
    assert IsRun(ss + [s1], es + [e]) && NoFailures(es + [e]);
    assert (ss + [s1])[|ss + [s1]| - 1] == s1;
  }

  lemma InitReachable()
    ensures Reachable(Init)
  {
    assert IsRun([Init], []) && NoFailures([]) && [Init][|[Init]| - 1] == Init;
  }

  /** Only thread `tid` has ever called, and it stands at `pc` with the fields as given. */
  ghost predicate Alone(s: State, tid: nat, pc: Pc, token: Option<nat>, expiry: int, holder: Option<nat>) {
    && Reachable(s) && s.token == token && s.expiry == expiry && s.holder == holder && s.clock == 0 && s.failure == None
    && |s.installs| == (if token.Some? then 1 else 0) && s.threads == map[tid := pc]
  }

  /** A thread that is alone takes one step. */
  lemma Alone1(s: State, tid: nat, pc: Pc, token: Option<nat>, expiry: int, holder: Option<nat>) returns (s1: State)
    requires Alone(s, tid, pc, token, expiry, holder) && Enabled(s, Advance(tid))
    ensures s1 == Move(s, tid) && Reachable(s1)
  {
    hide Reachable, Move;
    s1 := Reach(s, Advance(tid));
  }

  lemma FirstCheck() returns (s: State)
    ensures Alone(s, 1, BackoffClock(false), None, 0, None)
  {
    InitReachable();
    hide Reachable;
    s := Reach(Init, CallGet(1));
    s := Alone1(s, 1, ReadToken(false), None, 0, None);
    s := Alone1(s, 1, BackoffToken(false, None), None, 0, None);
  }

  lemma FirstLock() returns (s: State)
    ensures Alone(s, 1, ReadToken(true), None, 0, Some(1))
  {
    s := FirstCheck();
    hide Reachable;
    s := Alone1(s, 1, BackoffClock(false), None, 0, None);
    s := Alone1(s, 1, BackoffExpiry(false, 0), None, 0, None);
    s := Alone1(s, 1, WantLock, None, 0, None);
  }

  lemma FirstRequest() returns (s: State)
    ensures Alone(s, 1, Requesting(0), None, 0, Some(1))
  {
    s := FirstLock();
    hide Reachable;
    s := Reach(s, Advance(1));
    s := Reach(s, Advance(1));
    s := Reach(s, Advance(1));
    s := Reach(s, Advance(1));
    s := Reach(s, Advance(1));
  }

  /** One call that fetches the first token, good for an hour. */
  lemma FirstFetch() returns (s: State)
    ensures Alone(s, 1, Fetched(0), Some(0), 3540, None)
  {
    s := FirstRequest();
    hide Reachable;
    s := Reach(s, Respond(1, 3600));
    s := Reach(s, Advance(1));
    s := Reach(s, Advance(1));
  }

  /** A token that is good until 3540 has just been taken away, and the expiry not yet cleared. */
  lemma FirstInvalidation() returns (s: State)
    ensures Reachable(s) && s.token == None && s.expiry == 3540 && s.holder == Some(2) && s.clock == 0
    ensures PcOf(s, 2) == ClearExpiry && PcOf(s, 3) == Idle
  {
    s := FirstFetch();
    hide Reachable;
    s := Reach(s, CallInvalidate(2));
    s := Reach(s, Advance(2));
    s := Reach(s, Advance(2));
  }

  /** Another thread finds no token meanwhile. */
  lemma CheckDuringInvalidation() returns (s: State)
    ensures Reachable(s) && s.token == None && s.expiry == 3540 && s.clock == 0 && PcOf(s, 3) == BackoffClock(false)
  {
    s := FirstInvalidation();
    hide Reachable;
    s := Reach(s, CallGet(3));
    s := Reach(s, Advance(3));
    s := Reach(s, Advance(3));
  }

  /**
   Without the lock the same check can report a backoff although no request ever
   failed: here between the two writes of an invalidation.
   */
  lemma UnlockedBackoffCanBeSpurious() returns (s: State)
    ensures Reachable(s) && PcOf(s, 3) == BackedOff(false, 0)
  {
    s := CheckDuringInvalidation();
    hide Reachable;
    s := Reach(s, Advance(3));
    s := Reach(s, Advance(3));
  }
}
