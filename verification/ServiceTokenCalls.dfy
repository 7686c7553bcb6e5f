/**
 What one call does when nobody interferes: the whole of `get_service_token` and
 `invalidate_service_token` from the first read to the last write, in terms of the two
 fields alone.
 */
module ServiceTokenCalls {
  import opened Options
  import opened ServiceToken

  /** The steps `es` lead from `s` to `s1`. */
  ghost predicate Leads(s: State, es: seq<Event>, s1: State)
    decreases |es|
  {
    if es == [] then s1 == s else Enabled(s, es[0]) && Leads(Step(s, es[0]), es[1..], s1)
  }

  /** Only thread `tid` moves. */
  predicate OwnSteps(es: seq<Event>, tid: nat) { forall k :: 0 <= k < |es| ==> Mover(es[k]) == Some(tid) }

  lemma Nothing(s: State, tid: nat)
    ensures Leads(s, [], s) && OwnSteps([], tid)
  {
  }

  lemma {:induction false} OneMore(s: State, es: seq<Event>, m: State, e: Event, tid: nat)
    requires Leads(s, es, m) && OwnSteps(es, tid) && Enabled(m, e) && Mover(e) == Some(tid)
    ensures Leads(s, es + [e], Step(m, e)) && OwnSteps(es + [e], tid)
    decreases |es|
  {
    hide Step, Enabled;
    if es == [] {
      assert ([] + [e])[1..] == [];
    } else {
      OneMore(Step(s, es[0]), es[1..], m, e, tid);
      assert (es + [e])[1..] == es[1..] + [e];
    }
  }

  /** A step of a solo call. */
  lemma Go(s: State, es: seq<Event>, m: State, e: Event, tid: nat) returns (es': seq<Event>, m': State)
    requires Leads(s, es, m) && OwnSteps(es, tid) && Enabled(m, e) && Mover(e) == Some(tid)
    ensures es' == es + [e] && m' == Step(m, e) && Leads(s, es', m') && OwnSteps(es', tid)
  {
    OneMore(s, es, m, e, tid);
    es', m' := es + [e], Step(m, e);
  }

  /** The two fields, and what else is shared. */
  ghost predicate Same(s: State, s1: State) {
    s1.token == s.token && s1.expiry == s.expiry && s1.clock == s.clock && s1.installs == s.installs && s1.failure == s.failure
  }

  /**
   One undisturbed call of `get_service_token`: an unexpired token is returned, an
   unexpired failure is reported, and in all other cases the call takes the lock and
   asks the server.  None of this changes either field.
   */
  lemma CallExactly(s: State, tid: nat) returns (es: seq<Event>, s1: State)
    requires AtRest(PcOf(s, tid)) && s.holder.None?
    ensures Leads(s, es, s1) && OwnSteps(es, tid) && Same(s, s1)
    ensures s.clock < s.expiry && s.token.Some? ==>
      s1.holder.None? && PcOf(s1, tid).Returned? && PcOf(s1, tid).token == s.token.value
    ensures s.clock < s.expiry && s.token.None? ==> s1.holder.None? && PcOf(s1, tid).BackedOff?
    ensures s.expiry <= s.clock ==> s1.holder == Some(tid) && PcOf(s1, tid).Requesting?
  {
    hide Leads, OwnSteps;
    Nothing(s, tid);
    es, s1 := Go(s, [], s, CallGet(tid), tid);
    es, s1 := Go(s, es, s1, Advance(tid), tid);
    if s.token.Some? {
      es, s1 := WithToken(s, es, s1, tid);
    } else {
      es, s1 := WithoutToken(s, es, s1, tid);
    }
    if s.expiry <= s.clock {
      es, s1 := UnderLock(s, es, s1, tid);
    }
  }

  /** The fast path over a token. */
  lemma WithToken(s: State, es: seq<Event>, m: State, tid: nat) returns (es': seq<Event>, s1: State)
    requires Leads(s, es, m) && OwnSteps(es, tid) && Same(s, m) && m.holder.None?
    requires s.token.Some? && PcOf(m, tid) == ReadClock(false)
    ensures Leads(s, es', s1) && OwnSteps(es', tid) && Same(s, s1) && s1.holder.None?
    ensures s.clock < s.expiry ==> PcOf(s1, tid).Returned? && PcOf(s1, tid).token == s.token.value
    ensures s.expiry <= s.clock ==> PcOf(s1, tid) == WantLock
  {
    hide Leads, OwnSteps;
    es', s1 := Go(s, es, m, Advance(tid), tid);
    es', s1 := Go(s, es', s1, Advance(tid), tid);
    es', s1 := Go(s, es', s1, Advance(tid), tid);
  }

  /** The fast path over no token. */
  lemma WithoutToken(s: State, es: seq<Event>, m: State, tid: nat) returns (es': seq<Event>, s1: State)
    requires Leads(s, es, m) && OwnSteps(es, tid) && Same(s, m) && m.holder.None?
    requires s.token.None? && PcOf(m, tid).BackoffToken? && !PcOf(m, tid).locked
    ensures Leads(s, es', s1) && OwnSteps(es', tid) && Same(s, s1) && s1.holder.None?
    ensures s.clock < s.expiry ==> PcOf(s1, tid).BackedOff?
    ensures s.expiry <= s.clock ==> PcOf(s1, tid) == WantLock
  {
    hide Leads, OwnSteps;
    es', s1 := Go(s, es, m, Advance(tid), tid);
    es', s1 := Go(s, es', s1, Advance(tid), tid);
    es', s1 := Go(s, es', s1, Advance(tid), tid);
  }

  /** The same checks again under the lock, which find the fields expired. */
  lemma UnderLock(s: State, es: seq<Event>, m: State, tid: nat) returns (es': seq<Event>, s1: State)
    requires Leads(s, es, m) && OwnSteps(es, tid) && Same(s, m) && m.holder.None?
    requires s.expiry <= s.clock && PcOf(m, tid) == WantLock
    ensures Leads(s, es', s1) && OwnSteps(es', tid) && Same(s, s1) && s1.holder == Some(tid) && PcOf(s1, tid).Requesting?
  {
    hide Leads, OwnSteps;
    es', s1 := Go(s, es, m, Advance(tid), tid);
    assert PcOf(s1, tid) == ReadToken(true) && s1.holder == Some(tid) && Same(s, s1);
    if s.token.Some? {
      es', s1 := CheckedToken(s, es', s1, tid);
    } else {
      es', s1 := CheckedFailure(s, es', s1, tid);
    }
    es', s1 := Go(s, es', s1, Advance(tid), tid);
  }

  /** Thread `tid` holds the lock at `pc`, and nothing else has changed since `s`. */
  ghost predicate Looking(s: State, es: seq<Event>, m: State, tid: nat, pc: Pc) {
    Leads(s, es, m) && OwnSteps(es, tid) && Same(s, m) && m.holder == Some(tid) && PcOf(m, tid) == pc
  }

  /** A read under the lock. */
  lemma Look(s: State, es: seq<Event>, m: State, tid: nat, pc: Pc, pc': Pc) returns (es': seq<Event>, m': State)
    requires Looking(s, es, m, tid, pc) && Enabled(m, Advance(tid))
    requires Same(m, Move(m, tid)) && Move(m, tid).holder == m.holder && PcOf(Move(m, tid), tid) == pc'
    ensures Looking(s, es', m', tid, pc')
  {
    hide Move, Leads, OwnSteps;
    es', m' := Go(s, es, m, Advance(tid), tid);
  }

  lemma ClockRead(s: State, es: seq<Event>, m: State, tid: nat) returns (es': seq<Event>, s1: State)
    requires Looking(s, es, m, tid, ReadToken(true)) && s.token.Some?
    ensures Looking(s, es', s1, tid, ReadExpiry(true, s.clock, |s.installs|))
  {
    hide Leads, OwnSteps;
    es', s1 := Look(s, es, m, tid, ReadToken(true), ReadClock(true));
    es', s1 := Look(s, es', s1, tid, ReadClock(true), ReadExpiry(true, s.clock, |s.installs|));
  }

  lemma NoToken(s: State, es: seq<Event>, m: State, tid: nat) returns (es': seq<Event>, s1: State)
    requires Looking(s, es, m, tid, ReadToken(true)) && s.token.None?
    ensures Looking(s, es', s1, tid, BackoffClock(true))
  {
    hide Leads, OwnSteps;
    es', s1 := Look(s, es, m, tid, ReadToken(true), BackoffToken(true, None));
    es', s1 := Look(s, es', s1, tid, BackoffToken(true, None), BackoffClock(true));
  }

  lemma CheckedToken(s: State, es: seq<Event>, m: State, tid: nat) returns (es': seq<Event>, s1: State)
    requires Leads(s, es, m) && OwnSteps(es, tid) && Same(s, m) && m.holder == Some(tid)
    requires s.expiry <= s.clock && s.token.Some? && PcOf(m, tid) == ReadToken(true)
    ensures Leads(s, es', s1) && OwnSteps(es', tid) && Same(s, s1) && s1.holder == Some(tid) && PcOf(s1, tid).Settings?
  {
    hide Leads, OwnSteps;
    es', s1 := ClockRead(s, es, m, tid);
    es', s1 := Look(s, es', s1, tid, ReadExpiry(true, s.clock, |s.installs|), BackoffToken(true, Some(s.clock)));
    es', s1 := Look(s, es', s1, tid, BackoffToken(true, Some(s.clock)), Settings(s.clock));
  }

  lemma CheckedFailure(s: State, es: seq<Event>, m: State, tid: nat) returns (es': seq<Event>, s1: State)
    requires Leads(s, es, m) && OwnSteps(es, tid) && Same(s, m) && m.holder == Some(tid)
    requires s.expiry <= s.clock && s.token.None? && PcOf(m, tid) == ReadToken(true)
    ensures Leads(s, es', s1) && OwnSteps(es', tid) && Same(s, s1) && s1.holder == Some(tid) && PcOf(s1, tid).Settings?
  {
    hide Leads, OwnSteps;
    es', s1 := NoToken(s, es, m, tid);
    es', s1 := Look(s, es', s1, tid, BackoffClock(true), BackoffExpiry(true, s.clock));
    es', s1 := Look(s, es', s1, tid, BackoffExpiry(true, s.clock), Settings(s.clock));
  }

  /** The server answers: the new token and its expiry are in the fields, and the lock is free. */
  lemma AnswerExactly(s: State, tid: nat, lifetime: int) returns (s1: State)
    requires PcOf(s, tid).Requesting? && s.holder == Some(tid)
    ensures Leads(s, [Respond(tid, lifetime), Advance(tid), Advance(tid)], s1)
    ensures s1.token == Some(|s.installs|) && s1.expiry == s.clock + lifetime - 60 && s1.holder.None?
    ensures PcOf(s1, tid) == Fetched(|s.installs|)
    ensures s1.installs == s.installs + [Install(s.clock, s.clock + lifetime - 60)] && s1.failure == s.failure
  {
    hide Leads, OwnSteps;
    Nothing(s, tid);
    var es;
    es, s1 := Go(s, [], s, Respond(tid, lifetime), tid);
    es, s1 := Go(s, es, s1, Advance(tid), tid);
    es, s1 := Go(s, es, s1, Advance(tid), tid);
    assert es == [Respond(tid, lifetime), Advance(tid), Advance(tid)];
  }

  /** The request fails: no token, a backoff of thirty seconds from now, and the lock is free. */
  lemma FailureExactly(s: State, tid: nat) returns (es: seq<Event>, s1: State)
    requires PcOf(s, tid).Requesting? && s.holder == Some(tid)
    ensures Leads(s, es, s1) && OwnSteps(es, tid)
    ensures s1.token.None? && s1.expiry == s.clock + 30 && s1.failure == Some(s.clock) && s1.holder.None? && s1.clock == s.clock
    ensures PcOf(s1, tid) == Raised && s1.installs == s.installs
  {
    hide Leads, OwnSteps;
    Nothing(s, tid);
    es, s1 := Go(s, [], s, FailRequest(tid), tid);
    es, s1 := Go(s, es, s1, Advance(tid), tid);
    es, s1 := Go(s, es, s1, Advance(tid), tid);
    es, s1 := Go(s, es, s1, Advance(tid), tid);
  }

  /** Without a client secret the call raises and leaves the fields as they are. */
  lemma NoSecretExactly(s: State, tid: nat)
    requires PcOf(s, tid).Settings? && s.holder == Some(tid)
    ensures Enabled(s, NoSecret(tid)) && Same(s, Step(s, NoSecret(tid))) && Step(s, NoSecret(tid)).holder.None?
    ensures PcOf(Step(s, NoSecret(tid)), tid) == Raised
  {
  }

  /** An undisturbed invalidation takes the token and any backoff away, whatever they were. */
  lemma InvalidationExactly(s: State, tid: nat) returns (es: seq<Event>, s1: State)
    requires AtRest(PcOf(s, tid)) && s.holder.None?
    ensures Leads(s, es, s1) && OwnSteps(es, tid)
    ensures s1.token.None? && s1.expiry == 0 && s1.failure.None? && s1.holder.None? && s1.clock == s.clock && AtRest(PcOf(s1, tid))
  {
    hide Leads, OwnSteps;
    Nothing(s, tid);
    es, s1 := Go(s, [], s, CallInvalidate(tid), tid);
    assert PcOf(s1, tid) == WantInvalidate && s1.holder.None? && s1.clock == s.clock;
    es, s1 := Go(s, es, s1, Advance(tid), tid);
    assert PcOf(s1, tid) == ClearToken && s1.clock == s.clock;
    es, s1 := ClearBoth(s, es, s1, tid);
  }

  /** The two writes of an invalidation. */
  lemma ClearBoth(s: State, es: seq<Event>, m: State, tid: nat) returns (es': seq<Event>, s1: State)
    requires Leads(s, es, m) && OwnSteps(es, tid) && PcOf(m, tid) == ClearToken
    ensures Leads(s, es', s1) && OwnSteps(es', tid)
    ensures s1.token.None? && s1.expiry == 0 && s1.failure.None? && s1.holder.None? && s1.clock == m.clock && AtRest(PcOf(s1, tid))
  {
    hide Leads, OwnSteps;
    es', s1 := Go(s, es, m, Advance(tid), tid);
    assert PcOf(s1, tid) == ClearExpiry && s1.token.None? && s1.clock == m.clock;
    es', s1 := Go(s, es', s1, Advance(tid), tid);
  }

  /**
   So after a failure calls are turned away for thirty seconds and no longer: a call at
   a clock before that is backed off, and one at that clock or later asks the server.
   */
  lemma BackoffLastsThirtySeconds(s: State, tid: nat, elapsed: nat, other: nat) returns (es: seq<Event>, s1: State)
    requires PcOf(s, tid).Requesting? && s.holder == Some(tid) && AtRest(PcOf(s, other)) && other != tid
    ensures Leads(s, es, s1)
    ensures PcOf(s1, other).BackedOff? <==> elapsed < 30
    ensures PcOf(s1, other).Requesting? <==> elapsed >= 30
  {
    var failed, s0 := FailureExactly(s, tid);
    OthersStayThrough(s, failed, s0, tid, other);
    var later := Step(s0, Tick(elapsed));
    var call, s2 := CallExactly(later, other);
    hide Leads, OwnSteps;
    Appended(s, failed, s0, [Tick(elapsed)], later) by {
      OneTick(s0, elapsed);
    }
    Appended(s, failed + [Tick(elapsed)], later, call, s2);
    es, s1 := failed + [Tick(elapsed)] + call, s2;
  }

  lemma OneTick(s: State, elapsed: nat)
    ensures Leads(s, [Tick(elapsed)], Step(s, Tick(elapsed)))
  {
    assert [Tick(elapsed)][1..] == [];
  }

  lemma {:induction false} Appended(s: State, es: seq<Event>, m: State, more: seq<Event>, s1: State)
    requires Leads(s, es, m) && Leads(m, more, s1)
    ensures Leads(s, es + more, s1)
    decreases |es|
  {
    hide Step, Enabled;
    if es == [] {
      assert [] + more == more;
    } else {
      Appended(Step(s, es[0]), es[1..], m, more, s1);
      assert (es + more)[1..] == es[1..] + more;
    }
  }

  lemma {:induction false} OthersStayThrough(s: State, es: seq<Event>, s1: State, tid: nat, other: nat)
    requires Leads(s, es, s1) && OwnSteps(es, tid) && other != tid
    ensures PcOf(s1, other) == PcOf(s, other)
    decreases |es|
  {
    hide Step, Enabled;
    if es != [] {
      OthersStay(s, es[0], other);
      OthersStayThrough(Step(s, es[0]), es[1..], s1, tid, other);
    }
  }
}
