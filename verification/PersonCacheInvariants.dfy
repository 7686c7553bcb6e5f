/**
 What every sequence of cache calls keeps: no index ever names a Person that is
 gone, emails stay owned by one Person, and what once shared a Person shares one
 for good.  Failing statements are part of the runs unless a lemma excludes them.
 */
module PersonCacheInvariants {
  import opened Options
  import opened PropertyGraph
  import opened PersonMerge
  import opened PersonCache

  // ------------------------------------------------------------------- Runs

  datatype Event =
    | Call(q: Request, a: Answers)
    | QueueMapping(person: string, identityId: string, identity: Identity)
    | FlushMappings(order: seq<string>, sent: nat)

  /** Answers fit the database, and only Persons that exist are queued. */
  ghost predicate Possible(w: World, ev: Event) {
    match ev
    case Call(q, a) => ValidAnswers(w, q, a)
    case QueueMapping(p, _, _) => Live(w.g, p)
    case FlushMappings(order, sent) => Enumerates(order, w.c.pending) && sent <= 2 * |order|
  }

  ghost function Step(w: World, ev: Event): World
    requires Possible(w, ev)
  {
    match ev
    case Call(q, a) => GetOrCreate(w, q, a).0
    case QueueMapping(p, id, identity) => World(w.g, Queue(w.c, p, id, identity))
    case FlushMappings(order, sent) => Flush(w, order, sent)
  }

  /** `ws` is the sequence of states a run goes through, one event between each two. */
  ghost predicate IsRun(ws: seq<World>, evs: seq<Event>) {
    && |ws| == |evs| + 1
    && forall i :: 0 <= i < |evs| ==> Possible(ws[i], evs[i]) && ws[i + 1] == Step(ws[i], evs[i])
  }

  /** The call folds one Person into another. */
  ghost predicate Folds(w: World, q: Request, a: Answers) {
    && Accepted(q) && KeyOf(q) in w.c.providers && Given(q.email).Some?
    && var owner := Owner(w.c, q.email.value, a.emailRow);
       owner.Some? && owner.value != w.c.providers[KeyOf(q)]
  }

  ghost function FoldPlan(w: World, q: Request, a: Answers): seq<Write>
    requires ValidAnswers(w, q, a) && Folds(w, q, a)
  {
    RehomePlan(w.g, w.c.providers[KeyOf(q)], Owner(w.c, q.email.value, a.emailRow).value, a.out, a.inn)
  }

  /** A fold, if the event makes one, gets all its statements through. */
  ghost predicate Unbroken(w: World, ev: Event)
    requires Possible(w, ev)
  {
    ev.Call? && Folds(w, ev.q, ev.a) ==> ev.a.moved == |FoldPlan(w, ev.q, ev.a)|
  }

  // --------------------------------------------------------------- Liveness

  ghost predicate NamesLive<K(!new)>(m: map<K, string>, g: Graph) { forall k :: k in m ==> Live(g, m[k]) }

  ghost predicate AllLive(w: World) {
    && WellFormed(w.g)
    && NamesLive(w.c.providers, w.g) && NamesLive(w.c.emails, w.g) && NamesLive(w.c.accounts, w.g)
    && (forall i :: i in w.c.pending ==> Live(w.g, w.c.pending[i].person))
    && (forall p :: p in w.c.flushed ==> Live(w.g, p))
  }

  lemma TryMergeLive(g: Graph, person: string, email: Option<string>, ok: bool)
    requires WellFormed(g) && Live(g, person)
    ensures WellFormed(TryMerge(g, person, email, ok)) && TryMerge(g, person, email, ok).nodes == g.nodes
  {
  }

  lemma SettleLive(w: World, k: Key, email: Option<string>, account: Option<string>, person: string, isNew: bool, ok: bool)
    requires AllLive(w)
    ensures AllLive(Settle(w, k, email, account, person, isNew, ok).0)
  {
  }

  lemma CacheHitLive(w: World, email: Option<string>, c: Cache, person: string, ok: bool)
    requires AllLive(World(w.g, c)) && Live(w.g, person)
    ensures AllLive(CacheHit(w, email, c, person, ok).0)
  {
    TryMergeLive(w.g, person, email, ok);
  }

  lemma RememberLive(w: World, k: Key, email: Option<string>, account: Option<string>, person: string)
    requires AllLive(w) && Live(w.g, person)
    ensures AllLive(World(w.g, Remember(w.c, k, email, account, person)))
  {
  }

  lemma ReroutedLive(g: Graph, h: Graph, c: Cache, stale: string, owner: string, email: string)
    requires AllLive(World(g, c)) && WellFormed(h) && h.nodes == g.nodes - {PersonNode(stale)}
    requires Live(g, owner) && owner != stale
    ensures AllLive(World(h, Rerouted(c, stale, owner, email)))
  {
  }

  lemma FoldStep(w: World, stale: string, email: string, a: Answers)
    requires AllLive(w) && Live(w.g, stale) && EmailRow(w.g, email, a.emailRow) && ValidFold(w, stale, email, a)
    ensures AllLive(Reroute(w, stale, email, a).0)
    ensures var (w1, owner) := Reroute(w, stale, email, a);
      if owner.Some? then !Live(w1.g, stale) && Live(w1.g, owner.value) else w1.g.nodes == w.g.nodes && w1.c == w.c
  {
    var owner := Owner(w.c, email, a.emailRow);
    if owner.Some? && owner.value != stale {
      hide ApplyAll, RehomePlan, MoveWrites;
      assert Live(w.g, owner.value);
      RehomeFrame(w.g, stale, owner.value, a.out, a.inn, a.moved);
      var plan := RehomePlan(w.g, stale, owner.value, a.out, a.inn);
      var g := ApplyAll(w.g, plan[..a.moved]);
      if a.moved == |plan| {
        ReroutedLive(w.g, g, w.c, stale, owner.value, email);
        TryMergeLive(g, owner.value, None, a.mergeOk);
      }
    }
  }

  lemma KnownKeyLive(w: World, k: Key, email: Option<string>, a: Answers)
    requires AllLive(w) && k in w.c.providers
    requires email.Some? ==> EmailRow(w.g, email.value, a.emailRow) && ValidFold(w, w.c.providers[k], email.value, a)
    ensures AllLive(KnownKey(w, k, email, a).0)
  {
    hide TryMerge, Reroute, EmailRow, ValidFold;
    var person := w.c.providers[k];
    if email.Some? && !(email.value in w.c.emails && w.c.emails[email.value] == person) {
      FoldStep(w, person, email.value, a);
      var (w1, owner) := Reroute(w, person, email.value, a);
      if owner.None? {
        TryMergeLive(w1.g, person, email, a.mergeOk);
      }
    } else {
      TryMergeLive(w.g, person, email, a.mergeOk);
    }
  }

  lemma AccountRowLive(g: Graph, account: string, row: Option<string>)
    requires WellFormed(g) && AccountRow(g, account, row)
    ensures row.Some? ==> Live(g, row.value)
  {
  }

  lemma CallLive(w: World, q: Request, a: Answers)
    requires AllLive(w) && ValidAnswers(w, q, a)
    ensures AllLive(GetOrCreate(w, q, a).0)
  {
    hide AccountRow, Settle, Remember, TryMerge, KnownKey, ValidFold, IsAtlassian;
    var k, email, account := KeyOf(q), Given(q.email), AccountOf(q);
    if Accepted(q) {
      if k in w.c.providers {
        KnownKeyLive(w, k, email, a);
      } else if email.Some? && email.value in w.c.emails {
        RememberLive(w, k, None, account, w.c.emails[email.value]);
        CacheHitLive(w, email, Remember(w.c, k, None, account, w.c.emails[email.value]), w.c.emails[email.value], a.mergeOk);
      } else if account.Some? && account.value in w.c.accounts {
        var person := w.c.accounts[account.value];
        RememberLive(w, k, email, None, person);
        CacheHitLive(w, email, Remember(w.c, k, email, None, person), person, a.mergeOk);
      }
      forall p, isNew {
        SettleLive(w, k, email, account, p, isNew, a.mergeOk);
      }
    }
  }

  ghost predicate WritesMapping(w: Write, id: string, person: string) {
    || w == MergeNode(Node("IdentityMapping", id))
    || (w.MergeRel? && w.src == Node("IdentityMapping", id) && w.typ == MapsTo && w.dst == PersonNode(person))
  }

  /** Each statement of a flush writes a queued mapping's node, or its edge to the queued Person. */
  lemma {:induction false} FlushPlanEntry(pending: map<string, Pending>, order: seq<string>, i: nat)
    requires AllPending(order, pending) && i < 2 * |order|
    ensures exists id :: id in pending && WritesMapping(FlushPlan(pending, order)[i], id, pending[id].person)
  {
    var init, last := order[..|order| - 1], order[|order| - 1];
    assert last in order;
    if i < 2 * |init| {
      FlushPlanEntry(pending, init, i);
    }
  }

  lemma OneMappingWrite(g: Graph, w: Write, id: string, person: string)
    requires WritesMapping(w, id, person) && Live(g, person)
    ensures Apply(g, w).emails == g.emails
    ensures forall p :: Live(Apply(g, w), p) <==> Live(g, p)
    ensures forall n :: n in Apply(g, w).nodes ==> n in g.nodes || n == Node("IdentityMapping", id)
  {
  }

  /** Flushing creates IdentityMapping nodes and MAPS_TO edges, and never a Person. */
  lemma {:induction false} FlushCreatesNoPerson(g: Graph, pending: map<string, Pending>, order: seq<string>, sent: nat)
    requires WellFormed(g) && AllPending(order, pending) && sent <= 2 * |order|
    requires forall i :: i in pending ==> Live(g, pending[i].person)
    ensures var h := ApplyAll(g, FlushPlan(pending, order)[..sent]);
      && WellFormed(h) && h.emails == g.emails
      && (forall p :: Live(h, p) <==> Live(g, p))
      && (forall n :: n in h.nodes ==> n in g.nodes || (n.kind == "IdentityMapping" && n.id in pending))
  {
    hide FlushPlan, Apply, WellFormed, WritesMapping;
    var plan := FlushPlan(pending, order);
    var ws := plan[..sent];
    ApplyAllKeepsWellFormed(g, ws);
    if sent > 0 {
      FlushCreatesNoPerson(g, pending, order, sent - 1);
      assert ws[..sent - 1] == plan[..sent - 1];
      FlushPlanEntry(pending, order, sent - 1);
      var id :| id in pending && WritesMapping(plan[sent - 1], id, pending[id].person);
      OneMappingWrite(ApplyAll(g, plan[..sent - 1]), plan[sent - 1], id, pending[id].person);
    }
  }

  /**
   Every id in the three indexes, in the queue of mappings and in the set of
   flushed Persons names a Person that exists: after any step, failing or not.
   */
  lemma StepKeepsLive(w: World, ev: Event)
    requires AllLive(w) && Possible(w, ev)
    ensures AllLive(Step(w, ev))
  {
    match ev
    case Call(q, a) => CallLive(w, q, a);
    case QueueMapping(_, _, _) =>
    case FlushMappings(order, sent) =>
      FlushCreatesNoPerson(w.g, w.c.pending, order, sent);
  }

  lemma {:induction false} RunKeepsLive(ws: seq<World>, evs: seq<Event>, i: nat)
    requires IsRun(ws, evs) && AllLive(ws[0]) && i < |ws|
    ensures AllLive(ws[i])
  {
    if i > 0 {
      RunKeepsLive(ws, evs, i - 1);
      assert ws[i - 1 + 1] == Step(ws[i - 1], evs[i - 1]);
      StepKeepsLive(ws[i - 1], evs[i - 1]);
    }
  }

  /** No index value, queued mapping, flushed mark, email or edge mentions the Person. */
  ghost predicate Unmentioned(w: World, p: string) {
    && !Live(w.g, p) && p !in w.g.emails && p !in w.c.flushed
    && (forall k :: k in w.c.providers ==> w.c.providers[k] != p)
    && (forall e :: e in w.c.emails ==> w.c.emails[e] != p)
    && (forall x :: x in w.c.accounts ==> w.c.accounts[x] != p)
    && (forall i :: i in w.c.pending ==> w.c.pending[i].person != p)
    && (forall i :: i in w.g.edges ==> !Touches(TripleOf(w.g.edges[i]), PersonNode(p)))
  }

  /** After a fold that got through, nothing refers to the folded Person, and the call returns the owner. */
  lemma FoldLeavesNoTrace(w: World, q: Request, a: Answers)
    requires AllLive(w) && ValidAnswers(w, q, a) && Folds(w, q, a) && Unbroken(w, Call(q, a))
    ensures Unmentioned(GetOrCreate(w, q, a).0, w.c.providers[KeyOf(q)])
    ensures GetOrCreate(w, q, a).1 == Found(Owner(w.c, q.email.value, a.emailRow).value, false)
  {
    hide RehomePlan, ApplyAll, EmailRow, AccountRow, TryMerge, IsAtlassian;
    FoldStep(w, w.c.providers[KeyOf(q)], q.email.value, a);
    CallLive(w, q, a);
  }

  // ----------------------------------------------------- One owner per email

  /** A Person carrying an email the cache knows is the Person the cache names for it. */
  ghost predicate EmailsAgree(w: World) {
    && UniqueEmails(w.g)
    && forall e, p :: e in w.c.emails && p in w.g.emails && w.g.emails[p] == e ==> w.c.emails[e] == p
  }

  /** No Person but `person` carries `email`. */
  ghost predicate FreeFor(g: Graph, person: string, email: Option<string>) {
    email.Some? ==> forall p :: p in g.emails && g.emails[p] == email.value ==> p == person
  }

  lemma FreeMeansNoConflict(g: Graph, person: string, email: Option<string>)
    ensures FreeFor(g, person, email) <==> !Conflicts(g, MergePerson(person, email))
  {
  }

  /** Writing an email that is free for the Person, and indexing it there, keeps agreement. */
  lemma MergeAgrees(w: World, person: string, email: Option<string>, c: Cache, ok: bool)
    requires EmailsAgree(w) && FreeFor(w.g, person, email)
    requires c.emails == if email.Some? then w.c.emails[email.value := person] else w.c.emails
    ensures EmailsAgree(World(TryMerge(w.g, person, email, ok), c))
  {
  }

  lemma ReroutedAgrees(w: World, h: Graph, stale: string, owner: string, email: string)
    requires EmailsAgree(w) && h.emails == w.g.emails - {stale} && owner != stale
    requires FreeFor(w.g, owner, Some(email))
    ensures EmailsAgree(World(h, Rerouted(w.c, stale, owner, email)))
  {
  }

  /** The owner the call finds is the only Person that can carry the email. */
  lemma OwnerIsFree(w: World, email: string, row: Option<string>, person: string)
    requires EmailsAgree(w) && EmailRow(w.g, email, row)
    requires Owner(w.c, email, row).Some? ==> Owner(w.c, email, row).value == person
    ensures FreeFor(w.g, person, Some(email))
  {
  }

  lemma KnownKeyAgrees(w: World, k: Key, email: Option<string>, a: Answers)
    requires AllLive(w) && EmailsAgree(w) && k in w.c.providers
    requires email.Some? ==> EmailRow(w.g, email.value, a.emailRow) && ValidFold(w, w.c.providers[k], email.value, a)
    requires email.Some? && Owner(w.c, email.value, a.emailRow).Some? ==>
      var owner := Owner(w.c, email.value, a.emailRow).value;
      owner != w.c.providers[k] ==> a.moved == |RehomePlan(w.g, w.c.providers[k], owner, a.out, a.inn)|
    ensures EmailsAgree(KnownKey(w, k, email, a).0)
  {
    hide RehomePlan, ApplyAll, TryMerge, EmailsAgree, EmailRow, FreeFor;
    var person := w.c.providers[k];
    if email.Some? {
      var owner := Owner(w.c, email.value, a.emailRow);
      if owner.Some? && owner.value != person {
        OwnerIsFree(w, email.value, a.emailRow, owner.value);
        assert Live(w.g, owner.value) by { OwnerLive(w, email.value, a.emailRow); }
        RehomeFrame(w.g, person, owner.value, a.out, a.inn, a.moved);
        var plan := RehomePlan(w.g, person, owner.value, a.out, a.inn);
        var g := ApplyAll(w.g, plan[..a.moved]);
        ReroutedAgrees(w, g, person, owner.value, email.value);
        NoEmailAgrees(World(g, Rerouted(w.c, person, owner.value, email.value)), owner.value, a.mergeOk);
      } else {
        OwnerIsFree(w, email.value, a.emailRow, person);
        var c := w.c.(emails := w.c.emails[email.value := person]);
        MergeAgrees(w, person, email, c, a.mergeOk);
        if email.value in w.c.emails {
          assert c == w.c;
        }
      }
    } else {
      NoEmailAgrees(w, person, a.mergeOk);
    }
  }

  lemma OwnerLive(w: World, email: string, row: Option<string>)
    requires AllLive(w) && EmailRow(w.g, email, row)
    ensures Owner(w.c, email, row).Some? ==> Live(w.g, Owner(w.c, email, row).value)
  {
  }

  lemma NoEmailAgrees(w: World, person: string, ok: bool)
    requires EmailsAgree(w)
    ensures EmailsAgree(World(TryMerge(w.g, person, None, ok), w.c))
  {
    assert FreeFor(w.g, person, None);
    MergeAgrees(w, person, None, w.c, ok);
  }

  lemma SettleAgrees(w: World, k: Key, email: Option<string>, account: Option<string>, person: string, isNew: bool, ok: bool)
    requires EmailsAgree(w) && FreeFor(w.g, person, email)
    ensures var (w1, r) := Settle(w, k, email, account, person, isNew, ok);
      && EmailsAgree(w1)
      && (ok ==> r == Found(person, isNew) && Carries(w1.g, person, email))
  {
    FreeMeansNoConflict(w.g, person, email);
    MergeAgrees(w, person, email, Remember(w.c, k, email, account, person), ok);
  }

  lemma CacheHitAgrees(w: World, email: Option<string>, c: Cache, person: string, ok: bool)
    requires EmailsAgree(w) && FreeFor(w.g, person, email)
    requires c.emails == if email.Some? then w.c.emails[email.value := person] else w.c.emails
    ensures var (w1, r) := CacheHit(w, email, c, person, ok);
      && EmailsAgree(w1)
      && (ok ==> r == Found(person, false) && Carries(w1.g, person, email))
  {
    FreeMeansNoConflict(w.g, person, email);
    MergeAgrees(w, person, email, c, ok);
  }

  ghost predicate Carries(g: Graph, person: string, email: Option<string>) {
    email.Some? ==> person in g.emails && g.emails[person] == email.value
  }

  lemma FromDatabaseAgrees(w: World, k: Key, email: Option<string>, account: Option<string>, atlassian: bool, a: Answers)
    requires EmailsAgree(w) && (atlassian ==> account.Some?)
    requires email.Some? ==> email.value !in w.c.emails && EmailRow(w.g, email.value, a.emailRow)
    ensures var (w1, r) := FromDatabase(w, k, email, account, atlassian, a);
      && EmailsAgree(w1)
      && (a.mergeOk ==> r.Found? && Carries(w1.g, r.person, email))
  {
    hide EmailsAgree, Settle, CacheHit, Carries;
    forall person | email.None? || a.emailRow.None? || a.emailRow == Some(person)
      ensures FreeFor(w.g, person, email)
    {
      if email.Some? {
        OwnerIsFree(w, email.value, a.emailRow, person);
      }
    }
    forall person, isNew | FreeFor(w.g, person, email) {
      SettleAgrees(w, k, email, account, person, isNew, a.mergeOk);
    }
    if atlassian && account.value in w.c.accounts && (email.None? || a.emailRow.None?) {
      var person := w.c.accounts[account.value];
      CacheHitAgrees(w, email, Remember(w.c, k, email, None, person), person, a.mergeOk);
    }
  }

  /** The unknown-key branches: neither fold nor failure can come from the uniqueness constraint. */
  lemma CallAgrees(w: World, q: Request, a: Answers)
    requires AllLive(w) && EmailsAgree(w) && ValidAnswers(w, q, a) && Unbroken(w, Call(q, a))
    ensures EmailsAgree(GetOrCreate(w, q, a).0)
    ensures Accepted(q) && a.mergeOk ==>
      var (w1, r) := GetOrCreate(w, q, a);
      r.Found? && (!Folds(w, q, a) ==> Carries(w1.g, r.person, Given(q.email)))
  {
    hide EmailsAgree, FromDatabase, CacheHit, AccountRow, IsAtlassian, RehomePlan, ApplyAll, Remember;
    var k, email, account := KeyOf(q), Given(q.email), AccountOf(q);
    if Accepted(q) {
      if k in w.c.providers {
        KnownKeyAgrees(w, k, email, a);
        if email.Some? && !Folds(w, q, a) {
          OwnerIsFree(w, email.value, a.emailRow, w.c.providers[k]);
          FreeMeansNoConflict(w.g, w.c.providers[k], email);
        }
      } else if email.Some? && email.value in w.c.emails {
        var person := w.c.emails[email.value];
        OwnerIsFree(w, email.value, a.emailRow, person);
        RememberedEmails(w.c, k, email.value, account);
        CacheHitAgrees(w, email, Remember(w.c, k, None, account, person), person, a.mergeOk);
      } else {
        FromDatabaseAgrees(w, k, email, account, IsAtlassian(q.provider), a);
      }
    }
  }

  lemma RememberedEmails(c: Cache, k: Key, email: string, account: Option<string>)
    requires email in c.emails
    ensures Remember(c, k, None, account, c.emails[email]).emails == c.emails[email := c.emails[email]]
  {
  }

  lemma StepKeepsEmailsAgree(w: World, ev: Event)
    requires AllLive(w) && EmailsAgree(w) && Possible(w, ev) && Unbroken(w, ev)
    ensures EmailsAgree(Step(w, ev))
  {
    match ev
    case Call(q, a) => CallAgrees(w, q, a);
    case QueueMapping(_, _, _) =>
    case FlushMappings(order, sent) =>
      FlushCreatesNoPerson(w.g, w.c.pending, order, sent);
  }

  /**
   Along any run whose folds get through, emails have one owner, and so no
   `merge_person` is ever turned away by the uniqueness constraint: a call
   raises only when the statement itself fails.
   */
  lemma {:induction false} RunKeepsEmailsAgree(ws: seq<World>, evs: seq<Event>, i: nat)
    requires IsRun(ws, evs) && AllLive(ws[0]) && EmailsAgree(ws[0]) && i < |ws|
    requires forall j :: 0 <= j < |evs| ==> Unbroken(ws[j], evs[j])
    ensures AllLive(ws[i]) && EmailsAgree(ws[i])
    ensures i < |evs| && evs[i].Call? && evs[i].a.mergeOk ==> GetOrCreate(ws[i], evs[i].q, evs[i].a).1 != Raised
  {
    hide AllLive, EmailsAgree, GetOrCreate, ValidAnswers, Unbroken, Step, Folds, Carries;
    RunKeepsLive(ws, evs, i);
    if i > 0 {
      RunKeepsEmailsAgree(ws, evs, i - 1);
      assert ws[i - 1 + 1] == Step(ws[i - 1], evs[i - 1]);
      StepKeepsEmailsAgree(ws[i - 1], evs[i - 1]);
    }
    if i < |evs| && evs[i].Call? {
      CallAgrees(ws[i], evs[i].q, evs[i].a);
      RejectedOrNot(ws[i], evs[i].q, evs[i].a);
    }
  }

  lemma RejectedOrNot(w: World, q: Request, a: Answers)
    requires ValidAnswers(w, q, a)
    ensures GetOrCreate(w, q, a).1 == Rejected <==> !Accepted(q)
  {
    hide TryMerge, EmailRow, AccountRow, ApplyAll, RehomePlan, IsAtlassian;
  }

  // -------------------------------------------------------------- Stability

  /** A thing that resolves to a Person: a provider key or an email. */
  datatype Handle = ByKey(k: Key) | ByEmail(e: string)

  function Home(c: Cache, h: Handle): Option<string> {
    match h
    case ByKey(k) => if k in c.providers then Some(c.providers[k]) else None
    case ByEmail(e) => if e in c.emails then Some(c.emails[e]) else None
  }

  predicate Together(c: Cache, h1: Handle, h2: Handle) {
    Home(c, h1).Some? && Home(c, h1) == Home(c, h2)
  }

  /** What a handle resolves to once a call settled it on `person`. */
  ghost predicate Settled(c: Cache, d: Cache, k: Key, email: Option<string>, person: string) {
    && Home(d, ByKey(k)) == Some(person)
    && (email.Some? ==> Home(d, ByEmail(email.value)) == Some(person))
    && (forall h: Handle :: h != ByKey(k) && (email.Some? ==> h != ByEmail(email.value)) ==> Home(d, h) == Home(c, h))
  }

  lemma RememberSettles(c: Cache, k: Key, email: Option<string>, account: Option<string>, person: string)
    ensures Settled(c, Remember(c, k, email, account, person), k, email, person)
  {
  }

  lemma FromDatabaseSettles(w: World, k: Key, email: Option<string>, account: Option<string>, atlassian: bool, a: Answers)
    requires atlassian ==> account.Some?
    ensures var (w1, r) := FromDatabase(w, k, email, account, atlassian, a);
      if r.Found? then Settled(w.c, w1.c, k, email, r.person) else w1 == w
  {
    hide Remember, Settled, TryMerge, Conflicts, Apply;
    forall person, x {
      RememberSettles(w.c, k, email, x, person);
    }
  }

  lemma ReroutedHomes(c: Cache, stale: string, owner: string, email: string, h: Handle)
    ensures var d := Rerouted(c, stale, owner, email);
      && Home(d, ByEmail(email)) == Some(owner)
      && (h != ByEmail(email) && Home(c, h).Some? ==>
            Home(d, h) == Some(if Home(c, h).value == stale then owner else Home(c, h).value))
      && (Home(d, h).Some? ==> h == ByEmail(email) || Home(c, h).Some?)
  {
  }

  /** The known-key branch: all handles of the folded Person move to the owner, or only the email is added. */
  lemma KnownKeyHomes(w: World, k: Key, email: Option<string>, a: Answers, h: Handle)
    requires k in w.c.providers
    requires email.Some? ==> ValidFold(w, w.c.providers[k], email.value, a)
    ensures var (w1, r) := KnownKey(w, k, email, a);
      && r.Found? && Home(w1.c, ByKey(k)) == Some(r.person)
      && (email.Some? ==> Home(w1.c, ByEmail(email.value)) == Some(r.person))
      && (Home(w.c, h).Some? && (email.Some? && h == ByEmail(email.value) ==> r.person == Home(w.c, h).value) ==>
            Home(w1.c, h) == Some(if Home(w.c, h).value == w.c.providers[k] then r.person else Home(w.c, h).value))
      && (Home(w1.c, h).Some? ==> (email.Some? && h == ByEmail(email.value)) || Home(w.c, h).Some?)
  {
    hide TryMerge, ApplyAll, RehomePlan, Rerouted;
    var person := w.c.providers[k];
    if email.Some? && Owner(w.c, email.value, a.emailRow).Some? {
      var owner := Owner(w.c, email.value, a.emailRow).value;
      ReroutedHomes(w.c, person, owner, email.value, h);
      ReroutedHomes(w.c, person, owner, email.value, ByKey(k));
    }
  }

  /** A call that finds a Person leaves its key and its email there, whatever failed on the way. */
  lemma CallSettles(w: World, q: Request, a: Answers)
    requires ValidAnswers(w, q, a) && GetOrCreate(w, q, a).1.Found?
    ensures var (w1, r) := GetOrCreate(w, q, a);
      && Home(w1.c, ByKey(KeyOf(q))) == Some(r.person)
      && (Given(q.email).Some? ==> Home(w1.c, ByEmail(q.email.value)) == Some(r.person))
  {
    hide EmailRow, AccountRow, IsAtlassian, KnownKey, FromDatabase, Remember, TryMerge, ValidFold;
    var k, email, account := KeyOf(q), Given(q.email), AccountOf(q);
    if k in w.c.providers {
      KnownKeyHomes(w, k, email, a, ByKey(k));
    } else if email.Some? && email.value in w.c.emails {
      RememberSettles(w.c, k, None, account, w.c.emails[email.value]);
    } else {
      FromDatabaseSettles(w, k, email, account, IsAtlassian(q.provider), a);
    }
  }

  /** The Person an earlier Person is known as after an event. */
  ghost function KnownAs(w: World, ev: Event, p: string): string
    requires Possible(w, ev)
  {
    if ev.Call? && Folds(w, ev.q, ev.a) && p == w.c.providers[KeyOf(ev.q)]
    then Owner(w.c, ev.q.email.value, ev.a.emailRow).value
    else p
  }

  lemma CallMovesTogether(w: World, q: Request, a: Answers, h: Handle)
    requires ValidAnswers(w, q, a) && Unbroken(w, Call(q, a)) && Home(w.c, h).Some?
    ensures Home(GetOrCreate(w, q, a).0.c, h) == Some(KnownAs(w, Call(q, a), Home(w.c, h).value))
  {
    hide EmailRow, AccountRow, IsAtlassian, FromDatabase, Remember, TryMerge, ApplyAll, RehomePlan, Rerouted;
    var k, email, account := KeyOf(q), Given(q.email), AccountOf(q);
    if Accepted(q) {
      if k in w.c.providers {
        KnownKeyHomes(w, k, email, a, h);
      } else if email.Some? && email.value in w.c.emails {
        RememberSettles(w.c, k, None, account, w.c.emails[email.value]);
      } else {
        FromDatabaseSettles(w, k, email, account, IsAtlassian(q.provider), a);
      }
    }
  }

  /** An event moves a Person's keys and emails all at once, or not at all. */
  lemma StepMovesTogether(w: World, ev: Event, h: Handle)
    requires Possible(w, ev) && Unbroken(w, ev) && Home(w.c, h).Some?
    ensures Home(Step(w, ev).c, h) == Some(KnownAs(w, ev, Home(w.c, h).value))
  {
    hide GetOrCreate, ValidAnswers, Folds, ApplyAll;
    if ev.Call? {
      CallMovesTogether(w, ev.q, ev.a, h);
    }
  }

  /** Once two keys or emails share a Person, they share one in every later state. */
  lemma {:induction false} RunKeepsTogether(ws: seq<World>, evs: seq<Event>, i: nat, j: nat, h1: Handle, h2: Handle)
    requires IsRun(ws, evs) && i <= j < |ws| && Together(ws[i].c, h1, h2)
    requires forall n :: 0 <= n < |evs| ==> Unbroken(ws[n], evs[n])
    ensures Together(ws[j].c, h1, h2)
    decreases j - i
  {
    hide Possible, Unbroken, Step;
    if i < j {
      assert ws[i + 1] == Step(ws[i], evs[i]);
      StepMovesTogether(ws[i], evs[i], h1);
      StepMovesTogether(ws[i], evs[i], h2);
      RunKeepsTogether(ws, evs, i + 1, j, h1, h2);
    }
  }

  /**
   The exclusion is needed: when a fold breaks off, the call moves the one email
   to the Person it had and leaves everything else of its owner behind.
   */
  lemma BrokenFoldSplits(w: World, q: Request, a: Answers, h: Handle)
    requires ValidAnswers(w, q, a) && Folds(w, q, a) && !Unbroken(w, Call(q, a))
    requires h != ByEmail(q.email.value) && Together(w.c, h, ByEmail(q.email.value))
    ensures !Together(GetOrCreate(w, q, a).0.c, h, ByEmail(q.email.value))
  {
    hide EmailRow, AccountRow, IsAtlassian, TryMerge, ApplyAll, RehomePlan;
  }

  // ------------------------------------------------------ Accounts and emails

  /** A Jira or Confluence call with a new key, whose account the cache already knows. */
  ghost predicate KnownAccount(w: World, q: Request, a: Answers) {
    && ValidAnswers(w, q, a) && a.mergeOk && Accepted(q) && IsAtlassian(q.provider)
    && KeyOf(q) !in w.c.providers && AccountOf(q).value in w.c.accounts
  }

  lemma SettleFinds(w: World, k: Key, email: Option<string>, account: Option<string>, person: string, isNew: bool)
    requires EmailsAgree(w) && FreeFor(w.g, person, email)
    ensures Home(Settle(w, k, email, account, person, isNew, true).0.c, ByKey(k)) == Some(person)
  {
    FreeMeansNoConflict(w.g, person, email);
  }

  /**
   An account does not always keep its keys together: a new key of a known account
   joins the Person of the account's earlier keys if and only if the call's email has
   no owner or is that Person's.  Otherwise the email wins, and the keys of one account
   sit on two Persons.
   */
  lemma AccountYieldsToEmail(w: World, q: Request, a: Answers, earlier: Key)
    requires EmailsAgree(w) && KnownAccount(w, q, a)
    requires Home(w.c, ByKey(earlier)) == Some(w.c.accounts[AccountOf(q).value])
    ensures Together(GetOrCreate(w, q, a).0.c, ByKey(earlier), ByKey(KeyOf(q))) <==>
      (Given(q.email).None? || Owner(w.c, q.email.value, a.emailRow) in {None, Home(w.c, ByKey(earlier))})
    ensures Home(GetOrCreate(w, q, a).0.c, ByKey(earlier)) == Home(w.c, ByKey(earlier))
  {
    hide EmailsAgree, AccountRow, IsAtlassian, RehomePlan, ApplyAll, TryMerge, FreeFor, Settle;
    var k, email, account := KeyOf(q), Given(q.email), AccountOf(q);
    if email.Some? && email.value in w.c.emails {
      RememberSettles(w.c, k, None, account, w.c.emails[email.value]);
    } else {
      FromDatabaseSettles(w, k, email, account, IsAtlassian(q.provider), a);
      if email.Some? && a.emailRow.Some? {
        OwnerIsFree(w, email.value, a.emailRow, a.emailRow.value);
        SettleFinds(w, k, email, account, a.emailRow.value, false);
      }
    }
  }

  lemma SettleKeepsAccount(w: World, k: Key, email: Option<string>, account: string, person: string, isNew: bool, ok: bool)
    ensures var (w1, r) := Settle(w, k, email, Some(account), person, isNew, ok);
      r.Found? ==> account in w1.c.accounts && w1.c.accounts[account] == r.person
  {
  }

  lemma FromAccountSettles(w: World, k: Key, email: Option<string>, account: string, a: Answers)
    ensures var (w1, r) := FromAccount(w, k, email, account, a);
      r.Found? ==> account in w1.c.accounts && w1.c.accounts[account] == r.person
  {
    hide TryMerge, Settle;
    if account !in w.c.accounts {
      var person := if a.accountRow.Some? then a.accountRow.value else FallbackId(k);
      SettleKeepsAccount(w, k, email, account, person, a.accountRow.None? && !Live(w.g, FallbackId(k)), a.mergeOk);
    }
  }

  lemma FromDatabaseSettlesAccount(w: World, k: Key, email: Option<string>, account: string, atlassian: bool, a: Answers)
    ensures var (w1, r) := FromDatabase(w, k, email, Some(account), atlassian, a);
      r.Found? ==> account in w1.c.accounts && w1.c.accounts[account] == r.person
  {
    hide Settle, FromAccount;
    if email.Some? && a.emailRow.Some? {
      SettleKeepsAccount(w, k, email, account, a.emailRow.value, false, a.mergeOk);
    } else if atlassian {
      FromAccountSettles(w, k, email, account, a);
    } else {
      SettleKeepsAccount(w, k, email, account, FallbackId(k), !Live(w.g, FallbackId(k)), a.mergeOk);
    }
  }

  /** A call with a new key leaves the account it knows of on the Person it returns. */
  lemma CallSettlesAccount(w: World, q: Request, a: Answers)
    requires ValidAnswers(w, q, a) && GetOrCreate(w, q, a).1.Found?
    requires KeyOf(q) !in w.c.providers && AccountOf(q).Some?
    ensures var (w1, r) := GetOrCreate(w, q, a);
      AccountOf(q).value in w1.c.accounts && w1.c.accounts[AccountOf(q).value] == r.person
  {
    hide ValidAnswers, IsAtlassian, TryMerge, FromDatabase;
    if Given(q.email).None? || q.email.value !in w.c.emails {
      FromDatabaseSettlesAccount(w, KeyOf(q), Given(q.email), AccountOf(q).value, IsAtlassian(q.provider), a);
    }
  }

  // ------------------------------------------------------- New and old Persons

  lemma KnownKeyIsOld(w: World, k: Key, email: Option<string>, a: Answers)
    requires AllLive(w) && k in w.c.providers
    requires email.Some? ==> EmailRow(w.g, email.value, a.emailRow) && ValidFold(w, w.c.providers[k], email.value, a)
    ensures KnownKey(w, k, email, a).1.Found? && !KnownKey(w, k, email, a).1.isNew
    ensures Live(w.g, KnownKey(w, k, email, a).1.person)
  {
    hide TryMerge, ApplyAll, RehomePlan, Rerouted, EmailRow;
    if email.Some? {
      OwnerLive(w, email.value, a.emailRow);
    }
  }

  /** A call reports a new Person exactly when the one it returns did not exist before; it exists afterwards. */
  lemma NewMeansCreated(w: World, q: Request, a: Answers)
    requires AllLive(w) && ValidAnswers(w, q, a) && GetOrCreate(w, q, a).1.Found?
    ensures var (w1, r) := GetOrCreate(w, q, a);
      (r.isNew <==> !Live(w.g, r.person)) && Live(w1.g, r.person)
  {
    hide EmailRow, AccountRow, IsAtlassian, TryMerge, KnownKey, Remember, Apply, Conflicts, ValidFold;
    var k, email, account := KeyOf(q), Given(q.email), AccountOf(q);
    CallLive(w, q, a);
    CallSettles(w, q, a);
    if k in w.c.providers {
      KnownKeyIsOld(w, k, email, a);
    } else {
      if email.Some? {
        OwnerLive(w, email.value, a.emailRow);
      }
      if account.Some? {
        AccountRowLive(w.g, account.value, a.accountRow);
      }
    }
  }

  // ------------------------------------------------------------ What a flush adds

  function MappingTriple(id: string, person: string): Triple {
    Triple(Node("IdentityMapping", id), MapsTo, PersonNode(person))
  }

  lemma MappingTriples(g: Graph, id: string, person: string)
    requires WellFormed(g)
    ensures WellFormed(ApplyAll(g, MappingWrites(id, person)))
    ensures Triples(ApplyAll(g, MappingWrites(id, person))) == Triples(g) + {MappingTriple(id, person)}
  {
    hide ApplyAll, Apply, WellFormed, Triples, RelationshipWrites;
    var node, rel := MergeNode(Node("IdentityMapping", id)), MapsToRel(id, person);
    ApplyAllKeepsWellFormed(g, MappingWrites(id, person));
    ApplyAllKeepsWellFormed(g, [node]);
    ApplyAllAppend(g, [node], RelationshipWrites(rel));
    NodeAddsNoTriple(g, node.n);
    RelationshipTriples(ApplyAll(g, [node]), rel);
    assert WithPartner(Triple(rel.src, rel.typ, rel.dst)) == {MappingTriple(id, person)};
  }

  lemma NodeAddsNoTriple(g: Graph, n: Node)
    ensures Triples(ApplyAll(g, [MergeNode(n)])) == Triples(g)
  {
    assert [MergeNode(n)][..0] == [];
    assert ApplyAll(g, [MergeNode(n)]) == Apply(ApplyAll(g, []), MergeNode(n));
    assert ApplyAll(g, []) == g;
  }

  /**
   A flush that gets through maps every queued identity to the Person the queue names
   for it, which reroutes have kept up to date, and adds no other edge.
   */
  lemma {:induction false} FlushAddsMappings(g: Graph, pending: map<string, Pending>, order: seq<string>)
    requires WellFormed(g) && AllPending(order, pending)
    ensures WellFormed(ApplyAll(g, FlushPlan(pending, order)))
    ensures Triples(ApplyAll(g, FlushPlan(pending, order)))
      == Triples(g) + set i | i in order :: MappingTriple(i, pending[i].person)
  {
    hide ApplyAll, MappingWrites, Triples, WellFormed;
    if order == [] {
      NothingSent(g, []);
    } else {
      var init, last := order[..|order| - 1], order[|order| - 1];
      FlushAddsMappings(g, pending, init);
      MappingTriples(ApplyAll(g, FlushPlan(pending, init)), last, pending[last].person);
      ApplyAllAppend(g, FlushPlan(pending, init), MappingWrites(last, pending[last].person));
      assert order == init + [last];
    }
  }
}
