/**
 The session-level Person cache of src/connectors/commons/person_cache.py:
 what one call does to the three indexes, the pending queue and the graph.

 The first half states each operation as a function of the state before it and
 of what the database answered; the class at the end carries the operations out
 statement by statement and is proved to do exactly that.
 */
module PersonCache {
  import opened Options
  import opened PropertyGraph
  import opened PersonMerge

  datatype Key = Key(provider: string, external: string)

  datatype Identity = Identity(provider: string, username: string, email: string)

  datatype Pending = Pending(identity: Identity, person: string)

  /** The five dictionaries and sets the cache keeps. */
  datatype Cache = Cache(
    emails: map<string, string>,
    accounts: map<string, string>,
    providers: map<Key, string>,
    pending: map<string, Pending>,
    flushed: set<string>)

  const EmptyCache := Cache(map[], map[], map[], map[], {})

  datatype World = World(g: Graph, c: Cache)

  datatype Request = Request(provider: string, external: string, email: Option<string>, account: Option<string>)

  datatype Outcome = Rejected | Raised | Found(person: string, isNew: bool)

  /**
   What the database answered during one call: the row of the lookup by email
   and of the lookup by Atlassian account, the rows a fold reads and how many of
   its statements took effect, and whether a `merge_person` got through.
   */
  datatype Answers = Answers(
    emailRow: Option<string>,
    accountRow: Option<string>,
    out: seq<nat>,
    inn: seq<nat>,
    moved: nat,
    mergeOk: bool)

  predicate IsAtlassian(provider: string) { provider == "jira" || provider == "confluence" }

  function WbaFormat(source: string, kind: string, id: string): string { source + "::" + kind + "::" + id }

  function FallbackId(k: Key): string { WbaFormat(k.provider, "Person", k.external) }

  /** An empty string counts as absent. */
  function Given(s: Option<string>): Option<string> { if s == Some("") then None else s }

  function OrEmpty(s: Option<string>): string { if s.Some? then s.value else "" }

  predicate Accepted(q: Request) { q.provider != "" && q.external != "" }

  function KeyOf(q: Request): Key { Key(q.provider, q.external) }

  function AccountOf(q: Request): Option<string> {
    if IsAtlassian(q.provider) && Given(q.account).None? then Some(q.external) else Given(q.account)
  }

  // ------------------------------------------------------- Database answers

  ghost predicate EmailRow(g: Graph, email: string, row: Option<string>) {
    match row
    case None => forall p :: p in g.emails ==> g.emails[p] != email
    case Some(p) => p in g.emails && g.emails[p] == email
  }

  function IdentityIds(account: string): set<string> {
    {WbaFormat("jira", "IdentityMapping", account), WbaFormat("confluence", "IdentityMapping", account)}
  }

  /** Persons an IdentityMapping of the account maps to. */
  function Mapped(g: Graph, account: string): set<string> {
    set i | i in g.edges && g.edges[i].typ == MapsTo && g.edges[i].src.kind == "IdentityMapping"
      && g.edges[i].src.id in IdentityIds(account) && g.edges[i].dst.kind == "Person" :: g.edges[i].dst.id
  }

  /** Persons whose own id is the account's Jira or Confluence id. */
  function Scoped(g: Graph, account: string): set<string> {
    set p | p in {WbaFormat("jira", "Person", account), WbaFormat("confluence", "Person", account)} && Live(g, p)
  }

  ghost predicate AccountRow(g: Graph, account: string, row: Option<string>) {
    match row
    case Some(p) => p in (if Mapped(g, account) != {} then Mapped(g, account) else Scoped(g, account))
    case None => Mapped(g, account) == {} && Scoped(g, account) == {}
  }

  /** The Person an email belongs to: the cache first, then the database. */
  function Owner(c: Cache, email: string, row: Option<string>): Option<string> {
    if email in c.emails then Some(c.emails[email]) else row
  }

  /** Some answer the lookups could give; it stands in where a call does not need to ask. */
  ghost function AnyAnswers(g: Graph, email: string, account: string): (a: Answers)
    ensures EmailRow(g, email, a.emailRow) && AccountRow(g, account, a.accountRow)
  {
    var emailRow := if p :| p in g.emails && g.emails[p] == email then Some(p) else None;
    var among := if Mapped(g, account) != {} then Mapped(g, account) else Scoped(g, account);
    var accountRow := if p :| p in among then Some(p) else None;
    Answers(emailRow, accountRow, [], [], 0, true)
  }

  ghost predicate ValidAnswers(w: World, q: Request, a: Answers) {
    && (Given(q.email).Some? ==> EmailRow(w.g, q.email.value, a.emailRow))
    && (AccountOf(q).Some? ==> AccountRow(w.g, AccountOf(q).value, a.accountRow))
    && (Accepted(q) && KeyOf(q) in w.c.providers && Given(q.email).Some? ==>
          ValidFold(w, w.c.providers[KeyOf(q)], q.email.value, a))
  }

  ghost predicate ValidFold(w: World, stale: string, email: string, a: Answers) {
    var owner := Owner(w.c, email, a.emailRow);
    owner.Some? && owner.value != stale ==>
      RehomeRows(w.g, stale, a.out, a.inn) && a.moved <= |RehomePlan(w.g, stale, owner.value, a.out, a.inn)|
  }

  // ------------------------------------------------------------- Operations

  /** A `merge_person` whose failure is swallowed. */
  function TryMerge(g: Graph, person: string, email: Option<string>, ok: bool): Graph {
    if ok && !Conflicts(g, MergePerson(person, email)) then Apply(g, MergePerson(person, email)) else g
  }

  function Redirect<K>(m: map<K, string>, stale: string, owner: string): map<K, string> {
    map k | k in m :: if m[k] == stale then owner else m[k]
  }

  function RedirectPending(m: map<string, Pending>, stale: string, owner: string): map<string, Pending> {
    map k | k in m :: if m[k].person == stale then m[k].(person := owner) else m[k]
  }

  /** Every index rewritten after `stale` was folded into `owner`. */
  function Rerouted(c: Cache, stale: string, owner: string, email: string): Cache {
    Cache(Redirect(c.emails, stale, owner)[email := owner],
          Redirect(c.accounts, stale, owner),
          Redirect(c.providers, stale, owner),
          RedirectPending(c.pending, stale, owner),
          c.flushed - {stale})
  }

  /** `_reroute_to_email_owner`: the new state, and the owner when the fold went through. */
  ghost function Reroute(w: World, stale: string, email: string, a: Answers): (World, Option<string>)
    requires ValidFold(w, stale, email, a)
  {
    var owner := Owner(w.c, email, a.emailRow);
    if owner.None? || owner.value == stale then (w, None)
    else
      var plan := RehomePlan(w.g, stale, owner.value, a.out, a.inn);
      var g := ApplyAll(w.g, plan[..a.moved]);
      if a.moved < |plan| then (World(g, w.c), None)
      else
        (World(TryMerge(g, owner.value, None, a.mergeOk), Rerouted(w.c, stale, owner.value, email)), owner)
  }

  /** A reroute reads no row of the account lookup, and no merge when there is no fold. */
  lemma RerouteReads(w: World, stale: string, email: string, a: Answers, b: Answers)
    requires ValidFold(w, stale, email, a) && b == a.(accountRow := b.accountRow)
    ensures ValidFold(w, stale, email, b) && Reroute(w, stale, email, a) == Reroute(w, stale, email, b)
    ensures Reroute(w, stale, email, a).1.None? ==>
      forall ok :: ValidFold(w, stale, email, b.(mergeOk := ok)) && Reroute(w, stale, email, a) == Reroute(w, stale, email, b.(mergeOk := ok))
  {
    hide ApplyAll, RehomePlan, TryMerge, Rerouted, RehomeRows;
  }

  lemma NoFoldIsValid(w: World, stale: string, email: string, a: Answers)
    requires email in w.c.emails && w.c.emails[email] == stale
    ensures ValidFold(w, stale, email, a)
  {
  }

  /** The indexes after a call settled on a Person without going through the provider cache. */
  function Remember(c: Cache, k: Key, email: Option<string>, account: Option<string>, person: string): Cache {
    c.(emails := if email.Some? then c.emails[email.value := person] else c.emails,
       accounts := if account.Some? then c.accounts[account.value := person] else c.accounts,
       providers := c.providers[k := person])
  }

  /** A `merge_person` that must succeed, followed by the index updates. */
  function Settle(w: World, k: Key, email: Option<string>, account: Option<string>, person: string, isNew: bool, ok: bool)
    : (World, Outcome)
  {
    if ok && !Conflicts(w.g, MergePerson(person, email)) then
      (World(Apply(w.g, MergePerson(person, email)), Remember(w.c, k, email, account, person)), Found(person, isNew))
    else
      (w, Raised)
  }

  /** The branch taken when the provider cache already knows the key. */
  ghost function KnownKey(w: World, k: Key, email: Option<string>, a: Answers): (World, Outcome)
    requires k in w.c.providers
    requires email.Some? ==> ValidFold(w, w.c.providers[k], email.value, a)
  {
    var person := w.c.providers[k];
    if email.Some? && !(email.value in w.c.emails && w.c.emails[email.value] == person) then
      var (w1, owner) := Reroute(w, person, email.value, a);
      if owner.Some? then (w1, Found(owner.value, false))
      else
        (World(TryMerge(w1.g, person, email, a.mergeOk), w1.c.(emails := w1.c.emails[email.value := person])),
         Found(person, false))
    else
      (World(TryMerge(w.g, person, email, a.mergeOk), w.c), Found(person, false))
  }

  /** A cache hit on the email index or, for Jira and Confluence, on the account index. */
  function CacheHit(w: World, email: Option<string>, remember: Cache, person: string, ok: bool): (World, Outcome) {
    (World(TryMerge(w.g, person, email, ok), remember), Found(person, false))
  }

  /** The Jira/Confluence branches: the account index, then the database. */
  function FromAccount(w: World, k: Key, email: Option<string>, account: string, a: Answers): (World, Outcome) {
    if account in w.c.accounts then
      CacheHit(w, email, Remember(w.c, k, email, None, w.c.accounts[account]), w.c.accounts[account], a.mergeOk)
    else if a.accountRow.Some? then
      Settle(w, k, email, Some(account), a.accountRow.value, false, a.mergeOk)
    else
      Settle(w, k, email, Some(account), FallbackId(k), !Live(w.g, FallbackId(k)), a.mergeOk)
  }

  /** The branches after both in-memory lookups missed: database, Atlassian account, provider-scoped id. */
  function FromDatabase(w: World, k: Key, email: Option<string>, account: Option<string>, atlassian: bool, a: Answers)
    : (World, Outcome)
    requires atlassian ==> account.Some?
  {
    if email.Some? && a.emailRow.Some? then
      Settle(w, k, email, account, a.emailRow.value, false, a.mergeOk)
    else if atlassian then
      FromAccount(w, k, email, account.value, a)
    else
      Settle(w, k, email, account, FallbackId(k), !Live(w.g, FallbackId(k)), a.mergeOk)
  }

  /** `get_or_create_person`. */
  ghost function GetOrCreate(w: World, q: Request, a: Answers): (World, Outcome)
    requires ValidAnswers(w, q, a)
  {
    var k, email, account := KeyOf(q), Given(q.email), AccountOf(q);
    if !Accepted(q) then (w, Rejected)
    else if k in w.c.providers then KnownKey(w, k, email, a)
    else if email.Some? && email.value in w.c.emails then
      var person := w.c.emails[email.value];
      CacheHit(w, email, Remember(w.c, k, None, account, person), person, a.mergeOk)
    else FromDatabase(w, k, email, account, IsAtlassian(q.provider), a)
  }

  /** `queue_identity_mapping`. */
  function Queue(c: Cache, person: string, identityId: string, identity: Identity): Cache {
    if identityId in c.pending || person in c.flushed then c
    else c.(pending := c.pending[identityId := Pending(identity, person)])
  }

  function MapsToRel(identityId: string, person: string): Relationship {
    Relationship(MapsTo, Node("IdentityMapping", identityId), PersonNode(person), map[], true)
  }

  /** The statements flushing one mapping sends. */
  function MappingWrites(identityId: string, person: string): (ws: seq<Write>)
    ensures |ws| == 2
  {
    [MergeNode(Node("IdentityMapping", identityId))] + RelationshipWrites(MapsToRel(identityId, person))
  }

  ghost predicate Enumerates(order: seq<string>, pending: map<string, Pending>) { Lists(order, pending.Keys) }

  ghost predicate AllPending(order: seq<string>, pending: map<string, Pending>) {
    forall i :: i in order ==> i in pending
  }

  ghost function FlushPlan(pending: map<string, Pending>, order: seq<string>): (ws: seq<Write>)
    requires AllPending(order, pending)
    ensures |ws| == 2 * |order|
  {
    if order == [] then []
    else
      var last := order[|order| - 1];
      FlushPlan(pending, order[..|order| - 1]) + MappingWrites(last, pending[last].person)
  }

  /** Persons of the first `n` mappings of the order. */
  ghost function PersonsOf(pending: map<string, Pending>, order: seq<string>, n: nat): set<string>
    requires AllPending(order, pending)
    requires n <= |order|
  {
    set i | i in order[..n] :: pending[i].person
  }

  /**
   `flush_identity_mappings`, of which `sent` statements took effect: each
   mapping is two statements, and the queue is emptied only when all got through.
   */
  ghost function Flush(w: World, order: seq<string>, sent: nat): World
    requires Enumerates(order, w.c.pending) && sent <= 2 * |order|
  {
    World(ApplyAll(w.g, FlushPlan(w.c.pending, order)[..sent]),
          w.c.(flushed := w.c.flushed + PersonsOf(w.c.pending, order, sent / 2),
               pending := if sent == 2 * |order| then map[] else w.c.pending))
  }

  /** The `n`-th mapping of the order fills the statements `2n` and `2n + 1` of the plan. */
  lemma {:induction false} FlushPlanStep(pending: map<string, Pending>, order: seq<string>, n: nat)
    requires AllPending(order, pending) && n < |order|
    ensures FlushPlan(pending, order)[..2 * n] + MappingWrites(order[n], pending[order[n]].person) <= FlushPlan(pending, order)
  {
    hide MappingWrites;
    var init := order[..|order| - 1];
    if n < |init| {
      FlushPlanStep(pending, init, n);
    }
  }

  lemma FlushResume(pending: map<string, Pending>, order: seq<string>, n: nat, g: Graph, step: nat)
    requires AllPending(order, pending) && n < |order| && step <= 2
    ensures ApplyAll(ApplyAll(g, FlushPlan(pending, order)[..2 * n]), MappingWrites(order[n], pending[order[n]].person)[..step])
      == ApplyAll(g, FlushPlan(pending, order)[..2 * n + step])
  {
    hide ApplyAll, Apply, FlushPlan;
    var plan := FlushPlan(pending, order);
    FlushPlanStep(pending, order, n);
    ResumeWithin(g, plan[..2 * n], MappingWrites(order[n], pending[order[n]].person), step, plan);
  }

  lemma PersonsGrow(pending: map<string, Pending>, order: seq<string>, n: nat)
    requires AllPending(order, pending) && n < |order|
    ensures PersonsOf(pending, order, n + 1) == PersonsOf(pending, order, n) + {pending[order[n]].person}
  {
    assert order[..n + 1] == order[..n] + [order[n]];
  }

  // -------------------------------------------------------------- The class

  /** The rewrite loop `_reroute_to_email_owner` runs over each index. */
  method Rewrite<K(==)>(m: map<K, string>, stale: string, owner: string) returns (r: map<K, string>)
    ensures r == Redirect(m, stale, owner)
  {
    r := m;
    var rest := m.Keys;
    while rest != {}
      invariant rest <= m.Keys == r.Keys
      invariant forall k :: k in m && k in rest ==> r[k] == m[k]
      invariant forall k :: k in m && k !in rest ==> r[k] == Redirect(m, stale, owner)[k]
      decreases rest
    {
      var k :| k in rest;
      rest := rest - {k};
      if m[k] == stale { r := r[k := owner]; }
    }
  }

  method RewritePending(m: map<string, Pending>, stale: string, owner: string) returns (r: map<string, Pending>)
    ensures r == RedirectPending(m, stale, owner)
  {
    r := m;
    var rest := m.Keys;
    while rest != {}
      invariant rest <= m.Keys == r.Keys
      invariant forall k :: k in m && k in rest ==> r[k] == m[k]
      invariant forall k :: k in m && k !in rest ==> r[k] == RedirectPending(m, stale, owner)[k]
      decreases rest
    {
      var k :| k in rest;
      rest := rest - {k};
      if m[k].person == stale { r := r[k := m[k].(person := owner)]; }
    }
  }

  class PersonCache {
    const session: Session
    var emails: map<string, string>
    var accounts: map<string, string>
    var providers: map<Key, string>
    var pending: map<string, Pending>
    var flushed: set<string>

    constructor (s: Session)
      ensures session == s && Now() == World(s.graph, EmptyCache)
    {
      session := s;
      emails, accounts, providers, pending, flushed := map[], map[], map[], map[], {};
    }

    ghost function Now(): World
      reads this, session
    {
      World(session.graph, Cache(emails, accounts, providers, pending, flushed))
    }

    method LookupByEmail(email: string) returns (row: Option<string>)
      ensures EmailRow(session.graph, email, row)
    {
      var g := session.graph;
      var hits := set p | p in g.emails && g.emails[p] == email;
      if hits == {} {
        assert forall p :: p in g.emails && g.emails[p] == email ==> p in hits;
        return None;
      }
      var p :| p in hits;
      return Some(p);
    }

    /** `_lookup_by_atlassian_account`. */
    method LookupByAtlassianAccount(account: string) returns (row: Option<string>)
      ensures AccountRow(session.graph, account, row)
    {
      var mapped := Mapped(session.graph, account);
      if mapped != {} {
        var p :| p in mapped;
        return Some(p);
      }
      var scoped := Scoped(session.graph, account);
      if scoped != {} {
        var p :| p in scoped;
        return Some(p);
      }
      return None;
    }

    /** `_try_merge_richer_person`. */
    method TryMergeRicherPerson(person: string, email: Option<string>) returns (ghost ok: bool)
      modifies session
      ensures session.graph == TryMerge(old(session.graph), person, email, ok)
    {
      var sent := session.Run(MergePerson(person, email));
      ok := sent;
    }

    method RewriteIndexes(stale: string, owner: string, email: string)
      modifies this
      ensures Now() == World(session.graph, Rerouted(old(Now().c), stale, owner, email))
    {
      providers := Rewrite(providers, stale, owner);
      accounts := Rewrite(accounts, stale, owner);
      emails := Rewrite(emails, stale, owner);
      emails := emails[email := owner];
      flushed := flushed - {stale};
      pending := RewritePending(pending, stale, owner);
    }

    /** `_reroute_to_email_owner`. */
    method RerouteToEmailOwner(stale: string, email: string) returns (owner: Option<string>, ghost a: Answers)
      modifies this, session
      ensures EmailRow(old(session.graph), email, a.emailRow)
      ensures ValidFold(old(Now()), stale, email, a)
      ensures (Now(), owner) == Reroute(old(Now()), stale, email, a)
    {
      hide ApplyAll, Apply, Redirect, RedirectPending, AnyAnswers;
      a := AnyAnswers(session.graph, email, "");
      if email in emails {
        owner := Some(emails[email]);
      } else {
        owner := LookupByEmail(email);
        a := a.(emailRow := owner);
      }
      if owner.None? || owner.value == stale {
        return None, a;
      }
      var ok; ghost var done; ghost var out; ghost var inn;
      ok, done, out, inn := RehomePerson(session, stale, owner.value);
      a := a.(moved := done, out := out, inn := inn);
      if !ok {
        return None, a;
      }
      RewriteIndexes(stale, owner.value, email);
      ghost var merged := TryMergeRicherPerson(owner.value, None);
      a := a.(mergeOk := merged);
    }

    /** `get_or_create_person`. */
    method GetOrCreatePerson(q: Request) returns (r: Outcome, ghost a: Answers)
      modifies this, session
      ensures ValidAnswers(old(Now()), q, a)
      ensures (Now(), r) == GetOrCreate(old(Now()), q, a)
    {
      hide KnownKey, CacheHit, FromDatabase, EmailRow, AccountRow, ValidFold, AnyAnswers, IsAtlassian;
      var k, email, account := KeyOf(q), Given(q.email), AccountOf(q);
      a := AnyAnswers(session.graph, OrEmpty(email), OrEmpty(account));
      if !Accepted(q) {
        r := Rejected;
      } else if k in providers {
        r, a := OnKnownKey(k, email, a);
      } else if email.Some? && email.value in emails {
        ghost var merged;
        r, merged := OnCacheHit(k, email, None, account, emails[email.value]);
        a := a.(mergeOk := merged);
      } else {
        r, a := OnDatabase(k, email, account, IsAtlassian(q.provider), a);
      }
    }

    method OnKnownKey(k: Key, email: Option<string>, ghost a0: Answers) returns (r: Outcome, ghost a: Answers)
      requires k in providers
      modifies this, session
      ensures a.accountRow == a0.accountRow
      ensures email.Some? ==> EmailRow(old(session.graph), email.value, a.emailRow)
      ensures email.Some? ==> ValidFold(old(Now()), old(providers[k]), email.value, a)
      ensures (Now(), r) == KnownKey(old(Now()), k, email, a)
    {
      hide EmailRow, AccountRow, TryMerge, Reroute, ValidFold;
      var person := providers[k];
      a := a0;
      if email.Some? {
        a := a.(emailRow := AnyAnswers(session.graph, email.value, "").emailRow);
        if !(email.value in emails && emails[email.value] == person) {
          var owner; ghost var fold;
          owner, fold := RerouteToEmailOwner(person, email.value);
          a := fold.(accountRow := a0.accountRow);
          RerouteReads(old(Now()), person, email.value, fold, a);
          if owner.Some? {
            return Found(owner.value, false), a;
          }
          emails := emails[email.value := person];
        } else {
          forall ok {
            NoFoldIsValid(old(Now()), person, email.value, a.(mergeOk := ok));
          }
        }
      }
      ghost var merged := TryMergeRicherPerson(person, email);
      return Found(person, false), a.(mergeOk := merged);
    }

    method OnCacheHit(k: Key, email: Option<string>, newEmail: Option<string>, newAccount: Option<string>, person: string)
      returns (r: Outcome, ghost ok: bool)
      modifies this, session
      ensures var w := old(Now());
        (Now(), r) == CacheHit(w, email, Remember(w.c, k, newEmail, newAccount, person), person, ok)
    {
      providers := providers[k := person];
      if newEmail.Some? { emails := emails[newEmail.value := person]; }
      if newAccount.Some? { accounts := accounts[newAccount.value := person]; }
      ok := TryMergeRicherPerson(person, email);
      r := Found(person, false);
    }

    method OnDatabase(k: Key, email: Option<string>, account: Option<string>, atlassian: bool, ghost a0: Answers)
      returns (r: Outcome, ghost a: Answers)
      requires atlassian ==> account.Some?
      requires email.Some? ==> EmailRow(session.graph, email.value, a0.emailRow)
      requires account.Some? ==> AccountRow(session.graph, account.value, a0.accountRow)
      modifies this, session
      ensures email.Some? ==> EmailRow(old(session.graph), email.value, a.emailRow)
      ensures account.Some? ==> AccountRow(old(session.graph), account.value, a.accountRow)
      ensures (Now(), r) == FromDatabase(old(Now()), k, email, account, atlassian, a)
    {
      hide EmailRow, AccountRow, Settle, FromAccount;
      a := a0;
      ghost var sent;
      var row := None;
      if email.Some? {
        row := LookupByEmail(email.value);
        a := a.(emailRow := row);
      }
      if row.Some? {
        r, sent := MergeThenRemember(k, email, account, row.value, false);
        a := a.(mergeOk := sent);
      } else if atlassian {
        r, a := OnAccount(k, email, account.value, a);
      } else {
        r, sent := MergeThenRemember(k, email, account, FallbackId(k), !Live(session.graph, FallbackId(k)));
        a := a.(mergeOk := sent);
      }
    }

    method OnAccount(k: Key, email: Option<string>, account: string, ghost a0: Answers)
      returns (r: Outcome, ghost a: Answers)
      requires AccountRow(session.graph, account, a0.accountRow)
      modifies this, session
      ensures a.emailRow == a0.emailRow && AccountRow(old(session.graph), account, a.accountRow)
      ensures (Now(), r) == FromAccount(old(Now()), k, email, account, a)
    {
      hide AccountRow, Settle, CacheHit;
      ghost var sent;
      if account in accounts {
        r, sent := OnCacheHit(k, email, email, None, accounts[account]);
        a := a0.(mergeOk := sent);
      } else {
        var row := LookupByAtlassianAccount(account);
        var person := if row.Some? then row.value else FallbackId(k);
        r, sent := MergeThenRemember(k, email, Some(account), person, row.None? && !Live(session.graph, person));
        a := a0.(accountRow := row, mergeOk := sent);
      }
    }

    method MergeThenRemember(k: Key, email: Option<string>, account: Option<string>, person: string, isNew: bool)
      returns (r: Outcome, ghost sent: bool)
      modifies this, session
      ensures (Now(), r) == Settle(old(Now()), k, email, account, person, isNew, sent)
    {
      var ok := session.Run(MergePerson(person, email));
      sent := ok;
      if !ok {
        return Raised, sent;
      }
      if email.Some? { emails := emails[email.value := person]; }
      if account.Some? { accounts := accounts[account.value := person]; }
      providers := providers[k := person];
      return Found(person, isNew), sent;
    }

    /** `queue_identity_mapping`. */
    method QueueIdentityMapping(person: string, identityId: string, identity: Identity)
      modifies this
      ensures Now() == World(session.graph, Queue(old(Now()).c, person, identityId, identity))
    {
      if identityId in pending { return; }
      if person in flushed { return; }
      pending := pending[identityId := Pending(identity, person)];
    }

    method FlushOne(id: string) returns (ok: bool, ghost step: nat)
      requires id in pending
      modifies this`flushed, session
      ensures step <= 2 && (ok <==> step == 2)
      ensures session.graph == ApplyAll(old(session.graph), MappingWrites(id, pending[id].person)[..step])
      ensures flushed == if ok then old(flushed) + {pending[id].person} else old(flushed)
    {
      hide ApplyAll, Apply, RelationshipWrites;
      ghost var ws := MappingWrites(id, pending[id].person);
      NothingSent(session.graph, ws);
      FirstSent(session.graph, ws);
      ok := session.Run(MergeNode(Node("IdentityMapping", id)));
      step := if ok then 1 else 0;
      if !ok { return; }
      ok, step := session.MergeRelationship(MapsToRel(id, pending[id].person));
      Resume(old(session.graph), ws[..1], ws[1..], step);
      assert ws[1..] == RelationshipWrites(MapsToRel(id, pending[id].person)) && ws[..1] + ws[1..] == ws;
      step := step + 1;
      if ok { flushed := flushed + {pending[id].person}; }
    }

    /** One turn of the flush loop, `2n` statements after the graph was `g0`. */
    method FlushNth(ids: seq<string>, n: nat, ghost g0: Graph) returns (ok: bool, ghost step: nat)
      requires AllPending(ids, pending) && n < |ids|
      requires session.graph == ApplyAll(g0, FlushPlan(pending, ids)[..2 * n])
      modifies this`flushed, session
      ensures step <= 2 && (ok <==> step == 2)
      ensures session.graph == ApplyAll(g0, FlushPlan(pending, ids)[..2 * n + step])
      ensures flushed == if ok then old(flushed) + {pending[ids[n]].person} else old(flushed)
    {
      hide ApplyAll, Apply, FlushPlan, MappingWrites;
      ok, step := FlushOne(ids[n]);
      FlushResume(pending, ids, n, g0, step);
    }

    /** The loop of the flush; `sent` statements took effect. */
    method FlushEach(ids: seq<string>) returns (ok: bool, ghost sent: nat)
      requires AllPending(ids, pending)
      modifies this`flushed, session
      ensures sent <= 2 * |ids| && (ok <==> sent == 2 * |ids|)
      ensures session.graph == ApplyAll(old(session.graph), FlushPlan(pending, ids)[..sent])
      ensures flushed == old(flushed) + PersonsOf(pending, ids, sent / 2)
    {
      hide ApplyAll, Apply, FlushPlan, MappingWrites;
      ghost var step := 0;
      var n := 0;
      ok := true;
      NothingSent(session.graph, FlushPlan(pending, ids));
      while ok && n < |ids|
        invariant n <= |ids| && step <= 1 && (if ok then step == 0 else n < |ids|)
        invariant session.graph == ApplyAll(old(session.graph), FlushPlan(pending, ids)[..2 * n + step])
        invariant flushed == old(flushed) + PersonsOf(pending, ids, n)
        decreases |ids| - n, ok
      {
        PersonsGrow(pending, ids, n);
        ok, step := FlushNth(ids, n, old(session.graph));
        if ok { n, step := n + 1, 0; }
      }
      sent := 2 * n + step;
    }

    /** `flush_identity_mappings`; false when a statement failed and the error went to the caller. */
    method FlushIdentityMappings() returns (ok: bool, ghost order: seq<string>, ghost sent: nat)
      modifies this, session
      ensures Enumerates(order, old(pending)) && sent <= 2 * |order|
      ensures Now() == Flush(old(Now()), order, sent)
      ensures ok <==> sent == 2 * |order|
    {
      var ids := Query(pending.Keys);
      order := ids;
      ok, sent := FlushEach(ids);
      if ok { pending := map[]; }
    }
  }
}
