/**
 The cache computes connected components.  From an empty database, with no
 failures and away from Jira and Confluence, two provider keys resolve to the
 same Person exactly when a chain of calls sharing keys and emails links them.
 */
module PersonComponents {
  import opened Options
  import opened PropertyGraph
  import opened PersonMerge
  import opened PersonCache
  import opened PersonCacheInvariants

  // ----------------------------------------------------------- Chains of calls

  /** One call named both the key and the email. */
  ghost predicate Linked(evs: seq<Event>, h1: Handle, h2: Handle) {
    exists ev :: ev in evs && ev.Call? && Links(ev.q, h1, h2)
  }

  predicate Links(q: Request, h1: Handle, h2: Handle) {
    Given(q.email).Some? &&
    var k, e := ByKey(KeyOf(q)), ByEmail(q.email.value);
    (h1 == k && h2 == e) || (h1 == e && h2 == k)
  }

  ghost predicate Reaches(evs: seq<Event>, steps: nat, h1: Handle, h2: Handle) {
    if steps == 0 then h1 == h2 else exists m :: Linked(evs, h1, m) && Reaches(evs, steps - 1, m, h2)
  }

  ghost predicate Connected(evs: seq<Event>, h1: Handle, h2: Handle) {
    exists steps: nat :: Reaches(evs, steps, h1, h2)
  }

  ghost predicate Seen(evs: seq<Event>, h: Handle) {
    exists ev :: ev in evs && ev.Call? && Names(ev.q, h)
  }

  predicate Names(q: Request, h: Handle) {
    h == ByKey(KeyOf(q)) || (Given(q.email).Some? && h == ByEmail(q.email.value))
  }

  lemma {:induction false} ReachesThrough(evs: seq<Event>, m: nat, n: nat, h1: Handle, h2: Handle, h3: Handle)
    requires Reaches(evs, m, h1, h2) && Reaches(evs, n, h2, h3)
    ensures Reaches(evs, m + n, h1, h3)
  {
    if m > 0 {
      var x :| Linked(evs, h1, x) && Reaches(evs, m - 1, x, h2);
      ReachesThrough(evs, m - 1, n, x, h2, h3);
    }
  }

  lemma ConnectedThrough(evs: seq<Event>, h1: Handle, h2: Handle, h3: Handle)
    requires Connected(evs, h1, h2) && Connected(evs, h2, h3)
    ensures Connected(evs, h1, h3)
  {
    var m: nat :| Reaches(evs, m, h1, h2);
    var n: nat :| Reaches(evs, n, h2, h3);
    ReachesThrough(evs, m, n, h1, h2, h3);
  }

  lemma LinkedIsConnected(evs: seq<Event>, h1: Handle, h2: Handle)
    requires Linked(evs, h1, h2)
    ensures Connected(evs, h1, h2) && Connected(evs, h2, h1)
  {
    assert Reaches(evs, 0, h2, h2) && Reaches(evs, 0, h1, h1);
    assert Linked(evs, h2, h1);
    assert Reaches(evs, 1, h1, h2) && Reaches(evs, 1, h2, h1);
  }

  lemma {:induction false} ReachesMore(evs: seq<Event>, more: seq<Event>, n: nat, h1: Handle, h2: Handle)
    requires Reaches(evs, n, h1, h2) && forall ev :: ev in evs ==> ev in more
    ensures Reaches(more, n, h1, h2)
  {
    if n > 0 {
      var x :| Linked(evs, h1, x) && Reaches(evs, n - 1, x, h2);
      ReachesMore(evs, more, n - 1, x, h2);
      assert Linked(more, h1, x);
    }
  }

  lemma ConnectedMore(evs: seq<Event>, more: seq<Event>, h1: Handle, h2: Handle)
    requires Connected(evs, h1, h2) && forall ev :: ev in evs ==> ev in more
    ensures Connected(more, h1, h2)
  {
    var n: nat :| Reaches(evs, n, h1, h2);
    ReachesMore(evs, more, n, h1, h2);
  }

  // -------------------------------------------------------- Distinct fallbacks

  predicate ColonFree(s: string) { ':' !in s }

  /** Different keys have different provider-scoped ids, provided the providers hold no colon. */
  lemma FallbackInjective(k1: Key, k2: Key)
    requires ColonFree(k1.provider) && ColonFree(k2.provider) && FallbackId(k1) == FallbackId(k2)
    ensures k1 == k2
  {
    var s := FallbackId(k1);
    var a, b := k1.provider, k2.provider;
    assert s[..|a|] == a && s[|a|] == ':';
    assert FallbackId(k2)[..|b|] == b && FallbackId(k2)[|b|] == ':';
    assert |a| == |b|;
    var tail := "::Person::";
    assert s == a + (tail + k1.external) && s == b + (tail + k2.external) by {
      assert FallbackId(k1) == a + "::" + "Person" + "::" + k1.external;
      assert "::" + "Person" + "::" == tail;
    }
    assert s[|a|..] == tail + k1.external == tail + k2.external;
    assert (tail + k1.external)[|tail|..] == k1.external;
    assert (tail + k2.external)[|tail|..] == k2.external;
  }

  // ---------------------------------------------------------------- Invariant

  /** A call within the theorem's scope: well-formed, colon-free, not Atlassian, nothing failing. */
  ghost predicate Plain(w: World, ev: Event)
    requires Possible(w, ev)
  {
    && Unbroken(w, ev)
    && (ev.Call? ==> Accepted(ev.q) && ColonFree(ev.q.provider) && !IsAtlassian(ev.q.provider) && ev.a.mergeOk)
  }

  /** Persons come from known keys only, and emails in the graph are in the cache. */
  ghost predicate Closed(w: World) {
    && (forall p :: p in w.g.emails ==> w.g.emails[p] in w.c.emails)
    && (forall p :: Live(w.g, p) ==> exists k :: k in w.c.providers && FallbackId(k) == p)
    && (forall k :: k in w.c.providers ==> ColonFree(k.provider))
  }

  ghost predicate SeenHaveHomes(c: Cache, evs: seq<Event>) { forall h :: Home(c, h).Some? <==> Seen(evs, h) }

  ghost predicate TogetherMeansConnected(c: Cache, evs: seq<Event>) {
    forall h1, h2 :: Together(c, h1, h2) ==> Connected(evs, h1, h2)
  }

  ghost predicate LinkedMeansTogether(c: Cache, evs: seq<Event>) {
    forall h1, h2 :: Linked(evs, h1, h2) ==> Together(c, h1, h2)
  }

  ghost predicate Tracks(c: Cache, evs: seq<Event>) {
    SeenHaveHomes(c, evs) && TogetherMeansConnected(c, evs) && LinkedMeansTogether(c, evs)
  }

  lemma {:induction false} ReachableTogether(c: Cache, evs: seq<Event>, n: nat, h1: Handle, h2: Handle)
    requires LinkedMeansTogether(c, evs) && Home(c, h1).Some? && Reaches(evs, n, h1, h2)
    ensures Together(c, h1, h2)
  {
    hide Linked, Home;
    if n > 0 {
      var m :| Linked(evs, h1, m) && Reaches(evs, n - 1, m, h2);
      assert Together(c, h1, m);
      ReachableTogether(c, evs, n - 1, m, h2);
    }
  }

  // --------------------------------------------------------------- One step

  /** A handle of the state before that one of the call's own handles shares a Person with. */
  ghost predicate Met(c: Cache, q: Request, h: Handle) { exists m :: Names(q, m) && Together(c, m, h) }

  /** What a call that returned `r` did to one handle. */
  ghost predicate MovesOne(c: Cache, d: Cache, q: Request, r: string, h: Handle) {
    if Names(q, h) then Home(d, h) == Some(r)
    else
      && (Home(d, h).Some? <==> Home(c, h).Some?)
      && (Home(d, h) == Home(c, h) || (Home(d, h) == Some(r) && Met(c, q, h)))
      && (Home(c, h) == Some(r) ==> Met(c, q, h))
  }

  ghost predicate Moves(c: Cache, d: Cache, q: Request, r: string) { forall h :: MovesOne(c, d, q, r, h) }

  /** In a closed state the owner of an email is the one the cache names. */
  lemma OwnerIsCached(w: World, email: string, row: Option<string>)
    requires Closed(w) && EmailRow(w.g, email, row)
    ensures Owner(w.c, email, row) == Home(w.c, ByEmail(email))
  {
  }

  /** Where the known-key branch of a plain call ends up. */
  lemma KnownKeyEnds(w: World, q: Request, a: Answers)
    requires ValidAnswers(w, q, a) && Plain(w, Call(q, a)) && Closed(w) && KeyOf(q) in w.c.providers
    ensures var r := GetOrCreate(w, q, a).1;
      && r.Found?
      && Home(w.c, ByKey(KeyOf(q))).Some?
      && (r.person == w.c.providers[KeyOf(q)] ||
          (Given(q.email).Some? && Home(w.c, ByEmail(q.email.value)) == Some(r.person)))
  {
    hide TryMerge, EmailRow, AccountRow, ApplyAll, RehomePlan, IsAtlassian, Closed, Rerouted;
    if Given(q.email).Some? {
      OwnerIsCached(w, q.email.value, a.emailRow);
    }
  }

  lemma KnownKeyMoves(w: World, q: Request, a: Answers)
    requires ValidAnswers(w, q, a) && Plain(w, Call(q, a)) && Closed(w) && KeyOf(q) in w.c.providers
    ensures var (w1, r) := GetOrCreate(w, q, a);
      r.Found? && Moves(w.c, w1.c, q, r.person)
  {
    hide AccountRow, EmailRow, ValidFold, IsAtlassian, Closed, KnownKey, FromDatabase, CacheHit, Unbroken, Home;
    var k, email := KeyOf(q), Given(q.email);
    var (w1, r) := GetOrCreate(w, q, a);
    KnownKeyEnds(w, q, a);
    assert Home(w.c, ByKey(k)) == Some(w.c.providers[k]) by { KeyHome(w.c, k); }
    var mk := ByKey(k);
    assert Names(q, mk);
    forall h ensures MovesOne(w.c, w1.c, q, r.person, h) {
      KnownKeyHomes(w, k, email, a, h);
      if Home(w.c, h).Some? && Home(w.c, h).value == w.c.providers[k] {
        assert Together(w.c, mk, h);
      }
      if email.Some? && Home(w.c, ByEmail(email.value)) == Some(r.person) && Home(w.c, h) == Some(r.person) {
        assert Names(q, ByEmail(email.value)) && Together(w.c, ByEmail(email.value), h);
      }
    }
  }

  lemma KeyHome(c: Cache, k: Key)
    requires k in c.providers
    ensures Home(c, ByKey(k)) == Some(c.providers[k])
  {
  }

  /** A key not seen before has a provider-scoped id no index names yet. */
  lemma FallbackIsFresh(w: World, k: Key)
    requires Closed(w) && AllLive(w) && ColonFree(k.provider) && k !in w.c.providers
    ensures !Live(w.g, FallbackId(k))
    ensures forall h :: Home(w.c, h) != Some(FallbackId(k))
  {
    hide FallbackId;
    if Live(w.g, FallbackId(k)) {
      var k0 :| k0 in w.c.providers && FallbackId(k0) == FallbackId(k);
      FallbackInjective(k0, k);
    }
  }

  lemma NewKeyMoves(w: World, q: Request, a: Answers)
    requires ValidAnswers(w, q, a) && Plain(w, Call(q, a)) && AllLive(w) && EmailsAgree(w) && Closed(w)
    requires KeyOf(q) !in w.c.providers
    ensures var (w1, r) := GetOrCreate(w, q, a);
      && r.Found? && Moves(w.c, w1.c, q, r.person)
      && (r.person == FallbackId(KeyOf(q)) || Live(w.g, r.person))
  {
    hide AccountRow, ValidFold, IsAtlassian, AllLive, EmailsAgree, Closed, FallbackId, Remember, Home, TryMerge, EmailRow;
    var k, email, account := KeyOf(q), Given(q.email), AccountOf(q);
    var (w1, r) := GetOrCreate(w, q, a);
    CallAgrees(w, q, a);
    if email.Some? && email.value in w.c.emails {
      var person := w.c.emails[email.value];
      EmailHome(w.c, email.value);
      RememberSettles(w.c, k, None, account, person);
      OwnerLive(w, email.value, a.emailRow);
      assert Names(q, ByEmail(email.value));
      forall h ensures MovesOne(w.c, w1.c, q, r.person, h) {
        if Home(w.c, h) == Some(person) {
          assert Together(w.c, ByEmail(email.value), h);
        }
      }
    } else {
      if email.Some? {
        OwnerIsCached(w, email.value, a.emailRow);
        EmailHome(w.c, email.value);
      }
      FallbackIsFresh(w, k);
      RememberSettles(w.c, k, email, account, FallbackId(k));
      forall h ensures MovesOne(w.c, w1.c, q, r.person, h) {
      }
    }
  }

  lemma EmailHome(c: Cache, e: string)
    ensures Home(c, ByEmail(e)) == if e in c.emails then Some(c.emails[e]) else None
  {
  }

  lemma CallMoves(w: World, q: Request, a: Answers)
    requires ValidAnswers(w, q, a) && Plain(w, Call(q, a)) && AllLive(w) && EmailsAgree(w) && Closed(w)
    ensures var (w1, r) := GetOrCreate(w, q, a);
      && r.Found? && Moves(w.c, w1.c, q, r.person)
  {
    hide GetOrCreate, Moves, AllLive, EmailsAgree, ValidAnswers;
    if KeyOf(q) in w.c.providers {
      KnownKeyMoves(w, q, a);
    } else {
      NewKeyMoves(w, q, a);
    }
  }

  // ------------------------------------------------------- Tracking the chains

  lemma AppendedIn(evs: seq<Event>, ev: Event)
    ensures forall x :: x in evs + [ev] <==> x in evs || x == ev
  {
  }

  lemma LinkedAfter(evs: seq<Event>, q: Request, a: Answers, h1: Handle, h2: Handle)
    ensures Linked(evs + [Call(q, a)], h1, h2) <==> Linked(evs, h1, h2) || Links(q, h1, h2)
  {
    hide Links;
    AppendedIn(evs, Call(q, a));
  }

  lemma SeenAfter(evs: seq<Event>, q: Request, a: Answers, h: Handle)
    ensures Seen(evs + [Call(q, a)], h) <==> Seen(evs, h) || Names(q, h)
  {
    hide Names;
    AppendedIn(evs, Call(q, a));
  }

  /** The call's own handles are connected to each other afterwards. */
  lemma NamedConnected(evs: seq<Event>, q: Request, a: Answers, h1: Handle, h2: Handle)
    requires Names(q, h1) && Names(q, h2)
    ensures Connected(evs + [Call(q, a)], h1, h2)
  {
    if h1 == h2 {
      assert Reaches(evs + [Call(q, a)], 0, h1, h2);
    } else {
      LinkedAfter(evs, q, a, h1, h2);
      LinkedIsConnected(evs + [Call(q, a)], h1, h2);
    }
  }

  lemma ConnectedBack(evs: seq<Event>, h1: Handle, h2: Handle)
    requires Connected(evs, h1, h2)
    ensures Connected(evs, h2, h1)
  {
    var n: nat :| Reaches(evs, n, h1, h2);
    ReachesBack(evs, n, h1, h2);
  }

  lemma {:induction false} ReachesBack(evs: seq<Event>, n: nat, h1: Handle, h2: Handle)
    requires Reaches(evs, n, h1, h2)
    ensures Connected(evs, h2, h1)
  {
    if n == 0 {
      assert Reaches(evs, 0, h2, h1);
    } else {
      var m :| Linked(evs, h1, m) && Reaches(evs, n - 1, m, h2);
      ReachesBack(evs, n - 1, m, h2);
      LinkedIsConnected(evs, h1, m);
      ConnectedThrough(evs, h2, m, h1);
    }
  }

  /** A handle that ends on the call's Person is connected to every handle the call named. */
  lemma EndsConnected(c: Cache, d: Cache, evs: seq<Event>, q: Request, a: Answers, r: string, h: Handle, n: Handle)
    requires TogetherMeansConnected(c, evs) && MovesOne(c, d, q, r, h) && Home(d, h) == Some(r) && Names(q, n)
    ensures Connected(evs + [Call(q, a)], h, n)
  {
    hide Home, Names, Connected;
    if Names(q, h) {
      NamedConnected(evs, q, a, h, n);
    } else {
      assert Met(c, q, h);
      var m :| Names(q, m) && Together(c, m, h);
      ConnectedMore(evs, evs + [Call(q, a)], m, h);
      ConnectedBack(evs + [Call(q, a)], m, h);
      NamedConnected(evs, q, a, m, n);
      ConnectedThrough(evs + [Call(q, a)], h, m, n);
    }
  }

  lemma CallTracks(c: Cache, d: Cache, evs: seq<Event>, q: Request, a: Answers, r: string)
    requires Tracks(c, evs) && Moves(c, d, q, r)
    requires forall h1, h2 :: Together(c, h1, h2) ==> Together(d, h1, h2)
    ensures Tracks(d, evs + [Call(q, a)])
  {
    hide Home, Names, Connected, Linked, Seen;
    var after := evs + [Call(q, a)];
    forall h ensures Home(d, h).Some? <==> Seen(after, h) {
      SeenAfter(evs, q, a, h);
      assert MovesOne(c, d, q, r, h);
    }
    forall h1, h2 | Together(d, h1, h2) ensures Connected(after, h1, h2) {
      assert MovesOne(c, d, q, r, h1) && MovesOne(c, d, q, r, h2);
      if Home(d, h1) == Some(r) {
        assert Names(q, ByKey(KeyOf(q))) by { KeyNamed(q); }
        EndsConnected(c, d, evs, q, a, r, h1, ByKey(KeyOf(q)));
        EndsConnected(c, d, evs, q, a, r, h2, ByKey(KeyOf(q)));
        ConnectedBack(after, h2, ByKey(KeyOf(q)));
        ConnectedThrough(after, h1, ByKey(KeyOf(q)), h2);
      } else {
        assert Together(c, h1, h2);
        ConnectedMore(evs, after, h1, h2);
      }
    }
    forall h1, h2 | Linked(after, h1, h2) ensures Together(d, h1, h2) {
      LinkedAfter(evs, q, a, h1, h2);
      if Links(q, h1, h2) {
        LinksNamed(q, h1, h2);
        assert MovesOne(c, d, q, r, h1) && MovesOne(c, d, q, r, h2);
      }
    }
  }

  lemma KeyNamed(q: Request)
    ensures Names(q, ByKey(KeyOf(q)))
  {
  }

  lemma LinksNamed(q: Request, h1: Handle, h2: Handle)
    requires Links(q, h1, h2)
    ensures Names(q, h1) && Names(q, h2)
  {
  }

  // ------------------------------------------------------------------ The run

  /** What a plain call can add to the graph: its own fallback Person and its own email, both indexed. */
  ghost predicate AddsOwn(w: World, w1: World, k: Key, email: Option<string>) {
    && (forall p :: Live(w1.g, p) ==> Live(w.g, p) || p == FallbackId(k))
    && (forall p :: p in w1.g.emails ==> (p in w.g.emails && w1.g.emails[p] == w.g.emails[p]) || email == Some(w1.g.emails[p]))
    && w1.c.providers.Keys == w.c.providers.Keys + {k}
    && w1.c.emails.Keys == w.c.emails.Keys + (if email.Some? then {email.value} else {})
  }

  lemma ClosedAfter(w: World, w1: World, k: Key, email: Option<string>)
    requires Closed(w) && AddsOwn(w, w1, k, email) && ColonFree(k.provider)
    ensures Closed(w1)
  {
    hide FallbackId;
    forall p | Live(w1.g, p) ensures exists x :: x in w1.c.providers && FallbackId(x) == p {
      if p == FallbackId(k) {
        assert k in w1.c.providers;
      } else {
        var x :| x in w.c.providers && FallbackId(x) == p;
        assert x in w1.c.providers;
      }
    }
  }

  lemma KnownKeyAddsOwn(w: World, q: Request, a: Answers)
    requires ValidAnswers(w, q, a) && Plain(w, Call(q, a)) && AllLive(w) && Closed(w) && KeyOf(q) in w.c.providers
    ensures AddsOwn(w, GetOrCreate(w, q, a).0, KeyOf(q), Given(q.email))
  {
    hide EmailRow, AccountRow, IsAtlassian, Closed, AllLive, AddsOwn, Reroute, TryMerge;
    var k, email := KeyOf(q), Given(q.email);
    var person := w.c.providers[k];
    assert Live(w.g, person) by { KnownKeyLives(w, k); }
    KeepsOwn(w, w.c, k, person, email, a.mergeOk);
    if email.Some? {
      OwnerIsCached(w, email.value, a.emailRow);
      OwnerLive(w, email.value, a.emailRow);
      RerouteAddsOwn(w, k, email.value, a);
      KeepsOwn(w, w.c.(emails := w.c.emails[email.value := person]), k, person, email, a.mergeOk);
    }
  }

  lemma KnownKeyLives(w: World, k: Key)
    requires AllLive(w) && k in w.c.providers
    ensures Live(w.g, w.c.providers[k])
  {
  }

  /** Writing a known key's Person again, with the call's email. */
  lemma KeepsOwn(w: World, c: Cache, k: Key, person: string, email: Option<string>, ok: bool)
    requires k in w.c.providers && Live(w.g, person)
    requires c.providers == w.c.providers
    requires c.emails.Keys == w.c.emails.Keys || (email.Some? && c.emails.Keys == w.c.emails.Keys + {email.value})
    ensures c.emails.Keys == w.c.emails.Keys + (if email.Some? then {email.value} else {}) ==>
      AddsOwn(w, World(TryMerge(w.g, person, email, ok), c), k, email)
  {
    hide FallbackId;
  }

  /** A reroute that gets through adds nothing, and indexes the email. */
  lemma RerouteAddsOwn(w: World, k: Key, email: string, a: Answers)
    requires AllLive(w) && k in w.c.providers && ValidFold(w, w.c.providers[k], email, a)
    requires var owner := Owner(w.c, email, a.emailRow);
      owner.Some? && owner.value != w.c.providers[k] ==>
        Live(w.g, owner.value) && a.moved == |RehomePlan(w.g, w.c.providers[k], owner.value, a.out, a.inn)|
    ensures var (w1, owner) := Reroute(w, w.c.providers[k], email, a);
      if owner.Some? then AddsOwn(w, w1, k, Some(email))
      else w1 == w && Owner(w.c, email, a.emailRow) in {None, Some(w.c.providers[k])}
  {
    hide RehomePlan, ApplyAll, FallbackId;
    var owner := Owner(w.c, email, a.emailRow);
    if owner.Some? && owner.value != w.c.providers[k] {
      RehomeFrame(w.g, w.c.providers[k], owner.value, a.out, a.inn, a.moved);
    }
  }

  lemma NewKeyAddsOwn(w: World, q: Request, a: Answers)
    requires ValidAnswers(w, q, a) && Plain(w, Call(q, a)) && AllLive(w) && EmailsAgree(w) && Closed(w)
    requires KeyOf(q) !in w.c.providers
    ensures AddsOwn(w, GetOrCreate(w, q, a).0, KeyOf(q), Given(q.email))
  {
    hide AccountRow, IsAtlassian, FallbackId, Closed, EmailsAgree, EmailRow, Carries, AllLive, ValidFold, Settle, CacheHit, AddsOwn;
    var k, email, account := KeyOf(q), Given(q.email), AccountOf(q);
    CallAgrees(w, q, a);
    if email.Some? {
      OwnerIsCached(w, email.value, a.emailRow);
    }
    if email.Some? && email.value in w.c.emails {
      CacheHitAddsOwn(w, k, email, account, a.mergeOk);
    } else {
      SettleAddsOwn(w, k, email, account, !Live(w.g, FallbackId(k)));
    }
  }

  /** The email is known, so the call changes nothing but indexes, and writes the email again. */
  lemma CacheHitAddsOwn(w: World, k: Key, email: Option<string>, account: Option<string>, ok: bool)
    requires email.Some? && email.value in w.c.emails && AllLive(w)
    ensures var person := w.c.emails[email.value];
      AddsOwn(w, CacheHit(w, email, Remember(w.c, k, None, account, person), person, ok).0, k, email)
  {
    hide FallbackId, WellFormed;
  }

  /** A call that settles on its own fallback Person. */
  lemma SettleAddsOwn(w: World, k: Key, email: Option<string>, account: Option<string>, isNew: bool)
    ensures var (w1, r) := Settle(w, k, email, account, FallbackId(k), isNew, true);
      r.Found? ==> AddsOwn(w, w1, k, email)
  {
    hide FallbackId;
  }

  lemma CallKeepsClosed(w: World, q: Request, a: Answers)
    requires ValidAnswers(w, q, a) && Plain(w, Call(q, a)) && AllLive(w) && EmailsAgree(w) && Closed(w)
    ensures Closed(GetOrCreate(w, q, a).0)
  {
    hide GetOrCreate, ValidAnswers, AllLive, EmailsAgree, Closed, AddsOwn;
    if KeyOf(q) in w.c.providers {
      KnownKeyAddsOwn(w, q, a);
    } else {
      NewKeyAddsOwn(w, q, a);
    }
    ClosedAfter(w, GetOrCreate(w, q, a).0, KeyOf(q), Given(q.email));
  }

  /** Everything the theorem carries along a run. */
  ghost predicate Inv(w: World, evs: seq<Event>) {
    AllLive(w) && EmailsAgree(w) && Closed(w) && Tracks(w.c, evs)
  }

  lemma OtherEventTracks(c: Cache, d: Cache, evs: seq<Event>, ev: Event)
    requires Tracks(c, evs) && !ev.Call? && d.providers == c.providers && d.emails == c.emails
    ensures Tracks(d, evs + [ev])
  {
    hide Connected;
    AppendedIn(evs, ev);
    forall h ensures Seen(evs + [ev], h) <==> Seen(evs, h) {
    }
    forall h1, h2 ensures Linked(evs + [ev], h1, h2) <==> Linked(evs, h1, h2) {
    }
    forall h ensures Home(d, h) == Home(c, h) {
    }
    forall h1, h2 | Together(d, h1, h2) ensures Connected(evs + [ev], h1, h2) {
      assert Together(c, h1, h2);
      ConnectedMore(evs, evs + [ev], h1, h2);
    }
  }

  lemma StepKeepsInv(w: World, evs: seq<Event>, ev: Event)
    requires Inv(w, evs) && Possible(w, ev) && Plain(w, ev)
    ensures Inv(Step(w, ev), evs + [ev])
  {
    hide AllLive, EmailsAgree, Closed, Tracks, GetOrCreate, ValidAnswers, Home, IsAtlassian, Unbroken;
    StepKeepsLive(w, ev);
    StepKeepsEmailsAgree(w, ev);
    match ev
    case Call(q, a) =>
      CallMoves(w, q, a);
      CallKeepsClosed(w, q, a);
      var (w1, r) := GetOrCreate(w, q, a);
      forall h1, h2 | Together(w.c, h1, h2) ensures Together(w1.c, h1, h2) {
        StepMovesTogether(w, ev, h1);
        StepMovesTogether(w, ev, h2);
      }
      CallTracks(w.c, w1.c, evs, q, a, r.person);
    case QueueMapping(p, id, identity) =>
      OtherEventTracks(w.c, Step(w, ev).c, evs, ev);
      OtherEventClosed(w, Step(w, ev));
    case FlushMappings(order, sent) =>
      OtherEventTracks(w.c, Step(w, ev).c, evs, ev);
      assert WellFormed(w.g) && forall i :: i in w.c.pending ==> Live(w.g, w.c.pending[i].person) by { PendingLive(w); }
      FlushCreatesNoPerson(w.g, w.c.pending, order, sent);
      OtherEventClosed(w, Step(w, ev));
  }

  lemma PendingLive(w: World)
    requires AllLive(w)
    ensures WellFormed(w.g) && forall i :: i in w.c.pending ==> Live(w.g, w.c.pending[i].person)
  {
  }

  lemma OtherEventClosed(w: World, w1: World)
    requires Closed(w) && w1.c.providers == w.c.providers && w1.c.emails == w.c.emails && w1.g.emails == w.g.emails
    requires forall p :: Live(w1.g, p) <==> Live(w.g, p)
    ensures Closed(w1)
  {
  }

  lemma EmptyInv()
    ensures Inv(World(EmptyGraph, EmptyCache), [])
  {
    var w := World(EmptyGraph, EmptyCache);
    assert forall h :: Home(w.c, h).None?;
    assert forall h1, h2 :: !Linked([], h1, h2);
    assert Tracks(w.c, []);
    assert AllLive(w) && EmailsAgree(w) && Closed(w);
  }

  lemma {:induction false} RunKeepsInv(ws: seq<World>, evs: seq<Event>, i: nat)
    requires IsRun(ws, evs) && ws[0] == World(EmptyGraph, EmptyCache) && i < |ws|
    requires forall j :: 0 <= j < |evs| ==> Plain(ws[j], evs[j])
    ensures Inv(ws[i], evs[..i])
  {
    hide Inv, Step, Plain, Possible;
    if i == 0 {
      EmptyInv();
      assert evs[..0] == [];
    } else {
      RunKeepsInv(ws, evs, i - 1);
      assert ws[i - 1 + 1] == Step(ws[i - 1], evs[i - 1]);
      StepKeepsInv(ws[i - 1], evs[..i - 1], evs[i - 1]);
      assert evs[..i] == evs[..i - 1] + [evs[i - 1]];
    }
  }

  /**
   The cache computes connected components: after any run of calls, queueings
   and flushes, two keys or emails that have occurred resolve to one Person
   exactly when a chain of calls, each naming a key and an email, links them.
   */
  lemma ResolvesByConnectivity(ws: seq<World>, evs: seq<Event>, h1: Handle, h2: Handle)
    requires IsRun(ws, evs) && ws[0] == World(EmptyGraph, EmptyCache)
    requires forall j :: 0 <= j < |evs| ==> Plain(ws[j], evs[j])
    requires Seen(evs, h1) && Seen(evs, h2)
    ensures Home(ws[|evs|].c, h1).Some?
    ensures Home(ws[|evs|].c, h1) == Home(ws[|evs|].c, h2) <==> Connected(evs, h1, h2)
  {
    hide AllLive, EmailsAgree, Closed, Home, Seen, Plain, Possible, Step;
    RunKeepsInv(ws, evs, |evs|);
    assert evs[..|evs|] == evs;
    var c := ws[|evs|].c;
    if Home(c, h1) == Home(c, h2) {
      assert Together(c, h1, h2);
    }
    if Connected(evs, h1, h2) {
      var n: nat :| Reaches(evs, n, h1, h2);
      ReachableTogether(c, evs, n, h1, h2);
    }
  }
}
