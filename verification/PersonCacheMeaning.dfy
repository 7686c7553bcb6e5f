/**
 What one call of the Person cache does, said in the terms of its caller: which
 Person it settles on, what each index holds afterwards, and what is queued and
 flushed, with ids, providers and empty strings spelled out.
 */
module PersonCacheMeaning {
  import opened Options
  import opened PropertyGraph
  import opened PersonMerge
  import opened PersonCache
  import opened PersonCacheInvariants

  // ---------------------------------------------------------------- Requests

  /** A call without a provider or an external id is refused and changes nothing. */
  lemma RefusedExactly(w: World, q: Request, a: Answers)
    requires ValidAnswers(w, q, a)
    ensures GetOrCreate(w, q, a).1 == Rejected <==> q.provider == "" || q.external == ""
    ensures q.provider == "" || q.external == "" ==> GetOrCreate(w, q, a).0 == w
  {
    RejectedOrNot(w, q, a);
    hide ValidAnswers, KnownKey, CacheHit, FromDatabase;
  }

  /** An empty email or account is no email or account. */
  lemma EmptyIsAbsent(w: World, q: Request, a: Answers)
    requires ValidAnswers(w, q, a)
    ensures q.email == Some("") ==>
      ValidAnswers(w, q.(email := None), a) && GetOrCreate(w, q.(email := None), a) == GetOrCreate(w, q, a)
    ensures q.account == Some("") ==>
      ValidAnswers(w, q.(account := None), a) && GetOrCreate(w, q.(account := None), a) == GetOrCreate(w, q, a)
  {
    hide KnownKey, CacheHit, FromDatabase, EmailRow, AccountRow, ValidFold, IsAtlassian;
  }

  // ------------------------------------------------------------ Account lookup

  /** An identity mapping of the account, of either product, points to the Person. */
  ghost predicate MapsAccount(g: Graph, account: string, p: string) {
    exists i :: i in g.edges && g.edges[i].typ == MapsTo && g.edges[i].dst == PersonNode(p)
      && (g.edges[i].src == Node("IdentityMapping", "jira::IdentityMapping::" + account)
          || g.edges[i].src == Node("IdentityMapping", "confluence::IdentityMapping::" + account))
  }

  lemma IdsSpelledOut(account: string)
    ensures IdentityIds(account) == {"jira::IdentityMapping::" + account, "confluence::IdentityMapping::" + account}
    ensures WbaFormat("jira", "Person", account) == "jira::Person::" + account
    ensures WbaFormat("confluence", "Person", account) == "confluence::Person::" + account
  {
    assert "jira" + "::" + "IdentityMapping" + "::" == "jira::IdentityMapping::";
    assert "confluence" + "::" + "IdentityMapping" + "::" == "confluence::IdentityMapping::";
    assert "jira" + "::" + "Person" + "::" == "jira::Person::";
    assert "confluence" + "::" + "Person" + "::" == "confluence::Person::";
  }

  lemma MappedMeaning(g: Graph, account: string, p: string)
    ensures p in Mapped(g, account) <==> MapsAccount(g, account, p)
  {
    hide WbaFormat, IdentityIds;
    IdsSpelledOut(account);
    if MapsAccount(g, account, p) {
      var i :| i in g.edges && g.edges[i].typ == MapsTo && g.edges[i].dst == PersonNode(p)
        && (g.edges[i].src == Node("IdentityMapping", "jira::IdentityMapping::" + account)
            || g.edges[i].src == Node("IdentityMapping", "confluence::IdentityMapping::" + account));
      assert g.edges[i].src.id in IdentityIds(account);
    }
  }

  /** The account lookup: a mapped Person if there is one, else one with the account's own id, else none. */
  lemma AccountLookupMeaning(g: Graph, account: string, row: Option<string>)
    requires AccountRow(g, account, row)
    ensures row.Some? ==>
      || MapsAccount(g, account, row.value)
      || ((forall p :: !MapsAccount(g, account, p)) && Live(g, row.value)
          && (row.value == "jira::Person::" + account || row.value == "confluence::Person::" + account))
    ensures row.None? ==>
      && (forall p :: !MapsAccount(g, account, p))
      && !Live(g, "jira::Person::" + account) && !Live(g, "confluence::Person::" + account)
  {
    hide WbaFormat, Mapped, MapsAccount;
    IdsSpelledOut(account);
    forall p ensures p in Mapped(g, account) <==> MapsAccount(g, account, p) {
      MappedMeaning(g, account, p);
    }
    if row.None? {
      assert "jira::Person::" + account !in Scoped(g, account) && "confluence::Person::" + account !in Scoped(g, account);
    }
  }

  // ---------------------------------------------------------- Where a call ends

  /** The Person a new key settles on: the first of the six lookups that finds one, in their order. */
  ghost predicate SettlesInOrder(w: World, q: Request, a: Answers, person: string) {
    var email := q.email != None && q.email != Some("");
    var atlassian := q.provider == "jira" || q.provider == "confluence";
    var account := if q.account != None && q.account != Some("") then q.account.value else q.external;
    if email && q.email.value in w.c.emails then person == w.c.emails[q.email.value]
    else if email && a.emailRow.Some? then person == a.emailRow.value
    else if atlassian && account in w.c.accounts then person == w.c.accounts[account]
    else if atlassian && a.accountRow.Some? then person == a.accountRow.value
    else person == q.provider + "::Person::" + q.external
  }

  lemma NewKeySettlesInOrder(w: World, q: Request, a: Answers)
    requires ValidAnswers(w, q, a) && Key(q.provider, q.external) !in w.c.providers
    requires GetOrCreate(w, q, a).1.Found?
    ensures SettlesInOrder(w, q, a, GetOrCreate(w, q, a).1.person)
    ensures GetOrCreate(w, q, a).1.isNew ==> GetOrCreate(w, q, a).1.person == q.provider + "::Person::" + q.external
  {
    hide EmailRow, AccountRow, TryMerge, Conflicts, Apply, Remember, ValidFold;
    assert FallbackId(KeyOf(q)) == q.provider + "::Person::" + q.external by {
      assert "::" + "Person" + "::" == "::Person::";
      assert q.provider + "::" + "Person" + "::" == q.provider + "::Person::";
    }
  }

  /** What a cache hit need not write again. */
  lemma RememberedAlready(c: Cache, k: Key, email: Option<string>, account: Option<string>, person: string)
    ensures email.Some? && email.value in c.emails && c.emails[email.value] == person ==>
      Remember(c, k, None, account, person) == Remember(c, k, email, account, person)
    ensures account.Some? && account.value in c.accounts && c.accounts[account.value] == person ==>
      Remember(c, k, email, None, person) == Remember(c, k, email, account, person)
  {
    Again(c.emails, OrEmpty(email));
    Again(c.accounts, OrEmpty(account));
  }

  lemma FromAccountRemembers(w: World, k: Key, email: Option<string>, account: string, a: Answers)
    requires FromAccount(w, k, email, account, a).1.Found?
    ensures var (w1, r) := FromAccount(w, k, email, account, a); w1.c == Remember(w.c, k, email, Some(account), r.person)
  {
    hide Remember, TryMerge, Conflicts, Apply, FallbackId;
    if account in w.c.accounts {
      RememberedAlready(w.c, k, email, Some(account), w.c.accounts[account]);
    }
  }

  /** A call with a new key remembers its key, its email and its account. */
  lemma NewKeyRemembers(w: World, q: Request, a: Answers)
    requires ValidAnswers(w, q, a) && KeyOf(q) !in w.c.providers && GetOrCreate(w, q, a).1.Found?
    ensures var (w1, r) := GetOrCreate(w, q, a); w1.c == Remember(w.c, KeyOf(q), Given(q.email), AccountOf(q), r.person)
  {
    hide Remember, TryMerge, Conflicts, Apply, FallbackId, ValidAnswers, KnownKey, FromAccount, Given, IsAtlassian;
    var k, email, account := KeyOf(q), Given(q.email), AccountOf(q);
    if email.Some? && email.value in w.c.emails {
      RememberedAlready(w.c, k, email, account, w.c.emails[email.value]);
    } else if IsAtlassian(q.provider) && !(email.Some? && a.emailRow.Some?) {
      FromAccountRemembers(w, k, email, account.value, a);
    }
  }

  /**
   What a call with a new key leaves in the cache, whole: its key, its email if it has
   one, and its account: the one given, or for Jira and Confluence the external id.
   */
  lemma NewKeyIndexes(w: World, q: Request, a: Answers)
    requires ValidAnswers(w, q, a) && Key(q.provider, q.external) !in w.c.providers
    requires GetOrCreate(w, q, a).1.Found?
    ensures var (w1, r) := GetOrCreate(w, q, a);
      && w1.c.providers == w.c.providers[Key(q.provider, q.external) := r.person]
      && w1.c.emails == (if q.email == None || q.email == Some("") then w.c.emails else w.c.emails[q.email.value := r.person])
      && w1.c.accounts == (
           if q.account != None && q.account != Some("") then w.c.accounts[q.account.value := r.person]
           else if q.provider == "jira" || q.provider == "confluence" then w.c.accounts[q.external := r.person]
           else w.c.accounts)
      && w1.c.pending == w.c.pending && w1.c.flushed == w.c.flushed
  {
    hide GetOrCreate, ValidAnswers;
    NewKeyRemembers(w, q, a);
  }

  lemma Again(m: map<string, string>, k: string)
    ensures k in m ==> m[k := m[k]] == m
  {
  }

  /** What a call with a known key leaves: nothing but its email changes, unless the email has another owner. */
  lemma KnownKeyIndexes(w: World, q: Request, a: Answers)
    requires ValidAnswers(w, q, a) && Key(q.provider, q.external) in w.c.providers
    requires q.provider != "" && q.external != "" && !Folds(w, q, a)
    ensures var (w1, r) := GetOrCreate(w, q, a);
      && r == Found(w.c.providers[Key(q.provider, q.external)], false)
      && w1.c == if q.email == None || q.email == Some("") then w.c else w.c.(emails := w.c.emails[q.email.value := r.person])
  {
    hide EmailRow, AccountRow, TryMerge, IsAtlassian, ApplyAll, RehomePlan;
    Again(w.c.emails, if Given(q.email).Some? then q.email.value else "");
  }

  /** An index after a fold: the folded Person's entries are the owner's, the others as they were. */
  ghost predicate Moved<K(!new)>(before: map<K, string>, after: map<K, string>, stale: string, owner: string) {
    && after.Keys == before.Keys
    && forall k :: k in before ==> after[k] == if before[k] == stale then owner else before[k]
  }

  /** What a fold that gets through leaves in the cache, whole. */
  lemma FoldMovesEverything(w: World, q: Request, a: Answers)
    requires ValidAnswers(w, q, a) && Folds(w, q, a) && Unbroken(w, Call(q, a))
    ensures var stale, owner := w.c.providers[Key(q.provider, q.external)], GetOrCreate(w, q, a).1.person;
      var c := GetOrCreate(w, q, a).0.c;
      && owner != stale
      && Moved(w.c.providers, c.providers, stale, owner)
      && Moved(w.c.accounts, c.accounts, stale, owner)
      && q.email.value in c.emails && c.emails[q.email.value] == owner
      && Moved(w.c.emails - {q.email.value}, c.emails - {q.email.value}, stale, owner)
      && c.flushed == w.c.flushed - {stale}
      && c.pending.Keys == w.c.pending.Keys
      && forall i :: i in c.pending ==>
           c.pending[i] == if w.c.pending[i].person == stale then w.c.pending[i].(person := owner) else w.c.pending[i]
  {
    hide EmailRow, AccountRow, TryMerge, IsAtlassian, ApplyAll, RehomePlan;
  }

  // ------------------------------------------------------ What reaches the graph

  /** Another Person carries the email of the call already. */
  ghost predicate EmailTaken(w: World, q: Request, person: string) {
    q.email.Some? && q.email.value != "" && exists p :: p in w.g.emails && p != person && w.g.emails[p] == q.email.value
  }

  /** The graph with the Person there and the call's email on it. */
  function WithPerson(g: Graph, q: Request, person: string): Graph {
    g.(nodes := g.nodes + {PersonNode(person)},
       emails := if q.email == None || q.email == Some("") then g.emails else g.emails[person := q.email.value])
  }

  /**
   What a call that does not fold writes: the Person it returns, with its email, if the
   statement goes through and nobody else carries the email; and otherwise nothing.
   */
  lemma CallWrites(w: World, q: Request, a: Answers)
    requires ValidAnswers(w, q, a) && !Folds(w, q, a) && GetOrCreate(w, q, a).1.Found?
    ensures var (w1, r) := GetOrCreate(w, q, a);
      w1.g == if a.mergeOk && !EmailTaken(w, q, r.person) then WithPerson(w.g, q, r.person) else w.g
  {
    hide EmailRow, AccountRow, IsAtlassian, ApplyAll, RehomePlan, Remember, FallbackId, WithPerson, EmailTaken;
    var person := GetOrCreate(w, q, a).1.person;
    MergeIs(w, q, person);
    hide Apply, Conflicts;
  }

  lemma MergeIs(w: World, q: Request, person: string)
    ensures Conflicts(w.g, MergePerson(person, Given(q.email))) <==> EmailTaken(w, q, person)
    ensures Apply(w.g, MergePerson(person, Given(q.email))) == WithPerson(w.g, q, person)
  {
  }

  /** A call with a key and a provider raises only when the cache did not know it, and only if its statement failed or its email was taken. */
  lemma RaisedExactly(w: World, q: Request, a: Answers)
    requires ValidAnswers(w, q, a) && GetOrCreate(w, q, a).1 == Raised
    ensures GetOrCreate(w, q, a).0 == w && Key(q.provider, q.external) !in w.c.providers
    ensures !a.mergeOk || exists person :: EmailTaken(w, q, person)
  {
    hide EmailRow, AccountRow, IsAtlassian, ApplyAll, RehomePlan, Remember, FallbackId, EmailTaken, ValidFold, Reroute;
    forall person ensures Conflicts(w.g, MergePerson(person, Given(q.email))) <==> EmailTaken(w, q, person) {
      MergeIs(w, q, person);
    }
    hide Apply, Conflicts;
  }

  // ------------------------------------------------------------ Queue and flush

  /** A mapping is queued once, and not for a Person whose mapping has been flushed. */
  lemma QueuedExactly(c: Cache, person: string, id: string, identity: Identity)
    ensures var d := Queue(c, person, id, identity);
      if id in c.pending || person in c.flushed then d == c
      else d == c.(pending := d.pending) && d.pending == c.pending[id := Pending(identity, person)]
  {
  }

  /** A flush that gets through empties the queue and marks every Person in it; one that fails keeps the queue. */
  lemma FlushMarks(w: World, order: seq<string>, sent: nat)
    requires Enumerates(order, w.c.pending) && sent <= 2 * |order|
    ensures var c := Flush(w, order, sent).c;
      && c == w.c.(pending := c.pending, flushed := c.flushed)
      && (sent < 2 * |order| ==> c.pending == w.c.pending)
      && (sent == 2 * |order| ==>
            c.pending == map[] && c.flushed == w.c.flushed + set i | i in w.c.pending :: w.c.pending[i].person)
  {
    hide ApplyAll, FlushPlan;
    assert order[..|order|] == order;
  }

  /** The two statements of a mapping: its node, and a displayed MAPS_TO edge without data from it to the Person. */
  lemma MappingStatements(id: string, person: string)
    ensures MappingWrites(id, person) == [
      MergeNode(Node("IdentityMapping", id)),
      MergeRel(Node("IdentityMapping", id), MapsTo, Node("Person", person), map[], map["_display_in_graph" := Flag(true)])]
  {
  }
}
