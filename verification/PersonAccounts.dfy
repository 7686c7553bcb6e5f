/**
 Jira and Confluence without emails: who shares a Person by account alone.  Over every
 run of such calls from an empty database, failing statements included, keys share a
 Person only when a chain of calls naming the same accounts or external ids joins them.
 */
module PersonAccounts {
  import opened Options
  import opened PropertyGraph
  import opened PersonMerge
  import opened PersonCache
  import opened PersonCacheInvariants
  import opened PersonCacheMeaning

  /** A call of Jira or Confluence that names no email. */
  predicate Emailless(ev: Event) {
    && ev.Call? && (ev.q.email == None || ev.q.email == Some(""))
    && (ev.q.provider == "jira" || ev.q.provider == "confluence")
  }

  predicate NamesAccount(q: Request) { q.account != None && q.account != Some("") }

  /** A labelling that gives the account a call names the tag of its external id. */
  ghost predicate Respects<T(!new)>(tag: string -> T, ev: Event) {
    ev.Call? && NamesAccount(ev.q) ==> tag(ev.q.account.value) == tag(ev.q.external)
  }

  /** Persons have one tag, and each exists for a key that still resolves to it. */
  ghost predicate Labelled<T(!new)>(w: World, tag: string -> T) {
    && w.g.edges == map[] && w.g.emails == map[] && w.c.emails == map[]
    && (forall k :: k in w.c.providers ==> k.provider == "jira" || k.provider == "confluence")
    && (forall k1, k2 :: k1 in w.c.providers && k2 in w.c.providers && w.c.providers[k1] == w.c.providers[k2] ==>
          tag(k1.external) == tag(k2.external))
    && (forall x, k :: x in w.c.accounts && k in w.c.providers && w.c.accounts[x] == w.c.providers[k] ==>
          tag(x) == tag(k.external))
    && (forall p :: Live(w.g, p) ==> exists k :: HomeOf(w, k, p))
  }

  ghost predicate HomeOf(w: World, k: Key, p: string) {
    k in w.c.providers && w.c.providers[k] == p && p == k.provider + "::Person::" + k.external
  }

  lemma IdsDiffer(k1: Key, k2: Key)
    requires k1.provider in {"jira", "confluence"} && k2.provider in {"jira", "confluence"}
    requires k1.provider + "::Person::" + k1.external == k2.provider + "::Person::" + k2.external
    ensures k1 == k2
  {
    var s, t := k1.provider + "::Person::" + k1.external, k2.provider + "::Person::" + k2.external;
    assert s[0] == k1.provider[0] && t[0] == k2.provider[0];
    assert k1.provider == k2.provider;
    var n := |k1.provider + "::Person::"|;
    assert s[n..] == k1.external && t[n..] == k2.external;
  }

  // ------------------------------------------------------------------ One call

  /** A call without an email writes at most the node of the Person it settles on. */
  lemma WritesItsPerson(w: World, q: Request, a: Answers)
    requires Emailless(Call(q, a)) && ValidAnswers(w, q, a)
    ensures var (w1, r) := GetOrCreate(w, q, a);
      if r.Found? then w1.g in {w.g, w.g.(nodes := w.g.nodes + {PersonNode(r.person)})} else w1 == w
  {
    hide EmailRow, AccountRow, Remember, FallbackId, ValidFold, IsAtlassian;
  }

  /** The account a call goes by. */
  function Effective(q: Request): string { if NamesAccount(q) then q.account.value else q.external }

  lemma NoMappings(g: Graph, account: string, row: Option<string>)
    requires g.edges == map[] && AccountRow(g, account, row)
    ensures row.Some? ==>
      Live(g, row.value) && (row.value == "jira::Person::" + account || row.value == "confluence::Person::" + account)
  {
    AccountLookupMeaning(g, account, row);
  }

  lemma RowOfEffective(w: World, q: Request, a: Answers)
    requires Emailless(Call(q, a)) && ValidAnswers(w, q, a)
    ensures AccountRow(w.g, Effective(q), a.accountRow)
  {
    hide EmailRow, AccountRow, ValidFold;
  }

  /** A Person that exists has a key with its own id, and keys of one Person have one tag. */
  lemma HomeTag<T(!new)>(w: World, tag: string -> T, k: Key) returns (home: Key)
    requires AllLive(w) && Labelled(w, tag) && k in w.c.providers
    ensures HomeOf(w, home, w.c.providers[k]) && tag(k.external) == tag(home.external)
    ensures home.provider in {"jira", "confluence"}
  {
    hide WellFormed;
    assert Live(w.g, w.c.providers[k]);
    home :| HomeOf(w, home, w.c.providers[k]);
  }

  /** The Person found by the account's own id is at home at a key of that account. */
  lemma FoundAtHome(w: World, home: Key, account: string, p: string)
    requires HomeOf(w, home, p) && home.provider in {"jira", "confluence"}
    requires p == "jira::Person::" + account || p == "confluence::Person::" + account
    ensures home.external == account
  {
    IdsDiffer(home, Key(if p == "jira::Person::" + account then "jira" else "confluence", account));
  }

  /** Whom a new key joins: nobody, or a Person whose keys all have the tag of the call's account. */
  lemma JoinsItsTag<T(!new)>(w: World, q: Request, a: Answers, tag: string -> T, k: Key)
    requires AllLive(w) && Labelled(w, tag) && Emailless(Call(q, a)) && Respects(tag, Call(q, a)) && ValidAnswers(w, q, a)
    requires Key(q.provider, q.external) !in w.c.providers && GetOrCreate(w, q, a).1.Found?
    requires k in w.c.providers && w.c.providers[k] == GetOrCreate(w, q, a).1.person
    ensures tag(k.external) == tag(q.external)
  {
    hide GetOrCreate, EmailRow, AccountRow, ValidAnswers, AllLive, HomeOf;
    var person := GetOrCreate(w, q, a).1.person;
    NewKeySettlesInOrder(w, q, a);
    assert tag(Effective(q)) == tag(q.external);
    if Effective(q) !in w.c.accounts {
      RowOfEffective(w, q, a);
      var home := HomeTag(w, tag, k);
      hide Labelled;
      if a.accountRow.Some? {
        NoMappings(w.g, Effective(q), a.accountRow);
        FoundAtHome(w, home, Effective(q), person);
      } else {
        NotAtHome(w, home, Key(q.provider, q.external), person);
      }
    }
  }

  lemma NotAtHome(w: World, home: Key, k: Key, p: string)
    requires HomeOf(w, home, p) && home.provider in {"jira", "confluence"} && k.provider in {"jira", "confluence"}
    requires p == k.provider + "::Person::" + k.external
    ensures k in w.c.providers
  {
    IdsDiffer(home, k);
  }

  lemma AccountJoins<T(!new)>(w: World, q: Request, a: Answers, tag: string -> T, x: string)
    requires AllLive(w) && Labelled(w, tag) && Emailless(Call(q, a)) && Respects(tag, Call(q, a)) && ValidAnswers(w, q, a)
    requires Key(q.provider, q.external) !in w.c.providers && GetOrCreate(w, q, a).1.Found?
    requires x in w.c.accounts && w.c.accounts[x] == GetOrCreate(w, q, a).1.person
    ensures tag(x) == tag(q.external)
  {
    hide GetOrCreate, ValidAnswers, WellFormed;
    assert Live(w.g, w.c.accounts[x]);
    var home :| HomeOf(w, home, w.c.accounts[x]);
    JoinsItsTag(w, q, a, tag, home);
  }

  /** A Person a new key settles on that is not there yet is the key's own. */
  lemma NewPersonIsOwn(w: World, q: Request, a: Answers)
    requires AllLive(w) && w.g.edges == map[] && Emailless(Call(q, a)) && ValidAnswers(w, q, a)
    requires Key(q.provider, q.external) !in w.c.providers && GetOrCreate(w, q, a).1.Found?
    ensures var p := GetOrCreate(w, q, a).1.person; Live(w.g, p) || p == q.provider + "::Person::" + q.external
  {
    hide GetOrCreate, EmailRow, AccountRow, ValidAnswers, WellFormed;
    NewKeySettlesInOrder(w, q, a);
    RowOfEffective(w, q, a);
    NoMappings(w.g, Effective(q), a.accountRow);
  }

  /** Keys and accounts of the Person have the tag. */
  ghost predicate Tagged<T(!new)>(c: Cache, person: string, tag: string -> T, t: T) {
    && (forall k :: k in c.providers && c.providers[k] == person ==> tag(k.external) == t)
    && (forall x :: x in c.accounts && c.accounts[x] == person ==> tag(x) == t)
  }

  /** Adding a key and an account to a Person of their tag. */
  lemma OneMoreKey<T(!new)>(w: World, w1: World, key: Key, account: string, person: string, tag: string -> T)
    requires Labelled(w, tag) && key !in w.c.providers && key.provider in {"jira", "confluence"}
    requires Tagged(w.c, person, tag, tag(key.external)) && tag(account) == tag(key.external)
    requires w1.c.providers == w.c.providers[key := person] && w1.c.accounts == w.c.accounts[account := person]
    requires w1.c.emails == map[] && w1.g in {w.g, w.g.(nodes := w.g.nodes + {PersonNode(person)})}
    requires Live(w.g, person) || person == key.provider + "::Person::" + key.external
    ensures Labelled(w1, tag)
  {
    forall p | Live(w1.g, p) ensures exists k :: HomeOf(w1, k, p) {
      OneMoreHome(w, w1, key, person, p);
    }
    hide HomeOf, Live;
    forall k1, k2 | k1 in w1.c.providers && k2 in w1.c.providers && w1.c.providers[k1] == w1.c.providers[k2]
      ensures tag(k1.external) == tag(k2.external)
    {
      assert k1 != key && k2 != key ==> w.c.providers[k1] == w.c.providers[k2];
    }
    forall x, k | x in w1.c.accounts && k in w1.c.providers && w1.c.accounts[x] == w1.c.providers[k]
      ensures tag(x) == tag(k.external)
    {
      assert x != account && k != key ==> w.c.accounts[x] == w.c.providers[k];
    }
  }

  lemma OneMoreHome(w: World, w1: World, key: Key, person: string, p: string)
    requires key !in w.c.providers && w1.c.providers == w.c.providers[key := person]
    requires w1.g in {w.g, w.g.(nodes := w.g.nodes + {PersonNode(person)})} && Live(w1.g, p)
    requires Live(w.g, p) ==> exists k :: HomeOf(w, k, p)
    requires Live(w.g, person) || person == key.provider + "::Person::" + key.external
    ensures exists k :: HomeOf(w1, k, p)
  {
    if Live(w.g, p) {
      var k :| HomeOf(w, k, p);
      assert HomeOf(w1, k, p);
    } else {
      assert HomeOf(w1, key, p);
    }
  }

  lemma NewKeyKeepsTags<T(!new)>(w: World, q: Request, a: Answers, tag: string -> T)
    requires AllLive(w) && Labelled(w, tag) && Emailless(Call(q, a)) && Respects(tag, Call(q, a)) && ValidAnswers(w, q, a)
    requires Key(q.provider, q.external) !in w.c.providers && GetOrCreate(w, q, a).1.Found?
    ensures Labelled(GetOrCreate(w, q, a).0, tag)
  {
    hide GetOrCreate, ValidAnswers, AllLive, HomeOf;
    var (w1, r) := GetOrCreate(w, q, a);
    NewKeyIndexes(w, q, a);
    WritesItsPerson(w, q, a);
    forall k | k in w.c.providers && w.c.providers[k] == r.person ensures tag(k.external) == tag(q.external) {
      JoinsItsTag(w, q, a, tag, k);
    }
    forall x | x in w.c.accounts && w.c.accounts[x] == r.person ensures tag(x) == tag(q.external) {
      AccountJoins(w, q, a, tag, x);
    }
    NewPersonIsOwn(w, q, a);
    OneMoreKey(w, w1, Key(q.provider, q.external), Effective(q), r.person, tag);
  }

  lemma KnownKeyKeepsTags<T(!new)>(w: World, q: Request, a: Answers, tag: string -> T)
    requires AllLive(w) && Labelled(w, tag) && Emailless(Call(q, a)) && ValidAnswers(w, q, a)
    requires Key(q.provider, q.external) in w.c.providers && q.provider != "" && q.external != ""
    ensures Labelled(GetOrCreate(w, q, a).0, tag)
  {
    hide GetOrCreate, ValidAnswers, WellFormed;
    var (w1, r) := GetOrCreate(w, q, a);
    KnownKeyIndexes(w, q, a);
    WritesItsPerson(w, q, a);
    assert Live(w.g, r.person);
    assert w1.c == w.c && w1.g == w.g;
  }

  lemma StepKeepsTags<T(!new)>(w: World, ev: Event, tag: string -> T)
    requires AllLive(w) && Labelled(w, tag) && Emailless(ev) && Respects(tag, ev) && Possible(w, ev)
    ensures Labelled(Step(w, ev), tag)
  {
    hide GetOrCreate, ValidAnswers, AllLive, Labelled;
    WritesItsPerson(w, ev.q, ev.a);
    RefusedExactly(w, ev.q, ev.a);
    if GetOrCreate(w, ev.q, ev.a).1.Found? {
      if Key(ev.q.provider, ev.q.external) in w.c.providers {
        KnownKeyKeepsTags(w, ev.q, ev.a, tag);
      } else {
        NewKeyKeepsTags(w, ev.q, ev.a, tag);
      }
    }
  }

  /** A run of such calls from the empty database. */
  ghost predicate EmaillessRun(ws: seq<World>, evs: seq<Event>) {
    IsRun(ws, evs) && ws[0] == World(EmptyGraph, EmptyCache) && forall n :: 0 <= n < |evs| ==> Emailless(evs[n])
  }

  lemma {:induction false} RunKeepsTags<T(!new)>(ws: seq<World>, evs: seq<Event>, tag: string -> T, i: nat)
    requires EmaillessRun(ws, evs) && i < |ws|
    requires forall n :: 0 <= n < |evs| ==> Respects(tag, evs[n])
    ensures AllLive(ws[i]) && Labelled(ws[i], tag)
  {
    hide Step, Possible, AllLive, Emailless, Respects, Labelled;
    EmptyTags(tag);
    RunKeepsLive(ws, evs, i);
    if i > 0 {
      RunKeepsTags(ws, evs, tag, i - 1);
      assert ws[i - 1 + 1] == Step(ws[i - 1], evs[i - 1]);
      StepKeepsTags(ws[i - 1], evs[i - 1], tag);
    }
  }

  lemma EmptyTags<T(!new)>(tag: string -> T)
    ensures AllLive(World(EmptyGraph, EmptyCache)) && Labelled(World(EmptyGraph, EmptyCache), tag)
  {
  }

  // -------------------------------------------------------------- Main results

  /**
   Keys share a Person only when accounts and external ids join them: every labelling
   that gives the account of each call the label of its external id gives keys that
   share a Person one label.
   */
  lemma ShareOnlyByAccount<T(!new)>(ws: seq<World>, evs: seq<Event>, tag: string -> T, k1: Key, k2: Key)
    requires EmaillessRun(ws, evs) && forall n :: 0 <= n < |evs| ==> Respects(tag, evs[n])
    requires var c := ws[|evs|].c; k1 in c.providers && k2 in c.providers && c.providers[k1] == c.providers[k2]
    ensures tag(k1.external) == tag(k2.external)
  {
    hide Respects, AllLive, Possible, Step;
    RunKeepsTags(ws, evs, tag, |evs|);
  }

  /** Two calls that name neither the same account nor the same external id end on two Persons. */
  lemma TwoCallsStayApart(ws: seq<World>, q1: Request, a1: Answers, q2: Request, a2: Answers)
    requires EmaillessRun(ws, [Call(q1, a1), Call(q2, a2)])
    requires {Effective(q1), q1.external} !! {Effective(q2), q2.external}
    requires var c := ws[2].c; Key(q1.provider, q1.external) in c.providers && Key(q2.provider, q2.external) in c.providers
    ensures ws[2].c.providers[Key(q1.provider, q1.external)] != ws[2].c.providers[Key(q2.provider, q2.external)]
  {
    var tag := (x: string) => x in {Effective(q1), q1.external};
    var evs := [Call(q1, a1), Call(q2, a2)];
    assert Respects(tag, evs[0]) && Respects(tag, evs[1]);
    if ws[2].c.providers[Key(q1.provider, q1.external)] == ws[2].c.providers[Key(q2.provider, q2.external)] {
      ShareOnlyByAccount(ws, evs, tag, Key(q1.provider, q1.external), Key(q2.provider, q2.external));
    }
  }

  /** Without accounts, every key's external id is an account of the key's Person. */
  ghost predicate Indexed(w: World) {
    forall k :: k in w.c.providers ==> k.external in w.c.accounts && w.c.accounts[k.external] == w.c.providers[k]
  }

  lemma StepKeepsIndexed(w: World, ev: Event)
    requires AllLive(w) && Labelled(w, (x: string) => x) && Indexed(w) && Emailless(ev) && !NamesAccount(ev.q) && Possible(w, ev)
    ensures Indexed(Step(w, ev))
  {
    hide GetOrCreate, ValidAnswers, AllLive, EmailRow, AccountRow;
    var q := ev.q;
    WritesItsPerson(w, q, ev.a);
    RefusedExactly(w, q, ev.a);
    if GetOrCreate(w, q, ev.a).1.Found? {
      if Key(q.provider, q.external) in w.c.providers {
        KnownKeyIndexes(w, q, ev.a);
      } else {
        NewKeyIndexes(w, q, ev.a);
        NewKeySettlesInOrder(w, q, ev.a);
      }
    }
  }

  lemma {:induction false} RunKeepsIndexed(ws: seq<World>, evs: seq<Event>, i: nat)
    requires EmaillessRun(ws, evs) && i < |ws| && forall n :: 0 <= n < |evs| ==> !NamesAccount(evs[n].q)
    ensures Indexed(ws[i])
  {
    hide Step, Possible, AllLive, Emailless, Labelled, Indexed, NamesAccount;
    if i == 0 {
      NoneIndexed();
    } else {
      RunKeepsIndexed(ws, evs, i - 1);
      var tag := (x: string) => x;
      RunKeepsTags(ws, evs, tag, i - 1);
      assert ws[i - 1 + 1] == Step(ws[i - 1], evs[i - 1]);
      StepKeepsIndexed(ws[i - 1], evs[i - 1]);
    }
  }

  lemma NoneIndexed()
    ensures Indexed(World(EmptyGraph, EmptyCache))
  {
  }

  /** Without accounts, Jira and Confluence keys share a Person exactly when they have the same external id. */
  lemma ShareByExternalId(ws: seq<World>, evs: seq<Event>, k1: Key, k2: Key)
    requires EmaillessRun(ws, evs) && forall n :: 0 <= n < |evs| ==> !NamesAccount(evs[n].q)
    requires k1 in ws[|evs|].c.providers && k2 in ws[|evs|].c.providers
    ensures ws[|evs|].c.providers[k1] == ws[|evs|].c.providers[k2] <==> k1.external == k2.external
  {
    hide AllLive, Possible, Step, Labelled, Emailless;
    RunKeepsIndexed(ws, evs, |evs|);
    var tag := (x: string) => x;
    if ws[|evs|].c.providers[k1] == ws[|evs|].c.providers[k2] {
      ShareOnlyByAccount(ws, evs, tag, k1, k2);
    }
  }
}
