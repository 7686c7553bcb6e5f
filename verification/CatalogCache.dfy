/**
 The parsed-catalog cache of src/app/query_catalog/loader.py.

 A load first takes a fingerprint of all files, one stat at a time, then looks
 into the cache, and on a miss reads the files one at a time and stores what it
 made of them under the fingerprint taken at the start.  Other loaders run and
 files are edited between any two of these steps.  What a load makes of the files
 is left open: `load` is any function of the file contents.
 */
module CatalogCache {
  import opened Options

  /** What a path holds; a file is seen by stat only through its time and size. */
  datatype Status = Absent | File(mtime: int, size: nat, content: string)

  type Stamp = Option<(int, nat)>

  function StampOf(f: Status): Stamp {
    match f
    case Absent => None
    case File(mtime, size, _) => Some((mtime, size))
  }

  function ContentOf(f: Status): Option<string> {
    match f
    case Absent => None
    case File(_, _, content) => Some(content)
  }

  /** The flags that select what is loaded. */
  datatype Key = Key(validateCypher: bool, includeOverrides: bool)

  type Files = map<string, Status>

  type Contents = map<string, Option<string>>

  type Loader = (Key, Contents) -> Option<seq<string>>

  function Fingerprint(fs: Files): map<string, Stamp> { map p | p in fs :: StampOf(fs[p]) }

  function ContentsOf(fs: Files): Contents { map p | p in fs :: ContentOf(fs[p]) }

  /** `read` is history: what each file held when it was read for this entry. */
  datatype Entry = Entry(fingerprint: map<string, Stamp>, queries: seq<string>, seen: Files, read: Files)

  datatype Pc =
    | Idle
    | Statting(key: Key, seen: Files)
    | Reading(key: Key, seen: Files, read: Files)
    | Storing(key: Key, entry: Entry)
    | Returned(key: Key, entry: Entry)
    | Failed

  /** Per path, everything it has held so far, the current status last. */
  datatype State = State(history: map<string, seq<Status>>, cache: map<Key, Entry>, loaders: map<nat, Pc>)

  ghost predicate Started(s: State) {
    s.cache == map[] && s.loaders == map[] && forall p :: p in s.history ==> |s.history[p]| == 1
  }

  function PcOf(s: State, l: nat): Pc { if l in s.loaders then s.loaders[l] else Idle }

  function At(s: State, l: nat, pc: Pc): State { s.(loaders := s.loaders[l := pc]) }

  ghost predicate HasHistory(s: State) { forall p :: p in s.history ==> s.history[p] != [] }

  function Last(h: seq<Status>): Status
    requires h != []
  {
    h[|h| - 1]
  }

  ghost function Current(s: State): Files
    requires HasHistory(s)
  {
    map p | p in s.history :: Last(s.history[p])
  }

  datatype Event =
    | Edit(path: string, now: Status)
    | Start(l: nat, key: Key)
    | Stat(l: nat, path: string)
    | Check(l: nat)
    | Read(l: nat, path: string)
    | Evaluate(l: nat)
    | Store(l: nat)
    | Clear

  ghost predicate Enabled(s: State, e: Event) {
    match e
    case Edit(p, _) => p in s.history
    case Start(l, _) => PcOf(s, l).Idle? || PcOf(s, l).Returned? || PcOf(s, l).Failed?
    case Stat(l, p) => PcOf(s, l).Statting? && p in s.history && s.history[p] != [] && p !in PcOf(s, l).seen
    case Check(l) => PcOf(s, l).Statting? && PcOf(s, l).seen.Keys == s.history.Keys
    case Read(l, p) => PcOf(s, l).Reading? && p in s.history && s.history[p] != [] && p !in PcOf(s, l).read
    case Evaluate(l) => PcOf(s, l).Reading? && PcOf(s, l).read.Keys == s.history.Keys
    case Store(l) => PcOf(s, l).Storing?
    case Clear => true
  }

  ghost function Step(s: State, e: Event, load: Loader): State
    requires Enabled(s, e)
  {
    match e
    case Edit(p, now) => s.(history := s.history[p := s.history[p] + [now]])
    case Start(l, key) => At(s, l, Statting(key, map[]))
    case Stat(l, p) =>
      var Statting(key, seen) := PcOf(s, l);
      At(s, l, Statting(key, seen[p := Last(s.history[p])]))
    case Check(l) =>
      var Statting(key, seen) := PcOf(s, l);
      if key in s.cache && s.cache[key].fingerprint == Fingerprint(seen)
      then At(s, l, Returned(key, s.cache[key]))
      else At(s, l, Reading(key, seen, map[]))
    case Read(l, p) =>
      var Reading(key, seen, read) := PcOf(s, l);
      At(s, l, Reading(key, seen, read[p := Last(s.history[p])]))
    case Evaluate(l) =>
      var Reading(key, seen, read) := PcOf(s, l);
      var result := load(key, ContentsOf(read));
      At(s, l, if result.Some? then Storing(key, Entry(Fingerprint(seen), result.value, seen, read)) else Failed)
    case Store(l) =>
      var Storing(key, entry) := PcOf(s, l);
      At(s.(cache := s.cache[key := entry]), l, Returned(key, entry))
    case Clear => s.(cache := map[])
  }

  ghost predicate IsRun(ss: seq<State>, es: seq<Event>, load: Loader) {
    && |ss| == |es| + 1 && Started(ss[0])
    && forall i :: 0 <= i < |es| ==> Enabled(ss[i], es[i]) && ss[i + 1] == Step(ss[i], es[i], load)
  }

  // -------------------------------------------------------------- Invariant

  /** The path held `first` at some time and `second` at that time or later. */
  ghost predicate Held(h: seq<Status>, first: Status, second: Status) {
    exists i, j :: 0 <= i <= j < |h| && h[i] == first && h[j] == second
  }

  ghost predicate SeenOk(s: State, seen: Files) {
    forall p :: p in seen ==> p in s.history && seen[p] in s.history[p]
  }

  /** Each file was read no earlier than it was statted. */
  ghost predicate ReadOk(s: State, seen: Files, read: Files) {
    forall p :: p in read ==> p in seen && p in s.history && Held(s.history[p], seen[p], read[p])
  }

  ghost predicate EntryOk(s: State, key: Key, e: Entry, load: Loader) {
    && e.seen.Keys == e.read.Keys == s.history.Keys
    && e.fingerprint == Fingerprint(e.seen)
    && ReadOk(s, e.seen, e.read)
    && load(key, ContentsOf(e.read)) == Some(e.queries)
  }

  ghost predicate PcOk(s: State, pc: Pc, load: Loader) {
    match pc
    case Statting(_, seen) => SeenOk(s, seen)
    case Reading(_, seen, read) => seen.Keys == s.history.Keys && SeenOk(s, seen) && ReadOk(s, seen, read)
    case Storing(key, e) => EntryOk(s, key, e, load)
    case Returned(key, e) => EntryOk(s, key, e, load)
    case _ => true
  }

  ghost predicate Inv(s: State, load: Loader) {
    && HasHistory(s)
    && (forall k :: k in s.cache ==> EntryOk(s, k, s.cache[k], load))
    && (forall l: nat :: PcOk(s, PcOf(s, l), load))
  }

  /** Histories only grow. */
  ghost predicate Grown(s: State, s1: State) {
    s.history.Keys == s1.history.Keys && forall p :: p in s.history ==> s.history[p] <= s1.history[p]
  }

  lemma StepGrows(s: State, e: Event, load: Loader)
    requires Enabled(s, e)
    ensures Grown(s, Step(s, e, load))
  {
  }

  lemma StillHeld(h: seq<Status>, h1: seq<Status>, a: Status, b: Status)
    requires h <= h1 && Held(h, a, b)
    ensures Held(h1, a, b)
  {
    var i, j :| 0 <= i <= j < |h| && h[i] == a && h[j] == b;
    assert h1[i] == a && h1[j] == b;
  }

  lemma EntryStillOk(s: State, s1: State, key: Key, e: Entry, load: Loader)
    requires Grown(s, s1) && EntryOk(s, key, e, load)
    ensures EntryOk(s1, key, e, load)
  {
    ReadStillOk(s, s1, e.seen, e.read);
  }

  lemma ReadStillOk(s: State, s1: State, seen: Files, read: Files)
    requires Grown(s, s1) && ReadOk(s, seen, read)
    ensures ReadOk(s1, seen, read)
  {
    forall p | p in read ensures Held(s1.history[p], seen[p], read[p]) {
      StillHeld(s.history[p], s1.history[p], seen[p], read[p]);
    }
  }

  lemma PcStillOk(s: State, s1: State, pc: Pc, load: Loader)
    requires Grown(s, s1) && PcOk(s, pc, load)
    ensures PcOk(s1, pc, load)
  {
    match pc
    case Reading(_, seen, read) => ReadStillOk(s, s1, seen, read);
    case Storing(key, e) => EntryStillOk(s, s1, key, e, load);
    case Returned(key, e) => EntryStillOk(s, s1, key, e, load);
    case _ =>
  }

  function Actor(e: Event): Option<nat> {
    match e
    case Edit(_, _) => None
    case Clear => None
    case _ => Some(e.l)
  }

  lemma ActorOk(s: State, e: Event, load: Loader)
    requires Inv(s, load) && Enabled(s, e) && Actor(e).Some?
    ensures PcOk(s, PcOf(Step(s, e, load), Actor(e).value), load)
  {
    var l := Actor(e).value;
    assert PcOk(s, PcOf(s, l), load);
    if e.Read? {
      var Reading(_, seen, _) := PcOf(s, l);
      var h := s.history[e.path];
      var i :| 0 <= i < |h| && h[i] == seen[e.path];
      assert Held(h, seen[e.path], Last(h));
    }
  }

  lemma StepKeepsInv(s: State, e: Event, load: Loader)
    requires Inv(s, load) && Enabled(s, e)
    ensures Inv(Step(s, e, load), load)
  {
    hide Step, Enabled, PcOk, EntryOk, Grown;
    var s1 := Step(s, e, load);
    StepGrows(s, e, load);
    StillHistory(s, s1);
    forall l: nat ensures PcOk(s1, PcOf(s1, l), load) {
      if Actor(e) == Some(l) {
        ActorOk(s, e, load);
        PcStillOk(s, s1, PcOf(s1, l), load);
      } else {
        OthersStay(s, e, load, l);
        PcStillOk(s, s1, PcOf(s, l), load);
      }
    }
    forall k | k in s1.cache ensures EntryOk(s1, k, s1.cache[k], load) {
      CacheFrom(s, e, load, k);
      EntryStillOk(s, s1, k, s1.cache[k], load);
    }
  }

  lemma StillHistory(s: State, s1: State)
    requires HasHistory(s) && Grown(s, s1)
    ensures HasHistory(s1)
  {
  }

  lemma OthersStay(s: State, e: Event, load: Loader, l: nat)
    requires Enabled(s, e) && Actor(e) != Some(l)
    ensures PcOf(Step(s, e, load), l) == PcOf(s, l)
  {
  }

  /** An entry in the cache was there before, or is the one just stored. */
  lemma CacheFrom(s: State, e: Event, load: Loader, k: Key)
    requires Inv(s, load) && Enabled(s, e) && k in Step(s, e, load).cache
    ensures EntryOk(s, k, Step(s, e, load).cache[k], load)
  {
    hide EntryOk;
    if e.Store? && k == PcOf(s, e.l).key {
      assert PcOk(s, PcOf(s, e.l), load);
    }
  }

  lemma {:induction false} RunKeepsInv(ss: seq<State>, es: seq<Event>, load: Loader, i: nat)
    requires IsRun(ss, es, load) && i < |ss|
    ensures Inv(ss[i], load)
  {
    hide Step, Enabled;
    if i > 0 {
      RunKeepsInv(ss, es, load, i - 1);
      assert ss[i - 1 + 1] == Step(ss[i - 1], es[i - 1], load);
      StepKeepsInv(ss[i - 1], es[i - 1], load);
    }
  }

  // --------------------------------------------------------------- The claim

  ghost predicate Reachable(s: State, load: Loader) {
    exists ss, es :: IsRun(ss, es, load) && ss[|es|] == s
  }

  /** Both absent, or files of the same time and size. */
  predicate SameStat(a: Status, b: Status) {
    (a.Absent? && b.Absent?) || (a.File? && b.File? && a.mtime == b.mtime && a.size == b.size)
  }

  /** Both absent, or files with the same content. */
  predicate SameContent(a: Status, b: Status) {
    (a.Absent? && b.Absent?) || (a.File? && b.File? && a.content == b.content)
  }

  lemma StampsTell(a: Status, b: Status)
    ensures StampOf(a) == StampOf(b) <==> SameStat(a, b)
    ensures ContentOf(a) == ContentOf(b) <==> SameContent(a, b)
  {
  }

  /** Since the path first had the time and size it has now, or was absent as it is now, it has held what it holds now. */
  ghost predicate Unbroken(h: seq<Status>)
    requires h != []
  {
    forall i, j :: 0 <= i <= j < |h| && SameStat(h[i], Last(h)) ==> SameContent(h[j], Last(h))
  }

  ghost predicate AllUnbroken(s: State)
    requires HasHistory(s)
  {
    forall p :: p in s.history ==> Unbroken(s.history[p])
  }

  /** The entry would be used for the files as they are now. */
  ghost predicate Matches(s: State, e: Entry)
    requires HasHistory(s)
  {
    e.fingerprint == Fingerprint(Current(s))
  }

  /** The entry holds what an uncached load of the files as they are now returns. */
  ghost predicate Right(s: State, key: Key, e: Entry, load: Loader)
    requires HasHistory(s)
  {
    load(key, ContentsOf(Current(s))) == Some(e.queries)
  }

  lemma ReachableInv(s: State, load: Loader)
    requires Reachable(s, load)
    ensures Inv(s, load)
  {
    hide Step, Enabled, Inv;
    var ss, es :| IsRun(ss, es, load) && ss[|es|] == s;
    RunKeepsInv(ss, es, load, |es|);
  }

  lemma ReadIsCurrent(s: State, key: Key, e: Entry, load: Loader, p: string)
    requires HasHistory(s) && AllUnbroken(s) && EntryOk(s, key, e, load) && Matches(s, e) && p in s.history
    ensures ContentOf(e.read[p]) == ContentOf(Last(s.history[p]))
  {
    var h := s.history[p];
    var i, j :| 0 <= i <= j < |h| && h[i] == e.seen[p] && h[j] == e.read[p];
    StampsTell(h[i], Last(h));
    StampsTell(h[j], Last(h));
    assert e.fingerprint[p] == StampOf(h[i]);
    assert Fingerprint(Current(s))[p] == StampOf(Last(h));
  }

  lemma SameContents(s: State, e: Entry)
    requires HasHistory(s) && e.read.Keys == s.history.Keys
    requires forall p :: p in s.history ==> ContentOf(e.read[p]) == ContentOf(Last(s.history[p]))
    ensures ContentsOf(e.read) == ContentsOf(Current(s))
  {
  }

  lemma MatchingEntryIsRight(s: State, key: Key, e: Entry, load: Loader)
    requires HasHistory(s) && AllUnbroken(s) && EntryOk(s, key, e, load) && Matches(s, e)
    ensures Right(s, key, e, load)
  {
    hide ReadOk, Matches, Fingerprint, AllUnbroken;
    SameContents(s, e) by {
      forall p | p in s.history ensures ContentOf(e.read[p]) == ContentOf(Last(s.history[p])) {
        ReadIsCurrent(s, key, e, load, p);
      }
    }
  }

  /**
   In every state of every run whose histories are unbroken, a cache entry whose
   fingerprint is that of the files as they are now is right, and so is a list that
   a load has returned: slow loaders that overwrite newer entries included.
   */
  lemma MatchingEntriesAreRight(s: State, load: Loader)
    requires Reachable(s, load) && HasHistory(s) && AllUnbroken(s)
    ensures forall k :: k in s.cache && Matches(s, s.cache[k]) ==> Right(s, k, s.cache[k], load)
    ensures forall l: nat :: PcOf(s, l).Returned? && Matches(s, PcOf(s, l).entry) ==>
      Right(s, PcOf(s, l).key, PcOf(s, l).entry, load)
  {
    hide Reachable, Matches, Right, AllUnbroken;
    ReachableInv(s, load);
    forall k | k in s.cache && Matches(s, s.cache[k]) ensures Right(s, k, s.cache[k], load) {
      MatchingEntryIsRight(s, k, s.cache[k], load);
    }
    forall l: nat | PcOf(s, l).Returned? && Matches(s, PcOf(s, l).entry)
      ensures Right(s, PcOf(s, l).key, PcOf(s, l).entry, load)
    {
      assert PcOk(s, PcOf(s, l), load);
      MatchingEntryIsRight(s, PcOf(s, l).key, PcOf(s, l).entry, load);
    }
  }

  // ------------------------------------------------------ When the cache hits

  lemma SameFingerprints(a: Files, b: Files)
    requires a.Keys == b.Keys
    ensures Fingerprint(a) == Fingerprint(b) <==> forall p :: p in a ==> SameStat(a[p], b[p])
  {
    forall p | p in a ensures Fingerprint(a)[p] == Fingerprint(b)[p] <==> SameStat(a[p], b[p]) {
      StampsTell(a[p], b[p]);
    }
  }

  /**
   In every reachable state a loader that has statted all files returns the entry for its
   flags exactly when each file has the time and the size, or the absence, that the load
   behind the entry saw; otherwise it goes on to read every file.
   */
  lemma CheckExactly(s: State, load: Loader, l: nat)
    requires Reachable(s, load) && Enabled(s, Check(l))
    ensures var Statting(key, seen), now := PcOf(s, l), PcOf(Step(s, Check(l), load), l);
      && (key in s.cache ==> s.cache[key].seen.Keys == seen.Keys)
      && (key in s.cache && (forall p :: p in seen ==> SameStat(s.cache[key].seen[p], seen[p])) ==>
            now == Returned(key, s.cache[key]))
      && (!(key in s.cache && (forall p :: p in seen ==> SameStat(s.cache[key].seen[p], seen[p]))) ==>
            now == Reading(key, seen, map[]))
  {
    hide Reachable, Fingerprint, Step, Enabled, Inv, SameStat;
    var pc := CheckIs(s, load, l);
    var key, seen := pc.key, pc.seen;
    if key in s.cache {
      CachedIs(s, load, key);
      SameFingerprints(s.cache[key].seen, seen);
    }
  }

  /** One step of the cache lookup. */
  lemma CheckIs(s: State, load: Loader, l: nat) returns (pc: Pc)
    requires Enabled(s, Check(l))
    ensures pc == PcOf(s, l) && pc.Statting? && pc.seen.Keys == s.history.Keys
    ensures PcOf(Step(s, Check(l), load), l) ==
      if pc.key in s.cache && s.cache[pc.key].fingerprint == Fingerprint(pc.seen) then Returned(pc.key, s.cache[pc.key])
      else Reading(pc.key, pc.seen, map[])
  {
    hide Fingerprint;
    pc := PcOf(s, l);
  }

  lemma CachedIs(s: State, load: Loader, key: Key)
    requires Reachable(s, load) && key in s.cache
    ensures s.cache[key].seen.Keys == s.history.Keys && s.cache[key].fingerprint == Fingerprint(s.cache[key].seen)
  {
    hide Reachable, Fingerprint;
    ReachableInv(s, load);
    assert EntryOk(s, key, s.cache[key], load);
  }

  /** What a loader stores replaces the entry for its own flags and no other. */
  lemma StoreExactly(s: State, load: Loader, l: nat, k: Key)
    requires PcOf(s, l).Storing?
    ensures Enabled(s, Store(l))
    ensures var Storing(key, entry), s1 := PcOf(s, l), Step(s, Store(l), load);
      && PcOf(s1, l) == Returned(key, entry) && key in s1.cache && s1.cache[key] == entry
      && (k != key ==> (k in s1.cache <==> k in s.cache) && (k in s.cache ==> s1.cache[k] == s.cache[k]))
      && s1.history == s.history
  {
  }

  /** What can happen next: an edit or a reset at any time, and a loader's next stat or read, file by file, in any order. */
  lemma PossibleNext(s: State, l: nat, p: string, now: Status, key: Key)
    requires HasHistory(s)
    ensures Enabled(s, Clear) && (Enabled(s, Edit(p, now)) <==> p in s.history)
    ensures Enabled(s, Start(l, key)) <==> PcOf(s, l).Idle? || PcOf(s, l).Returned? || PcOf(s, l).Failed?
    ensures PcOf(s, l).Statting? ==>
      && (Enabled(s, Stat(l, p)) <==> p in s.history && p !in PcOf(s, l).seen)
      && (Enabled(s, Check(l)) <==> PcOf(s, l).seen.Keys == s.history.Keys)
    ensures PcOf(s, l).Reading? ==>
      && (Enabled(s, Read(l, p)) <==> p in s.history && p !in PcOf(s, l).read)
      && (Enabled(s, Evaluate(l)) <==> PcOf(s, l).read.Keys == s.history.Keys)
  {
  }

  /** After the reads a load either has its list to store, or has failed and stores nothing. */
  lemma EvaluateExactly(s: State, load: Loader, l: nat)
    requires Enabled(s, Evaluate(l))
    ensures var Reading(key, _, read), s1 := PcOf(s, l), Step(s, Evaluate(l), load);
      && s1.cache == s.cache
      && (PcOf(s1, l).Failed? <==> load(key, ContentsOf(read)).None?)
      && (!PcOf(s1, l).Failed? ==> PcOf(s1, l).Storing? && Some(PcOf(s1, l).entry.queries) == load(key, ContentsOf(read)))
  {
    hide ContentsOf, Fingerprint;
  }

  /** After a reset no loader finds anything. */
  lemma ClearedMisses(s: State, load: Loader, l: nat)
    requires Enabled(Step(s, Clear, load), Check(l))
    ensures PcOf(Step(Step(s, Clear, load), Check(l), load), l).Reading?
  {
  }

  // ------------------------------------------- Broken histories do go wrong

  lemma Reach(s: State, e: Event, load: Loader) returns (s1: State)
    requires Reachable(s, load) && Enabled(s, e)
    ensures s1 == Step(s, e, load) && Reachable(s1, load)
  {
    hide Step, Enabled;
    var ss, es :| IsRun(ss, es, load) && ss[|es|] == s;
    s1 := Step(s, e, load);
    assert IsRun(ss + [s1], es + [e], load) by {
      forall i | 0 <= i < |es + [e]|
        ensures Enabled((ss + [s1])[i], (es + [e])[i]) && (ss + [s1])[i + 1] == Step((ss + [s1])[i], (es + [e])[i], load)
      {
        if i < |es| {
          assert ss[i + 1] == Step(ss[i], es[i], load);
        }
      }
    }
    assert (ss + [s1])[|es + [e]|] == s1;
  }

  /** The edits that take the only path through the rest of its history. */
  lemma {:induction false} ReachEdits(s: State, load: Loader, p: string, h: seq<Status>, from: nat, upto: nat) returns (s1: State)
    requires Reachable(s, load) && from <= upto < |h| && s.history == map[p := h[..from + 1]]
    ensures Reachable(s1, load) && s1 == s.(history := map[p := h[..upto + 1]])
    decreases upto - from
  {
    hide Reachable;
    if from < upto {
      s1 := Reach(s, Edit(p, h[from + 1]), load);
      assert h[..from + 1] + [h[from + 1]] == h[..from + 2];
      assert s1.history == map[p := h[..from + 2]];
      s1 := ReachEdits(s1, load, p, h, from + 1, upto);
    } else {
      s1 := s;
    }
  }

  /** One file, whose content is the list loaded. */
  function FileList(p: string): Loader {
    (key: Key, c: Contents) => if p in c && c[p].Some? then Some([c[p].value]) else Some([])
  }

  const ANY_KEY := Key(true, true)

  function Before(p: string, h: seq<Status>): State { State(map[p := h], map[], map[]) }

  /** A load that statted the file at `i` in its history and read it at `j`. */
  function Outcome(p: string, h: seq<Status>, i: nat, j: nat): Entry
    requires i < |h| && j < |h|
  {
    var seen := map[p := h[i]];
    var read := map[p := h[j]];
    Entry(Fingerprint(seen), FileList(p)(ANY_KEY, ContentsOf(read)).value, seen, read)
  }

  lemma InitReachable(p: string, first: Status)
    ensures Reachable(Before(p, [first]), FileList(p))
  {
    assert IsRun([Before(p, [first])], [], FileList(p));
  }

  lemma StatAt(s: State, p: string, h: seq<Status>, i: nat) returns (s1: State)
    requires Reachable(s, FileList(p)) && i < |h| && s == Before(p, h[..i + 1])
    ensures Reachable(s1, FileList(p))
    ensures s1 == s.(loaders := map[0 := Reading(ANY_KEY, map[p := h[i]], map[])])
  {
    hide Reachable;
    s1 := Reach(s, Start(0, ANY_KEY), FileList(p));
    s1 := Reach(s1, Stat(0, p), FileList(p));
    assert s1.loaders == map[0 := Statting(ANY_KEY, map[p := h[i]])];
    s1 := Reach(s1, Check(0), FileList(p));
  }

  lemma ReadAt(s: State, p: string, h: seq<Status>, i: nat, j: nat) returns (s1: State)
    requires Reachable(s, FileList(p)) && i < |h| && j < |h|
    requires s == State(map[p := h[..j + 1]], map[], map[0 := Reading(ANY_KEY, map[p := h[i]], map[])])
    ensures Reachable(s1, FileList(p)) && s1.history == s.history
    ensures s1.cache == map[ANY_KEY := Outcome(p, h, i, j)]
  {
    hide Reachable;
    s1 := Reach(s, Read(0, p), FileList(p));
    assert s1.loaders == map[0 := Reading(ANY_KEY, map[p := h[i]], map[p := h[j]])];
    s1 := Reach(s1, Evaluate(0), FileList(p));
    s1 := Reach(s1, Store(0), FileList(p));
  }

  /** A load that stats at `i` and reads at `j`, with the file going through its whole history. */
  lemma LoadAcross(p: string, h: seq<Status>, i: nat, j: nat) returns (s: State)
    requires i <= j < |h|
    ensures Reachable(s, FileList(p)) && s.history == map[p := h] && s.cache == map[ANY_KEY := Outcome(p, h, i, j)]
  {
    hide Reachable, Outcome;
    var load := FileList(p);
    InitReachable(p, h[0]);
    assert h[..1] == [h[0]];
    s := ReachEdits(Before(p, [h[0]]), load, p, h, 0, i);
    s := StatAt(s, p, h, i);
    s := ReachEdits(s, load, p, h, i, j);
    s := ReadAt(s, p, h, i, j);
    assert h[..|h| - 1 + 1] == h;
    s := ReachEdits(s, load, p, h, j, |h| - 1);
  }

  ghost predicate Safe(p: string, h: seq<Status>)
    requires h != []
  {
    forall s: State, load: Loader, k: Key ::
      Reachable(s, load) && s.history == map[p := h] && k in s.cache && Matches(s, s.cache[k]) ==>
      Right(s, k, s.cache[k], load)
  }

  lemma OutcomeMatches(s: State, p: string, h: seq<Status>, i: nat, j: nat)
    requires i <= j < |h| && s.history == map[p := h]
    ensures Matches(s, Outcome(p, h, i, j)) <==> SameStat(h[i], Last(h))
    ensures Right(s, ANY_KEY, Outcome(p, h, i, j), FileList(p)) <==> SameContent(h[j], Last(h))
  {
    StampsTell(h[i], Last(h));
    StampsTell(h[j], Last(h));
    assert Current(s)[p] == Last(h);
    assert Fingerprint(map[p := h[i]])[p] == StampOf(h[i]);
    assert Fingerprint(Current(s))[p] == StampOf(Last(h));
    if StampOf(h[i]) == StampOf(Last(h)) {
      assert Fingerprint(map[p := h[i]]) == Fingerprint(Current(s));
    }
    assert ContentsOf(map[p := h[j]])[p] == ContentOf(h[j]);
    assert ContentsOf(Current(s))[p] == ContentOf(Last(h));
  }

  /**
   The cache is safe for a file exactly when the file's history is unbroken.  A file
   that is created while a load runs and deleted again afterwards, or put back with
   its old time and size, leaves an entry that matches and is wrong.
   */
  lemma SafeExactlyWhenUnbroken(p: string, h: seq<Status>)
    requires h != []
    ensures Safe(p, h) <==> Unbroken(h)
  {
    if Unbroken(h) {
      forall s: State, load: Loader, k: Key
        | Reachable(s, load) && s.history == map[p := h] && k in s.cache && Matches(s, s.cache[k])
        ensures Right(s, k, s.cache[k], load)
      {
        hide Reachable, Matches, Right, Unbroken;
        MatchingEntriesAreRight(s, load);
      }
    } else {
      BrokenIsUnsafe(p, h);
    }
  }

  lemma BrokenIsUnsafe(p: string, h: seq<Status>)
    requires h != [] && !Unbroken(h)
    ensures !Safe(p, h)
  {
    hide Reachable, Matches, Right, Outcome;
    var i, j :| 0 <= i <= j < |h| && SameStat(h[i], Last(h)) && !SameContent(h[j], Last(h));
    var s := LoadAcross(p, h, i, j);
    OutcomeMatches(s, p, h, i, j);
    assert ANY_KEY in s.cache;
  }
}
