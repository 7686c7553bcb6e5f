/**
 The uncached catalog load of src/app/query_catalog/loader.py: the namespaces, the
 shipped query files, and the overlay of user files over them.

 A directory is the sequence of its *.yaml files sorted by name; what the YAML
 parser and the model validation make of one file is part of the input.
 */
module CatalogOverlay {
  import opened Options

  datatype Error = NoNamespaces | BadNamespace | DuplicateDirectory | MissingDirectory | BadFile | DuplicateId

  datatype Result<+T> = Ok(value: T) | Err(error: Error)

  /** `body` is None for a file that is refused; `readOnly` is the verdict on its Cypher. */
  datatype QueryFile = QueryFile(stem: string, body: Option<Body>, readOnly: bool)

  datatype Body = Body(name: string, text: string)

  type Folder = map<string, seq<QueryFile>>

  /**
   A namespace entry is None when it is not a valid mapping; a namespaces value that
   is no list is the empty list.  `user` is None without a user_defined directory.
   */
  datatype Disk = Disk(shippedNames: seq<Option<string>>, userNames: Option<seq<Option<string>>>,
                       shipped: Folder, user: Option<Folder>)

  datatype Namespace = Namespace(directory: string, order: nat, userDefined: bool)

  datatype Origin = Builtin | Custom | Override

  datatype Query = Query(id: string, slug: string, namespace: Namespace, body: Body, origin: Origin)

  const USER_DEFINED := "user_defined"

  predicate Alphanumeric(c: char) { 'a' <= c <= 'z' || 'A' <= c <= 'Z' || '0' <= c <= '9' }

  predicate SafeSegment(s: string) {
    s != [] && Alphanumeric(s[0]) && forall i :: 0 < i < |s| ==> Alphanumeric(s[i]) || s[i] == '_'
  }

  // -------------------------------------------------------------- Namespaces

  predicate HasUserDirectory(d: Disk, directory: string) { d.user.Some? && directory in d.user.value }

  predicate NameOk(name: Option<string>) { name.Some? && SafeSegment(name.value) }

  predicate HasDirectory(nss: seq<Namespace>, directory: string) {
    exists i :: 0 <= i < |nss| && nss[i].directory == directory
  }

  /** The declarations of one catalog.yaml, appended in order. */
  function Declare(acc: seq<Namespace>, names: seq<Option<string>>, userDefined: bool, d: Disk): (r: Result<seq<Namespace>>)
    decreases |names|
  {
    if names == [] then Ok(acc)
    else if !NameOk(names[0]) then Err(BadNamespace)
    else if HasDirectory(acc, names[0].value) then Err(DuplicateDirectory)
    else if userDefined && !HasUserDirectory(d, names[0].value) then Err(MissingDirectory)
    else Declare(acc + [Namespace(names[0].value, |acc|, userDefined)], names[1..], userDefined, d)
  }

  function Namespaces(d: Disk): (r: Result<seq<Namespace>>) {
    if d.shippedNames == [] then Err(NoNamespaces)
    else
      var shipped := Declare([], d.shippedNames, false, d);
      if shipped.Err? || d.userNames.None? then shipped
      else if d.userNames.value == [] then Err(NoNamespaces)
      else Declare(shipped.value, d.userNames.value, true, d)
  }

  method DeclareAll(acc: seq<Namespace>, seen: set<string>, names: seq<Option<string>>, userDefined: bool, d: Disk)
    returns (r: Result<seq<Namespace>>, seen': set<string>)
    requires forall s :: s in seen <==> HasDirectory(acc, s)
    ensures r == Declare(acc, names, userDefined, d)
    ensures r.Ok? ==> forall s :: s in seen' <==> HasDirectory(r.value, s)
  {
    var namespaces := acc;
    seen' := seen;
    for k := 0 to |names|
      invariant Declare(namespaces, names[k..], userDefined, d) == Declare(acc, names, userDefined, d)
      invariant forall s :: s in seen' <==> HasDirectory(namespaces, s)
    {
      assert names[k..][1..] == names[k + 1..];
      if !NameOk(names[k]) {
        return Err(BadNamespace), seen';
      }
      if names[k].value in seen' {
        return Err(DuplicateDirectory), seen';
      }
      if userDefined && !HasUserDirectory(d, names[k].value) {
        return Err(MissingDirectory), seen';
      }
      var ns := Namespace(names[k].value, |namespaces|, userDefined);
      seen' := seen' + {ns.directory};
      HasDirectoryAppend(namespaces, ns);
      namespaces := namespaces + [ns];
    }
    return Ok(namespaces), seen';
  }

  lemma HasDirectoryAppend(nss: seq<Namespace>, ns: Namespace)
    ensures forall s :: HasDirectory(nss + [ns], s) <==> HasDirectory(nss, s) || s == ns.directory
  {
    forall s ensures HasDirectory(nss + [ns], s) <==> HasDirectory(nss, s) || s == ns.directory {
      if HasDirectory(nss, s) {
        var i :| 0 <= i < |nss| && nss[i].directory == s;
        assert (nss + [ns])[i].directory == s;
      }
      assert (nss + [ns])[|nss|] == ns;
    }
  }

  method LoadNamespaces(d: Disk) returns (r: Result<seq<Namespace>>)
    ensures r == Namespaces(d)
  {
    if d.shippedNames == [] {
      return Err(NoNamespaces);
    }
    var seen: set<string>;
    r, seen := DeclareAll([], {}, d.shippedNames, false, d);
    if r.Err? || d.userNames.None? {
      return;
    }
    if d.userNames.value == [] {
      return Err(NoNamespaces);
    }
    r, seen := DeclareAll(r.value, seen, d.userNames.value, true, d);
  }

  function AllNames(d: Disk): seq<Option<string>> {
    d.shippedNames + if d.userNames.Some? then d.userNames.value else []
  }

  /** Names that are valid, new and pairwise different, with the directory they need. */
  ghost predicate Declarable(acc: seq<Namespace>, names: seq<Option<string>>, userDefined: bool, d: Disk) {
    && (forall k :: 0 <= k < |names| ==> NameOk(names[k]) && !HasDirectory(acc, names[k].value))
    && (forall j, k :: 0 <= j < k < |names| ==> names[j] != names[k])
    && (userDefined ==> forall k :: 0 <= k < |names| ==> NameOk(names[k]) && HasUserDirectory(d, names[k].value))
  }

  ghost predicate Declared(nss: seq<Namespace>, acc: seq<Namespace>, names: seq<Option<string>>, userDefined: bool) {
    && |nss| == |acc| + |names| && nss[..|acc|] == acc
    && forall k :: 0 <= k < |names| ==> names[k].Some? && nss[|acc| + k] == Namespace(names[k].value, |acc| + k, userDefined)
  }

  lemma {:induction false} DeclareMeaning(acc: seq<Namespace>, names: seq<Option<string>>, userDefined: bool, d: Disk)
    ensures Declare(acc, names, userDefined, d).Ok? <==> Declarable(acc, names, userDefined, d)
    ensures Declare(acc, names, userDefined, d).Ok? ==> Declared(Declare(acc, names, userDefined, d).value, acc, names, userDefined)
    decreases |names|
  {
    var r := Declare(acc, names, userDefined, d);
    if names != [] && NameOk(names[0]) {
      var ns := Namespace(names[0].value, |acc|, userDefined);
      DeclareMeaning(acc + [ns], names[1..], userDefined, d);
      HasDirectoryAppend(acc, ns);
      DeclarableStep(acc, ns, names, userDefined, d);
      if r.Ok? {
        assert r.value[..|acc|] == r.value[..|acc| + 1][..|acc|];
        assert r.value[|acc|] == r.value[..|acc| + 1][|acc|];
        forall k | 0 < k < |names| ensures names[k].Some? && r.value[|acc| + k] == Namespace(names[k].value, |acc| + k, userDefined) {
          assert names[k] == names[1..][k - 1];
        }
      }
    }
  }

  lemma DeclarableStep(acc: seq<Namespace>, ns: Namespace, names: seq<Option<string>>, userDefined: bool, d: Disk)
    requires names != [] && NameOk(names[0]) && ns.directory == names[0].value
    requires forall s :: HasDirectory(acc + [ns], s) <==> HasDirectory(acc, s) || s == ns.directory
    ensures Declarable(acc, names, userDefined, d) <==>
      && !HasDirectory(acc, ns.directory) && (userDefined ==> HasUserDirectory(d, ns.directory))
      && Declarable(acc + [ns], names[1..], userDefined, d)
  {
    hide HasDirectory, HasUserDirectory, SafeSegment;
    if !HasDirectory(acc, ns.directory) && (userDefined ==> HasUserDirectory(d, ns.directory)) {
      assert forall k :: 0 < k < |names| ==> names[k] == names[1..][k - 1];
      if Declarable(acc + [ns], names[1..], userDefined, d) {
        forall j, k | 0 <= j < k < |names| ensures names[j] != names[k] {
          assert names[k] == names[1..][k - 1];
          if j > 0 {
            assert names[j] == names[1..][j - 1];
          }
        }
      }
    }
  }

  /** When the namespace declarations are accepted. */
  ghost predicate NamespacesOk(d: Disk) {
    && d.shippedNames != []
    && (d.userNames.Some? ==> d.userNames.value != [])
    && (forall k :: 0 <= k < |AllNames(d)| ==> NameOk(AllNames(d)[k]))
    && (forall j, k :: 0 <= j < k < |AllNames(d)| ==> AllNames(d)[j] != AllNames(d)[k])
    && (d.userNames.Some? ==>
          forall k :: 0 <= k < |d.userNames.value| ==>
            d.userNames.value[k].Some? && HasUserDirectory(d, d.userNames.value[k].value))
  }

  lemma DeclaredDirectories(nss: seq<Namespace>, names: seq<Option<string>>)
    requires Declared(nss, [], names, false)
    ensures forall s :: HasDirectory(nss, s) <==> Some(s) in names
  {
    forall s ensures HasDirectory(nss, s) <==> Some(s) in names {
      if HasDirectory(nss, s) {
        var k :| 0 <= k < |nss| && nss[k].directory == s;
        assert nss[0 + k] == Namespace(names[k].value, k, false);
      }
      if Some(s) in names {
        var k :| 0 <= k < |names| && names[k] == Some(s);
        assert nss[0 + k].directory == s;
      }
    }
  }

  lemma DeclarableAfter(d: Disk, shipped: seq<Namespace>)
    requires d.userNames.Some? && Declared(shipped, [], d.shippedNames, false) && NamespacesOk(d)
    ensures Declarable(shipped, d.userNames.value, true, d)
  {
    hide HasUserDirectory, SafeSegment, HasDirectory, Declared;
    DeclaredDirectories(shipped, d.shippedNames);
    var all, n, user := AllNames(d), |d.shippedNames|, d.userNames.value;
    assert forall k :: 0 <= k < n ==> all[k] == d.shippedNames[k];
    assert forall k :: 0 <= k < |user| ==> all[n + k] == user[k];
  }

  lemma AcceptedTogether(d: Disk, shipped: seq<Namespace>)
    requires d.userNames.Some? && d.shippedNames != [] && d.userNames.value != []
    requires Declarable([], d.shippedNames, false, d) && Declared(shipped, [], d.shippedNames, false)
    requires Declarable(shipped, d.userNames.value, true, d)
    ensures NamespacesOk(d)
  {
    hide HasUserDirectory, SafeSegment, HasDirectory, Declared;
    DeclaredDirectories(shipped, d.shippedNames);
    var all, n, user := AllNames(d), |d.shippedNames|, d.userNames.value;
    assert forall k :: 0 <= k < n ==> all[k] == d.shippedNames[k];
    assert forall k :: n <= k < |all| ==> all[k] == user[k - n];
    forall j, k | 0 <= j < k < |all| ensures all[j] != all[k] {
      if j < n <= k {
        assert all[j] in d.shippedNames && user[k - n] == Some(user[k - n].value);
      }
    }
  }

  /** Accepting the user names after the shipped ones is accepting all of them together. */
  lemma DeclarableTogether(d: Disk, shipped: seq<Namespace>)
    requires d.userNames.Some? && d.shippedNames != [] && d.userNames.value != []
    requires Declarable([], d.shippedNames, false, d) && Declared(shipped, [], d.shippedNames, false)
    ensures NamespacesOk(d) <==> Declarable(shipped, d.userNames.value, true, d)
  {
    hide Declarable, Declared, NamespacesOk;
    if NamespacesOk(d) {
      DeclarableAfter(d, shipped);
    }
    if Declarable(shipped, d.userNames.value, true, d) {
      AcceptedTogether(d, shipped);
    }
  }

  /**
   Exactly the well-formed declarations load, to one namespace a name: numbered in
   the order of declaration, shipped names first, directories pairwise different.
   */
  lemma NamespacesMeaning(d: Disk)
    ensures Namespaces(d).Ok? <==> NamespacesOk(d)
    ensures Namespaces(d).Ok? ==>
      && |Namespaces(d).value| == |AllNames(d)|
      && forall k :: 0 <= k < |AllNames(d)| ==>
           && AllNames(d)[k].Some?
           && Namespaces(d).value[k] == Namespace(AllNames(d)[k].value, k, k >= |d.shippedNames|)
  {
    hide HasUserDirectory, SafeSegment, HasDirectory, Declarable, Declare, NamespacesOk;
    DeclareMeaning([], d.shippedNames, false, d);
    var shipped := Declare([], d.shippedNames, false, d);
    if d.shippedNames == [] || d.userNames.None? || d.userNames.value == [] || shipped.Err? {
      NamespacesNoUser(d);
    } else {
      DeclareMeaning(shipped.value, d.userNames.value, true, d);
      DeclarableTogether(d, shipped.value);
      var r := Declare(shipped.value, d.userNames.value, true, d);
      var n := |d.shippedNames|;
      if r.Ok? {
        forall k | 0 <= k < |AllNames(d)|
          ensures AllNames(d)[k].Some? && r.value[k] == Namespace(AllNames(d)[k].value, k, k >= n)
        {
          if k < n {
            assert r.value[k] == r.value[..n][k] == shipped.value[0 + k];
          } else {
            assert r.value[n + (k - n)] == Namespace(d.userNames.value[k - n].value, n + (k - n), true);
          }
        }
      }
    }
  }

  lemma NamespacesNoUser(d: Disk)
    requires d.shippedNames == [] || d.userNames.None? || d.userNames.value == [] || Declare([], d.shippedNames, false, d).Err?
    ensures Namespaces(d).Ok? <==> NamespacesOk(d)
    ensures Namespaces(d).Ok? ==> d.userNames.None?
    ensures Namespaces(d).Ok? ==> Declared(Namespaces(d).value, [], d.shippedNames, false)
  {
    hide HasUserDirectory, SafeSegment, Declare, Declared;
    DeclareMeaning([], d.shippedNames, false, d);
    if NamespacesOk(d) {
      assert forall k :: 0 <= k < |d.shippedNames| ==> AllNames(d)[k] == d.shippedNames[k];
    }
  }

  // ------------------------------------------------------------ Query files

  datatype Source = Shipped | User

  /** The origin follows from the path alone: anything below user_defined/ is custom. */
  function OriginOf(source: Source, directory: string): Origin {
    if source.User? || directory == USER_DEFINED then Custom else Builtin
  }

  predicate FileOk(f: QueryFile, validate: bool) {
    f.body.Some? && (validate ==> f.readOnly) && SafeSegment(f.stem)
  }

  function IdOf(directory: string, slug: string): string { directory + "/" + slug }

  function LoadFile(f: QueryFile, ns: Namespace, source: Source): Query {
    var body := if f.body.Some? then f.body.value else Body("", "");
    Query(IdOf(ns.directory, f.stem), f.stem, ns, body, OriginOf(source, ns.directory))
  }

  predicate HasId(qs: seq<Query>, id: string) { exists i :: 0 <= i < |qs| && qs[i].id == id }

  /** The files of one directory, each refused when its id was seen before. */
  function AddFiles(acc: seq<Query>, fs: seq<QueryFile>, ns: Namespace, source: Source, validate: bool)
    : (r: Result<seq<Query>>)
    decreases |fs|
  {
    if fs == [] then Ok(acc)
    else if !FileOk(fs[0], validate) then Err(BadFile)
    else
      var q := LoadFile(fs[0], ns, source);
      if HasId(acc, q.id) then Err(DuplicateId)
      else AddFiles(acc + [q], fs[1..], ns, source, validate)
  }

  /** A shipped pass takes shipped namespaces and misses no directory; a user pass takes what is there. */
  function AddNamespaces(acc: seq<Query>, nss: seq<Namespace>, folder: Folder, source: Source, validate: bool)
    : (r: Result<seq<Query>>)
    decreases |nss|
  {
    if nss == [] then Ok(acc)
    else if source.Shipped? && nss[0].userDefined then AddNamespaces(acc, nss[1..], folder, source, validate)
    else if nss[0].directory !in folder then
      if source.Shipped? then Err(MissingDirectory) else AddNamespaces(acc, nss[1..], folder, source, validate)
    else
      var r := AddFiles(acc, folder[nss[0].directory], nss[0], source, validate);
      if r.Err? then r else AddNamespaces(r.value, nss[1..], folder, source, validate)
  }

  method LoadFiles(acc: seq<Query>, seen: set<string>, fs: seq<QueryFile>, ns: Namespace, source: Source, validate: bool)
    returns (r: Result<seq<Query>>, seen': set<string>)
    requires forall id :: id in seen <==> HasId(acc, id)
    ensures r == AddFiles(acc, fs, ns, source, validate)
    ensures r.Ok? ==> forall id :: id in seen' <==> HasId(r.value, id)
  {
    var queries := acc;
    seen' := seen;
    for k := 0 to |fs|
      invariant AddFiles(queries, fs[k..], ns, source, validate) == AddFiles(acc, fs, ns, source, validate)
      invariant forall id :: id in seen' <==> HasId(queries, id)
    {
      assert fs[k..][1..] == fs[k + 1..];
      if !FileOk(fs[k], validate) {
        return Err(BadFile), seen';
      }
      var q := LoadFile(fs[k], ns, source);
      if q.id in seen' {
        return Err(DuplicateId), seen';
      }
      seen' := seen' + {q.id};
      HasIdAppend(queries, q);
      queries := queries + [q];
    }
    return Ok(queries), seen';
  }

  lemma HasIdAppend(qs: seq<Query>, q: Query)
    ensures forall id :: HasId(qs + [q], id) <==> HasId(qs, id) || id == q.id
  {
    forall id ensures HasId(qs + [q], id) <==> HasId(qs, id) || id == q.id {
      if HasId(qs, id) {
        var i :| 0 <= i < |qs| && qs[i].id == id;
        assert (qs + [q])[i].id == id;
      }
      assert (qs + [q])[|qs|] == q;
    }
  }

  method LoadFolder(nss: seq<Namespace>, folder: Folder, source: Source, validate: bool) returns (r: Result<seq<Query>>)
    ensures r == AddNamespaces([], nss, folder, source, validate)
  {
    var queries: seq<Query> := [];
    var seen: set<string> := {};
    for i := 0 to |nss|
      invariant AddNamespaces(queries, nss[i..], folder, source, validate) == AddNamespaces([], nss, folder, source, validate)
      invariant forall id :: id in seen <==> HasId(queries, id)
    {
      assert nss[i..][1..] == nss[i + 1..];
      if source.Shipped? && nss[i].userDefined {
        continue;
      }
      if nss[i].directory !in folder {
        if source.Shipped? {
          return Err(MissingDirectory);
        }
        continue;
      }
      r, seen := LoadFiles(queries, seen, folder[nss[i].directory], nss[i], source, validate);
      if r.Err? {
        return r;
      }
      queries := r.value;
    }
    return Ok(queries);
  }

  // ----------------------------------------- Duplicate ids are unreachable

  /** File names within one directory are distinct. */
  ghost predicate Listing(folder: Folder) {
    forall d :: d in folder ==> forall i, j :: 0 <= i < j < |folder[d]| ==> folder[d][i].stem != folder[d][j].stem
  }

  lemma {:induction false} IdInjective(d0: string, s0: string, d1: string, s1: string)
    requires '/' !in d0 && '/' !in d1
    ensures IdOf(d0, s0) == IdOf(d1, s1) <==> d0 == d1 && s0 == s1
  {
    if IdOf(d0, s0) == IdOf(d1, s1) {
      assert IdOf(d0, s0)[|d0|] == '/' && IdOf(d1, s1)[|d1|] == '/';
      assert forall i :: 0 <= i < |d0| ==> d0[i] == IdOf(d0, s0)[i];
      assert forall i :: 0 <= i < |d1| ==> d1[i] == IdOf(d1, s1)[i];
      assert d0 == IdOf(d0, s0)[..|d0|] && d1 == IdOf(d1, s1)[..|d1|];
      assert s0 == IdOf(d0, s0)[|d0| + 1..] && s1 == IdOf(d1, s1)[|d1| + 1..];
    }
  }

  ghost predicate UniqueIds(qs: seq<Query>) { forall i, j :: 0 <= i < j < |qs| ==> qs[i].id != qs[j].id }

  /** The queries a pass makes: of its namespaces, safe and slash-free in both id parts. */
  ghost predicate Wellnamed(qs: seq<Query>) {
    forall i :: 0 <= i < |qs| ==>
      '/' !in qs[i].namespace.directory && qs[i].id == IdOf(qs[i].namespace.directory, qs[i].slug)
  }

  ghost predicate DirectoriesOk(nss: seq<Namespace>) {
    && (forall i :: 0 <= i < |nss| ==> '/' !in nss[i].directory)
    && (forall i, j :: 0 <= i < j < |nss| ==> nss[i].directory != nss[j].directory)
  }

  function QueriesIn(fs: seq<QueryFile>, ns: Namespace, source: Source): seq<Query> {
    seq(|fs|, k requires 0 <= k < |fs| => LoadFile(fs[k], ns, source))
  }

  lemma {:induction false} FilesNeverCollide(acc: seq<Query>, fs: seq<QueryFile>, ns: Namespace, source: Source, validate: bool)
    requires '/' !in ns.directory && Wellnamed(acc) && UniqueIds(acc)
    requires forall i, j :: 0 <= i < j < |fs| ==> fs[i].stem != fs[j].stem
    requires forall i, k :: 0 <= i < |acc| && 0 <= k < |fs| && acc[i].namespace.directory == ns.directory ==> acc[i].slug != fs[k].stem
    ensures AddFiles(acc, fs, ns, source, validate).Ok? <==> forall k :: 0 <= k < |fs| ==> FileOk(fs[k], validate)
    ensures AddFiles(acc, fs, ns, source, validate) != Err(DuplicateId)
    ensures AddFiles(acc, fs, ns, source, validate).Ok? ==>
      var r := AddFiles(acc, fs, ns, source, validate).value;
      r == acc + QueriesIn(fs, ns, source) && UniqueIds(r) && Wellnamed(r)
    decreases |fs|
  {
    if fs != [] && FileOk(fs[0], validate) {
      hide FileOk, SafeSegment, IdOf;
      var q := LoadFile(fs[0], ns, source);
      forall i | 0 <= i < |acc| ensures acc[i].id != q.id {
        IdInjective(acc[i].namespace.directory, acc[i].slug, ns.directory, fs[0].stem);
      }
      FilesNeverCollide(acc + [q], fs[1..], ns, source, validate);
      assert forall k :: 0 < k < |fs| ==> fs[k] == fs[1..][k - 1];
      assert [q] + QueriesIn(fs[1..], ns, source) == QueriesIn(fs, ns, source);
      assert acc + ([q] + QueriesIn(fs[1..], ns, source)) == acc + [q] + QueriesIn(fs[1..], ns, source);
    }
  }

  predicate Takes(ns: Namespace, folder: Folder, source: Source) {
    !(source.Shipped? && ns.userDefined) && ns.directory in folder
  }

  /** When a pass succeeds. */
  ghost predicate PassOk(nss: seq<Namespace>, folder: Folder, source: Source, validate: bool) {
    forall i :: 0 <= i < |nss| ==> NamespaceOk(nss[i], folder, source, validate)
  }

  ghost predicate NamespaceOk(ns: Namespace, folder: Folder, source: Source, validate: bool) {
    && (source.Shipped? && !ns.userDefined ==> ns.directory in folder)
    && (Takes(ns, folder, source) ==>
          forall k :: 0 <= k < |folder[ns.directory]| ==> FileOk(folder[ns.directory][k], validate))
  }

  /** One query a file, namespace by namespace, file by file. */
  function Loaded(nss: seq<Namespace>, folder: Folder, source: Source): seq<Query> {
    if nss == [] then []
    else
      (if Takes(nss[0], folder, source) then QueriesIn(folder[nss[0].directory], nss[0], source) else [])
      + Loaded(nss[1..], folder, source)
  }

  lemma {:induction false} PassNeverCollides(acc: seq<Query>, nss: seq<Namespace>, folder: Folder, source: Source, validate: bool)
    requires DirectoriesOk(nss) && Listing(folder) && Wellnamed(acc) && UniqueIds(acc)
    requires forall i, j :: 0 <= i < |acc| && 0 <= j < |nss| ==> acc[i].namespace.directory != nss[j].directory
    ensures AddNamespaces(acc, nss, folder, source, validate).Ok? <==> PassOk(nss, folder, source, validate)
    ensures AddNamespaces(acc, nss, folder, source, validate) != Err(DuplicateId)
    ensures AddNamespaces(acc, nss, folder, source, validate).Ok? ==>
      var r := AddNamespaces(acc, nss, folder, source, validate).value;
      r == acc + Loaded(nss, folder, source) && UniqueIds(r) && Wellnamed(r)
    decreases |nss|
  {
    hide FileOk, SafeSegment, AddFiles, IdOf, PassOk, UniqueIds, Wellnamed, QueriesIn, Listing;
    if nss == [] {
      PassOkNone(folder, source, validate);
    } else {
      PassOkStep(nss, folder, source, validate);
      if Takes(nss[0], folder, source) {
        TakenNeverCollides(acc, nss, folder, source, validate);
        var r := AddFiles(acc, folder[nss[0].directory], nss[0], source, validate);
        if r.Ok? {
          PassNeverCollides(r.value, nss[1..], folder, source, validate);
        }
      } else {
        PassNeverCollides(acc, nss[1..], folder, source, validate);
      }
    }
  }

  /** The first namespace of a pass, when it is taken: what its files add, and what the rest needs of them. */
  lemma TakenNeverCollides(acc: seq<Query>, nss: seq<Namespace>, folder: Folder, source: Source, validate: bool)
    requires nss != [] && Takes(nss[0], folder, source)
    requires DirectoriesOk(nss) && Listing(folder) && Wellnamed(acc) && UniqueIds(acc)
    requires forall i, j :: 0 <= i < |acc| && 0 <= j < |nss| ==> acc[i].namespace.directory != nss[j].directory
    ensures var r := AddFiles(acc, folder[nss[0].directory], nss[0], source, validate);
      && (r.Ok? <==> NamespaceOk(nss[0], folder, source, validate)) && r != Err(DuplicateId)
      && (r.Ok? ==>
            && UniqueIds(r.value) && Wellnamed(r.value)
            && (forall i, j :: 0 <= i < |r.value| && 0 <= j < |nss[1..]| ==> r.value[i].namespace.directory != nss[1..][j].directory)
            && r.value + Loaded(nss[1..], folder, source) == acc + Loaded(nss, folder, source))
  {
    hide FileOk, SafeSegment, AddFiles, IdOf, UniqueIds, Wellnamed;
    var fs := folder[nss[0].directory];
    FilesNeverCollide(acc, fs, nss[0], source, validate);
    assert acc + (QueriesIn(fs, nss[0], source) + Loaded(nss[1..], folder, source))
        == acc + QueriesIn(fs, nss[0], source) + Loaded(nss[1..], folder, source);
  }

  lemma PassOkNone(folder: Folder, source: Source, validate: bool)
    ensures PassOk([], folder, source, validate)
  {
  }

  lemma PassOkStep(nss: seq<Namespace>, folder: Folder, source: Source, validate: bool)
    requires nss != []
    ensures PassOk(nss, folder, source, validate) <==>
      NamespaceOk(nss[0], folder, source, validate) && PassOk(nss[1..], folder, source, validate)
  {
    hide NamespaceOk;
    assert forall i :: 0 < i < |nss| ==> nss[i] == nss[1..][i - 1];
    assert forall i :: 0 <= i < |nss| - 1 ==> nss[1..][i] == nss[i + 1];
  }

  // -------------------------------------------------------------- The overlay

  function IndexOf(qs: seq<Query>, id: string): (i: nat)
    requires HasId(qs, id)
    ensures i < |qs| && qs[i].id == id
  {
    if qs[0].id == id then 0
    else
      assert HasId(qs[1..], id) by {
        var k :| 0 <= k < |qs| && qs[k].id == id;
        assert qs[1..][k - 1].id == id;
      }
      1 + IndexOf(qs[1..], id)
  }

  function Get(qs: seq<Query>, id: string): Query
    requires HasId(qs, id)
  {
    qs[IndexOf(qs, id)]
  }

  /** A dictionary keyed by id, in order of first insertion: a known id keeps its place. */
  function Put(qs: seq<Query>, q: Query): seq<Query> {
    if HasId(qs, q.id) then qs[IndexOf(qs, q.id) := q] else qs + [q]
  }

  function PutUser(qs: seq<Query>, q: Query): seq<Query> {
    Put(qs, if HasId(qs, q.id) then q.(origin := Override) else q)
  }

  function Overlay(shipped: seq<Query>, user: seq<Query>): seq<Query>
    decreases |user|
  {
    if user == [] then shipped else PutUser(Overlay(shipped, user[..|user| - 1]), user[|user| - 1])
  }

  method OverlayAll(shipped: seq<Query>, user: seq<Query>) returns (byId: seq<Query>)
    ensures byId == Overlay(shipped, user)
  {
    byId := shipped;
    assert user[..0] == [];
    for k := 0 to |user|
      invariant byId == Overlay(shipped, user[..k])
    {
      var q := user[k];
      if HasId(byId, q.id) {
        q := q.(origin := Override);
      }
      byId := Put(byId, q);
      assert user[..k + 1][..k] == user[..k];
    }
    assert user[..|user|] == user;
  }

  lemma GetIs(qs: seq<Query>, k: nat)
    requires UniqueIds(qs) && k < |qs|
    ensures HasId(qs, qs[k].id) && Get(qs, qs[k].id) == qs[k]
  {
  }

  lemma PutMeaning(qs: seq<Query>, q: Query)
    requires UniqueIds(qs)
    ensures UniqueIds(Put(qs, q))
    ensures forall id :: HasId(Put(qs, q), id) <==> HasId(qs, id) || id == q.id
    ensures forall id :: HasId(Put(qs, q), id) ==> Get(Put(qs, q), id) == if id == q.id then q else Get(qs, id)
    ensures |Put(qs, q)| >= |qs| && forall k :: 0 <= k < |qs| ==> Put(qs, q)[k].id == qs[k].id
  {
    var r := Put(qs, q);
    forall id ensures HasId(r, id) <==> HasId(qs, id) || id == q.id {
      if HasId(qs, id) {
        assert r[IndexOf(qs, id)].id == id;
      }
      if id == q.id {
        assert r[if HasId(qs, id) then IndexOf(qs, id) else |qs|].id == id;
      }
    }
    forall id | HasId(r, id) ensures Get(r, id) == if id == q.id then q else Get(qs, id) {
      var k := IndexOf(r, id);
      if id != q.id {
        GetIs(qs, k);
      }
    }
  }

  /** The version of a query that the overlay keeps. */
  function Winner(shipped: seq<Query>, user: seq<Query>, id: string): Query
    requires HasId(shipped, id) || HasId(user, id)
  {
    if !HasId(user, id) then Get(shipped, id)
    else if HasId(shipped, id) then Get(user, id).(origin := Override)
    else Get(user, id)
  }

  /** Every id of either side once, the user version winning, shipped ids in their old places. */
  ghost predicate Overlaid(r: seq<Query>, shipped: seq<Query>, user: seq<Query>) {
    && UniqueIds(r)
    && (forall id :: HasId(r, id) <==> HasId(shipped, id) || HasId(user, id))
    && (forall id :: HasId(r, id) ==> Get(r, id) == Winner(shipped, user, id))
  }

  lemma HasIdLast(qs: seq<Query>)
    requires UniqueIds(qs) && qs != []
    ensures var rest, q := qs[..|qs| - 1], qs[|qs| - 1];
      && UniqueIds(rest) && !HasId(rest, q.id)
      && (forall id :: HasId(qs, id) <==> HasId(rest, id) || id == q.id)
      && (forall id :: HasId(qs, id) ==> Get(qs, id) == if id == q.id then q else Get(rest, id))
  {
    var rest, q := qs[..|qs| - 1], qs[|qs| - 1];
    assert qs == rest + [q];
    HasIdAppend(rest, q);
    forall id | HasId(qs, id) ensures Get(qs, id) == if id == q.id then q else Get(rest, id) {
      if id == q.id {
        GetIs(qs, |qs| - 1);
      } else {
        GetIs(qs, IndexOf(rest, id));
      }
    }
  }

  lemma {:induction false} OverlayMeaning(shipped: seq<Query>, user: seq<Query>)
    requires UniqueIds(shipped) && UniqueIds(user)
    ensures Overlaid(Overlay(shipped, user), shipped, user)
    ensures |Overlay(shipped, user)| >= |shipped|
    ensures forall k :: 0 <= k < |shipped| ==> Overlay(shipped, user)[k].id == shipped[k].id
    decreases |user|
  {
    hide UniqueIds, HasId, Get, Put;
    if user == [] {
      assert forall id :: !HasId(user, id) by { NoIds(); }
    } else {
      var rest, q := user[..|user| - 1], user[|user| - 1];
      HasIdLast(user);
      OverlayMeaning(shipped, rest);
      var before := Overlay(shipped, rest);
      PutMeaning(before, if HasId(before, q.id) then q.(origin := Override) else q);
    }
  }

  lemma NoIds()
    ensures forall id :: !HasId([], id)
  {
  }

  // -------------------------------------------------------------- The order

  function LowerChar(c: char): char { if 'A' <= c <= 'Z' then 'a' + (c - 'A') else c }

  function Lower(s: string): string { seq(|s|, i requires 0 <= i < |s| => LowerChar(s[i])) }

  predicate TextLe(a: string, b: string) {
    a == [] || (b != [] && (a[0] < b[0] || (a[0] == b[0] && TextLe(a[1..], b[1..]))))
  }

  datatype SortKey = SortKey(order: nat, name: string)

  function KeyOf(q: Query): SortKey { SortKey(q.namespace.order, Lower(q.body.name)) }

  predicate KeyLe(a: SortKey, b: SortKey) { a.order < b.order || (a.order == b.order && TextLe(a.name, b.name)) }

  lemma {:induction false} TextTotal(a: string, b: string)
    ensures TextLe(a, b) || TextLe(b, a)
    ensures TextLe(a, b) && TextLe(b, a) ==> a == b
  {
    if a != [] && b != [] {
      TextTotal(a[1..], b[1..]);
      if a[0] == b[0] && a[1..] == b[1..] {
        assert a == [a[0]] + a[1..] && b == [b[0]] + b[1..];
      }
    }
  }

  lemma {:induction false} TextTransitive(a: string, b: string, c: string)
    requires TextLe(a, b) && TextLe(b, c)
    ensures TextLe(a, c)
  {
    if a != [] && a[0] == b[0] && b[0] == c[0] {
      TextTransitive(a[1..], b[1..], c[1..]);
    }
  }

  /** In front of the first query that is not before it: equal keys keep their order. */
  function Insert(q: Query, qs: seq<Query>): seq<Query> {
    if qs == [] || KeyLe(KeyOf(q), KeyOf(qs[0])) then [q] + qs else [qs[0]] + Insert(q, qs[1..])
  }

  /** The stable sort by namespace and lower-case name. */
  function Sorted(qs: seq<Query>): seq<Query> { if qs == [] then [] else Insert(qs[0], Sorted(qs[1..])) }

  ghost predicate InOrder(qs: seq<Query>) {
    forall i, j :: 0 <= i < j < |qs| ==> KeyLe(KeyOf(qs[i]), KeyOf(qs[j]))
  }

  function WithKey(qs: seq<Query>, key: SortKey): seq<Query> {
    if qs == [] then [] else (if KeyOf(qs[0]) == key then [qs[0]] else []) + WithKey(qs[1..], key)
  }

  lemma {:induction false} InsertMeaning(q: Query, qs: seq<Query>)
    requires InOrder(qs)
    ensures InOrder(Insert(q, qs)) && multiset(Insert(q, qs)) == multiset(qs) + multiset{q}
    decreases |qs|
  {
    hide KeyOf, TextLe;
    if qs != [] {
      var rest := qs[1..];
      assert qs == [qs[0]] + rest;
      InsertMeaning(q, rest);
      var key, first := KeyOf(q), KeyOf(qs[0]);
      TextTotal(key.name, first.name);
      forall j | 0 <= j < |rest| && KeyLe(key, first) ensures KeyLe(key, KeyOf(rest[j])) {
        assert KeyLe(first, KeyOf(qs[j + 1]));
        if key.order == first.order == KeyOf(rest[j]).order {
          TextTransitive(key.name, first.name, KeyOf(rest[j]).name);
        }
      }
      forall j | 0 <= j < |Insert(q, rest)| && !KeyLe(key, first) ensures KeyLe(first, KeyOf(Insert(q, rest)[j])) {
        assert Insert(q, rest)[j] in multiset(Insert(q, rest));
        if Insert(q, rest)[j] != q {
          assert Insert(q, rest)[j] in rest;
        }
      }
    }
  }

  lemma {:induction false} InsertStable(q: Query, qs: seq<Query>, key: SortKey)
    ensures WithKey(Insert(q, qs), key) == (if KeyOf(q) == key then [q] else []) + WithKey(qs, key)
    decreases |qs|
  {
    hide KeyOf, TextLe;
    if qs != [] && !KeyLe(KeyOf(q), KeyOf(qs[0])) {
      InsertStable(q, qs[1..], key);
      TextTotal(KeyOf(q).name, KeyOf(qs[0]).name);
      assert Insert(q, qs)[1..] == Insert(q, qs[1..]);
    } else {
      assert ([q] + qs)[1..] == qs;
    }
  }

  lemma SortedStep(qs: seq<Query>)
    ensures qs == [] ==> Sorted(qs) == [] && InOrder([])
    ensures qs != [] ==> Sorted(qs) == Insert(qs[0], Sorted(qs[1..]))
  {
  }

  lemma WithKeyStep(qs: seq<Query>, key: SortKey)
    requires qs != []
    ensures WithKey(qs, key) == (if KeyOf(qs[0]) == key then [qs[0]] else []) + WithKey(qs[1..], key)
  {
  }

  /** What sorting does: in order, the same queries, and equal keys in their old order. */
  lemma {:induction false} SortedMeaning(qs: seq<Query>)
    ensures InOrder(Sorted(qs)) && multiset(Sorted(qs)) == multiset(qs)
    ensures forall key :: WithKey(Sorted(qs), key) == WithKey(qs, key)
    decreases |qs|
  {
    hide Insert, WithKey, InOrder, Sorted;
    SortedStep(qs);
    if qs != [] {
      SortedMeaning(qs[1..]);
      InsertMeaning(qs[0], Sorted(qs[1..]));
      assert qs == [qs[0]] + qs[1..];
      forall key ensures WithKey(Sorted(qs), key) == WithKey(qs, key) {
        InsertStable(qs[0], Sorted(qs[1..]), key);
        WithKeyStep(qs, key);
      }
    }
  }

  lemma {:induction false} UniqueInMultiset(a: seq<Query>, b: seq<Query>)
    requires multiset(a) == multiset(b) && UniqueIds(a)
    ensures UniqueIds(b)
    ensures forall id :: HasId(a, id) <==> HasId(b, id)
    ensures forall id :: HasId(a, id) ==> Get(a, id) == Get(b, id)
  {
    hide Get;
    forall i, j | 0 <= i < j < |b| ensures b[i].id != b[j].id {
      if b[i].id == b[j].id {
        assert b[i] in multiset(a) && b[j] in multiset(a);
        var k :| 0 <= k < |a| && a[k] == b[i];
        assert b[j] == b[i];
        TwiceInMultiset(b, i, j);
        OnceInMultiset(a, k);
        assert false;
      }
    }
    forall id ensures HasId(a, id) <==> HasId(b, id) {
      if HasId(a, id) {
        SameIds(a, b, id);
      }
      if HasId(b, id) {
        SameIds(b, a, id);
      }
    }
    forall id | HasId(a, id) ensures Get(a, id) == Get(b, id) {
      var k := IndexOf(b, id);
      assert b[k] in multiset(b);
      assert b[k] in a;
      var m :| 0 <= m < |a| && a[m] == b[k];
      GetIs(a, m);
      GetIs(b, k);
    }
  }

  lemma SameIds(a: seq<Query>, b: seq<Query>, id: string)
    requires multiset(a) == multiset(b) && HasId(a, id)
    ensures HasId(b, id)
  {
    var k :| 0 <= k < |a| && a[k].id == id;
    assert a[k] in multiset(a);
    assert a[k] in b;
  }

  lemma TwiceInMultiset(b: seq<Query>, i: nat, j: nat)
    requires i < j < |b| && b[i] == b[j]
    ensures multiset(b)[b[i]] >= 2
  {
    assert b == b[..i] + [b[i]] + b[i + 1..j] + [b[j]] + b[j + 1..];
  }

  lemma OnceInMultiset(a: seq<Query>, k: nat)
    requires UniqueIds(a) && k < |a|
    ensures multiset(a)[a[k]] == 1
  {
    assert a == a[..k] + [a[k]] + a[k + 1..];
    assert a[k] !in a[..k] && a[k] !in a[k + 1..];
  }

  // ------------------------------------------------------------ The whole load

  function Uncached(d: Disk, validate: bool, includeUser: bool): (r: Result<seq<Query>>) {
    var nss := Namespaces(d);
    if nss.Err? then Err(nss.error)
    else
      var shipped := AddNamespaces([], nss.value, d.shipped, Shipped, validate);
      if shipped.Err? then shipped
      else if !includeUser || d.user.None? then Ok(Sorted(shipped.value))
      else
        var user := AddNamespaces([], nss.value, d.user.value, User, validate);
        if user.Err? then user else Ok(Sorted(Overlay(shipped.value, user.value)))
  }

  method LoadCatalogUncached(d: Disk, validate: bool, includeUser: bool) returns (r: Result<seq<Query>>)
    ensures r == Uncached(d, validate, includeUser)
  {
    var nss := LoadNamespaces(d);
    if nss.Err? {
      return Err(nss.error);
    }
    r := LoadFolder(nss.value, d.shipped, Shipped, validate);
    if r.Err? {
      return;
    }
    var queries := r.value;
    if includeUser && d.user.Some? {
      r := LoadFolder(nss.value, d.user.value, User, validate);
      if r.Err? {
        return;
      }
      queries := OverlayAll(queries, r.value);
    }
    return Ok(Sorted(queries));
  }

  /** A directory lists a file name once. */
  ghost predicate DiskOk(d: Disk) { Listing(d.shipped) && (d.user.Some? ==> Listing(d.user.value)) }

  /** Exactly when the load succeeds. */
  ghost predicate Loads(d: Disk, validate: bool, includeUser: bool) {
    && NamespacesOk(d)
    && PassOk(NamespacesOf(d), d.shipped, Shipped, validate)
    && (includeUser && d.user.Some? ==> PassOk(NamespacesOf(d), d.user.value, User, validate))
  }

  function NamespacesOf(d: Disk): seq<Namespace> { if Namespaces(d).Ok? then Namespaces(d).value else [] }

  function ShippedQueries(d: Disk): seq<Query> { Loaded(NamespacesOf(d), d.shipped, Shipped) }

  function UserQueries(d: Disk, includeUser: bool): seq<Query> {
    if includeUser && d.user.Some? then Loaded(NamespacesOf(d), d.user.value, User) else []
  }

  lemma NamespacesAreSafe(d: Disk)
    requires NamespacesOk(d)
    ensures Namespaces(d).Ok? && DirectoriesOk(Namespaces(d).value)
  {
    hide NameOk, Namespaces;
    NamespacesMeaning(d);
    var nss := Namespaces(d).value;
    forall i | 0 <= i < |nss| ensures '/' !in nss[i].directory {
      assert NameOk(AllNames(d)[i]);
      SafeHasNoSlash(AllNames(d)[i]);
    }
  }

  lemma SafeHasNoSlash(name: Option<string>)
    requires NameOk(name)
    ensures '/' !in name.value
  {
  }

  /**
   The overlay law.  A load fails exactly for the stated reasons, and never for a
   duplicate id; it returns each id of the shipped and the user files once, with the
   user version winning, in order of namespace and name, equal keys in the order of
   the shipped files followed by the new user files.
   */
  lemma CatalogMeaning(d: Disk, validate: bool, includeUser: bool)
    requires DiskOk(d)
    ensures Uncached(d, validate, includeUser) != Err(DuplicateId)
    ensures Uncached(d, validate, includeUser).Ok? <==> Loads(d, validate, includeUser)
    ensures Uncached(d, validate, includeUser).Ok? ==>
      var r := Uncached(d, validate, includeUser).value;
      && UniqueIds(ShippedQueries(d)) && UniqueIds(UserQueries(d, includeUser))
      && Overlaid(r, ShippedQueries(d), UserQueries(d, includeUser))
      && InOrder(r)
      && forall key :: WithKey(r, key) == WithKey(Overlay(ShippedQueries(d), UserQueries(d, includeUser)), key)
  {
    hide PassOk, NamespacesOk, Namespaces, AddNamespaces, Overlaid, UniqueIds, Wellnamed, DirectoriesOk,
      Loaded, InOrder, WithKey, Sorted, Listing;
    NamespacesMeaning(d);
    if NamespacesOk(d) {
      NamespacesAreSafe(d);
      var nss := Namespaces(d).value;
      NothingYet();
      PassNeverCollides([], nss, d.shipped, Shipped, validate);
      if includeUser && d.user.Some? {
        PassNeverCollides([], nss, d.user.value, User, validate);
      }
      if Uncached(d, validate, includeUser).Ok? {
        assert [] + Loaded(nss, d.shipped, Shipped) == ShippedQueries(d);
        assert [] + UserQueries(d, includeUser) == UserQueries(d, includeUser);
        OverlayThenSort(ShippedQueries(d), UserQueries(d, includeUser));
      }
    } else {
      DeclareNeverDuplicatesIds(d);
    }
  }

  lemma DeclareNeverDuplicatesIds(d: Disk)
    ensures Namespaces(d) != Err(DuplicateId)
  {
    if d.shippedNames != [] {
      DeclareErrors([], d.shippedNames, false, d);
      var shipped := Declare([], d.shippedNames, false, d);
      if shipped.Ok? && d.userNames.Some? {
        DeclareErrors(shipped.value, d.userNames.value, true, d);
      }
    }
  }

  lemma {:induction false} DeclareErrors(acc: seq<Namespace>, names: seq<Option<string>>, userDefined: bool, d: Disk)
    ensures Declare(acc, names, userDefined, d) != Err(DuplicateId)
    decreases |names|
  {
    if names != [] && NameOk(names[0]) {
      DeclareErrors(acc + [Namespace(names[0].value, |acc|, userDefined)], names[1..], userDefined, d);
    }
  }

  lemma NothingYet()
    ensures UniqueIds([]) && Wellnamed([])
  {
  }

  lemma OverlayThenSort(shipped: seq<Query>, user: seq<Query>)
    requires UniqueIds(shipped) && UniqueIds(user)
    ensures var r := Sorted(Overlay(shipped, user));
      && Overlaid(r, shipped, user) && InOrder(r)
      && forall key :: WithKey(r, key) == WithKey(Overlay(shipped, user), key)
  {
    hide Get, HasId, UniqueIds, InOrder, WithKey, Overlay, Sorted, Winner;
    OverlayMeaning(shipped, user);
    SortedMeaning(Overlay(shipped, user));
    UniqueInMultiset(Overlay(shipped, user), Sorted(Overlay(shipped, user)));
  }

  // ---------------------------------------------------------------- Origins

  lemma {:induction false} LoadedOrigins(nss: seq<Namespace>, folder: Folder, source: Source, k: nat)
    requires k < |Loaded(nss, folder, source)|
    ensures Loaded(nss, folder, source)[k].origin == OriginOf(source, Loaded(nss, folder, source)[k].namespace.directory)
    decreases |nss|
  {
    var head := if Takes(nss[0], folder, source) then QueriesIn(folder[nss[0].directory], nss[0], source) else [];
    if k >= |head| {
      LoadedOrigins(nss[1..], folder, source, k - |head|);
    }
  }

  /**
   The origin of a returned query is override exactly when its id is on both sides,
   custom when only a user file has it, and builtin when only a shipped file has it,
   except below a shipped namespace that is itself called user_defined.
   */
  lemma OriginsMeaning(d: Disk, validate: bool, includeUser: bool, id: string)
    requires DiskOk(d) && Uncached(d, validate, includeUser).Ok? && HasId(Uncached(d, validate, includeUser).value, id)
    ensures var q := Get(Uncached(d, validate, includeUser).value, id);
      var inShipped, inUser := HasId(ShippedQueries(d), id), HasId(UserQueries(d, includeUser), id);
      && (q.origin == Override <==> inShipped && inUser)
      && (q.origin == Builtin <==> !inUser && q.namespace.directory != USER_DEFINED)
  {
    hide HasId, UniqueIds, Uncached, InOrder, WithKey, Overlay, Loads, DiskOk, NamespacesOf, Loaded;
    CatalogMeaning(d, validate, includeUser);
    var shipped, user := ShippedQueries(d), UserQueries(d, includeUser);
    if HasId(shipped, id) {
      LoadedOrigins(NamespacesOf(d), d.shipped, Shipped, IndexOf(shipped, id));
    }
    if HasId(user, id) {
      NoIds();
      LoadedOrigins(NamespacesOf(d), d.user.value, User, IndexOf(user, id));
    }
  }
}
