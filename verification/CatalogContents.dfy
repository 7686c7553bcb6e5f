/**
 What a catalog load returns, in terms of the files on disk alone: when it succeeds,
 which file each query comes from, and the order of the list.
 */
module CatalogContents {
  import opened Options
  import opened CatalogOverlay

  /** A letter or digit, followed by letters, digits and underscores. */
  predicate Slug(s: string) {
    && s != [] && s[0] != '_'
    && forall i :: 0 <= i < |s| ==> 'a' <= s[i] <= 'z' || 'A' <= s[i] <= 'Z' || '0' <= s[i] <= '9' || s[i] == '_'
  }

  lemma SlugIsSafe(s: string)
    ensures SafeSegment(s) <==> Slug(s)
  {
    if SafeSegment(s) {
      forall i | 0 <= i < |s| ensures 'a' <= s[i] <= 'z' || 'A' <= s[i] <= 'Z' || '0' <= s[i] <= '9' || s[i] == '_' {
        assert i > 0 ==> Alphanumeric(s[i]) || s[i] == '_';
      }
    }
  }

  /** The declared directories, shipped ones first. */
  function Names(d: Disk): seq<Option<string>> {
    if d.userNames.Some? then d.shippedNames + d.userNames.value else d.shippedNames
  }

  /** A parsed file with a safe name and, when Cypher is validated, a read-only query. */
  predicate Acceptable(f: QueryFile, validate: bool) {
    f.body.Some? && Slug(f.stem) && (validate ==> f.readOnly)
  }

  /** The files at `name` in a folder are all acceptable. */
  predicate AllAcceptable(folder: Folder, name: Option<string>, validate: bool) {
    name.Some? && name.value in folder ==>
      forall j :: 0 <= j < |folder[name.value]| ==> Acceptable(folder[name.value][j], validate)
  }

  /** The folder is there and has the directory. */
  predicate Inside(folder: Option<Folder>, name: Option<string>) {
    folder.Some? && name.Some? && name.value in folder.value
  }

  /** The declarations: names that are slugs and differ, and each with its directory. */
  ghost predicate DeclarationsOk(d: Disk) {
    && d.shippedNames != [] && (d.userNames.Some? ==> d.userNames.value != [])
    && (forall k :: 0 <= k < |Names(d)| ==> Names(d)[k].Some? && Slug(Names(d)[k].value))
    && (forall j, k :: 0 <= j < k < |Names(d)| ==> Names(d)[j] != Names(d)[k])
    && (forall k :: |d.shippedNames| <= k < |Names(d)| ==> Inside(d.user, Names(d)[k]))
  }

  /** Every file that the load looks at is acceptable. */
  ghost predicate FilesOk(d: Disk, validate: bool, includeUser: bool) {
    && (forall k :: 0 <= k < |d.shippedNames| ==>
          Names(d)[k].Some? && Names(d)[k].value in d.shipped && AllAcceptable(d.shipped, Names(d)[k], validate))
    && (includeUser && d.user.Some? ==>
          forall k :: 0 <= k < |Names(d)| ==> AllAcceptable(d.user.value, Names(d)[k], validate))
  }

  lemma UserNamesAre(d: Disk)
    requires d.userNames.Some?
    ensures (forall k :: 0 <= k < |d.userNames.value| ==>
               d.userNames.value[k].Some? && HasUserDirectory(d, d.userNames.value[k].value)) <==>
      (forall k :: |d.shippedNames| <= k < |Names(d)| ==> Inside(d.user, Names(d)[k]))
  {
    var n := |d.shippedNames|;
    assert forall k :: 0 <= k < |d.userNames.value| ==> d.userNames.value[k] == Names(d)[n + k];
    assert forall k :: n <= k < |Names(d)| ==> Names(d)[k] == d.userNames.value[k - n];
  }

  lemma NameOkIs(name: Option<string>)
    ensures NameOk(name) <==> name.Some? && Slug(name.value)
  {
    hide SafeSegment, Slug;
    if name.Some? {
      SlugIsSafe(name.value);
    }
  }

  lemma NamesAre(d: Disk)
    ensures Names(d) == AllNames(d)
    ensures (forall k :: 0 <= k < |Names(d)| ==> Names(d)[k].Some? && Slug(Names(d)[k].value)) <==>
      (forall k :: 0 <= k < |AllNames(d)| ==> NameOk(AllNames(d)[k]))
  {
    hide Slug, NameOk;
    assert Names(d) == AllNames(d);
    forall k | 0 <= k < |Names(d)| ensures NameOk(AllNames(d)[k]) <==> Names(d)[k].Some? && Slug(Names(d)[k].value) {
      NameOkIs(Names(d)[k]);
    }
  }

  lemma DeclarationsAre(d: Disk)
    ensures DeclarationsOk(d) <==> NamespacesOk(d)
  {
    hide Slug, NameOk, HasUserDirectory, Inside;
    NamesAre(d);
    if d.userNames.Some? {
      UserNamesAre(d);
    }
  }

  lemma AcceptableIs(f: QueryFile, validate: bool)
    ensures Acceptable(f, validate) <==> FileOk(f, validate)
  {
    hide SafeSegment, Slug;
    SlugIsSafe(f.stem);
  }

  /** The namespaces of accepted declarations. */
  lemma NamespacesAre(d: Disk)
    requires DeclarationsOk(d)
    ensures |NamespacesOf(d)| == |Names(d)|
    ensures forall k :: 0 <= k < |Names(d)| ==>
      Names(d)[k].Some? && NamespacesOf(d)[k] == Namespace(Names(d)[k].value, k, k >= |d.shippedNames|)
  {
    hide Slug, Namespaces;
    DeclarationsAre(d);
    hide NamespacesOk;
    NamespacesMeaning(d);
    assert Names(d) == AllNames(d);
  }

  lemma NamespaceOkIs(ns: Namespace, folder: Folder, source: Source, validate: bool)
    ensures source.User? ==> (NamespaceOk(ns, folder, source, validate) <==> AllAcceptable(folder, Some(ns.directory), validate))
    ensures source.Shipped? ==>
      (NamespaceOk(ns, folder, source, validate) <==>
         (!ns.userDefined ==> ns.directory in folder && AllAcceptable(folder, Some(ns.directory), validate)))
  {
    hide FileOk, Acceptable;
    if ns.directory in folder {
      forall j | 0 <= j < |folder[ns.directory]|
        ensures Acceptable(folder[ns.directory][j], validate) <==> FileOk(folder[ns.directory][j], validate)
      {
        AcceptableIs(folder[ns.directory][j], validate);
      }
    }
  }

  lemma PassesAre(d: Disk, validate: bool, includeUser: bool)
    requires DeclarationsOk(d)
    ensures FilesOk(d, validate, includeUser) <==>
      && PassOk(NamespacesOf(d), d.shipped, Shipped, validate)
      && (includeUser && d.user.Some? ==> PassOk(NamespacesOf(d), d.user.value, User, validate))
  {
    NamespacesAre(d);
    var nss := NamespacesOf(d);
    hide NamespacesOf, DeclarationsOk, AllAcceptable, NamespaceOk;
    assert forall k :: 0 <= k < |d.shippedNames| ==> !nss[k].userDefined;
    assert forall k :: |d.shippedNames| <= k < |nss| ==> nss[k].userDefined;
    forall k | 0 <= k < |nss|
      ensures NamespaceOk(nss[k], d.shipped, Shipped, validate) <==>
        (k < |d.shippedNames| ==> Names(d)[k].value in d.shipped && AllAcceptable(d.shipped, Names(d)[k], validate))
      ensures d.user.Some? ==>
        (NamespaceOk(nss[k], d.user.value, User, validate) <==> AllAcceptable(d.user.value, Names(d)[k], validate))
    {
      NamespaceOkIs(nss[k], d.shipped, Shipped, validate);
      if d.user.Some? {
        NamespaceOkIs(nss[k], d.user.value, User, validate);
      }
    }
  }

  /**
   A load succeeds exactly when the declarations are well formed, every shipped namespace
   has its directory, and every file of every directory it looks at is parsed and safely
   named, and read-only if Cypher is validated.
   */
  lemma LoadsExactly(d: Disk, validate: bool, includeUser: bool)
    requires DiskOk(d)
    ensures Uncached(d, validate, includeUser).Ok? <==> DeclarationsOk(d) && FilesOk(d, validate, includeUser)
  {
    hide Uncached, DiskOk, DeclarationsOk, FilesOk, NamespacesOk, PassOk;
    CatalogMeaning(d, validate, includeUser);
    DeclarationsAre(d);
    if DeclarationsOk(d) {
      PassesAre(d, validate, includeUser);
    }
  }

  // ------------------------------------------------------ Queries and files

  lemma {:induction false} LoadedHas(nss: seq<Namespace>, folder: Folder, source: Source, k: nat, j: nat) returns (m: nat)
    requires k < |nss| && Takes(nss[k], folder, source) && j < |folder[nss[k].directory]|
    ensures m < |Loaded(nss, folder, source)|
    ensures Loaded(nss, folder, source)[m] == LoadFile(folder[nss[k].directory][j], nss[k], source)
    decreases |nss|
  {
    hide LoadFile;
    var head := if Takes(nss[0], folder, source) then QueriesIn(folder[nss[0].directory], nss[0], source) else [];
    if k == 0 {
      m := j;
    } else {
      m := LoadedHas(nss[1..], folder, source, k - 1, j);
      m := m + |head|;
    }
  }

  lemma {:induction false} LoadedFrom(nss: seq<Namespace>, folder: Folder, source: Source, m: nat) returns (k: nat, j: nat)
    requires m < |Loaded(nss, folder, source)|
    ensures k < |nss| && Takes(nss[k], folder, source) && j < |folder[nss[k].directory]|
    ensures Loaded(nss, folder, source)[m] == LoadFile(folder[nss[k].directory][j], nss[k], source)
    decreases |nss|
  {
    hide LoadFile;
    var head := if Takes(nss[0], folder, source) then QueriesIn(folder[nss[0].directory], nss[0], source) else [];
    if m < |head| {
      k, j := 0, m;
    } else {
      k, j := LoadedFrom(nss[1..], folder, source, m - |head|);
      k := k + 1;
    }
  }

  /** `f` is a file in the directory of the `k`-th name, of a folder. */
  predicate InFolder(folder: Folder, d: Disk, k: nat, f: QueryFile) {
    k < |Names(d)| && Names(d)[k].Some? && Names(d)[k].value in folder && f in folder[Names(d)[k].value]
  }

  /** A shipped file: of a directory that the shipped catalog declares. */
  predicate ShippedFile(d: Disk, k: nat, f: QueryFile) { k < |d.shippedNames| && InFolder(d.shipped, d, k, f) }

  /** A user file, when the load looks at those. */
  predicate UserFile(d: Disk, includeUser: bool, k: nat, f: QueryFile) {
    includeUser && d.user.Some? && InFolder(d.user.value, d, k, f)
  }

  /** The id, slug, namespace and text of a query are those of the file. */
  predicate MadeOf(q: Query, d: Disk, k: nat, f: QueryFile) {
    && k < |Names(d)| && Names(d)[k].Some? && q.id == Names(d)[k].value + "/" + f.stem && q.slug == f.stem
    && q.namespace == Namespace(Names(d)[k].value, k, k >= |d.shippedNames|)
    && f.body == Some(q.body)
  }

  /** A query of the shipped pass and its file, and the other way round. */
  lemma ShippedFrom(d: Disk, m: nat) returns (k: nat, f: QueryFile)
    requires DeclarationsOk(d) && m < |ShippedQueries(d)|
    ensures ShippedFile(d, k, f) && ShippedQueries(d)[m].slug == f.stem && ShippedQueries(d)[m].id == Names(d)[k].value + "/" + f.stem
    ensures ShippedQueries(d)[m].namespace == Namespace(Names(d)[k].value, k, false)
    ensures f.body.Some? ==> ShippedQueries(d)[m].body == f.body.value
    ensures ShippedQueries(d)[m].origin == if Names(d)[k].value == "user_defined" then Custom else Builtin
  {
    NamespacesAre(d);
    hide DeclarationsOk, NamespacesOf, Loaded;
    var j;
    k, j := LoadedFrom(NamespacesOf(d), d.shipped, Shipped, m);
    f := d.shipped[Names(d)[k].value][j];
  }

  lemma ShippedHas(d: Disk, k: nat, f: QueryFile)
    requires DeclarationsOk(d) && ShippedFile(d, k, f)
    ensures HasId(ShippedQueries(d), Names(d)[k].value + "/" + f.stem)
  {
    NamespacesAre(d);
    hide DeclarationsOk, NamespacesOf, Loaded;
    var fs := d.shipped[Names(d)[k].value];
    var j :| 0 <= j < |fs| && fs[j] == f;
    var m := LoadedHas(NamespacesOf(d), d.shipped, Shipped, k, j);
    assert ShippedQueries(d)[m].id == Names(d)[k].value + "/" + f.stem;
  }

  lemma UserFrom(d: Disk, includeUser: bool, m: nat) returns (k: nat, f: QueryFile)
    requires DeclarationsOk(d) && m < |UserQueries(d, includeUser)|
    ensures UserFile(d, includeUser, k, f)
    ensures UserQueries(d, includeUser)[m].slug == f.stem && UserQueries(d, includeUser)[m].id == Names(d)[k].value + "/" + f.stem
    ensures UserQueries(d, includeUser)[m].namespace == Namespace(Names(d)[k].value, k, k >= |d.shippedNames|)
    ensures f.body.Some? ==> UserQueries(d, includeUser)[m].body == f.body.value
    ensures UserQueries(d, includeUser)[m].origin == Custom
  {
    NamespacesAre(d);
    hide DeclarationsOk, NamespacesOf, Loaded;
    var j;
    k, j := LoadedFrom(NamespacesOf(d), d.user.value, User, m);
    f := d.user.value[Names(d)[k].value][j];
  }

  lemma UserHas(d: Disk, includeUser: bool, k: nat, f: QueryFile)
    requires DeclarationsOk(d) && UserFile(d, includeUser, k, f)
    ensures HasId(UserQueries(d, includeUser), Names(d)[k].value + "/" + f.stem)
  {
    NamespacesAre(d);
    hide DeclarationsOk, NamespacesOf, Loaded;
    var fs := d.user.value[Names(d)[k].value];
    var j :| 0 <= j < |fs| && fs[j] == f;
    var m := LoadedHas(NamespacesOf(d), d.user.value, User, k, j);
    assert UserQueries(d, includeUser)[m].id == Names(d)[k].value + "/" + f.stem;
  }

  /** The id is that of some shipped file, or of some user file. */
  ghost predicate ShippedId(d: Disk, id: string) {
    exists k: nat, f :: ShippedFile(d, k, f) && id == Names(d)[k].value + "/" + f.stem
  }

  ghost predicate UserId(d: Disk, includeUser: bool, id: string) {
    exists k: nat, f :: UserFile(d, includeUser, k, f) && id == Names(d)[k].value + "/" + f.stem
  }

  lemma ShippedIds(d: Disk, id: string)
    requires DeclarationsOk(d)
    ensures HasId(ShippedQueries(d), id) <==> ShippedId(d, id)
  {
    hide DeclarationsOk, ShippedQueries;
    if HasId(ShippedQueries(d), id) {
      var k, f := ShippedFrom(d, IndexOf(ShippedQueries(d), id));
    }
    if ShippedId(d, id) {
      var k: nat, f :| ShippedFile(d, k, f) && id == Names(d)[k].value + "/" + f.stem;
      ShippedHas(d, k, f);
    }
  }

  lemma UserIds(d: Disk, includeUser: bool, id: string)
    requires DeclarationsOk(d)
    ensures HasId(UserQueries(d, includeUser), id) <==> UserId(d, includeUser, id)
  {
    hide DeclarationsOk, UserQueries;
    if HasId(UserQueries(d, includeUser), id) {
      var k, f := UserFrom(d, includeUser, IndexOf(UserQueries(d, includeUser), id));
    }
    if UserId(d, includeUser, id) {
      var k: nat, f :| UserFile(d, includeUser, k, f) && id == Names(d)[k].value + "/" + f.stem;
      UserHas(d, includeUser, k, f);
    }
  }

  /**
   Where every returned query comes from: its id, namespace, name and text are those of a
   user file if there is one for the id, and then the query is an override exactly if there
   is a shipped one too; and otherwise those of the shipped file.
   */
  ghost predicate ComesFromFile(d: Disk, includeUser: bool, q: Query, k: nat, f: QueryFile) {
    && MadeOf(q, d, k, f)
    && (if UserId(d, includeUser, q.id)
        then UserFile(d, includeUser, k, f) && q.origin == if ShippedId(d, q.id) then Override else Custom
        else ShippedFile(d, k, f) && q.origin == if Names(d)[k].value == "user_defined" then Custom else Builtin)
  }

  lemma QueryComesFromFile(d: Disk, validate: bool, includeUser: bool, i: nat) returns (k: nat, f: QueryFile)
    requires DiskOk(d) && Uncached(d, validate, includeUser).Ok? && i < |Uncached(d, validate, includeUser).value|
    ensures ComesFromFile(d, includeUser, Uncached(d, validate, includeUser).value[i], k, f)
  {
    hide Uncached, DiskOk, DeclarationsOk, FilesOk, ShippedQueries, UserQueries, HasId, UniqueIds, UserId, ShippedId, InOrder, WithKey;
    var r := Uncached(d, validate, includeUser).value;
    var q := r[i];
    LoadsExactly(d, validate, includeUser);
    CatalogMeaning(d, validate, includeUser);
    GetIs(r, i);
    ShippedIds(d, q.id);
    UserIds(d, includeUser, q.id);
    if HasId(UserQueries(d, includeUser), q.id) {
      k, f := UserFrom(d, includeUser, IndexOf(UserQueries(d, includeUser), q.id));
      UserFileAcceptable(d, validate, includeUser, k, f);
    } else {
      k, f := ShippedFrom(d, IndexOf(ShippedQueries(d), q.id));
      ShippedFileAcceptable(d, validate, includeUser, k, f);
    }
  }

  lemma UserFileAcceptable(d: Disk, validate: bool, includeUser: bool, k: nat, f: QueryFile)
    requires FilesOk(d, validate, includeUser) && UserFile(d, includeUser, k, f)
    ensures Acceptable(f, validate)
  {
    assert AllAcceptable(d.user.value, Names(d)[k], validate);
    hide Acceptable;
  }

  lemma ShippedFileAcceptable(d: Disk, validate: bool, includeUser: bool, k: nat, f: QueryFile)
    requires FilesOk(d, validate, includeUser) && ShippedFile(d, k, f)
    ensures Acceptable(f, validate)
  {
    assert AllAcceptable(d.shipped, Names(d)[k], validate);
    hide Acceptable;
  }

  /** And no file is left out: the ids returned are exactly those of the files, each once. */
  lemma EveryFileIsReturned(d: Disk, validate: bool, includeUser: bool, id: string)
    requires DiskOk(d) && Uncached(d, validate, includeUser).Ok?
    ensures var r := Uncached(d, validate, includeUser).value;
      && (forall i, j :: 0 <= i < j < |r| ==> r[i].id != r[j].id)
      && ((exists i :: 0 <= i < |r| && r[i].id == id) <==> ShippedId(d, id) || UserId(d, includeUser, id))
  {
    hide Uncached, DiskOk, DeclarationsOk, FilesOk, ShippedQueries, UserQueries, UserId, ShippedId, InOrder, WithKey, Winner, Get;
    LoadsExactly(d, validate, includeUser);
    CatalogMeaning(d, validate, includeUser);
    ShippedIds(d, id);
    UserIds(d, includeUser, id);
    var r := Uncached(d, validate, includeUser).value;
    assert HasId(r, id) <==> exists i :: 0 <= i < |r| && r[i].id == id;
  }

  // ---------------------------------------------------------------- The order

  /** ASCII lower case, one letter. */
  function Folded(c: char): int { if 'A' <= c <= 'Z' then c as int + 32 else c as int }

  /** `a` does not come after `b`: they agree up to `m`, where `a` ends or has the smaller letter, case apart. */
  predicate NotAfterAt(a: string, b: string, m: nat) {
    && m <= |a| && m <= |b| && (forall i :: 0 <= i < m ==> Folded(a[i]) == Folded(b[i]))
    && (m == |a| || (m < |b| && Folded(a[m]) < Folded(b[m])))
  }

  ghost predicate NotAfter(a: string, b: string) { exists m: nat :: NotAfterAt(a, b, m) }

  lemma LowerFolds(s: string, i: nat)
    requires i < |s|
    ensures |Lower(s)| == |s| && Lower(s)[i] as int == Folded(s[i])
  {
  }

  lemma {:induction false} TextLeMeaning(a: string, b: string) returns (m: nat)
    requires TextLe(a, b)
    ensures m <= |a| && m <= |b| && a[..m] == b[..m] && (m == |a| || (m < |b| && a[m] < b[m]))
  {
    if a == [] || a[0] < b[0] {
      m := 0;
    } else {
      m := TextLeMeaning(a[1..], b[1..]);
      assert a[..m + 1] == [a[0]] + a[1..][..m] && b[..m + 1] == [b[0]] + b[1..][..m];
      m := m + 1;
    }
  }

  lemma LowerOrder(a: string, b: string)
    requires TextLe(Lower(a), Lower(b))
    ensures NotAfter(a, b)
  {
    hide TextLe, Lower, Folded;
    var m := TextLeMeaning(Lower(a), Lower(b));
    forall i | 0 <= i < |a| ensures |Lower(a)| == |a| && Lower(a)[i] as int == Folded(a[i]) {
      LowerFolds(a, i);
    }
    forall i | 0 <= i < |b| ensures |Lower(b)| == |b| && Lower(b)[i] as int == Folded(b[i]) {
      LowerFolds(b, i);
    }
    LowerLength(a);
    LowerLength(b);
    forall i | 0 <= i < m ensures Folded(a[i]) == Folded(b[i]) {
      assert Lower(a)[..m][i] == Lower(b)[..m][i];
    }
    assert NotAfterAt(a, b, m);
  }

  lemma LowerLength(s: string)
    ensures |Lower(s)| == |s|
  {
  }

  /** The list is in order of the namespaces' declaration, and within one of the names, case apart. */
  lemma ListIsInOrder(d: Disk, validate: bool, includeUser: bool, i: nat, j: nat)
    requires DiskOk(d) && Uncached(d, validate, includeUser).Ok? && i < j < |Uncached(d, validate, includeUser).value|
    ensures var a, b := Uncached(d, validate, includeUser).value[i], Uncached(d, validate, includeUser).value[j];
      a.namespace.order < b.namespace.order || (a.namespace.order == b.namespace.order && NotAfter(a.body.name, b.body.name))
  {
    hide Uncached, DiskOk, Lower, TextLe, NotAfter, Overlaid, UniqueIds, WithKey, Loads;
    CatalogMeaning(d, validate, includeUser);
    var a, b := Uncached(d, validate, includeUser).value[i], Uncached(d, validate, includeUser).value[j];
    assert KeyLe(KeyOf(a), KeyOf(b));
    if a.namespace.order == b.namespace.order {
      LowerOrder(a.body.name, b.body.name);
    }
  }
}
