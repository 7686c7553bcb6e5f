/**
 scripts/reconcile_es.py: making the search indexes agree with the graph.

 The pages a scroll returns and the writes that fail are chosen by the environment.
 Property values are kept as they are; the graph is read in one step.
 */
module ReconcileEs {
  import opened Options

  type Id = string

  datatype Pair = Pair(source: string, entityType: string)

  datatype Node = Node(labels: set<string>, props: map<string, string>, neighbours: set<Id>)

  /** The nodes by their `id` property. */
  type Graph = map<Id, Node>

  datatype Doc = Doc(fields: map<string, string>, relationshipIds: set<Id>)

  type Docs = map<Id, Doc>

  // ---------------------------------------------------------------- Reading

  function Prefix(p: Pair): string { p.source + "::" + p.entityType + "::" }

  /** A node of the pair's type with a key of the pair, and not a stub with nothing but its id. */
  predicate Belongs(id: Id, n: Node, p: Pair) {
    p.entityType in n.labels && Prefix(p) <= id && |n.props.Keys| > 1
  }

  function Nodes(g: Graph, p: Pair): Graph { map id | id in g && Belongs(id, g[id], p) :: g[id] }

  /** The text up to the next `::`, and what follows it if there is one. */
  function Split(s: string): (string, Option<string>)
    decreases |s|
  {
    if s == [] then ([], None)
    else if |s| >= 2 && s[0] == ':' && s[1] == ':' then ([], Some(s[2..]))
    else
      var (head, tail) := Split(s[1..]);
      ([s[0]] + head, tail)
  }

  function SetDefault(m: map<string, string>, k: string, v: string): map<string, string> { if k in m then m else m[k := v] }

  predicate Internal(k: string) { k != [] && k[0] == '_' }

  /** The document of a node: its public properties, its key, and what the key says of its source and type. */
  function DocOf(id: Id, n: Node): Doc {
    var fields := (map k | k in n.props && !Internal(k) && k != "relationship_ids" :: n.props[k])["wba_id" := id];
    var (source, rest) := Split(id);
    var completed :=
      if ("source" in fields && "entity_type" in fields) || rest.None? then fields
      else SetDefault(SetDefault(fields, "source", source), "entity_type", Split(rest.value).0);
    Doc(completed, n.neighbours - {""})
  }

  // ---------------------------------------------------------------- Scrolling

  /** One answer of the search or scroll call; `more` is whether it carries a scroll id. */
  datatype Response = Fails | Page(hits: seq<Id>, more: bool)

  /** The ids read before the scroll ends, is cut short, or fails. */
  function Collected(rs: seq<Response>): set<Id> {
    if rs == [] || rs[0].Fails? || rs[0].hits == [] then {}
    else (set h | h in rs[0].hits) + if rs[0].more then Collected(rs[1..]) else {}
  }

  method ScrollEsIds(rs: seq<Response>) returns (ids: set<Id>)
    ensures ids == Collected(rs)
  {
    ids := {};
    if rs == [] || rs[0].Fails? {
      return;
    }
    var k := 0;
    while rs[k].hits != []
      invariant k < |rs| && rs[k].Page?
      invariant ids + Collected(rs[k..]) == Collected(rs)
      decreases |rs| - k
    {
      assert rs[k..][1..] == rs[k + 1..];
      var page := rs[k];
      for i := 0 to |page.hits|
        invariant ids + (set h | h in page.hits) + (if page.more then Collected(rs[k + 1..]) else {}) == Collected(rs)
        invariant forall j :: 0 <= j < i ==> page.hits[j] in ids
        invariant ids <= Collected(rs)
      {
        ids := ids + {page.hits[i]};
      }
      if !page.more {
        return;
      }
      k := k + 1;
      if k == |rs| || rs[k].Fails? {
        return;
      }
    }
  }

  // ------------------------------------------------------------- One index

  /** The nodes that are written: all, or those a targeted run did not find. */
  function Todo(nodes: Graph, targeted: bool, seen: set<Id>): set<Id> {
    if targeted then nodes.Keys - seen else nodes.Keys
  }

  /** An index in which the documents of these nodes have been written. */
  function Written(docs: Docs, nodes: Graph, done: set<Id>): Docs {
    map id | id in docs.Keys + (done * nodes.Keys) :: if id in done && id in nodes then DocOf(id, nodes[id]) else docs[id]
  }

  /** The index after a run without failed writes. */
  function After(docs: Docs, nodes: Graph, targeted: bool, seen: set<Id>): Docs {
    Written(docs, nodes, Todo(nodes, targeted, seen)) - (seen - nodes.Keys)
  }

  /** What a run never does, whatever fails: lose a live document or write anything but a node's document. */
  ghost predicate Harmless(docs: Docs, after: Docs, nodes: Graph) {
    && (forall id :: id in docs && id in nodes ==> id in after)
    && (forall id :: id in after ==> (id in docs && after[id] == docs[id]) || (id in nodes && after[id] == DocOf(id, nodes[id])))
  }

  lemma NothingWritten(docs: Docs, nodes: Graph)
    ensures Written(docs, nodes, {}) == docs && Harmless(docs, docs, nodes)
  {
  }

  lemma WriteOne(before: Docs, docs: Docs, nodes: Graph, done: set<Id>, id: Id)
    requires id in nodes
    ensures Written(before, nodes, done)[id := DocOf(id, nodes[id])] == Written(before, nodes, done + {id})
    ensures Harmless(before, docs, nodes) ==> Harmless(before, docs[id := DocOf(id, nodes[id])], nodes)
  {
    hide DocOf;
  }

  lemma MinusOne(docs: Docs, gone: set<Id>, id: Id)
    ensures docs - gone - {id} == docs - (gone + {id})
  {
  }

  lemma DeleteHarmless(before: Docs, docs: Docs, after: Docs, nodes: Graph, stale: set<Id>)
    requires Harmless(before, docs, nodes) && stale !! nodes.Keys
    requires after.Keys <= docs.Keys && docs.Keys - stale <= after.Keys
    requires forall id :: id in after ==> after[id] == docs[id]
    ensures Harmless(before, after, nodes)
  {
    hide DocOf;
  }

  class Index {
    var docs: Docs

    constructor (docs: Docs)
      ensures this.docs == docs
    {
      this.docs := docs;
    }

    /** Step 3: write the documents of these nodes; a failed write is reported and skipped. */
    method Upsert(nodes: Graph, todo: set<Id>, dryRun: bool) returns (upserted: nat, failed: bool)
      requires todo <= nodes.Keys
      modifies this
      ensures dryRun ==> docs == old(docs) && !failed
      ensures Harmless(old(docs), docs, nodes)
      ensures dryRun || !failed ==> upserted == |todo|
      ensures !dryRun && !failed ==> docs == Written(old(docs), nodes, todo)
    {
      hide DocOf, Written, Harmless;
      upserted, failed := 0, false;
      var left := todo;
      NothingWritten(docs, nodes);
      assert todo - left == {};
      while left != {}
        invariant left <= todo
        invariant dryRun ==> docs == old(docs) && !failed
        invariant dryRun || !failed ==> upserted == |todo| - |left|
        invariant Harmless(old(docs), docs, nodes)
        invariant !dryRun && !failed ==> docs == Written(old(docs), nodes, todo - left)
        decreases |left|
      {
        var id :| id in left;
        if dryRun {
          upserted := upserted + 1;
        } else {
          var refused: bool := *;
          if refused {
            failed := true;
          } else {
            WriteOne(old(docs), docs, nodes, todo - left, id);
            docs := docs[id := DocOf(id, nodes[id])];
            upserted := upserted + 1;
          }
        }
        assert todo - (left - {id}) == todo - left + {id};
        left := left - {id};
      }
      assert todo - {} == todo;
    }

    /** Step 4: delete what the scroll found and the graph does not have. */
    method DeleteStale(stale: set<Id>, dryRun: bool) returns (deleted: nat, failed: bool)
      modifies this
      ensures dryRun ==> docs == old(docs) && !failed
      ensures dryRun || !failed ==> deleted == |stale|
      ensures deleted <= |stale|
      ensures docs.Keys <= old(docs).Keys && old(docs).Keys - stale <= docs.Keys
      ensures forall id :: id in docs ==> docs[id] == old(docs)[id]
      ensures !dryRun && !failed ==> docs == old(docs) - stale
    {
      deleted, failed := 0, false;
      var left := stale;
      while left != {}
        invariant left <= stale
        invariant dryRun ==> docs == old(docs) && !failed
        invariant dryRun || !failed ==> deleted == |stale| - |left|
        invariant deleted + |left| <= |stale|
        invariant docs.Keys <= old(docs).Keys && old(docs).Keys - stale <= docs.Keys
        invariant forall id :: id in docs ==> docs[id] == old(docs)[id]
        invariant !dryRun && !failed ==> docs == old(docs) - (stale - left)
        decreases |left|
      {
        var id :| id in left;
        if dryRun {
          deleted := deleted + 1;
        } else {
          var refused: bool := *;
          if refused {
            failed := true;
          } else {
            MinusOne(old(docs), stale - left, id);
            docs := docs - {id};
            deleted := deleted + 1;
          }
        }
        assert stale - (left - {id}) == stale - left + {id};
        left := left - {id};
      }
      assert stale - {} == stale;
    }

    /** A targeted run scrolls first, a full run after its writes. */
    method ReconcileIndex(g: Graph, p: Pair, dryRun: bool, targeted: bool, rs: seq<Response>)
      returns (upserted: nat, deleted: nat, failed: bool)
      modifies this
      ensures dryRun ==> docs == old(docs) && !failed
      ensures Harmless(old(docs), docs, Nodes(g, p))
      ensures !dryRun && !failed ==> docs == After(old(docs), Nodes(g, p), targeted, Collected(rs))
      ensures dryRun || !failed ==>
        && upserted == |Todo(Nodes(g, p), targeted, Collected(rs))|
        && deleted == |Collected(rs) - Nodes(g, p).Keys|
      ensures deleted <= |Collected(rs) - Nodes(g, p).Keys|
    {
      hide DocOf, Collected, Written, Harmless, Nodes;
      var nodes := Nodes(g, p);
      var seen: set<Id> := {};
      var todo := nodes.Keys;
      if targeted {
        seen := ScrollEsIds(rs);
        todo := nodes.Keys - seen;
      }
      var failedWrites, failedDeletes;
      upserted, failedWrites := Upsert(nodes, todo, dryRun);
      if !targeted {
        seen := ScrollEsIds(rs);
      }
      ghost var written := docs;
      deleted, failedDeletes := DeleteStale(seen - nodes.Keys, dryRun);
      DeleteHarmless(old(docs), written, docs, nodes, seen - nodes.Keys);
      failed := failedWrites || failedDeletes;
    }
  }

  // ------------------------------------------------------------ Main results

  /**
   Without failed writes the index has exactly the ids of the graph if and only if the
   scroll saw every stale one; that holds in both modes, as long as a targeted scroll
   returns ids of the index only.
   */
  lemma IdsAgree(docs: Docs, nodes: Graph, targeted: bool, seen: set<Id>)
    requires targeted ==> seen <= docs.Keys
    ensures After(docs, nodes, targeted, seen).Keys == nodes.Keys <==> docs.Keys - nodes.Keys <= seen
  {
    hide DocOf;
    var after := After(docs, nodes, targeted, seen);
    forall id | id in nodes ensures id in after {
    }
    if docs.Keys - nodes.Keys <= seen {
      assert after.Keys == nodes.Keys;
    } else {
      var id :| id in docs.Keys - nodes.Keys && id !in seen;
      assert id in after;
    }
  }

  /** A full run also makes every document that of its node; then the index is a function of the graph. */
  lemma FullRunRebuilds(docs: Docs, nodes: Graph, seen: set<Id>)
    ensures After(docs, nodes, false, seen) == (map id | id in nodes :: DocOf(id, nodes[id]))
      <==> docs.Keys - nodes.Keys <= seen
  {
    hide DocOf;
    IdsAgree(docs, nodes, false, seen);
    var after, built := After(docs, nodes, false, seen), map id | id in nodes :: DocOf(id, nodes[id]);
    assert forall id :: id in nodes ==> id in after && after[id] == built[id];
    assert after == built <==> after.Keys == built.Keys;
  }

  /** What a targeted run leaves as it was: every document that the scroll found and the graph has. */
  lemma TargetedRunKeeps(docs: Docs, nodes: Graph, seen: set<Id>, id: Id)
    requires seen <= docs.Keys
    ensures id in nodes ==>
      id in After(docs, nodes, true, seen) && After(docs, nodes, true, seen)[id] == if id in seen then docs[id] else DocOf(id, nodes[id])
  {
    hide DocOf;
  }

  /**
   A second run, in either mode and over whatever ids of the index its scroll returns,
   has nothing to delete; after a full run, or when it finds every id, it changes nothing.
   */
  lemma SecondRunIsIdle(docs: Docs, nodes: Graph, targeted: bool, seen: set<Id>, again: bool, seenAgain: set<Id>)
    requires targeted ==> seen <= docs.Keys
    requires docs.Keys - nodes.Keys <= seen
    requires seenAgain <= After(docs, nodes, targeted, seen).Keys
    ensures seenAgain - nodes.Keys == {}
    ensures again && seenAgain == nodes.Keys ==>
      After(After(docs, nodes, targeted, seen), nodes, again, seenAgain) == After(docs, nodes, targeted, seen)
    ensures !targeted ==> After(After(docs, nodes, targeted, seen), nodes, again, seenAgain) == After(docs, nodes, targeted, seen)
  {
    hide DocOf;
    IdsAgree(docs, nodes, targeted, seen);
    var once := After(docs, nodes, targeted, seen);
    var twice := After(once, nodes, again, seenAgain);
    assert twice.Keys == nodes.Keys;
    if again && seenAgain == nodes.Keys {
      assert twice == once;
    }
    if !targeted {
      assert forall id :: id in nodes ==> once[id] == DocOf(id, nodes[id]) && twice[id] == once[id];
      assert twice == once;
    }
  }

  /** Every document a run writes says which index it belongs to. */
  lemma DocNamesItsKey(id: Id, n: Node, p: Pair)
    requires Belongs(id, n, p) && "source" !in n.props && "entity_type" !in n.props
    requires ':' !in p.source && ':' !in p.entityType
    ensures "wba_id" in DocOf(id, n).fields && DocOf(id, n).fields["wba_id"] == id
    ensures "source" in DocOf(id, n).fields && DocOf(id, n).fields["source"] == p.source
    ensures "entity_type" in DocOf(id, n).fields && DocOf(id, n).fields["entity_type"] == p.entityType
  {
    var rest := id[|Prefix(p)|..];
    assert id == p.source + "::" + (p.entityType + "::" + rest);
    SplitAtSeparator(p.source, p.entityType + "::" + rest);
    SplitAtSeparator(p.entityType, rest);
  }

  lemma {:induction false} SplitAtSeparator(head: string, tail: string)
    requires ':' !in head
    ensures Split(head + "::" + tail) == (head, Some(tail))
  {
    var s := head + "::" + tail;
    if head == [] {
      assert s[2..] == tail;
    } else {
      SplitAtSeparator(head[1..], tail);
      assert s[0] == head[0] && head[0] in head;
      assert s[1..] == head[1..] + "::" + tail;
      assert head == [head[0]] + head[1..];
    }
  }

  // ------------------------------------------------- What a document contains

  /** The first `::` of a text. */
  predicate FirstSeparator(s: string, i: nat) {
    && i + 1 < |s| && s[i] == ':' && s[i + 1] == ':'
    && forall j :: 0 <= j < i ==> !(s[j] == ':' && s[j + 1] == ':')
  }

  lemma {:induction false} SplitMeaning(s: string)
    ensures var (head, tail) := Split(s);
      if tail.None? then head == s && forall i: nat :: !FirstSeparator(s, i)
      else FirstSeparator(s, |head|) && head == s[..|head|] && tail.value == s[|head| + 2..]
  {
    if s == [] || (|s| >= 2 && s[0] == ':' && s[1] == ':') {
    } else {
      SplitMeaning(s[1..]);
      var (head, tail) := Split(s[1..]);
      if tail.None? {
        forall i: nat ensures !FirstSeparator(s, i) {
          assert i > 0 && FirstSeparator(s, i) ==> FirstSeparator(s[1..], i - 1);
        }
      } else {
        assert s[..|head| + 1] == [s[0]] + s[1..][..|head|];
      }
    }
  }

  /** The part between the separator at `i` and the next one, or the end. */
  ghost predicate PartAfter(s: string, i: nat, part: string)
    requires FirstSeparator(s, i)
  {
    var rest := s[i + 2..];
    if part == rest then forall j: nat :: !FirstSeparator(rest, j)
    else |part| <= |rest| && part == rest[..|part|] && FirstSeparator(rest, |part|)
  }

  /**
   A document in full: the public properties of the node as they are, its key, the ids of
   its neighbours, and, where the node does not say them, the source and the type that
   the first two parts of the key say.
   */
  ghost predicate DocFor(id: Id, n: Node, doc: Doc) {
    && (forall x :: x in doc.relationshipIds <==> x in n.neighbours && x != "")
    && "wba_id" in doc.fields && doc.fields["wba_id"] == id
    && (forall k :: k !in {"wba_id", "source", "entity_type"} ==>
          (k in doc.fields <==> k in n.props && !("_" <= k) && k != "relationship_ids"))
    && (forall k :: k in n.props && k in doc.fields && k != "wba_id" ==> doc.fields[k] == n.props[k])
    && KeyPartsFor(id, n, doc.fields)
  }

  /** The source and the type of a document. */
  ghost predicate KeyPartsFor(id: Id, n: Node, fields: map<string, string>) {
    && ("source" in fields <==> "source" in n.props || exists i: nat :: FirstSeparator(id, i))
    && ("entity_type" in fields <==> "entity_type" in n.props || exists i: nat :: FirstSeparator(id, i))
    && ("source" !in n.props ==> forall i: nat :: FirstSeparator(id, i) ==> fields["source"] == id[..i])
    && ("entity_type" !in n.props ==> forall i: nat :: FirstSeparator(id, i) ==> PartAfter(id, i, fields["entity_type"]))
  }

  lemma DocExactly(id: Id, n: Node)
    ensures DocFor(id, n, DocOf(id, n))
  {
    hide Split, KeyPartsFor;
    KeyPartsExactly(id, n);
  }

  lemma KeyPartsExactly(id: Id, n: Node)
    ensures KeyPartsFor(id, n, DocOf(id, n).fields)
  {
    hide Split, FirstSeparator;
    SplitMeaning(id);
    var (source, rest) := Split(id);
    if rest.Some? {
      SplitMeaning(rest.value);
      OneFirstSeparator(id);
    }
  }

  lemma OneFirstSeparator(s: string)
    ensures forall i: nat, j: nat :: FirstSeparator(s, i) && FirstSeparator(s, j) ==> i == j
  {
  }

  /** A node of the type, with a key of the pair, and with a property besides its id. */
  ghost predicate Indexed(g: Graph, p: Pair, id: Id) {
    && id in g && p.entityType in g[id].labels && p.source + "::" + p.entityType + "::" <= id
    && exists k :: k in g[id].props && k != "id"
  }

  lemma MoreThanId(props: map<string, string>)
    requires "id" in props
    ensures |props.Keys| > 1 <==> exists k :: k in props && k != "id"
  {
    var others := props.Keys - {"id"};
    assert props.Keys == others + {"id"};
    if others != {} {
      var k :| k in others;
    }
  }

  lemma IndexedAreNodes(g: Graph, p: Pair, id: Id)
    requires forall i :: i in g ==> "id" in g[i].props
    ensures id in Nodes(g, p) <==> Indexed(g, p, id)
    ensures id in Nodes(g, p) ==> Nodes(g, p)[id] == g[id]
  {
    if id in g {
      MoreThanId(g[id].props);
    }
  }

  /**
   What a full run leaves when no write fails and its scroll saw every stale id: a
   document for each node of the pair that is no stub, and for nothing else, made of that
   node; and whatever the scroll saw, no node of the pair is without its document.
   */
  lemma FullRunExactly(docs: Docs, g: Graph, p: Pair, seen: set<Id>, id: Id)
    requires forall i :: i in g ==> "id" in g[i].props
    ensures var after := After(docs, Nodes(g, p), false, seen);
      && (Indexed(g, p, id) ==> id in after && DocFor(id, g[id], after[id]))
      && (docs.Keys - Nodes(g, p).Keys <= seen && id in after ==> Indexed(g, p, id))
  {
    hide DocOf, DocFor, Nodes;
    IndexedAreNodes(g, p, id);
    IdsAgree(docs, Nodes(g, p), false, seen);
    if id in g {
      DocExactly(id, g[id]);
    }
  }

  /** The pages before the `i`-th were read, and led on to it. */
  predicate ReadUpTo(rs: seq<Response>, i: nat) {
    && i < |rs| && rs[i].Page?
    && forall j :: 0 <= j < i ==> rs[j].Page? && rs[j].hits != [] && rs[j].more
  }

  /** A scroll collects exactly the hits of the pages up to the first that fails, is empty or leads no further. */
  lemma {:induction false} CollectedExactly(rs: seq<Response>, id: Id)
    ensures id in Collected(rs) <==> exists i: nat :: ReadUpTo(rs, i) && id in rs[i].hits
  {
    if rs != [] && rs[0].Page? && rs[0].hits != [] {
      var rest := rs[1..];
      CollectedExactly(rest, id);
      if i: nat :| ReadUpTo(rs, i) && id in rs[i].hits {
        if i > 0 {
          assert forall j :: 0 <= j < i - 1 ==> rest[j] == rs[j + 1];
          assert ReadUpTo(rest, i - 1) && id in rest[i - 1].hits;
        }
      }
      if i: nat :| rs[0].more && ReadUpTo(rest, i) && id in rest[i].hits {
        assert forall j :: 0 < j < i + 1 ==> rs[j] == rest[j - 1];
        assert ReadUpTo(rs, i + 1) && id in rs[i + 1].hits;
      }
      if id in rs[0].hits {
        assert ReadUpTo(rs, 0);
      }
    } else if i: nat :| ReadUpTo(rs, i) && id in rs[i].hits {
      assert false;
    }
  }
}
