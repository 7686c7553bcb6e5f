/**
 Snapshot semantics for comments and reactions:
 `replace_snapshot_interaction_relationships` of
 src/connectors/neo4j_db/models.py.  All interaction edges of a page of the types
 at hand are deleted, and one aggregated edge per commenter and type, with its
 reverse, is written instead.
 */
module SnapshotReplace {
  import opened Options
  import opened PropertyGraph

  /** One comment or reaction of the incoming signal; the page is the other end. */
  datatype Interaction = Interaction(src: Node, typ: RelType, timestamp: Option<int>, lastAt: Option<int>)

  datatype Group = Group(src: Node, typ: RelType)

  function GroupOf(r: Interaction): Group { Group(r.src, r.typ) }

  /** The types the entity merges hand over. */
  predicate IsInteraction(t: RelType) { t == CommentedOn || t == ReactedTo }

  ghost predicate Interactions(rels: seq<Interaction>) { forall r :: r in rels ==> IsInteraction(r.typ) }

  function Types(rels: seq<Interaction>): set<RelType> { set r | r in rels :: r.typ }

  // ------------------------------------------------------------ Aggregation

  function Stamp(r: Interaction): Option<int> { if r.timestamp.Some? then r.timestamp else r.lastAt }

  /** The entries of one group, in order. */
  function Members(rels: seq<Interaction>, k: Group): (m: seq<Interaction>)
    ensures forall r :: r in m <==> r in rels && GroupOf(r) == k
  {
    if rels == [] then []
    else
      var n := |rels| - 1;
      Members(rels[..n], k) + if GroupOf(rels[n]) == k then [rels[n]] else []
  }

  function Stamps(m: seq<Interaction>): set<int> { set r | r in m && Stamp(r).Some? :: Stamp(r).value }

  ghost predicate IsBound(at: Option<int>, stamps: set<int>, lower: bool) {
    match at
    case None => stamps == {}
    case Some(x) => x in stamps && forall y :: y in stamps ==> if lower then x <= y else y <= x
  }

  const DISPLAY_TRUE := map[DISPLAY := Flag(true)]
  const DISPLAY_FALSE := map[DISPLAY := Flag(false)]

  function Bounds(count: int, first: Option<int>, last: Option<int>): Props {
    map["count" := Num(count)]
    + (if first.Some? then map["first_interaction_at" := Time(first.value)] else map[])
    + (if last.Some? then map["last_interaction_at" := Time(last.value)] else map[])
  }

  /** `props` are the aggregate of the entries: their number, their earliest and their latest time. */
  ghost predicate Aggregates(props: Props, m: seq<Interaction>, display: Props) {
    exists first, last ::
      IsBound(first, Stamps(m), true) && IsBound(last, Stamps(m), false) && props == Bounds(|m|, first, last) + display
  }

  // ------------------------------------------------------------ The outcome

  /** Edges a snapshot of these types replaces. */
  predicate InScope(t: Triple, page: Node, types: set<RelType>) {
    || (t.typ in types && t.dst == page)
    || (t.src == page && exists x :: x in types && Reverse(x) == Some(t.typ))
  }

  function Forward(k: Group, page: Node): Triple { Triple(k.src, k.typ, page) }

  function Backward(k: Group, page: Node): Triple
    requires IsInteraction(k.typ)
  {
    Partner(Forward(k, page))
  }

  /** The only edge between these ends of this type, and it carries the aggregate. */
  ghost predicate Sole(h: Graph, t: Triple, m: seq<Interaction>, display: Props) {
    exists i :: i in h.edges && TripleOf(h.edges[i]) == t && Aggregates(h.edges[i].props, m, display)
      && forall j :: j in h.edges && TripleOf(h.edges[j]) == t ==> j == i
  }

  /** Edges out of scope are exactly the old ones, identity and properties included. */
  ghost predicate Outside(h: Graph, g: Graph, page: Node, types: set<RelType>) {
    && h.emails == g.emails
    && (forall i :: i in g.edges && !InScope(TripleOf(g.edges[i]), page, types) ==> i in h.edges && h.edges[i] == g.edges[i])
    && (forall i :: i in h.edges && !InScope(TripleOf(h.edges[i]), page, types) ==> i in g.edges && h.edges[i] == g.edges[i])
  }

  /** Edges in scope are one edge and one reverse edge for each of the groups. */
  ghost predicate Inside(h: Graph, page: Node, rels: seq<Interaction>, types: set<RelType>, groups: set<Group>)
    requires forall k :: k in groups ==> IsInteraction(k.typ)
  {
    && (forall k :: k in groups ==>
          && Sole(h, Forward(k, page), Members(rels, k), DISPLAY_TRUE)
          && Sole(h, Backward(k, page), Members(rels, k), DISPLAY_FALSE))
    && (forall i :: i in h.edges && InScope(TripleOf(h.edges[i]), page, types) ==>
          exists k :: k in groups && (TripleOf(h.edges[i]) == Forward(k, page) || TripleOf(h.edges[i]) == Backward(k, page)))
  }

  function Groups(rels: seq<Interaction>): set<Group> { set r | r in rels :: GroupOf(r) }

  function Ends(page: Node, groups: set<Group>): set<Node> {
    if groups == {} then {} else {page} + set k | k in groups :: k.src
  }

  /** The state after a snapshot was replaced. */
  ghost predicate SnapshotOf(h: Graph, g: Graph, page: Node, rels: seq<Interaction>)
    requires Interactions(rels)
  {
    && WellFormed(h)
    && h.nodes == g.nodes + Ends(page, Groups(rels))
    && Outside(h, g, page, Types(rels))
    && Inside(h, page, rels, Types(rels), Groups(rels))
  }

  // --------------------------------------------------------------- The method

  ghost predicate Grouping(groups: map<Group, seq<Interaction>>, rels: seq<Interaction>) {
    && groups.Keys == Groups(rels)
    && forall k :: k in groups ==> groups[k] == Members(rels, k)
  }

  /** The grouping loop. */
  method GroupAll(rels: seq<Interaction>) returns (groups: map<Group, seq<Interaction>>)
    ensures Grouping(groups, rels)
  {
    groups := map[];
    assert Groups(rels[..0]) == {};
    hide Grouping;
    assert Grouping(groups, rels[..0]) by { NothingGrouped(rels); }
    for i := 0 to |rels|
      invariant Grouping(groups, rels[..i])
    {
      var k := GroupOf(rels[i]);
      GroupedMore(groups, rels, i);
      groups := groups[k := (if k in groups then groups[k] else []) + [rels[i]]];
    }
    assert rels[..|rels|] == rels;
  }

  lemma NothingGrouped(rels: seq<Interaction>)
    ensures Grouping(map[], rels[..0])
  {
  }

  lemma GroupedMore(groups: map<Group, seq<Interaction>>, rels: seq<Interaction>, i: nat)
    requires i < |rels| && Grouping(groups, rels[..i])
    ensures var k := GroupOf(rels[i]);
      Grouping(groups[k := (if k in groups then groups[k] else []) + [rels[i]]], rels[..i + 1])
  {
    hide Members, Groups;
    OneMore(rels, i);
  }

  lemma OneMore(rels: seq<Interaction>, i: nat)
    requires i < |rels|
    ensures Groups(rels[..i + 1]) == Groups(rels[..i]) + {GroupOf(rels[i])}
    ensures forall k :: Members(rels[..i + 1], k) == Members(rels[..i], k) + if GroupOf(rels[i]) == k then [rels[i]] else []
    ensures GroupOf(rels[i]) !in Groups(rels[..i]) ==> Members(rels[..i], GroupOf(rels[i])) == []
  {
    assert rels[..i + 1] == rels[..i] + [rels[i]];
    assert rels[..i + 1][..i] == rels[..i];
    var m := Members(rels[..i], GroupOf(rels[i]));
    if m != [] {
      assert m[0] in m;
    }
  }

  /** min() and max() of the timestamps that are present. */
  method TimeBounds(m: seq<Interaction>) returns (first: Option<int>, last: Option<int>)
    ensures IsBound(first, Stamps(m), true) && IsBound(last, Stamps(m), false)
  {
    first, last := None, None;
    for i := 0 to |m|
      invariant IsBound(first, Stamps(m[..i]), true) && IsBound(last, Stamps(m[..i]), false)
    {
      var at := Stamp(m[i]);
      assert Stamps(m[..i + 1]) == Stamps(m[..i]) + if at.Some? then {at.value} else {} by {
        assert m[..i + 1] == m[..i] + [m[i]];
      }
      if at.Some? {
        if first.None? || at.value < first.value { first := at; }
        if last.None? || last.value < at.value { last := at; }
      }
    }
    assert m[..|m|] == m;
  }

  // ------------------------------------------------------- Facts for the loops

  /** The state after the deletions for `done`: their scope is empty, the rest untouched. */
  ghost predicate Cleared(h: Graph, g: Graph, page: Node, done: set<RelType>) {
    && h.nodes == g.nodes && h.emails == g.emails && h.next == g.next
    && (forall i :: i in h.edges <==> i in g.edges && !InScope(TripleOf(g.edges[i]), page, done))
    && (forall i :: i in h.edges ==> h.edges[i] == g.edges[i])
  }

  /** The state after the groups `done` were written. */
  ghost predicate Written(h: Graph, g: Graph, page: Node, rels: seq<Interaction>, types: set<RelType>, done: set<Group>)
    requires forall k :: k in done ==> IsInteraction(k.typ)
  {
    && WellFormed(h) && h.nodes == g.nodes + Ends(page, done)
    && Outside(h, g, page, types) && Inside(h, page, rels, types, done)
  }

  lemma ClearType(h: Graph, g: Graph, page: Node, done: set<RelType>, t: RelType)
    requires Cleared(h, g, page, done) && IsInteraction(t)
    ensures Cleared(Apply(Apply(h, DeleteInto(t, page)), DeleteFrom(page, Reverse(t).value)), g, page, done + {t})
    ensures Outside(Apply(h, DeleteInto(t, page)), g, page, done + {t}) && Outside(h, g, page, done)
  {
    var r := Reverse(t).value;
    hide Cleared, Outside, Apply, Reverse, Fewer, OfType;
    var h1 := Apply(h, DeleteInto(t, page));
    var h2 := Apply(h1, DeleteFrom(page, r));
    DeletedBoth(h, h1, h2, page, t, r) by {
      DeletedInto(h, t, page);
      DeletedFrom(h1, page, r);
    }
    ClearedMore(h, h2, g, page, done, t);
    ClearedIsOutside(h, g, page, done);
    PartlyClearedIsOutside(h, h1, g, page, done, t);
  }

  predicate PointsAt(tr: Triple, t: RelType, page: Node) { tr.typ == t && tr.dst == page }

  predicate PointsFrom(tr: Triple, page: Node, r: RelType) { tr.src == page && tr.typ == r }

  lemma DeletedBoth(h: Graph, h1: Graph, h2: Graph, page: Node, t: RelType, r: RelType)
    requires Reverse(t) == Some(r) && Fewer(h, h1) && Fewer(h1, h2)
    requires forall i :: i in h.edges ==> (i in h1.edges <==> !PointsAt(TripleOf(h.edges[i]), t, page))
    requires forall i :: i in h1.edges ==> (i in h2.edges <==> !PointsFrom(TripleOf(h1.edges[i]), page, r))
    ensures Fewer(h, h2)
    ensures forall i :: i in h.edges ==> (i in h2.edges <==> !OfType(TripleOf(h.edges[i]), page, t))
    ensures forall i :: i in h.edges && !OfType(TripleOf(h.edges[i]), page, t) ==> i in h1.edges
  {
    hide Reverse, OfType, PointsAt, PointsFrom, TripleOf;
    forall i | i in h.edges
      ensures i in h2.edges <==> !OfType(TripleOf(h.edges[i]), page, t)
      ensures !OfType(TripleOf(h.edges[i]), page, t) ==> i in h1.edges
    {
      EitherPattern(TripleOf(h.edges[i]), page, t, r);
    }
  }

  lemma EitherPattern(tr: Triple, page: Node, t: RelType, r: RelType)
    requires Reverse(t) == Some(r)
    ensures OfType(tr, page, t) <==> PointsAt(tr, t, page) || PointsFrom(tr, page, r)
  {
    hide Reverse;
  }

  /** `h1` is `h` without some edges. */
  ghost predicate Fewer(h: Graph, h1: Graph) {
    && h1 == h.(edges := h1.edges)
    && forall i :: i in h1.edges ==> i in h.edges && h1.edges[i] == h.edges[i]
  }

  lemma DeletedInto(h: Graph, t: RelType, page: Node)
    ensures var h1 := Apply(h, DeleteInto(t, page));
      && Fewer(h, h1)
      && forall i :: i in h.edges ==> (i in h1.edges <==> !PointsAt(TripleOf(h.edges[i]), t, page))
  {
  }

  lemma DeletedFrom(h: Graph, page: Node, r: RelType)
    ensures var h1 := Apply(h, DeleteFrom(page, r));
      && Fewer(h, h1)
      && forall i :: i in h.edges ==> (i in h1.edges <==> !PointsFrom(TripleOf(h.edges[i]), page, r))
  {
  }

  lemma ClearedMore(h: Graph, h2: Graph, g: Graph, page: Node, done: set<RelType>, t: RelType)
    requires Cleared(h, g, page, done) && Fewer(h, h2)
    requires forall i :: i in h.edges ==> (i in h2.edges <==> !OfType(TripleOf(h.edges[i]), page, t))
    ensures Cleared(h2, g, page, done + {t})
  {
    hide InScope, OfType;
    forall i | i in g.edges
      ensures InScope(TripleOf(g.edges[i]), page, done + {t}) <==>
        InScope(TripleOf(g.edges[i]), page, done) || OfType(TripleOf(g.edges[i]), page, t)
    {
      ScopeOfOneMore(TripleOf(g.edges[i]), page, done, t);
    }
    hide TripleOf;
  }

  lemma ClearedIsOutside(h: Graph, g: Graph, page: Node, done: set<RelType>)
    requires Cleared(h, g, page, done)
    ensures Outside(h, g, page, done)
  {
    hide InScope;
  }

  lemma PartlyClearedIsOutside(h: Graph, h1: Graph, g: Graph, page: Node, done: set<RelType>, t: RelType)
    requires Cleared(h, g, page, done) && Fewer(h, h1)
    requires forall i :: i in h.edges && !OfType(TripleOf(h.edges[i]), page, t) ==> i in h1.edges
    ensures Outside(h1, g, page, done + {t})
  {
    hide InScope, OfType;
    forall i | i in g.edges
      ensures InScope(TripleOf(g.edges[i]), page, done + {t}) <==>
        InScope(TripleOf(g.edges[i]), page, done) || OfType(TripleOf(g.edges[i]), page, t)
    {
      ScopeOfOneMore(TripleOf(g.edges[i]), page, done, t);
    }
    hide TripleOf;
  }

  /** The two patterns that are deleted for one type. */
  predicate OfType(tr: Triple, page: Node, t: RelType) {
    (tr.typ == t && tr.dst == page) || (tr.src == page && Reverse(t) == Some(tr.typ))
  }

  lemma ScopeOfOneMore(tr: Triple, page: Node, done: set<RelType>, t: RelType)
    ensures InScope(tr, page, done + {t}) <==> InScope(tr, page, done) || OfType(tr, page, t)
  {
    hide Reverse;
    if tr.src == page && Reverse(t) == Some(tr.typ) {
      assert t in done + {t};
    }
    if x :| x in done && Reverse(x) == Some(tr.typ) {
      assert x in done + {t};
    }
  }

  ghost predicate Absent(h: Graph, t: Triple) { forall i :: i in h.edges ==> TripleOf(h.edges[i]) != t }

  /** A MERGE without properties, when no edge of the triple is left, adds exactly one. */
  lemma MergeFresh(h: Graph, t: Triple, assign: Props)
    requires WellFormed(h) && Absent(h, t)
    ensures var h1 := Apply(h, MergeRel(t.src, t.typ, t.dst, map[], assign));
      && WellFormed(h1) && h1.nodes == h.nodes + {t.src, t.dst} && h1.emails == h.emails
      && h1.edges == h.edges[h.next := Edge(t.src, t.typ, t.dst, assign)] && h.next !in h.edges
  {
    var none: Props := map[];
    assert none + assign == assign;
    assert forall i :: i in h.edges ==> !Fits(h.edges[i], t.src, t.typ, t.dst, none);
  }

  /** Adding one edge of a triple that was absent: it is alone there. */
  lemma SoleAfter(h: Graph, h1: Graph, i: nat, e: Edge, m: seq<Interaction>, display: Props)
    requires i !in h.edges && h1.edges == h.edges[i := e] && Absent(h, TripleOf(e))
    requires Aggregates(e.props, m, display)
    ensures Sole(h1, TripleOf(e), m, display)
  {
    assert h1.edges[i] == e;
  }

  /** And edges of other triples stay alone. */
  lemma SoleStill(h: Graph, h1: Graph, i: nat, e: Edge, t: Triple, m: seq<Interaction>, display: Props)
    requires i !in h.edges && h1.edges == h.edges[i := e] && t != TripleOf(e) && Sole(h, t, m, display)
    ensures Sole(h1, t, m, display)
  {
    hide Aggregates;
    var x :| x in h.edges && TripleOf(h.edges[x]) == t && Aggregates(h.edges[x].props, m, display)
      && forall j :: j in h.edges && TripleOf(h.edges[j]) == t ==> j == x;
    assert x in h1.edges && h1.edges[x] == h.edges[x];
  }

  /** In scope, only the groups already written occur; so a new group's two triples are absent. */
  lemma NewGroupAbsent(h: Graph, page: Node, rels: seq<Interaction>, types: set<RelType>, done: set<Group>, k: Group)
    requires forall x :: x in done ==> IsInteraction(x.typ)
    requires Inside(h, page, rels, types, done) && k !in done && IsInteraction(k.typ) && k.typ in types
    ensures Absent(h, Forward(k, page)) && Absent(h, Backward(k, page)) && Forward(k, page) != Backward(k, page)
    ensures InScope(Forward(k, page), page, types) && InScope(Backward(k, page), page, types)
  {
    hide Sole, Aggregates, Members;
    assert Reverse(k.typ) == Some(Backward(k, page).typ);
    forall i | i in h.edges ensures TripleOf(h.edges[i]) != Forward(k, page) && TripleOf(h.edges[i]) != Backward(k, page) {
      if InScope(TripleOf(h.edges[i]), page, types) {
        var x :| x in done && (TripleOf(h.edges[i]) == Forward(x, page) || TripleOf(h.edges[i]) == Backward(x, page));
        DistinctTriples(page, x, k);
        DistinctTriples(page, k, x);
      }
    }
  }

  /** Writing one more group: its edge and the reverse edge. */
  lemma WriteGroup(h: Graph, g: Graph, page: Node, rels: seq<Interaction>, types: set<RelType>, done: set<Group>, k: Group,
                   first: Option<int>, last: Option<int>)
    requires forall x :: x in done ==> IsInteraction(x.typ)
    requires Written(h, g, page, rels, types, done) && k !in done && IsInteraction(k.typ) && k.typ in types
    requires IsBound(first, Stamps(Members(rels, k)), true) && IsBound(last, Stamps(Members(rels, k)), false)
    ensures var b := Bounds(|Members(rels, k)|, first, last);
      var h1 := Apply(h, MergeRel(k.src, k.typ, page, map[], b + DISPLAY_TRUE));
      var h2 := Apply(h1, MergeRel(page, Reverse(k.typ).value, k.src, map[], b + DISPLAY_FALSE));
      && Written(h2, g, page, rels, types, done + {k})
      && Outside(h1, g, page, types)
  {
    hide Apply, Sole, Aggregates, WellFormed, IsBound, Bounds, Members, Ends, Inside;
    var m := Members(rels, k);
    var b := Bounds(|m|, first, last);
    var f, r := Forward(k, page), Backward(k, page);
    NewGroupAbsent(h, page, rels, types, done, k);
    MergeFresh(h, f, b + DISPLAY_TRUE);
    var h1 := Apply(h, MergeRel(f.src, f.typ, f.dst, map[], b + DISPLAY_TRUE));
    assert Absent(h1, r);
    MergeFresh(h1, r, b + DISPLAY_FALSE);
    var h2 := Apply(h1, MergeRel(r.src, r.typ, r.dst, map[], b + DISPLAY_FALSE));
    AddEdgeOutside(h, h1, g, page, types, h.next, Edge(f.src, f.typ, f.dst, b + DISPLAY_TRUE));
    AddEdgeOutside(h1, h2, g, page, types, h1.next, Edge(r.src, r.typ, r.dst, b + DISPLAY_FALSE));
    EndsMore(page, done, k);
    AggregatesBy(m, first, last);
    WriteGroupInside(h, h1, h2, page, rels, types, done, k, b, h.next, h1.next);
  }

  lemma EndsMore(page: Node, done: set<Group>, k: Group)
    ensures Ends(page, done + {k}) == Ends(page, done) + {page, k.src}
  {
  }

  lemma AddEdgeOutside(h: Graph, h1: Graph, g: Graph, page: Node, types: set<RelType>, i: nat, e: Edge)
    requires Outside(h, g, page, types) && InScope(TripleOf(e), page, types)
    requires i !in h.edges && h1.edges == h.edges[i := e] && h1.emails == h.emails
    ensures Outside(h1, g, page, types)
  {
  }

  lemma AbsentStill(h: Graph, h1: Graph, i: nat, e: Edge, t: Triple)
    requires h1.edges == h.edges[i := e] && Absent(h, t) && TripleOf(e) != t
    ensures Absent(h1, t)
  {
  }

  lemma SolesAfterGroup(h: Graph, h1: Graph, h2: Graph, page: Node, rels: seq<Interaction>, types: set<RelType>,
                        done: set<Group>, k: Group, b: Props, i: nat, j: nat)
    requires forall x :: x in done ==> IsInteraction(x.typ)
    requires Inside(h, page, rels, types, done) && k !in done && IsInteraction(k.typ) && k.typ in types
    requires i !in h.edges && h1.edges == h.edges[i := Edge(k.src, k.typ, page, b + DISPLAY_TRUE)]
    requires j !in h1.edges && h2.edges == h1.edges[j := Edge(page, Backward(k, page).typ, k.src, b + DISPLAY_FALSE)]
    requires Aggregates(b + DISPLAY_TRUE, Members(rels, k), DISPLAY_TRUE)
    requires Aggregates(b + DISPLAY_FALSE, Members(rels, k), DISPLAY_FALSE)
    ensures forall x :: x in done + {k} ==>
      Sole(h2, Forward(x, page), Members(rels, x), DISPLAY_TRUE) && Sole(h2, Backward(x, page), Members(rels, x), DISPLAY_FALSE)
  {
    hide Sole, Aggregates, Members, InScope;
    var m := Members(rels, k);
    NewGroupAbsent(h, page, rels, types, done, k);
    AbsentStill(h, h1, i, h1.edges[i], Backward(k, page));
    var ef, er := h1.edges[i], h2.edges[j];
    assert TripleOf(ef) == Forward(k, page) && TripleOf(er) == Backward(k, page);
    SoleAfter(h, h1, i, ef, m, DISPLAY_TRUE);
    SoleStill(h1, h2, j, er, Forward(k, page), m, DISPLAY_TRUE);
    SoleAfter(h1, h2, j, er, m, DISPLAY_FALSE);
    forall x | x in done && x != k
      ensures Sole(h2, Forward(x, page), Members(rels, x), DISPLAY_TRUE) && Sole(h2, Backward(x, page), Members(rels, x), DISPLAY_FALSE)
    {
      DistinctTriples(page, x, k);
      hide Inside, Absent, Forward, Backward, TripleOf, IsInteraction;
      OthersSole(h, h1, h2, i, j, ef, er, Forward(x, page), Members(rels, x), DISPLAY_TRUE);
      OthersSole(h, h1, h2, i, j, ef, er, Backward(x, page), Members(rels, x), DISPLAY_FALSE);
    }
  }

  lemma OthersSole(h: Graph, h1: Graph, h2: Graph, i: nat, j: nat, ef: Edge, er: Edge, t: Triple, m: seq<Interaction>, display: Props)
    requires i !in h.edges && h1.edges == h.edges[i := ef] && j !in h1.edges && h2.edges == h1.edges[j := er]
    requires t != TripleOf(ef) && t != TripleOf(er) && Sole(h, t, m, display)
    ensures Sole(h2, t, m, display)
  {
    hide Sole, TripleOf;
    SoleStill(h, h1, i, ef, t, m, display);
    SoleStill(h1, h2, j, er, t, m, display);
  }

  lemma WriteGroupInside(h: Graph, h1: Graph, h2: Graph, page: Node, rels: seq<Interaction>, types: set<RelType>,
                         done: set<Group>, k: Group, b: Props, i: nat, j: nat)
    requires forall x :: x in done ==> IsInteraction(x.typ)
    requires Inside(h, page, rels, types, done) && k !in done && IsInteraction(k.typ) && k.typ in types
    requires i !in h.edges && h1.edges == h.edges[i := Edge(k.src, k.typ, page, b + DISPLAY_TRUE)]
    requires j !in h1.edges && h2.edges == h1.edges[j := Edge(page, Backward(k, page).typ, k.src, b + DISPLAY_FALSE)]
    requires Aggregates(b + DISPLAY_TRUE, Members(rels, k), DISPLAY_TRUE)
    requires Aggregates(b + DISPLAY_FALSE, Members(rels, k), DISPLAY_FALSE)
    ensures Inside(h2, page, rels, types, done + {k})
  {
    hide Sole, Aggregates, Members, InScope;
    SolesAfterGroup(h, h1, h2, page, rels, types, done, k, b, i, j);
    OnlyGroups(h, h2, page, rels, types, done, k, i, j);
  }

  /** Nothing but the groups is in scope after one more was written. */
  lemma OnlyGroups(h: Graph, h2: Graph, page: Node, rels: seq<Interaction>, types: set<RelType>, done: set<Group>, k: Group, i: nat, j: nat)
    requires forall x :: x in done ==> IsInteraction(x.typ)
    requires Inside(h, page, rels, types, done) && IsInteraction(k.typ)
    requires i in h2.edges && TripleOf(h2.edges[i]) == Forward(k, page) && j in h2.edges && TripleOf(h2.edges[j]) == Backward(k, page)
    requires forall n :: n in h2.edges ==> n == i || n == j || (n in h.edges && h2.edges[n] == h.edges[n])
    ensures forall n :: n in h2.edges && InScope(TripleOf(h2.edges[n]), page, types) ==>
      exists x :: x in done + {k} && (TripleOf(h2.edges[n]) == Forward(x, page) || TripleOf(h2.edges[n]) == Backward(x, page))
  {
    hide Sole, Members, InScope;
    forall n | n in h2.edges && InScope(TripleOf(h2.edges[n]), page, types)
      ensures exists x :: x in done + {k} && (TripleOf(h2.edges[n]) == Forward(x, page) || TripleOf(h2.edges[n]) == Backward(x, page))
    {
      if n == i || n == j {
        assert k in done + {k};
      } else {
        var x :| x in done && (TripleOf(h.edges[n]) == Forward(x, page) || TripleOf(h.edges[n]) == Backward(x, page));
        assert x in done + {k};
      }
    }
  }

  lemma DistinctTriples(page: Node, x: Group, k: Group)
    requires IsInteraction(x.typ) && IsInteraction(k.typ)
    ensures Forward(x, page) != Backward(k, page)
    ensures x != k ==> Forward(x, page) != Forward(k, page) && Backward(x, page) != Backward(k, page)
  {
  }

  lemma AggregatesBy(m: seq<Interaction>, first: Option<int>, last: Option<int>)
    requires IsBound(first, Stamps(m), true) && IsBound(last, Stamps(m), false)
    ensures forall d :: Aggregates(Bounds(|m|, first, last) + d, m, d)
  {
  }

  // ------------------------------------------------------- The method, continued

  /** One turn of the delete loop: both directions of one type. */
  method ClearOne(s: Session, page: Node, t: RelType, ghost g: Graph, ghost done: set<RelType>) returns (ok: bool)
    requires IsInteraction(t) && Cleared(s.graph, g, page, done)
    modifies s
    ensures ok ==> Cleared(s.graph, g, page, done + {t})
    ensures Outside(s.graph, g, page, done + {t})
  {
    hide Apply, Cleared, Outside, InScope;
    ClearType(s.graph, g, page, done, t);
    OutsideMore(s.graph, g, page, done, done + {t});
    ok := s.Run(DeleteInto(t, page));
    if !ok { return; }
    ok := s.Run(DeleteFrom(page, Reverse(t).value));
    if ok {
      OutsideMore(s.graph, g, page, done + {t}, done + {t});
    }
  }

  /** The delete loop over the types present. */
  method ClearAll(s: Session, page: Node, types: set<RelType>) returns (ok: bool)
    requires forall t :: t in types ==> IsInteraction(t)
    modifies s
    ensures ok ==> Cleared(s.graph, old(s.graph), page, types)
    ensures Outside(s.graph, old(s.graph), page, types)
  {
    ok := true;
    var done := {};
    assert Cleared(s.graph, old(s.graph), page, done);
    hide Cleared, Outside, InScope;
    while done != types
      invariant done <= types && Cleared(s.graph, old(s.graph), page, done)
      decreases types - done
    {
      var t :| t in types - done;
      ok := ClearOne(s, page, t, old(s.graph), done);
      OutsideMore(s.graph, old(s.graph), page, done + {t}, types);
      if !ok { return; }
      done := done + {t};
    }
    OutsideMore(s.graph, old(s.graph), page, types, types);
  }

  /** What stayed outside a smaller scope stayed outside a larger one. */
  lemma OutsideMore(h: Graph, g: Graph, page: Node, fewer: set<RelType>, types: set<RelType>)
    requires fewer <= types
    ensures Cleared(h, g, page, fewer) ==> Outside(h, g, page, types)
    ensures Outside(h, g, page, fewer) ==> Outside(h, g, page, types)
  {
    forall t: Triple | !InScope(t, page, types) ensures !InScope(t, page, fewer) {
    }
  }

  lemma ClearedIsWritten(h: Graph, g: Graph, page: Node, rels: seq<Interaction>, types: set<RelType>)
    requires WellFormed(g) && Cleared(h, g, page, types)
    ensures Written(h, g, page, rels, types, {})
  {
  }

  /** One turn of the write loop: an aggregated edge and its reverse. */
  method WriteOne(s: Session, page: Node, ghost rels: seq<Interaction>, m: seq<Interaction>, k: Group, ghost g: Graph, ghost done: set<Group>)
    returns (ok: bool)
    requires Interactions(rels) && m == Members(rels, k) && k in Groups(rels) && k !in done
    requires forall x :: x in done ==> IsInteraction(x.typ)
    requires Written(s.graph, g, page, rels, Types(rels), done)
    modifies s
    ensures ok ==> Written(s.graph, g, page, rels, Types(rels), done + {k})
    ensures Outside(s.graph, g, page, Types(rels))
  {
    hide Apply, Inside, Outside, Members, Bounds, WellFormed, Ends;
    var first, last := TimeBounds(m);
    var b := Bounds(|m|, first, last);
    WriteGroup(s.graph, g, page, rels, Types(rels), done, k, first, last);
    ok := s.Run(MergeRel(k.src, k.typ, page, map[], b + DISPLAY_TRUE));
    if !ok { return; }
    ok := s.Run(MergeRel(page, Reverse(k.typ).value, k.src, map[], b + DISPLAY_FALSE));
  }

  /** The write loop over the groups. */
  method WriteAll(s: Session, page: Node, rels: seq<Interaction>, groups: map<Group, seq<Interaction>>, ghost g: Graph)
    returns (ok: bool)
    requires Interactions(rels) && Grouping(groups, rels)
    requires Written(s.graph, g, page, rels, Types(rels), {})
    modifies s
    ensures ok ==> Written(s.graph, g, page, rels, Types(rels), Groups(rels))
    ensures Outside(s.graph, g, page, Types(rels))
  {
    hide Inside, Outside, Members, WellFormed, Ends;
    ok := true;
    var done: set<Group> := {};
    var all := groups.Keys;
    while done != all
      invariant done <= all && Written(s.graph, g, page, rels, Types(rels), done)
      decreases all - done
    {
      assert exists x :: x in all && x !in done;
      var k :| k in all && k !in done;
      ok := WriteOne(s, page, rels, groups[k], k, g, done);
      if !ok { return; }
      done := done + {k};
    }
  }

  /**
   `replace_snapshot_interaction_relationships`.  When a statement fails the
   error goes to the caller; even then nothing out of scope has changed.
   */
  method ReplaceSnapshot(s: Session, page: Node, rels: seq<Interaction>) returns (ok: bool)
    requires Interactions(rels) && WellFormed(s.graph)
    modifies s
    ensures rels == [] ==> ok && s.graph == old(s.graph)
    ensures ok && rels != [] ==> SnapshotOf(s.graph, old(s.graph), page, rels)
    ensures Outside(s.graph, old(s.graph), page, Types(rels))
  {
    if rels == [] {
      return true;
    }
    var groups := GroupAll(rels);
    ok := ClearAll(s, page, Types(rels));
    if !ok { return; }
    ClearedIsWritten(s.graph, old(s.graph), page, rels, Types(rels));
    ok := WriteAll(s, page, rels, groups, old(s.graph));
  }

  // --------------------------------------------------------------- Properties

  /**
   A later snapshot of at least the same types overwrites an earlier one: the
   edges are as if the earlier had never been written.  With the same entries
   twice this is idempotence.
   */
  lemma SnapshotOverwrites(h2: Graph, h1: Graph, g: Graph, page: Node, earlier: seq<Interaction>, later: seq<Interaction>)
    requires Interactions(earlier) && Interactions(later) && Types(earlier) <= Types(later)
    requires SnapshotOf(h1, g, page, earlier) && SnapshotOf(h2, h1, page, later)
    ensures Outside(h2, g, page, Types(later)) && Inside(h2, page, later, Types(later), Groups(later))
    ensures Groups(earlier) <= Groups(later) ==> SnapshotOf(h2, g, page, later)
  {
    hide InScope, Inside, WellFormed, Ends, Types, Groups;
    OutsideMore(h1, g, page, Types(earlier), Types(later));
    OutsideThrough(h2, h1, g, page, Types(later));
    if Groups(earlier) <= Groups(later) {
      EndsTogether(page, Groups(earlier), Groups(later));
      assert g.nodes + Ends(page, Groups(earlier)) + Ends(page, Groups(later)) == g.nodes + Ends(page, Groups(later));
    }
  }

  lemma OutsideThrough(h2: Graph, h1: Graph, g: Graph, page: Node, types: set<RelType>)
    requires Outside(h1, g, page, types) && Outside(h2, h1, page, types)
    ensures Outside(h2, g, page, types)
  {
    hide InScope;
  }

  lemma EndsTogether(page: Node, fewer: set<Group>, more: set<Group>)
    requires fewer <= more
    ensures Ends(page, fewer) <= Ends(page, more)
  {
  }

  lemma {:induction false} MembersCount(rels: seq<Interaction>, k: Group, r: Interaction)
    ensures multiset(Members(rels, k))[r] == if GroupOf(r) == k then multiset(rels)[r] else 0
  {
    if rels != [] {
      var n := |rels| - 1;
      MembersCount(rels[..n], k, r);
      assert rels == rels[..n] + [rels[n]];
    }
  }

  lemma SameAggregates(props: Props, m1: seq<Interaction>, m2: seq<Interaction>, display: Props)
    requires multiset(m1) == multiset(m2)
    ensures Aggregates(props, m1, display) <==> Aggregates(props, m2, display)
  {
    assert |m1| == |multiset(m1)| == |multiset(m2)| == |m2|;
    forall r ensures r in m1 <==> r in m2 {
      assert r in m1 <==> r in multiset(m1);
      assert r in m2 <==> r in multiset(m2);
    }
    assert Stamps(m1) == Stamps(m2);
  }

  /** The outcome does not depend on the order of the entries. */
  lemma SnapshotOrderIrrelevant(h: Graph, g: Graph, page: Node, r1: seq<Interaction>, r2: seq<Interaction>)
    requires multiset(r1) == multiset(r2) && Interactions(r1) && Interactions(r2)
    requires SnapshotOf(h, g, page, r1)
    ensures SnapshotOf(h, g, page, r2)
  {
    forall r ensures r in r1 <==> r in r2 {
      assert r in r1 <==> r in multiset(r1);
      assert r in r2 <==> r in multiset(r2);
    }
    assert Types(r1) == Types(r2) && Groups(r1) == Groups(r2);
    forall k ensures multiset(Members(r1, k)) == multiset(Members(r2, k)) {
      forall r: Interaction ensures multiset(Members(r1, k))[r] == multiset(Members(r2, k))[r] {
        MembersCount(r1, k, r);
        MembersCount(r2, k, r);
      }
    }
    forall k | k in Groups(r2)
      ensures Sole(h, Forward(k, page), Members(r2, k), DISPLAY_TRUE) && Sole(h, Backward(k, page), Members(r2, k), DISPLAY_FALSE)
    {
      SoleSame(h, Forward(k, page), Members(r1, k), Members(r2, k), DISPLAY_TRUE);
      SoleSame(h, Backward(k, page), Members(r1, k), Members(r2, k), DISPLAY_FALSE);
    }
  }

  lemma SoleSame(h: Graph, t: Triple, m1: seq<Interaction>, m2: seq<Interaction>, display: Props)
    requires multiset(m1) == multiset(m2) && Sole(h, t, m1, display)
    ensures Sole(h, t, m2, display)
  {
    forall props: Props {
      SameAggregates(props, m1, m2, display);
    }
  }

  function Total(rels: seq<Interaction>, ks: seq<Group>): nat {
    if ks == [] then 0 else Total(rels, ks[..|ks| - 1]) + |Members(rels, ks[|ks| - 1])|
  }

  ghost predicate Distinct(ks: seq<Group>) { forall i, j :: 0 <= i < j < |ks| ==> ks[i] != ks[j] }

  lemma {:induction false} TotalMore(rels: seq<Interaction>, n: nat, ks: seq<Group>)
    requires n < |rels| && Distinct(ks)
    ensures Total(rels[..n + 1], ks) == Total(rels[..n], ks) + if GroupOf(rels[n]) in ks then 1 else 0
  {
    if ks != [] {
      var init := ks[..|ks| - 1];
      assert ks == init + [ks[|ks| - 1]];
      TotalMore(rels, n, init);
      OneMore(rels, n);
    }
  }

  lemma {:induction false} TotalNothing(ks: seq<Group>)
    ensures Total([], ks) == 0
  {
    if ks != [] {
      TotalNothing(ks[..|ks| - 1]);
    }
  }

  lemma {:induction false} TotalUpTo(rels: seq<Interaction>, n: nat, ks: seq<Group>)
    requires n <= |rels| && Distinct(ks) && forall r :: r in rels ==> GroupOf(r) in ks
    ensures Total(rels[..n], ks) == n
  {
    if n == 0 {
      TotalNothing(ks);
    } else {
      TotalUpTo(rels, n - 1, ks);
      TotalMore(rels, n - 1, ks);
    }
  }

  /** The counts written add up to the number of entries, over the groups in any order. */
  lemma CountsAddUp(rels: seq<Interaction>, ks: seq<Group>)
    requires Lists(ks, Groups(rels))
    ensures Total(rels, ks) == |rels|
  {
    forall r | r in rels ensures GroupOf(r) in ks {
      assert GroupOf(r) in Groups(rels);
    }
    TotalUpTo(rels, |rels|, ks);
    assert rels[..|rels|] == rels;
  }

  /** A snapshot keeps every directional edge but MANAGES paired with its reverse. */
  lemma SnapshotKeepsPartners(h: Graph, g: Graph, page: Node, rels: seq<Interaction>)
    requires Interactions(rels) && SnapshotOf(h, g, page, rels)
    requires PartnerClosed(Triples(g), {Manages})
    ensures PartnerClosed(Triples(h), {Manages})
  {
    forall t | t in Triples(h) && Directional(t.typ) && t.typ != Manages ensures Partner(t) in Triples(h) {
      if InScope(t, page, Types(rels)) {
        PartnerInside(h, page, rels, Types(rels), Groups(rels), t);
      } else {
        PartnerOutside(h, g, page, Types(rels), t);
      }
    }
  }

  lemma PartnerInside(h: Graph, page: Node, rels: seq<Interaction>, types: set<RelType>, groups: set<Group>, t: Triple)
    requires forall k :: k in groups ==> IsInteraction(k.typ)
    requires Inside(h, page, rels, types, groups)
    requires t in Triples(h) && Directional(t.typ) && t.typ != Manages && InScope(t, page, types)
    ensures Partner(t) in Triples(h)
  {
    hide Aggregates, Members, InScope, Sole;
    var i :| i in h.edges && TripleOf(h.edges[i]) == t;
    hide Reverse;
    var k :| k in groups && (t == Forward(k, page) || t == Backward(k, page));
    OnlyForward(page, k, t);
    SoleOccurs(h, Backward(k, page), Members(rels, k), DISPLAY_FALSE);
  }

  lemma OnlyForward(page: Node, k: Group, t: Triple)
    requires IsInteraction(k.typ) && Directional(t.typ) && (t == Forward(k, page) || t == Backward(k, page))
    ensures Partner(t) == Backward(k, page)
  {
  }

  lemma SoleOccurs(h: Graph, t: Triple, m: seq<Interaction>, display: Props)
    requires Sole(h, t, m, display)
    ensures t in Triples(h)
  {
    hide Aggregates;
  }

  lemma PartnerOutside(h: Graph, g: Graph, page: Node, types: set<RelType>, t: Triple)
    requires Outside(h, g, page, types) && PartnerClosed(Triples(g), {Manages})
    requires forall x :: x in types ==> IsInteraction(x)
    requires t in Triples(h) && Directional(t.typ) && t.typ != Manages && !InScope(t, page, types)
    ensures Partner(t) in Triples(h)
  {
    hide InScope, PartnerClosed, Outside;
    OutsideTriple(h, g, page, types, t);
    ClosedPartner(Triples(g), t);
    OutsidePartner(t, page, types);
    OutsideTriple(h, g, page, types, Partner(t));
  }

  /** A triple out of scope is there after if and only if it was there before. */
  lemma OutsideTriple(h: Graph, g: Graph, page: Node, types: set<RelType>, t: Triple)
    requires Outside(h, g, page, types) && !InScope(t, page, types)
    ensures t in Triples(h) <==> t in Triples(g)
  {
    hide InScope;
    if t in Triples(h) {
      var i :| i in h.edges && TripleOf(h.edges[i]) == t;
      assert i in g.edges && TripleOf(g.edges[i]) == t;
    }
    if t in Triples(g) {
      var i :| i in g.edges && TripleOf(g.edges[i]) == t;
      assert i in h.edges && TripleOf(h.edges[i]) == t;
    }
  }

  lemma ClosedPartner(ts: set<Triple>, t: Triple)
    requires PartnerClosed(ts, {Manages}) && t in ts && Directional(t.typ) && t.typ != Manages
    ensures Partner(t) in ts
  {
  }

  lemma OutsidePartner(t: Triple, page: Node, types: set<RelType>)
    requires forall x :: x in types ==> IsInteraction(x)
    requires Directional(t.typ) && !InScope(t, page, types)
    ensures !InScope(Partner(t), page, types)
  {
  }
}
