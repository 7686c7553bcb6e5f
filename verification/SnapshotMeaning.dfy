/**
 What a page looks like after a snapshot was replaced, told from the entries alone: for
 each commenter and type the one edge and the one reverse edge, with the number of the
 entries and their earliest and latest time, and everything else as it was.
 */
module SnapshotMeaning {
  import opened Options
  import opened PropertyGraph
  import opened SnapshotReplace

  /** The same commenter and type. */
  predicate Alike(x: Interaction, r: Interaction) { x.src == r.src && x.typ == r.typ }

  /** The time of an entry: its timestamp, or else the time of the last interaction. */
  function TimeOf(x: Interaction): Option<int> {
    match x.timestamp
    case Some(t) => Some(t)
    case None => x.lastAt
  }

  predicate Timed(rels: seq<Interaction>, r: Interaction, j: int) {
    0 <= j < |rels| && Alike(rels[j], r) && TimeOf(rels[j]).Some?
  }

  /** `key` holds the earliest, or the latest, time of the entries like `r`; it is there if any has a time. */
  ghost predicate Extreme(props: Props, key: string, rels: seq<Interaction>, r: Interaction, earliest: bool) {
    && (key in props <==> exists j :: Timed(rels, r, j))
    && (key in props ==>
          && (exists j :: Timed(rels, r, j) && props[key] == Time(TimeOf(rels[j]).value))
          && props[key].Time?
          && forall j :: Timed(rels, r, j) ==>
               if earliest then props[key].t <= TimeOf(rels[j]).value else TimeOf(rels[j]).value <= props[key].t)
  }

  function HowMany(rels: seq<Interaction>, r: Interaction): nat { |set j | 0 <= j < |rels| && Alike(rels[j], r)| }

  ghost predicate Summarises(props: Props, rels: seq<Interaction>, r: Interaction, display: bool) {
    && "count" in props && props["count"] == Num(HowMany(rels, r))
    && "_display_in_graph" in props && props["_display_in_graph"] == Flag(display)
    && Extreme(props, "first_interaction_at", rels, r, true)
    && Extreme(props, "last_interaction_at", rels, r, false)
    && props.Keys <= {"count", "_display_in_graph", "first_interaction_at", "last_interaction_at"}
  }

  lemma LastIsAlike(rels: seq<Interaction>, r: Interaction)
    requires rels != []
    ensures HowMany(rels, r) == HowMany(rels[..|rels| - 1], r) + if Alike(rels[|rels| - 1], r) then 1 else 0
  {
    var n := |rels| - 1;
    var now := set j | 0 <= j < |rels| && Alike(rels[j], r);
    var before := set j | 0 <= j < |rels[..n]| && Alike(rels[..n][j], r);
    assert now == before + if Alike(rels[n], r) then {n} else {};
  }

  lemma NobodyAlike(r: Interaction)
    ensures HowMany([], r) == 0
  {
  }

  lemma {:induction false} MembersAreAlike(rels: seq<Interaction>, r: Interaction)
    ensures |Members(rels, GroupOf(r))| == HowMany(rels, r)
  {
    if rels == [] {
      NobodyAlike(r);
    } else {
      hide HowMany;
      MembersAreAlike(rels[..|rels| - 1], r);
      LastIsAlike(rels, r);
    }
  }

  lemma StampsAreTimes(rels: seq<Interaction>, r: Interaction, t: int)
    ensures t in Stamps(Members(rels, GroupOf(r))) <==> exists j :: Timed(rels, r, j) && TimeOf(rels[j]).value == t
  {
    var m := Members(rels, GroupOf(r));
    if t in Stamps(m) {
      var x :| x in m && Stamp(x).Some? && Stamp(x).value == t;
      var j :| 0 <= j < |rels| && rels[j] == x;
      assert Timed(rels, r, j);
    }
    if j :| Timed(rels, r, j) && TimeOf(rels[j]).value == t {
      assert rels[j] in m && Stamp(rels[j]) == Some(t);
    }
  }

  lemma BoundIsExtreme(props: Props, key: string, rels: seq<Interaction>, r: Interaction, at: Option<int>, earliest: bool)
    requires IsBound(at, Stamps(Members(rels, GroupOf(r))), earliest)
    requires if at.Some? then key in props && props[key] == Time(at.value) else key !in props
    ensures Extreme(props, key, rels, r, earliest)
  {
    hide Members, Stamps, Timed, TimeOf;
    var stamps := Stamps(Members(rels, GroupOf(r)));
    forall j | Timed(rels, r, j) ensures TimedValue(rels, r, j) in stamps {
      StampsAreTimes(rels, r, TimedValue(rels, r, j));
    }
    if at.Some? {
      StampsAreTimes(rels, r, at.value);
      assert key in props;
    }
  }

  function TimedValue(rels: seq<Interaction>, r: Interaction, j: int): int
    requires Timed(rels, r, j)
  {
    TimeOf(rels[j]).value
  }

  lemma BoundsAre(count: int, first: Option<int>, last: Option<int>, display: bool)
    ensures var props := Bounds(count, first, last) + (if display then DISPLAY_TRUE else DISPLAY_FALSE);
      && "count" in props && props["count"] == Num(count)
      && "_display_in_graph" in props && props["_display_in_graph"] == Flag(display)
      && (if first.Some? then "first_interaction_at" in props && props["first_interaction_at"] == Time(first.value)
          else "first_interaction_at" !in props)
      && (if last.Some? then "last_interaction_at" in props && props["last_interaction_at"] == Time(last.value)
          else "last_interaction_at" !in props)
      && props.Keys <= {"count", "_display_in_graph", "first_interaction_at", "last_interaction_at"}
  {
  }

  lemma AggregateSummarises(props: Props, rels: seq<Interaction>, r: Interaction, display: bool)
    requires Aggregates(props, Members(rels, GroupOf(r)), if display then DISPLAY_TRUE else DISPLAY_FALSE)
    ensures Summarises(props, rels, r, display)
  {
    hide Members, IsBound, Stamps, Extreme, HowMany, Bounds;
    var m := Members(rels, GroupOf(r));
    var first, last :| IsBound(first, Stamps(m), true) && IsBound(last, Stamps(m), false)
      && props == Bounds(|m|, first, last) + if display then DISPLAY_TRUE else DISPLAY_FALSE;
    BoundsAre(|m|, first, last, display);
    MembersAreAlike(rels, r);
    BoundIsExtreme(props, "first_interaction_at", rels, r, first, true);
    BoundIsExtreme(props, "last_interaction_at", rels, r, last, false);
  }

  /** Among the edges there is one from `src` to `dst`, it is the only one of its type, and it sums up the entries like `r`. */
  ghost predicate OnlyEdge(h: Graph, src: Node, typ: RelType, dst: Node, rels: seq<Interaction>, r: Interaction, display: bool) {
    exists i ::
      && i in h.edges && h.edges[i].src == src && h.edges[i].typ == typ && h.edges[i].dst == dst
      && Summarises(h.edges[i].props, rels, r, display)
      && forall j :: j in h.edges && h.edges[j].src == src && h.edges[j].typ == typ && h.edges[j].dst == dst ==> j == i
  }

  lemma SoleIsOnly(h: Graph, t: Triple, rels: seq<Interaction>, r: Interaction, display: bool)
    requires Sole(h, t, Members(rels, GroupOf(r)), if display then DISPLAY_TRUE else DISPLAY_FALSE)
    ensures OnlyEdge(h, t.src, t.typ, t.dst, rels, r, display)
  {
    hide Aggregates, Summarises, Members;
    var i :| i in h.edges && TripleOf(h.edges[i]) == t
      && Aggregates(h.edges[i].props, Members(rels, GroupOf(r)), if display then DISPLAY_TRUE else DISPLAY_FALSE)
      && forall j :: j in h.edges && TripleOf(h.edges[j]) == t ==> j == i;
    AggregateSummarises(h.edges[i].props, rels, r, display);
  }

  /** The reverse edge of a comment is COMMENTED_BY, that of a reaction REACTED_BY. */
  function BackType(t: RelType): RelType { if t == CommentedOn then CommentedBy else ReactedBy }

  /** Every entry is summed up by one edge to the page and one edge back. */
  lemma EntriesAreSummedUp(h: Graph, g: Graph, page: Node, rels: seq<Interaction>, r: Interaction)
    requires Interactions(rels) && SnapshotOf(h, g, page, rels) && r in rels
    ensures OnlyEdge(h, r.src, r.typ, page, rels, r, true)
    ensures OnlyEdge(h, page, BackType(r.typ), r.src, rels, r, false)
  {
    hide Sole, OnlyEdge, Members, InScope, WellFormed, Outside;
    var k := GroupOf(r);
    assert k in Groups(rels);
    SoleIsOnly(h, Forward(k, page), rels, r, true);
    SoleIsOnly(h, Backward(k, page), rels, r, false);
  }

  /** An edge that a snapshot with entries of these types does away with. */
  predicate Replaced(e: Edge, page: Node, rels: seq<Interaction>) {
    exists r :: r in rels && ((e.dst == page && e.typ == r.typ) || (e.src == page && e.typ == BackType(r.typ)))
  }

  lemma BackTypeIs(t: RelType, back: RelType)
    requires IsInteraction(t)
    ensures Reverse(t) == Some(back) <==> back == BackType(t)
  {
  }

  lemma ReplacedIsInScope(e: Edge, page: Node, rels: seq<Interaction>)
    requires Interactions(rels)
    ensures InScope(TripleOf(e), page, Types(rels)) <==> Replaced(e, page, rels)
  {
    forall r | r in rels ensures r.typ in Types(rels) && (Reverse(r.typ) == Some(e.typ) <==> e.typ == BackType(r.typ)) {
      BackTypeIs(r.typ, e.typ);
    }
    hide Reverse, BackType, IsInteraction;
    if InScope(TripleOf(e), page, Types(rels)) {
      InScopeIsReplaced(e, page, rels);
    }
  }

  lemma InScopeIsReplaced(e: Edge, page: Node, rels: seq<Interaction>)
    requires InScope(TripleOf(e), page, Types(rels))
    requires forall r :: r in rels ==> (Reverse(r.typ) == Some(e.typ) <==> e.typ == BackType(r.typ))
    ensures Replaced(e, page, rels)
  {
    hide Reverse, BackType;
    if e.typ in Types(rels) && e.dst == page {
      var r :| r in rels && r.typ == e.typ;
    } else {
      var x :| x in Types(rels) && Reverse(x) == Some(e.typ);
      var r :| r in rels && r.typ == x;
    }
  }

  /** The edge, or its reverse, of an entry. */
  predicate EdgeOfEntry(e: Edge, page: Node, r: Interaction) {
    || (e.src == r.src && e.typ == r.typ && e.dst == page)
    || (e.src == page && e.typ == BackType(r.typ) && e.dst == r.src)
  }

  lemma InsideIsOfEntry(h: Graph, page: Node, rels: seq<Interaction>, i: nat) returns (r: Interaction)
    requires Interactions(rels) && Inside(h, page, rels, Types(rels), Groups(rels))
    requires i in h.edges && InScope(TripleOf(h.edges[i]), page, Types(rels))
    ensures r in rels && EdgeOfEntry(h.edges[i], page, r)
  {
    hide InScope, Sole, Members, Types, EdgeOfEntry, TripleOf, Forward, Backward;
    var k :| k in Groups(rels) && (TripleOf(h.edges[i]) == Forward(k, page) || TripleOf(h.edges[i]) == Backward(k, page));
    hide Inside;
    r :| r in rels && GroupOf(r) == k;
    GroupEdgeIsOfEntry(h.edges[i], page, r);
  }

  lemma GroupEdgeIsOfEntry(e: Edge, page: Node, r: Interaction)
    requires IsInteraction(r.typ) && (TripleOf(e) == Forward(GroupOf(r), page) || TripleOf(e) == Backward(GroupOf(r), page))
    ensures EdgeOfEntry(e, page, r)
  {
    BackTypeIs(r.typ, BackType(r.typ));
    hide Reverse;
  }

  /**
   The whole effect on the edges: those of the entries' types at the page, either way, are
   gone but for the ones that sum up an entry; all others are untouched.
   */
  lemma SnapshotExactly(h: Graph, g: Graph, page: Node, rels: seq<Interaction>, i: nat)
    requires Interactions(rels) && SnapshotOf(h, g, page, rels)
    ensures i in h.edges && Replaced(h.edges[i], page, rels) ==> exists r :: r in rels && EdgeOfEntry(h.edges[i], page, r)
    ensures i in h.edges && !Replaced(h.edges[i], page, rels) ==> i in g.edges && g.edges[i] == h.edges[i]
    ensures i in g.edges && !Replaced(g.edges[i], page, rels) ==> i in h.edges && h.edges[i] == g.edges[i]
  {
    hide InScope, Replaced, Inside, WellFormed, EdgeOfEntry, TripleOf, Types, Groups, Ends;
    if i in h.edges {
      ReplacedIsInScope(h.edges[i], page, rels);
      if Replaced(h.edges[i], page, rels) {
        var r := InsideIsOfEntry(h, page, rels, i);
      }
    }
    if i in g.edges {
      ReplacedIsInScope(g.edges[i], page, rels);
    }
  }
}
