/**
 The property graph the connectors write to, and the two write helpers of
 src/connectors/neo4j_db/models.py that every other graph operation is built
 from: `merge_relationship` and the MERGE + SET of `merge_person`.

 A node is a label and an id.  Edges carry an identity (a number), so parallel
 edges between the same nodes are told apart, and a property map, because MERGE
 matches on the whole pattern and not on the type alone.
 */
module PropertyGraph {
  import opened Options

  datatype Value = Text(s: string) | Num(n: int) | Flag(b: bool) | Time(t: int)

  type Props = map<string, Value>

  datatype Node = Node(kind: string, id: string)

  datatype Edge = Edge(src: Node, typ: RelType, dst: Node, props: Props)

  datatype Triple = Triple(src: Node, typ: RelType, dst: Node)

  /** `emails` holds the `email` property of the Person nodes that have one. */
  datatype Graph = Graph(nodes: set<Node>, emails: map<string, string>, edges: map<nat, Edge>, next: nat)

  const EmptyGraph := Graph({}, map[], map[], 0)

  const DISPLAY := "_display_in_graph"

  /** Relationship types: the keys of DIRECTIONAL_RELATIONSHIPS, the reverse names it maps them to, and the rest. */
  datatype RelType =
    | ReportsTo | Manages | PartOf | InSprint | Blocks | DependsOn | Modifies | References
    | Includes | Targets | CreatedBy | ReviewedBy | RequestedReviewer | MergedBy | ChildOf
    | InSpace | Mentions | Modified | CommentedOn | ReactedTo
    | ManagedBy | Contains | BlockedBy | DependencyOf | ModifiedBy | ReferencedBy | IncludedIn
    | TargetedBy | Created | Reviewed | ReviewRequestedBy | Merged | ParentOf | MentionedIn
    | CommentedBy | ReactedBy
    | MapsTo | Other(name: string)

  /** DIRECTIONAL_RELATIONSHIPS: the reverse edge type written beside a directional edge. */
  function Reverse(t: RelType): Option<RelType> {
    match t
    case ReportsTo => Some(Manages)
    case Manages => Some(ManagedBy)
    case PartOf => Some(Contains)
    case InSprint => Some(Contains)
    case Blocks => Some(BlockedBy)
    case DependsOn => Some(DependencyOf)
    case Modifies => Some(ModifiedBy)
    case References => Some(ReferencedBy)
    case Includes => Some(IncludedIn)
    case Targets => Some(TargetedBy)
    case CreatedBy => Some(Created)
    case ReviewedBy => Some(Reviewed)
    case RequestedReviewer => Some(ReviewRequestedBy)
    case MergedBy => Some(Merged)
    case ChildOf => Some(ParentOf)
    case InSpace => Some(Contains)
    case Mentions => Some(MentionedIn)
    case Modified => Some(ModifiedBy)
    case CommentedOn => Some(CommentedBy)
    case ReactedTo => Some(ReactedBy)
    case _ => None
  }

  predicate Directional(t: RelType) { Reverse(t).Some? }

  // ---------------------------------------------------------------- Reading

  function PersonNode(id: string): Node { Node("Person", id) }

  predicate Live(g: Graph, person: string) { PersonNode(person) in g.nodes }

  function TripleOf(e: Edge): Triple { Triple(e.src, e.typ, e.dst) }

  ghost function Triples(g: Graph): set<Triple> { set i | i in g.edges :: TripleOf(g.edges[i]) }

  predicate Touches(t: Triple, n: Node) { t.src == n || t.dst == n }

  function Partner(t: Triple): Triple
    requires Directional(t.typ)
  {
    Triple(t.dst, Reverse(t.typ).value, t.src)
  }

  /** What the database itself guarantees: edges have both ends, only Persons carry an email. */
  ghost predicate WellFormed(g: Graph) {
    && (forall i :: i in g.edges ==> i < g.next && g.edges[i].src in g.nodes && g.edges[i].dst in g.nodes)
    && (forall p :: p in g.emails ==> Live(g, p))
  }

  /** The uniqueness constraint on Person.email. */
  ghost predicate UniqueEmails(g: Graph) {
    forall p, q :: p in g.emails && q in g.emails && g.emails[p] == g.emails[q] ==> p == q
  }

  // ---------------------------------------------------------------- Writing

  predicate Fits(e: Edge, src: Node, typ: RelType, dst: Node, pattern: Props) {
    && e.src == src && e.typ == typ && e.dst == dst
    && forall k :: k in pattern ==> k in e.props && e.props[k] == pattern[k]
  }

  /** MERGE (src)-[r:typ pattern]->(dst) SET r += assign. */
  function MergeEdge(g: Graph, src: Node, typ: RelType, dst: Node, pattern: Props, assign: Props): Graph {
    var hits := set i | i in g.edges && Fits(g.edges[i], src, typ, dst, pattern);
    if hits != {} then
      g.(edges := map i | i in g.edges ::
        if i in hits then g.edges[i].(props := g.edges[i].props + assign) else g.edges[i])
    else
      g.(edges := g.edges[g.next := Edge(src, typ, dst, pattern + assign)], next := g.next + 1)
  }

  /** One statement sent to the database. */
  datatype Write =
    | MergeNode(n: Node)
    | MergeRel(src: Node, typ: RelType, dst: Node, pattern: Props, assign: Props)
    | MergePerson(person: string, email: Option<string>)
    | DetachDelete(n: Node)
    | DeleteInto(typ: RelType, dst: Node)
    | DeleteFrom(src: Node, typ: RelType)

  function Apply(g: Graph, w: Write): Graph {
    match w
    case MergeNode(n) => g.(nodes := g.nodes + {n})
    case MergeRel(src, typ, dst, pattern, assign) =>
      MergeEdge(g.(nodes := g.nodes + {src, dst}), src, typ, dst, pattern, assign)
    case MergePerson(p, email) =>
      g.(nodes := g.nodes + {PersonNode(p)},
         emails := if email.Some? then g.emails[p := email.value] else g.emails)
    case DetachDelete(n) =>
      Graph(g.nodes - {n},
            if n.kind == "Person" then g.emails - {n.id} else g.emails,
            map i | i in g.edges && !Touches(TripleOf(g.edges[i]), n) :: g.edges[i],
            g.next)
    case DeleteInto(typ, dst) =>
      g.(edges := map i | i in g.edges && !(g.edges[i].typ == typ && g.edges[i].dst == dst) :: g.edges[i])
    case DeleteFrom(src, typ) =>
      g.(edges := map i | i in g.edges && !(g.edges[i].src == src && g.edges[i].typ == typ) :: g.edges[i])
  }

  function ApplyAll(g: Graph, ws: seq<Write>): Graph {
    if ws == [] then g else Apply(ApplyAll(g, ws[..|ws| - 1]), ws[|ws| - 1])
  }

  /** A statement the uniqueness constraint on Person.email rejects. */
  predicate Conflicts(g: Graph, w: Write) {
    w.MergePerson? && w.email.Some?
    && exists p :: p in g.emails && p != w.person && g.emails[p] == w.email.value
  }

  datatype Relationship = Relationship(typ: RelType, src: Node, dst: Node, props: Props, display: bool)

  /** The query parameter for `_display_in_graph` overrides a stored property of that name. */
  function Pattern(r: Relationship): Props {
    if DISPLAY in r.props then r.props[DISPLAY := Flag(r.display)] else r.props
  }

  /** The statements `merge_relationship` sends: the edge and, for a directional type, its reverse. */
  function RelationshipWrites(r: Relationship): (ws: seq<Write>)
    ensures 1 <= |ws| <= 2 && (|ws| == 2 <==> Directional(r.typ))
    ensures ws[0].MergeRel? && ws[0].src == r.src && ws[0].typ == r.typ && ws[0].dst == r.dst
    ensures |ws| == 2 ==>
      ws[1].MergeRel? && ws[1].src == r.dst && Some(ws[1].typ) == Reverse(r.typ) && ws[1].dst == r.src
    ensures forall w :: w in ws ==> w.MergeRel? && {w.src, w.dst} == {r.src, r.dst}
  {
    [MergeRel(r.src, r.typ, r.dst, Pattern(r), map[DISPLAY := Flag(r.display)])]
    + if Directional(r.typ)
      then [MergeRel(r.dst, Reverse(r.typ).value, r.src, Pattern(r), map[DISPLAY := Flag(false)])]
      else []
  }

  // ------------------------------------------------- Facts about statements

  lemma ApplyKeepsWellFormed(g: Graph, w: Write)
    requires WellFormed(g)
    ensures WellFormed(Apply(g, w))
  {
  }

  lemma {:induction false} ApplyAllKeepsWellFormed(g: Graph, ws: seq<Write>)
    requires WellFormed(g)
    ensures WellFormed(ApplyAll(g, ws))
  {
    if ws != [] {
      ApplyAllKeepsWellFormed(g, ws[..|ws| - 1]);
      ApplyKeepsWellFormed(ApplyAll(g, ws[..|ws| - 1]), ws[|ws| - 1]);
    }
  }

  lemma {:induction false} ApplyAllAppend(g: Graph, xs: seq<Write>, ys: seq<Write>)
    ensures ApplyAll(g, xs + ys) == ApplyAll(ApplyAll(g, xs), ys)
  {
    if ys == [] {
      assert xs + ys == xs;
    } else {
      assert (xs + ys)[..|xs + ys| - 1] == xs + ys[..|ys| - 1];
      ApplyAllAppend(g, xs, ys[..|ys| - 1]);
    }
  }

  /** No statement sent, nothing changed. */
  lemma NothingSent(g: Graph, ws: seq<Write>)
    ensures ApplyAll(g, ws[..0]) == g
  {
  }

  /** Writing `more` after `before` is known to have led to `mid`, a prefix at a time. */
  lemma Resume(g: Graph, before: seq<Write>, more: seq<Write>, done: nat)
    requires done <= |more|
    ensures ApplyAll(ApplyAll(g, before), more[..done]) == ApplyAll(g, (before + more)[..|before| + done])
  {
    ApplyAllAppend(g, before, more[..done]);
    assert (before + more)[..|before| + done] == before + more[..done];
  }

  lemma FirstSent(g: Graph, ws: seq<Write>)
    requires ws != []
    ensures ApplyAll(g, ws[..1]) == Apply(g, ws[0])
  {
    hide Apply;
    assert ws[..1][..0] == [];
    assert ApplyAll(g, []) == g;
  }

  /** The same within a longer plan. */
  lemma ResumeWithin(g: Graph, before: seq<Write>, more: seq<Write>, done: nat, plan: seq<Write>)
    requires done <= |more| && before + more <= plan
    ensures |before| + done <= |plan|
    ensures ApplyAll(ApplyAll(g, before), more[..done]) == ApplyAll(g, plan[..|before| + done])
    ensures done == |more| ==> plan[..|before| + done] == before + more
  {
    Resume(g, before, more, done);
    assert (before + more)[..|before| + done] == plan[..|before| + done];
  }

  /** Whatever the pattern, a MERGE adds its triple and loses none. */
  lemma MergeEdgeTriples(g: Graph, src: Node, typ: RelType, dst: Node, pattern: Props, assign: Props)
    requires WellFormed(g)
    ensures Triples(MergeEdge(g, src, typ, dst, pattern, assign)) == Triples(g) + {Triple(src, typ, dst)}
  {
    var h := MergeEdge(g, src, typ, dst, pattern, assign);
    if i :| i in g.edges && Fits(g.edges[i], src, typ, dst, pattern) {
      FittingEdgeKeepsTriples(g, src, typ, dst, pattern, assign, i);
    } else {
      assert g.next !in g.edges;
      hide Fits, WellFormed;
      EdgeAddsTriple(g, h, g.next, Edge(src, typ, dst, pattern + assign));
    }
  }

  lemma FittingEdgeKeepsTriples(g: Graph, src: Node, typ: RelType, dst: Node, pattern: Props, assign: Props, i: nat)
    requires i in g.edges && Fits(g.edges[i], src, typ, dst, pattern)
    ensures Triples(MergeEdge(g, src, typ, dst, pattern, assign)) == Triples(g)
    ensures Triple(src, typ, dst) in Triples(g)
  {
    var hits := set k | k in g.edges && Fits(g.edges[k], src, typ, dst, pattern);
    assert i in hits && TripleOf(g.edges[i]) == Triple(src, typ, dst);
    var h := MergeEdge(g, src, typ, dst, pattern, assign);
    assert forall k :: k in g.edges ==> TripleOf(h.edges[k]) == TripleOf(g.edges[k]);
    hide Fits, Triples;
    SameEdgesSameTriples(g, h);
    EdgeHasTriple(g, i);
  }

  lemma EdgeHasTriple(g: Graph, i: nat)
    requires i in g.edges
    ensures TripleOf(g.edges[i]) in Triples(g)
  {
  }

  lemma SameEdgesSameTriples(g: Graph, h: Graph)
    requires g.edges.Keys == h.edges.Keys && forall i :: i in g.edges ==> TripleOf(h.edges[i]) == TripleOf(g.edges[i])
    ensures Triples(h) == Triples(g)
  {
  }

  lemma EdgeAddsTriple(g: Graph, h: Graph, i: nat, e: Edge)
    requires i !in g.edges && h.edges == g.edges[i := e]
    ensures Triples(h) == Triples(g) + {TripleOf(e)}
  {
    forall t | t in Triples(g) ensures t in Triples(h) {
      var j :| j in g.edges && TripleOf(g.edges[j]) == t;
      assert j in h.edges && TripleOf(h.edges[j]) == t;
    }
    assert i in h.edges && TripleOf(h.edges[i]) == TripleOf(e);
  }

  /** Edges of another triple keep their identity and all their properties. */
  lemma MergeEdgeFrame(g: Graph, src: Node, typ: RelType, dst: Node, pattern: Props, assign: Props, i: nat)
    requires WellFormed(g)
    ensures var h := MergeEdge(g, src, typ, dst, pattern, assign);
      && (i in g.edges ==> i in h.edges && TripleOf(h.edges[i]) == TripleOf(g.edges[i]))
      && (i in h.edges && TripleOf(h.edges[i]) != Triple(src, typ, dst) ==> i in g.edges && h.edges[i] == g.edges[i])
  {
  }

  // ------------------------------------------------------- Partner closure

  /** Every directional edge outside `exempt` has its reverse edge. */
  ghost predicate PartnerClosed(ts: set<Triple>, exempt: set<RelType>) {
    forall t :: t in ts && Directional(t.typ) && t.typ !in exempt ==> Partner(t) in ts
  }

  /** The triples `merge_relationship` leaves behind for an edge. */
  function WithPartner(t: Triple): set<Triple> {
    if Directional(t.typ) then {t, Partner(t)} else {t}
  }

  lemma OwnReverse(t: RelType)
    ensures Reverse(t) != Some(t)
  {
  }

  lemma ManagesReverse()
    ensures Reverse(Manages) == Some(ManagedBy) && Reverse(ManagedBy).None? && Reverse(ReportsTo) == Some(Manages)
  {
  }

  /** The table from the side of the reverse types: which edges each of them mirrors. */
  lemma ReverseOfTypes(t: RelType)
    ensures Reverse(t) == Some(Contains) <==> t in {PartOf, InSprint, InSpace}
    ensures Reverse(t) == Some(ModifiedBy) <==> t in {Modifies, Modified}
    ensures Reverse(t) == Some(Manages) <==> t == ReportsTo
    ensures Reverse(t) == Some(ManagedBy) <==> t == Manages
    ensures Reverse(t) == Some(BlockedBy) <==> t == Blocks
    ensures Reverse(t) == Some(DependencyOf) <==> t == DependsOn
    ensures Reverse(t) == Some(ReferencedBy) <==> t == References
    ensures Reverse(t) == Some(IncludedIn) <==> t == Includes
    ensures Reverse(t) == Some(TargetedBy) <==> t == Targets
  {
  }

  lemma ReverseOfMoreTypes(t: RelType)
    ensures Reverse(t) == Some(Created) <==> t == CreatedBy
    ensures Reverse(t) == Some(Reviewed) <==> t == ReviewedBy
    ensures Reverse(t) == Some(ReviewRequestedBy) <==> t == RequestedReviewer
    ensures Reverse(t) == Some(Merged) <==> t == MergedBy
    ensures Reverse(t) == Some(ParentOf) <==> t == ChildOf
    ensures Reverse(t) == Some(MentionedIn) <==> t == Mentions
    ensures Reverse(t) == Some(CommentedBy) <==> t == CommentedOn
    ensures Reverse(t) == Some(ReactedBy) <==> t == ReactedTo
  {
  }

  /** There are no other reverse types. */
  lemma NoOtherReverse(t: RelType)
    ensures Reverse(t).Some? ==> Reverse(t).value in {Contains, ModifiedBy, Manages, ManagedBy, BlockedBy, DependencyOf,
      ReferencedBy, IncludedIn, TargetedBy, Created, Reviewed, ReviewRequestedBy, Merged, ParentOf, MentionedIn, CommentedBy, ReactedBy}
  {
  }

  /** Only MANAGES is both a directional type and the reverse of one. */
  lemma ReverseTypes(t: RelType)
    ensures Directional(t) ==> (Directional(Reverse(t).value) <==> t == ReportsTo) && (t == ReportsTo ==> Reverse(t).value == Manages)
  {
  }

  lemma RelationshipTriples(g: Graph, r: Relationship)
    requires WellFormed(g)
    ensures Triples(ApplyAll(g, RelationshipWrites(r))) == Triples(g) + WithPartner(Triple(r.src, r.typ, r.dst))
  {
    var ws := RelationshipWrites(r);
    var g0 := g.(nodes := g.nodes + {r.src, r.dst});
    MergeEdgeTriples(g0, r.src, r.typ, r.dst, ws[0].pattern, ws[0].assign);
    assert ApplyAll(g, ws[..0]) == g;
    assert ws[..1][..0] == [];
    var g1 := ApplyAll(g, ws[..1]);
    assert g1 == Apply(g, ws[0]);
    assert Triples(g0) == Triples(g);
    if |ws| == 2 {
      ApplyKeepsWellFormed(g, ws[0]);
      var g2 := g1.(nodes := g1.nodes + {r.dst, r.src});
      assert Triples(g2) == Triples(g1);
      MergeEdgeTriples(g2, r.dst, Reverse(r.typ).value, r.src, ws[1].pattern, ws[1].assign);
    } else {
      assert ws[..1] == ws;
    }
  }

  lemma AddingKeepsPartners(ts: set<Triple>, t: Triple)
    ensures PartnerClosed(ts, {Manages}) ==> PartnerClosed(ts + WithPartner(t), {Manages})
    ensures PartnerClosed(ts, {}) ==>
      (PartnerClosed(ts + WithPartner(t), {}) <==> (t.typ == ReportsTo ==> Triple(t.src, ManagedBy, t.dst) in ts))
  {
    hide Reverse;
    ReverseTypes(t.typ);
    assert Directional(t.typ) ==> WithPartner(t) == {t, Partner(t)} && !(t.typ == Manages && Partner(t).typ == Manages) by {
      OwnReverse(t.typ);
    }
    ManagesReverse();
    if t.typ == ReportsTo {
      assert Partner(Partner(t)) == Triple(t.src, ManagedBy, t.dst);
    }
  }

  /**
   `merge_relationship` keeps every directional edge paired with its reverse,
   MANAGES excepted.  With MANAGES counted it does so exactly when it is not
   given a REPORTS_TO edge whose MANAGED_BY counterpart is missing: the MANAGES
   edge it then writes as a reverse gets no reverse of its own.
   */
  lemma MergeRelationshipKeepsPartners(g: Graph, r: Relationship)
    requires WellFormed(g)
    ensures PartnerClosed(Triples(g), {Manages}) ==>
      PartnerClosed(Triples(ApplyAll(g, RelationshipWrites(r))), {Manages})
    ensures PartnerClosed(Triples(g), {}) ==>
      (PartnerClosed(Triples(ApplyAll(g, RelationshipWrites(r))), {}) <==>
         (r.typ == ReportsTo ==> Triple(r.src, ManagedBy, r.dst) in Triples(g)))
  {
    RelationshipTriples(g, r);
    AddingKeepsPartners(Triples(g), Triple(r.src, r.typ, r.dst));
  }

  // -------------------------------------------------------------- Properties

  /** The properties of `p`, the display flag apart, are in `q`. */
  predicate Keeps(p: Props, q: Props) { forall k :: k in p && k != DISPLAY ==> k in q && q[k] == p[k] }

  /** Equal but for the display flag. */
  predicate SameData(p: Props, q: Props) { Keeps(p, q) && Keeps(q, p) }

  ghost predicate HasEdge(g: Graph, t: Triple, p: Props) {
    exists i :: i in g.edges && TripleOf(g.edges[i]) == t && Keeps(p, g.edges[i].props)
  }

  /** A statement of `merge_relationship`: it assigns nothing but the display flag. */
  predicate AssignsDisplay(w: Write) { w.MergeRel? && w.assign.Keys <= {DISPLAY} }

  lemma SameAfterDisplay(p: Props, assign: Props)
    requires assign.Keys <= {DISPLAY}
    ensures SameData(p, p + assign) && SameData(p, p)
  {
  }

  /** A MERGE that fits an edge changes nothing but display flags. */
  lemma HitKeepsData(g: Graph, src: Node, typ: RelType, dst: Node, pattern: Props, assign: Props, hit: nat, i: nat)
    requires assign.Keys <= {DISPLAY} && hit in g.edges && Fits(g.edges[hit], src, typ, dst, pattern)
    ensures var h := MergeEdge(g, src, typ, dst, pattern, assign);
      && h.edges.Keys == g.edges.Keys
      && (i in g.edges ==> TripleOf(h.edges[i]) == TripleOf(g.edges[i]) && SameData(g.edges[i].props, h.edges[i].props))
  {
    hide Fits;
    var hits := set k | k in g.edges && Fits(g.edges[k], src, typ, dst, pattern);
    assert hit in hits;
    if i in g.edges {
      SameAfterDisplay(g.edges[i].props, assign);
    }
    hide SameData;
  }

  /** One that fits none adds an edge with its properties. */
  lemma MissAddsEdge(g: Graph, src: Node, typ: RelType, dst: Node, pattern: Props, assign: Props)
    requires WellFormed(g) && assign.Keys <= {DISPLAY}
    requires forall k :: k in g.edges ==> !Fits(g.edges[k], src, typ, dst, pattern)
    ensures var h := MergeEdge(g, src, typ, dst, pattern, assign);
      && g.next !in g.edges && h.edges == g.edges[g.next := Edge(src, typ, dst, pattern + assign)]
      && SameData(pattern, pattern + assign)
  {
    hide Fits;
    SameAfterDisplay(pattern, assign);
    hide SameData;
  }

  lemma MergeKeepsData(g: Graph, src: Node, typ: RelType, dst: Node, pattern: Props, assign: Props, i: nat)
    requires WellFormed(g) && assign.Keys <= {DISPLAY}
    ensures var h := MergeEdge(g, src, typ, dst, pattern, assign);
      && (i in g.edges ==>
            i in h.edges && TripleOf(h.edges[i]) == TripleOf(g.edges[i]) && SameData(g.edges[i].props, h.edges[i].props))
      && (i in h.edges && i !in g.edges ==>
            TripleOf(h.edges[i]) == Triple(src, typ, dst) && SameData(pattern, h.edges[i].props))
  {
    hide MergeEdge, Fits, SameData, WellFormed;
    if hit :| hit in g.edges && Fits(g.edges[hit], src, typ, dst, pattern) {
      HitKeepsData(g, src, typ, dst, pattern, assign, hit, i);
    } else {
      MissAddsEdge(g, src, typ, dst, pattern, assign);
      if i in g.edges {
        SameAfterDisplay(g.edges[i].props, map[]);
      }
    }
  }

  lemma MergeHasEdge(g: Graph, src: Node, typ: RelType, dst: Node, pattern: Props, assign: Props)
    requires WellFormed(g) && assign.Keys <= {DISPLAY}
    ensures HasEdge(MergeEdge(g, src, typ, dst, pattern, assign), Triple(src, typ, dst), pattern)
  {
    var h := MergeEdge(g, src, typ, dst, pattern, assign);
    if i :| i in g.edges && Fits(g.edges[i], src, typ, dst, pattern) {
      hide MergeEdge;
      HitKeepsData(g, src, typ, dst, pattern, assign, i, i);
      assert Keeps(pattern, h.edges[i].props);
    } else {
      hide MergeEdge, Fits;
      MissAddsEdge(g, src, typ, dst, pattern, assign);
      assert TripleOf(h.edges[g.next]) == Triple(src, typ, dst);
    }
  }

  lemma ApplyKeepsEdge(g: Graph, w: Write, t: Triple, p: Props)
    requires WellFormed(g) && AssignsDisplay(w) && HasEdge(g, t, p)
    ensures HasEdge(Apply(g, w), t, p)
  {
    var i :| i in g.edges && TripleOf(g.edges[i]) == t && Keeps(p, g.edges[i].props);
    MergeKeepsData(g.(nodes := g.nodes + {w.src, w.dst}), w.src, w.typ, w.dst, w.pattern, w.assign, i);
    hide MergeEdge;
    var h := Apply(g, w);
    assert i in h.edges && Keeps(p, h.edges[i].props);
  }

  lemma ApplyHasEdge(g: Graph, w: Write)
    requires WellFormed(g) && AssignsDisplay(w)
    ensures HasEdge(Apply(g, w), Triple(w.src, w.typ, w.dst), w.pattern)
  {
    MergeHasEdge(g.(nodes := g.nodes + {w.src, w.dst}), w.src, w.typ, w.dst, w.pattern, w.assign);
  }

  lemma {:induction false} ApplyAllKeepsEdge(g: Graph, ws: seq<Write>, t: Triple, p: Props)
    requires WellFormed(g) && HasEdge(g, t, p) && forall w :: w in ws ==> AssignsDisplay(w)
    ensures HasEdge(ApplyAll(g, ws), t, p)
  {
    hide Apply, HasEdge, WellFormed;
    if ws != [] {
      ApplyAllKeepsEdge(g, ws[..|ws| - 1], t, p);
      ApplyAllKeepsWellFormed(g, ws[..|ws| - 1]);
      ApplyKeepsEdge(ApplyAll(g, ws[..|ws| - 1]), ws[|ws| - 1], t, p);
    }
  }

  /** Every edge written is there in the end, with its properties. */
  lemma {:induction false} ApplyAllHasEdges(g: Graph, ws: seq<Write>, w: Write)
    requires WellFormed(g) && (forall x :: x in ws ==> AssignsDisplay(x)) && w in ws && AssignsDisplay(w)
    ensures HasEdge(ApplyAll(g, ws), Triple(w.src, w.typ, w.dst), w.pattern)
  {
    hide Apply, HasEdge, WellFormed;
    var n := |ws| - 1;
    ApplyAllKeepsWellFormed(g, ws[..n]);
    if w in ws[..n] {
      ApplyAllHasEdges(g, ws[..n], w);
      ApplyKeepsEdge(ApplyAll(g, ws[..n]), ws[n], Triple(w.src, w.typ, w.dst), w.pattern);
    } else {
      assert w == ws[n];
      ApplyHasEdge(ApplyAll(g, ws[..n]), w);
    }
  }

  /** Edge `i` was there before with the same data, or has the data of one of the statements. */
  ghost predicate ComesFrom(g: Graph, h: Graph, ws: seq<Write>, i: nat)
    requires i in h.edges && forall w :: w in ws ==> AssignsDisplay(w)
  {
    || (i in g.edges && TripleOf(h.edges[i]) == TripleOf(g.edges[i]) && SameData(g.edges[i].props, h.edges[i].props))
    || exists w :: w in ws && AssignsDisplay(w) && TripleOf(h.edges[i]) == Triple(w.src, w.typ, w.dst) && SameData(w.pattern, h.edges[i].props)
  }

  lemma SameThrough(g: Graph, m: Graph, h: Graph, init: seq<Write>, ws: seq<Write>, i: nat)
    requires (forall w :: w in ws ==> AssignsDisplay(w)) && forall w :: w in init ==> w in ws
    requires i in m.edges && ComesFrom(g, m, init, i)
    requires i in h.edges && TripleOf(h.edges[i]) == TripleOf(m.edges[i]) && SameData(m.edges[i].props, h.edges[i].props)
    ensures ComesFrom(g, h, ws, i)
  {
  }

  /** No edge appears that was neither there nor written. */
  lemma {:induction false} ApplyAllInventsNothing(g: Graph, ws: seq<Write>, i: nat)
    requires WellFormed(g) && (forall w :: w in ws ==> AssignsDisplay(w)) && i in ApplyAll(g, ws).edges
    ensures ComesFrom(g, ApplyAll(g, ws), ws, i)
  {
    if ws == [] {
      SameAfterDisplay(g.edges[i].props, map[]);
    } else {
      var init, w := ws[..|ws| - 1], ws[|ws| - 1];
      assert w in ws && forall x :: x in init ==> x in ws;
      var m := ApplyAll(g, init);
      ApplyAllKeepsWellFormed(g, init);
      MergeKeepsData(m.(nodes := m.nodes + {w.src, w.dst}), w.src, w.typ, w.dst, w.pattern, w.assign, i);
      hide MergeEdge, WellFormed, SameData, AssignsDisplay;
      if i in m.edges {
        ApplyAllInventsNothing(g, init, i);
        SameThrough(g, m, ApplyAll(g, ws), init, ws, i);
      }
    }
  }

  /**
   What `merge_relationship` leaves of its properties: on the edge, and for a directional
   type on the reverse edge, all of them; the edge is displayed as asked, the reverse
   edge never.
   */
  lemma RelationshipKeepsProperties(g: Graph, r: Relationship)
    requires WellFormed(g)
    ensures var h := ApplyAll(g, RelationshipWrites(r));
      && HasEdge(h, Triple(r.src, r.typ, r.dst), r.props)
      && (Directional(r.typ) ==> HasEdge(h, Triple(r.dst, Reverse(r.typ).value, r.src), r.props))
  {
    var ws := RelationshipWrites(r);
    RelationshipPatterns(r);
    hide RelationshipWrites, HasEdge, ApplyAll, WellFormed, Reverse;
    ApplyAllHasEdges(g, ws, ws[0]);
    KeepsThrough(ApplyAll(g, ws), Triple(r.src, r.typ, r.dst), r.props, ws[0].pattern);
    if |ws| == 2 {
      ApplyAllHasEdges(g, ws, ws[1]);
      KeepsThrough(ApplyAll(g, ws), Triple(r.dst, Reverse(r.typ).value, r.src), r.props, ws[1].pattern);
    }
  }

  lemma KeepsThrough(g: Graph, t: Triple, p: Props, q: Props)
    requires HasEdge(g, t, q) && Keeps(p, q)
    ensures HasEdge(g, t, p)
  {
    var i :| i in g.edges && TripleOf(g.edges[i]) == t && Keeps(q, g.edges[i].props);
    assert Keeps(p, g.edges[i].props);
  }

  /** Both statements carry the relationship's data, and set the display flag. */
  lemma RelationshipPatterns(r: Relationship)
    ensures var ws := RelationshipWrites(r);
      && (forall w :: w in ws ==> AssignsDisplay(w) && SameData(r.props, w.pattern))
      && ws[0].assign == map["_display_in_graph" := Flag(r.display)]
      && (|ws| == 2 ==> ws[1].assign == map["_display_in_graph" := Flag(false)])
  {
  }

  /** A statement that adds edge `i` writes it with exactly its pattern and its display flag. */
  lemma AddedEdge(g: Graph, w: Write, i: nat)
    requires WellFormed(g) && AssignsDisplay(w) && i in Apply(g, w).edges && i !in g.edges
    ensures Apply(g, w).edges[i] == Edge(w.src, w.typ, w.dst, w.pattern + w.assign) && SameData(w.pattern, w.pattern + w.assign)
  {
    SameAfterDisplay(w.pattern, w.assign);
    hide Fits;
  }

  /** On a fresh edge the data is exactly that given, and the display flag as asked; on a fresh reverse edge it is off. */
  lemma FreshRelationship(g: Graph, r: Relationship, i: nat)
    requires WellFormed(g) && i in ApplyAll(g, RelationshipWrites(r)).edges && i !in g.edges
    ensures var e := ApplyAll(g, RelationshipWrites(r)).edges[i];
      && SameData(r.props, e.props) && "_display_in_graph" in e.props
      && (TripleOf(e) == Triple(r.src, r.typ, r.dst) ==> e.props["_display_in_graph"] == Flag(r.display))
      && (TripleOf(e) != Triple(r.src, r.typ, r.dst) ==> e.props["_display_in_graph"] == Flag(false))
  {
    var ws := RelationshipWrites(r);
    OwnReverse(r.typ);
    RelationshipPatterns(r);
    NothingSent(g, ws);
    FirstSent(g, ws);
    ApplyKeepsWellFormed(g, ws[0]);
    if |ws| == 2 {
      assert ws[..1] == [ws[0]] && ApplyAll(g, ws) == Apply(Apply(g, ws[0]), ws[1]);
      hide Reverse, RelationshipWrites, ApplyAll, Apply, WellFormed, SameData;
      SecondFresh(g, r, ws, i);
    } else {
      assert ws[..1] == ws;
      hide Reverse, RelationshipWrites, ApplyAll, Apply, WellFormed, SameData;
      AddedEdge(g, ws[0], i);
      SameDataThrough(r.props, ws[0].pattern, ws[0].pattern + ws[0].assign);
    }
  }

  lemma SecondFresh(g: Graph, r: Relationship, ws: seq<Write>, i: nat)
    requires WellFormed(g) && |ws| == 2 && AssignsDisplay(ws[0]) && AssignsDisplay(ws[1]) && WellFormed(Apply(g, ws[0]))
    requires SameData(r.props, ws[0].pattern) && SameData(r.props, ws[1].pattern)
    requires ws[0].assign == map["_display_in_graph" := Flag(r.display)] && ws[1].assign == map["_display_in_graph" := Flag(false)]
    requires Triple(ws[0].src, ws[0].typ, ws[0].dst) == Triple(r.src, r.typ, r.dst) && ws[1].typ != r.typ
    requires i !in g.edges && i in Apply(Apply(g, ws[0]), ws[1]).edges
    ensures var e := Apply(Apply(g, ws[0]), ws[1]).edges[i];
      && SameData(r.props, e.props) && "_display_in_graph" in e.props
      && (TripleOf(e) == Triple(r.src, r.typ, r.dst) ==> e.props["_display_in_graph"] == Flag(r.display))
      && (TripleOf(e) != Triple(r.src, r.typ, r.dst) ==> e.props["_display_in_graph"] == Flag(false))
  {
    var g1 := Apply(g, ws[0]);
    hide Apply, WellFormed, SameData;
    if i in g1.edges {
      AddedEdge(g, ws[0], i);
      OtherTripleStays(g1, ws[1], i);
      SameDataThrough(r.props, ws[0].pattern, ws[0].pattern + ws[0].assign);
    } else {
      AddedEdge(g1, ws[1], i);
      SameDataThrough(r.props, ws[1].pattern, ws[1].pattern + ws[1].assign);
    }
  }

  lemma OtherTripleStays(g: Graph, w: Write, i: nat)
    requires WellFormed(g) && w.MergeRel? && i in g.edges && TripleOf(g.edges[i]) != Triple(w.src, w.typ, w.dst)
    ensures i in Apply(g, w).edges && Apply(g, w).edges[i] == g.edges[i]
  {
    MergeEdgeFrame(g.(nodes := g.nodes + {w.src, w.dst}), w.src, w.typ, w.dst, w.pattern, w.assign, i);
  }

  lemma SameDataThrough(p: Props, q: Props, r: Props)
    requires SameData(p, q) && SameData(q, r)
    ensures SameData(p, r)
  {
  }

  // ---------------------------------------------------------------- Queries

  /** A query result: the rows of `want` once each, in an order the database chooses. */
  ghost predicate Lists<T(!new)>(rows: seq<T>, want: set<T>) {
    && (forall i :: i in rows <==> i in want)
    && (forall j, k :: 0 <= j < k < |rows| ==> rows[j] != rows[k])
  }

  method Query<T(==,!new)>(want: set<T>) returns (rows: seq<T>)
    ensures Lists(rows, want)
  {
    rows := [];
    var rest := want;
    while rest != {}
      invariant rest <= want
      invariant Lists(rows, want - rest)
      decreases rest
    {
      var i :| i in rest;
      rows, rest := rows + [i], rest - {i};
    }
    assert want - rest == want;
  }

  // ---------------------------------------------------------------- Session

  /**
   An open database session.  Any statement may fail, in which case it has no
   effect and the driver raises; a statement the uniqueness constraint rejects
   always fails.
   */
  class Session {
    var graph: Graph

    constructor (g: Graph)
      ensures graph == g
    {
      graph := g;
    }

    method Run(w: Write) returns (ok: bool)
      modifies this
      ensures graph == if ok then Apply(old(graph), w) else old(graph)
      ensures ok ==> !Conflicts(old(graph), w)
    {
      ok := *;
      if Conflicts(graph, w) { ok := false; }
      if ok { graph := Apply(graph, w); }
    }

    /** `merge_relationship`; `done` statements took effect before it returned or raised. */
    method MergeRelationship(r: Relationship) returns (ok: bool, ghost done: nat)
      modifies this
      ensures done <= |RelationshipWrites(r)|
      ensures ok <==> done == |RelationshipWrites(r)|
      ensures graph == ApplyAll(old(graph), RelationshipWrites(r)[..done])
    {
      ghost var ws := RelationshipWrites(r);
      assert ws[..0] == [];
      done := 0;
      ok := Run(MergeRel(r.src, r.typ, r.dst, Pattern(r), map[DISPLAY := Flag(r.display)]));
      if !ok { return; }
      done := 1;
      assert ws[..1][..0] == [] && ws[..1][0] == ws[0];
      assert graph == ApplyAll(old(graph), ws[..1]);
      if Directional(r.typ) {
        assert ws[..2][..1] == ws[..1] && ws[..2][1] == ws[1];
        ok := Run(MergeRel(r.dst, Reverse(r.typ).value, r.src, Pattern(r), map[DISPLAY := Flag(false)]));
        done := if ok then 2 else 1;
      }
    }
  }
}
