/**
 Folding one Person node into another: `rehome_person` of
 src/connectors/commons/person_merge.py.  All edges of the stale node are
 written again on the canonical node, one statement at a time, and then the
 stale node is deleted with whatever still hangs on it.
 */
module PersonMerge {
  import opened PropertyGraph

  function Outgoing(g: Graph, n: Node): set<nat> { set i | i in g.edges && g.edges[i].src == n }

  function Incoming(g: Graph, n: Node): set<nat> { set i | i in g.edges && g.edges[i].dst == n }

  /** The relationship written for one row; the stale end becomes the canonical Person. */
  function Moved(e: Edge, canonical: string, outgoing: bool): Relationship {
    if outgoing then Relationship(e.typ, PersonNode(canonical), e.dst, e.props, true)
    else Relationship(e.typ, e.src, PersonNode(canonical), e.props, true)
  }

  ghost predicate Rows(g: Graph, rows: seq<nat>) { forall i :: i in rows ==> i in g.edges }

  ghost function MoveWrites(g: Graph, rows: seq<nat>, canonical: string, outgoing: bool): seq<Write>
    requires Rows(g, rows)
  {
    if rows == [] then []
    else
      MoveWrites(g, rows[..|rows| - 1], canonical, outgoing)
      + RelationshipWrites(Moved(g.edges[rows[|rows| - 1]], canonical, outgoing))
  }

  /** Every statement of the fold, in order, given the rows the two queries returned. */
  ghost function RehomePlan(g: Graph, stale: string, canonical: string, out: seq<nat>, inn: seq<nat>): seq<Write>
    requires Rows(g, out) && Rows(g, inn)
  {
    if stale == canonical then []
    else
      MoveWrites(g, out, canonical, true) + MoveWrites(g, inn, canonical, false)
      + [DetachDelete(PersonNode(stale))]
  }

  // ------------------------------------------------------------ The method

  lemma MoveWritesStep(g: Graph, rows: seq<nat>, k: nat, canonical: string, outgoing: bool)
    requires Rows(g, rows) && k < |rows|
    ensures Rows(g, rows[..k]) && Rows(g, rows[..k + 1])
    ensures MoveWrites(g, rows[..k + 1], canonical, outgoing) ==
      MoveWrites(g, rows[..k], canonical, outgoing)
      + RelationshipWrites(Moved(g.edges[rows[k]], canonical, outgoing))
  {
    assert rows[..k + 1][..k] == rows[..k];
  }

  lemma MoveNothing(g: Graph, canonical: string, outgoing: bool, rows: seq<nat>, h: Graph)
    requires Rows(g, rows)
    ensures MoveWrites(g, rows[..0], canonical, outgoing) == []
    ensures ApplyAll(h, MoveWrites(g, rows, canonical, outgoing)[..0]) == h
  {
  }

  /** One of the two row loops; `done` statements of it took effect. */
  method MoveRows(s: Session, g: Graph, rows: seq<nat>, canonical: string, outgoing: bool)
    returns (ok: bool, ghost done: nat)
    requires Rows(g, rows)
    modifies s
    ensures done <= |MoveWrites(g, rows, canonical, outgoing)|
    ensures ok <==> done == |MoveWrites(g, rows, canonical, outgoing)|
    ensures s.graph == ApplyAll(old(s.graph), MoveWrites(g, rows, canonical, outgoing)[..done])
  {
    hide ApplyAll, Apply, MoveWrites, RelationshipWrites;
    ok, done := true, 0;
    MoveNothing(g, canonical, outgoing, rows, s.graph);
    var k := 0;
    ghost var step := 0;
    while ok && k < |rows|
      invariant k <= |rows| && done <= |MoveWrites(g, rows, canonical, outgoing)|
      invariant if ok then Moves(g, rows, k, canonical, outgoing) == done else done < |MoveWrites(g, rows, canonical, outgoing)|
      invariant s.graph == ApplyAll(old(s.graph), MoveWrites(g, rows, canonical, outgoing)[..done])
      decreases |rows| - k, ok
    {
      ok, step := s.MergeRelationship(Moved(g.edges[rows[k]], canonical, outgoing));
      MoveResume(g, rows, k, canonical, outgoing, old(s.graph), step);
      done := done + step;
      if ok { k := k + 1; }
    }
    assert rows[..|rows|] == rows;
  }

  /** How many statements the first `k` rows take. */
  ghost function Moves(g: Graph, rows: seq<nat>, k: nat, canonical: string, outgoing: bool): nat
    requires Rows(g, rows) && k <= |rows|
  {
    |MoveWrites(g, rows[..k], canonical, outgoing)|
  }

  lemma MoveResume(g: Graph, rows: seq<nat>, k: nat, canonical: string, outgoing: bool, h: Graph, step: nat)
    requires Rows(g, rows) && k < |rows|
    requires step <= |RelationshipWrites(Moved(g.edges[rows[k]], canonical, outgoing))|
    ensures var plan, done := MoveWrites(g, rows, canonical, outgoing), Moves(g, rows, k, canonical, outgoing);
      var ws := RelationshipWrites(Moved(g.edges[rows[k]], canonical, outgoing));
      && done + |ws| == Moves(g, rows, k + 1, canonical, outgoing) <= |plan|
      && ApplyAll(ApplyAll(h, plan[..done]), ws[..step]) == ApplyAll(h, plan[..done + step])
  {
    hide ApplyAll, Apply, MoveWrites, RelationshipWrites;
    MoveWritesStep(g, rows, k, canonical, outgoing);
    MoveWritesPrefix(g, rows, k + 1, canonical, outgoing);
    var before := MoveWrites(g, rows[..k], canonical, outgoing);
    assert before == MoveWrites(g, rows, canonical, outgoing)[..|before|];
    ResumeWithin(h, MoveWrites(g, rows[..k], canonical, outgoing),
      RelationshipWrites(Moved(g.edges[rows[k]], canonical, outgoing)), step, MoveWrites(g, rows, canonical, outgoing));
  }

  lemma {:induction false} MoveWritesPrefix(g: Graph, rows: seq<nat>, k: nat, canonical: string, outgoing: bool)
    requires Rows(g, rows) && k <= |rows|
    ensures Rows(g, rows[..k])
    ensures MoveWrites(g, rows[..k], canonical, outgoing) <= MoveWrites(g, rows, canonical, outgoing)
    decreases |rows| - k
  {
    if k < |rows| {
      MoveWritesStep(g, rows, k, canonical, outgoing);
      MoveWritesPrefix(g, rows, k + 1, canonical, outgoing);
    } else {
      assert rows[..k] == rows;
    }
  }

  /** `rehome_person`: `done` statements of the plan took effect before it returned or raised. */
  method RehomePerson(s: Session, stale: string, canonical: string)
    returns (ok: bool, ghost done: nat, ghost out: seq<nat>, ghost inn: seq<nat>)
    modifies s
    ensures Lists(out, Outgoing(old(s.graph), PersonNode(stale)))
    ensures Lists(inn, Incoming(old(s.graph), PersonNode(stale)))
    ensures var plan := RehomePlan(old(s.graph), stale, canonical, out, inn);
      done <= |plan| && (ok <==> done == |plan|) && s.graph == ApplyAll(old(s.graph), plan[..done])
  {
    hide ApplyAll, Apply, MoveWrites;
    var g := s.graph;
    var outgoing := Query(Outgoing(g, PersonNode(stale)));
    var incoming := Query(Incoming(g, PersonNode(stale)));
    out, inn := outgoing, incoming;
    if stale == canonical {
      NothingSent(g, []);
      return true, 0, out, inn;
    }
    ok, done := MoveRows(s, g, outgoing, canonical, true);
    PlanFirst(g, stale, canonical, out, inn, done);
    if !ok { return; }
    ghost var step;
    ok, step := MoveRows(s, g, incoming, canonical, false);
    PlanSecond(g, stale, canonical, out, inn, step);
    done := done + step;
    if !ok { return; }
    ok := s.Run(DetachDelete(PersonNode(stale)));
    PlanLast(g, stale, canonical, out, inn);
    if ok { done := done + 1; }
  }

  lemma PlanFirst(g: Graph, stale: string, canonical: string, out: seq<nat>, inn: seq<nat>, done: nat)
    requires Rows(g, out) && Rows(g, inn) && stale != canonical && done <= |MoveWrites(g, out, canonical, true)|
    ensures MoveWrites(g, out, canonical, true)[..done] == RehomePlan(g, stale, canonical, out, inn)[..done]
    ensures |RehomePlan(g, stale, canonical, out, inn)|
      == |MoveWrites(g, out, canonical, true)| + |MoveWrites(g, inn, canonical, false)| + 1
  {
    hide MoveWrites;
  }

  lemma PlanSecond(g: Graph, stale: string, canonical: string, out: seq<nat>, inn: seq<nat>, step: nat)
    requires Rows(g, out) && Rows(g, inn) && stale != canonical && step <= |MoveWrites(g, inn, canonical, false)|
    ensures var plan, done := RehomePlan(g, stale, canonical, out, inn), |MoveWrites(g, out, canonical, true)|;
      done + step <= |plan|
      && ApplyAll(ApplyAll(g, plan[..done]), MoveWrites(g, inn, canonical, false)[..step]) == ApplyAll(g, plan[..done + step])
  {
    hide ApplyAll, Apply, MoveWrites;
    var first := MoveWrites(g, out, canonical, true);
    assert first == RehomePlan(g, stale, canonical, out, inn)[..|first|];
    ResumeWithin(g, first, MoveWrites(g, inn, canonical, false), step, RehomePlan(g, stale, canonical, out, inn));
  }

  lemma PlanLast(g: Graph, stale: string, canonical: string, out: seq<nat>, inn: seq<nat>)
    requires Rows(g, out) && Rows(g, inn) && stale != canonical
    ensures var plan := RehomePlan(g, stale, canonical, out, inn);
      Apply(ApplyAll(g, plan[..|plan| - 1]), DetachDelete(PersonNode(stale))) == ApplyAll(g, plan[..|plan|])
  {
    hide Apply, MoveWrites;
    var plan := RehomePlan(g, stale, canonical, out, inn);
    assert plan[..|plan|] == plan;
  }

  // ---------------------------------------------------------- Conservation

  function Rename(t: Triple, stale: Node, canonical: Node): Triple {
    Triple(if t.src == stale then canonical else t.src, t.typ, if t.dst == stale then canonical else t.dst)
  }

  predicate SelfLoop(t: Triple) { t.src == t.dst }

  ghost function MovedTriples(g: Graph, rows: seq<nat>, canonical: string, outgoing: bool): set<Triple>
    requires Rows(g, rows)
  {
    set i, t | i in rows && t in WithPartner(MovedTriple(g.edges[i], canonical, outgoing)) :: t
  }

  function MovedTriple(e: Edge, canonical: string, outgoing: bool): Triple {
    var r := Moved(e, canonical, outgoing); Triple(r.src, r.typ, r.dst)
  }

  lemma {:induction false} MoveWritesTriples(g: Graph, h: Graph, rows: seq<nat>, canonical: string, outgoing: bool)
    requires Rows(g, rows) && WellFormed(h)
    ensures Triples(ApplyAll(h, MoveWrites(g, rows, canonical, outgoing))) ==
      Triples(h) + MovedTriples(g, rows, canonical, outgoing)
  {
    if rows != [] {
      var n := |rows| - 1;
      var before := MoveWrites(g, rows[..n], canonical, outgoing);
      var r := Moved(g.edges[rows[n]], canonical, outgoing);
      MoveWritesTriples(g, h, rows[..n], canonical, outgoing);
      ApplyAllAppend(h, before, RelationshipWrites(r));
      ApplyAllKeepsWellFormed(h, before);
      RelationshipTriples(ApplyAll(h, before), r);
      MovedTriplesStep(g, rows, canonical, outgoing);
    }
  }

  lemma MovedTriplesStep(g: Graph, rows: seq<nat>, canonical: string, outgoing: bool)
    requires Rows(g, rows) && rows != []
    ensures var n := |rows| - 1;
      MovedTriples(g, rows, canonical, outgoing) ==
        MovedTriples(g, rows[..n], canonical, outgoing) + WithPartner(MovedTriple(g.edges[rows[n]], canonical, outgoing))
  {
    var n := |rows| - 1;
    assert rows == rows[..n] + [rows[n]];
    assert forall i :: i in rows <==> i in rows[..n] || i == rows[n];
  }

  /** `t` is an edge of the stale node, written again on the canonical one, or the partner written with it. */
  ghost predicate Carried(ts: set<Triple>, stale: Node, canonical: Node, t: Triple) {
    exists t0 :: t0 in ts && Touches(t0, stale) && !SelfLoop(t0) && t in WithPartner(Rename(t0, stale, canonical))
  }

  ghost function Rehomed(g: Graph, stale: string, canonical: string, out: seq<nat>, inn: seq<nat>): Graph
    requires Rows(g, out) && Rows(g, inn)
  {
    ApplyAll(g, RehomePlan(g, stale, canonical, out, inn))
  }

  ghost predicate RehomeRows(g: Graph, stale: string, out: seq<nat>, inn: seq<nat>) {
    Lists(out, Outgoing(g, PersonNode(stale))) && Lists(inn, Incoming(g, PersonNode(stale)))
  }

  lemma RehomedSplit(g: Graph, stale: string, canonical: string, out: seq<nat>, inn: seq<nat>)
    requires RehomeRows(g, stale, out, inn) && stale != canonical
    ensures Rehomed(g, stale, canonical, out, inn) ==
      Apply(ApplyAll(ApplyAll(g, MoveWrites(g, out, canonical, true)), MoveWrites(g, inn, canonical, false)),
            DetachDelete(PersonNode(stale)))
  {
    var plan := RehomePlan(g, stale, canonical, out, inn);
    assert plan[..|plan| - 1] == MoveWrites(g, out, canonical, true) + MoveWrites(g, inn, canonical, false);
    ApplyAllAppend(g, MoveWrites(g, out, canonical, true), MoveWrites(g, inn, canonical, false));
  }

  /**
   Folding conserves edges: afterwards the graph holds exactly the edges that
   did not touch the stale node, together with the stale node's edges renamed
   and their partners.  Self-loops on the stale node are the only edges lost.
   */
  lemma RehomeConservesEdges(g: Graph, stale: string, canonical: string, out: seq<nat>, inn: seq<nat>)
    requires WellFormed(g) && RehomeRows(g, stale, out, inn) && stale != canonical
    ensures forall t :: t in Triples(Rehomed(g, stale, canonical, out, inn)) <==>
      || (t in Triples(g) && !Touches(t, PersonNode(stale)))
      || Carried(Triples(g), PersonNode(stale), PersonNode(canonical), t)
  {
    var sn, cn := PersonNode(stale), PersonNode(canonical);
    var g1 := ApplyAll(g, MoveWrites(g, out, canonical, true));
    var g2 := ApplyAll(g1, MoveWrites(g, inn, canonical, false));
    var g3 := Apply(g2, DetachDelete(sn));
    RehomedSplit(g, stale, canonical, out, inn);
    ApplyAllKeepsWellFormed(g, MoveWrites(g, out, canonical, true));
    MoveWritesTriples(g, g, out, canonical, true);
    MoveWritesTriples(g, g1, inn, canonical, false);
    DeleteTriples(g2, sn);
    forall t
      ensures !Touches(t, sn) &&
        (t in MovedTriples(g, out, canonical, true) || t in MovedTriples(g, inn, canonical, false))
        <==> Carried(Triples(g), sn, cn, t)
    {
      if Carried(Triples(g), sn, cn, t) {
        CarriedIsMoved(g, stale, canonical, out, inn, t);
      }
      if !Touches(t, sn) && t in MovedTriples(g, out, canonical, true) {
        MovedIsCarried(g, stale, canonical, out, true, t);
      }
      if !Touches(t, sn) && t in MovedTriples(g, inn, canonical, false) {
        MovedIsCarried(g, stale, canonical, inn, false, t);
      }
    }
  }

  lemma DeleteTriples(g: Graph, n: Node)
    ensures Triples(Apply(g, DetachDelete(n))) == set t | t in Triples(g) && !Touches(t, n)
  {
    var h := Apply(g, DetachDelete(n));
    forall t | t in Triples(g) && !Touches(t, n) ensures t in Triples(h) {
      var i :| i in g.edges && TripleOf(g.edges[i]) == t;
      assert i in h.edges;
    }
  }

  lemma CarriedIsMoved(g: Graph, stale: string, canonical: string, out: seq<nat>, inn: seq<nat>, t: Triple)
    requires RehomeRows(g, stale, out, inn) && stale != canonical
    requires Carried(Triples(g), PersonNode(stale), PersonNode(canonical), t)
    ensures !Touches(t, PersonNode(stale))
    ensures t in MovedTriples(g, out, canonical, true) || t in MovedTriples(g, inn, canonical, false)
  {
    var sn, cn := PersonNode(stale), PersonNode(canonical);
    var t0 :| t0 in Triples(g) && Touches(t0, sn) && !SelfLoop(t0) && t in WithPartner(Rename(t0, sn, cn));
    var i :| i in g.edges && TripleOf(g.edges[i]) == t0;
    if t0.src == sn {
      assert i in Outgoing(g, sn) && MovedTriple(g.edges[i], canonical, true) == Rename(t0, sn, cn);
    } else {
      assert i in Incoming(g, sn) && MovedTriple(g.edges[i], canonical, false) == Rename(t0, sn, cn);
    }
  }

  lemma MovedIsCarried(g: Graph, stale: string, canonical: string, rows: seq<nat>, outgoing: bool, t: Triple)
    requires Lists(rows, if outgoing then Outgoing(g, PersonNode(stale)) else Incoming(g, PersonNode(stale)))
    requires t in MovedTriples(g, rows, canonical, outgoing) && !Touches(t, PersonNode(stale))
    ensures Carried(Triples(g), PersonNode(stale), PersonNode(canonical), t)
  {
    var sn, cn := PersonNode(stale), PersonNode(canonical);
    var i :| i in rows && t in WithPartner(MovedTriple(g.edges[i], canonical, outgoing));
    var t0 := TripleOf(g.edges[i]);
    assert t0 in Triples(g) && Touches(t0, sn);
    assert !SelfLoop(t0);
    assert MovedTriple(g.edges[i], canonical, outgoing) == Rename(t0, sn, cn);
  }

  /** The triples a fold leaves, as a property of two triple sets. */
  ghost predicate FoldOf(after: set<Triple>, ts: set<Triple>, stale: Node, canonical: Node) {
    forall t :: t in after <==> (t in ts && !Touches(t, stale)) || Carried(ts, stale, canonical, t)
  }

  lemma CarriedPartner(ts: set<Triple>, sn: Node, cn: Node, t: Triple)
    requires Carried(ts, sn, cn, t) && Directional(t.typ) && t.typ != Manages
    ensures Carried(ts, sn, cn, Partner(t))
  {
    var t0 :| t0 in ts && Touches(t0, sn) && !SelfLoop(t0) && t in WithPartner(Rename(t0, sn, cn));
    ReverseTypes(t0.typ);
    assert Partner(t) in WithPartner(Rename(t0, sn, cn));
  }

  lemma FoldKeepsPartners(after: set<Triple>, ts: set<Triple>, sn: Node, cn: Node)
    requires FoldOf(after, ts, sn, cn) && PartnerClosed(ts, {Manages})
    ensures PartnerClosed(after, {Manages})
  {
    forall t | t in after && Directional(t.typ) && t.typ != Manages ensures Partner(t) in after {
      if t in ts && !Touches(t, sn) {
        assert Partner(t) in ts && !Touches(Partner(t), sn);
      } else {
        CarriedPartner(ts, sn, cn, t);
      }
    }
  }

  ghost predicate RenamedFrom(ts: set<Triple>, sn: Node, cn: Node, t: Triple) {
    exists t0 :: t0 in ts && !(SelfLoop(t0) && Touches(t0, sn)) && t == Rename(t0, sn, cn)
  }

  /**
   Pairing survives a fold; and when every edge was paired to begin with, the
   fold is a plain renaming: nothing but the renamed edges is left behind.
   */
  lemma RehomeKeepsPartners(g: Graph, stale: string, canonical: string, out: seq<nat>, inn: seq<nat>)
    requires WellFormed(g) && RehomeRows(g, stale, out, inn) && stale != canonical
    ensures PartnerClosed(Triples(g), {Manages}) ==>
      PartnerClosed(Triples(Rehomed(g, stale, canonical, out, inn)), {Manages})
    ensures PartnerClosed(Triples(g), {}) ==>
      forall t :: t in Triples(Rehomed(g, stale, canonical, out, inn)) <==>
        RenamedFrom(Triples(g), PersonNode(stale), PersonNode(canonical), t)
  {
    var ts, after := Triples(g), Triples(Rehomed(g, stale, canonical, out, inn));
    var sn, cn := PersonNode(stale), PersonNode(canonical);
    RehomeConservesEdges(g, stale, canonical, out, inn);
    assert FoldOf(after, ts, sn, cn);
    if PartnerClosed(ts, {Manages}) {
      FoldKeepsPartners(after, ts, sn, cn);
    }
    if PartnerClosed(ts, {}) {
      forall t ensures t in after <==> RenamedFrom(ts, sn, cn, t) {
        RenamingOnly(ts, sn, cn, t);
      }
    }
  }

  lemma RenamingOnly(ts: set<Triple>, sn: Node, cn: Node, t: Triple)
    requires PartnerClosed(ts, {}) && sn != cn
    ensures (t in ts && !Touches(t, sn)) || Carried(ts, sn, cn, t) <==> RenamedFrom(ts, sn, cn, t)
  {
    if t in ts && !Touches(t, sn) {
      assert t == Rename(t, sn, cn);
    }
    if Carried(ts, sn, cn, t) {
      var t0 :| t0 in ts && Touches(t0, sn) && !SelfLoop(t0) && t in WithPartner(Rename(t0, sn, cn));
      if t != Rename(t0, sn, cn) {
        assert Partner(t0) in ts && Rename(Partner(t0), sn, cn) == t;
      }
    }
    if RenamedFrom(ts, sn, cn, t) {
      var t0 :| t0 in ts && !(SelfLoop(t0) && Touches(t0, sn)) && t == Rename(t0, sn, cn);
      if Touches(t0, sn) {
        assert t in WithPartner(Rename(t0, sn, cn));
      }
    }
  }

  // ----------------------------------------------------------------- Frame

  /** Statements that only write edges at `n`, between nodes that exist. */
  ghost predicate WritesAt(ws: seq<Write>, n: Node, nodes: set<Node>) {
    forall w :: w in ws ==> w.MergeRel? && (w.src == n || w.dst == n) && w.src in nodes && w.dst in nodes
  }

  lemma {:induction false} WritesAtFrame(g: Graph, ws: seq<Write>, n: Node)
    requires WellFormed(g) && WritesAt(ws, n, g.nodes)
    ensures var h := ApplyAll(g, ws);
      && h.nodes == g.nodes && h.emails == g.emails
      && (forall i :: i in g.edges && !Touches(TripleOf(g.edges[i]), n) ==> i in h.edges && h.edges[i] == g.edges[i])
      && (forall i :: i in h.edges && !Touches(TripleOf(h.edges[i]), n) ==> i in g.edges && h.edges[i] == g.edges[i])
  {
    if ws != [] {
      var init, w := ws[..|ws| - 1], ws[|ws| - 1];
      assert w in ws;
      WritesAtFrame(g, init, n);
      ApplyAllKeepsWellFormed(g, init);
      var m := ApplyAll(g, init);
      assert m.nodes + {w.src, w.dst} == m.nodes;
      forall i: nat {
        MergeEdgeFrame(m, w.src, w.typ, w.dst, w.pattern, w.assign, i);
      }
    }
  }

  lemma {:induction false} MoveWritesAt(g: Graph, rows: seq<nat>, canonical: string, outgoing: bool)
    requires Rows(g, rows) && WellFormed(g) && Live(g, canonical)
    ensures WritesAt(MoveWrites(g, rows, canonical, outgoing), PersonNode(canonical), g.nodes)
  {
    if rows != [] {
      MoveWritesAt(g, rows[..|rows| - 1], canonical, outgoing);
      var e := g.edges[rows[|rows| - 1]];
      assert forall w :: w in RelationshipWrites(Moved(e, canonical, outgoing)) ==> {w.src, w.dst} == {Moved(e, canonical, outgoing).src, Moved(e, canonical, outgoing).dst};
    }
  }

  /**
   A fold touches nothing else: exactly the stale node (and its email) goes, and
   every edge away from both nodes keeps its identity and its properties.  If it
   breaks off part-way, no node and no email has changed.
   */
  lemma RehomeFrame(g: Graph, stale: string, canonical: string, out: seq<nat>, inn: seq<nat>, done: nat)
    requires WellFormed(g) && Live(g, canonical) && RehomeRows(g, stale, out, inn) && stale != canonical
    requires done <= |RehomePlan(g, stale, canonical, out, inn)|
    ensures var plan := RehomePlan(g, stale, canonical, out, inn);
      var h := ApplyAll(g, plan[..done]);
      && WellFormed(h)
      && h.nodes == (if done == |plan| then g.nodes - {PersonNode(stale)} else g.nodes)
      && h.emails == (if done == |plan| then g.emails - {stale} else g.emails)
      && (forall i :: i in g.edges && !Touches(TripleOf(g.edges[i]), PersonNode(canonical))
            && (done == |plan| ==> !Touches(TripleOf(g.edges[i]), PersonNode(stale)))
            ==> i in h.edges && h.edges[i] == g.edges[i])
      && (forall i :: i in h.edges && !Touches(TripleOf(h.edges[i]), PersonNode(canonical))
            ==> i in g.edges && h.edges[i] == g.edges[i])
  {
    var plan := RehomePlan(g, stale, canonical, out, inn);
    var moves := MoveWrites(g, out, canonical, true) + MoveWrites(g, inn, canonical, false);
    MoveWritesAt(g, out, canonical, true);
    MoveWritesAt(g, inn, canonical, false);
    hide ApplyAll, MoveWrites, WellFormed, WritesAt;
    var k := if done < |plan| then done else |moves|;
    assert plan[..k] == moves[..k];
    WritesAtPrefix(moves, k, PersonNode(canonical), g.nodes) by {
      WritesAtBoth(MoveWrites(g, out, canonical, true), MoveWrites(g, inn, canonical, false), PersonNode(canonical), g.nodes);
    }
    WritesAtFrame(g, moves[..k], PersonNode(canonical));
    ApplyAllKeepsWellFormed(g, plan[..done]);
    if done == |plan| {
      assert plan[..done] == moves[..k] + [DetachDelete(PersonNode(stale))];
      LastWrite(g, moves[..k], DetachDelete(PersonNode(stale)));
    }
  }

  lemma WritesAtBoth(a: seq<Write>, b: seq<Write>, n: Node, nodes: set<Node>)
    requires WritesAt(a, n, nodes) && WritesAt(b, n, nodes)
    ensures WritesAt(a + b, n, nodes)
  {
  }

  lemma WritesAtPrefix(ws: seq<Write>, k: nat, n: Node, nodes: set<Node>)
    requires WritesAt(ws, n, nodes) && k <= |ws|
    ensures WritesAt(ws[..k], n, nodes)
  {
  }

  lemma LastWrite(g: Graph, ws: seq<Write>, w: Write)
    ensures ApplyAll(g, ws + [w]) == Apply(ApplyAll(g, ws), w)
  {
    assert (ws + [w])[..|ws|] == ws;
  }

  // -------------------------------------------------------------- Properties

  lemma {:induction false} MoveWritesAre(g: Graph, rows: seq<nat>, canonical: string, outgoing: bool, w: Write)
    requires Rows(g, rows)
    ensures w in MoveWrites(g, rows, canonical, outgoing) <==>
      exists i :: i in rows && w in RelationshipWrites(Moved(g.edges[i], canonical, outgoing))
  {
    if rows != [] {
      var n := |rows| - 1;
      MoveWritesAre(g, rows[..n], canonical, outgoing, w);
      assert rows == rows[..n] + [rows[n]];
    }
  }

  /** The statements that move the edges of the stale node, both ways. */
  ghost function AllMoves(g: Graph, canonical: string, out: seq<nat>, inn: seq<nat>): seq<Write>
    requires Rows(g, out) && Rows(g, inn)
  {
    MoveWrites(g, out, canonical, true) + MoveWrites(g, inn, canonical, false)
  }

  lemma MovesAssignDisplay(g: Graph, canonical: string, out: seq<nat>, inn: seq<nat>)
    requires Rows(g, out) && Rows(g, inn)
    ensures forall w :: w in AllMoves(g, canonical, out, inn) ==> AssignsDisplay(w)
  {
    hide MoveWrites, RelationshipWrites, AssignsDisplay;
    forall w | w in AllMoves(g, canonical, out, inn) ensures AssignsDisplay(w) {
      MoveWritesAre(g, out, canonical, true, w);
      MoveWritesAre(g, inn, canonical, false, w);
      if w in MoveWrites(g, out, canonical, true) {
        var i :| i in out && w in RelationshipWrites(Moved(g.edges[i], canonical, true));
        RelationshipPatterns(Moved(g.edges[i], canonical, true));
      } else {
        var i :| i in inn && w in RelationshipWrites(Moved(g.edges[i], canonical, false));
        RelationshipPatterns(Moved(g.edges[i], canonical, false));
      }
    }
  }

  /** The statement sent for an edge: its type and data, the stale end replaced, and displayed. */
  lemma MoveStatement(g: Graph, rows: seq<nat>, canonical: string, outgoing: bool, i: nat) returns (w: Write)
    requires Rows(g, rows) && i in rows
    ensures w in MoveWrites(g, rows, canonical, outgoing) && w.MergeRel?
    ensures w.typ == g.edges[i].typ && SameData(g.edges[i].props, w.pattern)
    ensures w.assign == map["_display_in_graph" := Flag(true)]
    ensures outgoing ==> w.src == PersonNode(canonical) && w.dst == g.edges[i].dst
    ensures !outgoing ==> w.src == g.edges[i].src && w.dst == PersonNode(canonical)
  {
    hide MoveWrites, SameData;
    var r := Moved(g.edges[i], canonical, outgoing);
    w := RelationshipWrites(r)[0];
    RelationshipPatterns(r);
    assert w in RelationshipWrites(r);
    hide RelationshipWrites;
    MoveWritesAre(g, rows, canonical, outgoing, w);
  }

  /** Deleting a node leaves edges elsewhere with their properties. */
  lemma DeleteKeepsEdge(g: Graph, n: Node, t: Triple, p: Props)
    requires HasEdge(g, t, p) && !Touches(t, n)
    ensures HasEdge(Apply(g, DetachDelete(n)), t, p)
  {
    var i :| i in g.edges && TripleOf(g.edges[i]) == t && Keeps(p, g.edges[i].props);
    assert i in Apply(g, DetachDelete(n)).edges;
  }

  /** A statement of the plan that writes away from the stale node leaves its edge in the end. */
  lemma MoveLeavesEdge(g: Graph, stale: string, canonical: string, out: seq<nat>, inn: seq<nat>, w: Write, p: Props)
    requires WellFormed(g) && RehomeRows(g, stale, out, inn) && stale != canonical
    requires w in AllMoves(g, canonical, out, inn) && AssignsDisplay(w) && Keeps(p, w.pattern)
    requires !Touches(Triple(w.src, w.typ, w.dst), PersonNode(stale))
    ensures HasEdge(Rehomed(g, stale, canonical, out, inn), Triple(w.src, w.typ, w.dst), p)
  {
    hide MoveWrites, WellFormed, HasEdge, Keeps, Apply;
    var moves := AllMoves(g, canonical, out, inn);
    MovesAssignDisplay(g, canonical, out, inn);
    RehomedSplit(g, stale, canonical, out, inn);
    ApplyAllAppend(g, MoveWrites(g, out, canonical, true), MoveWrites(g, inn, canonical, false));
    hide Rehomed;
    var t := Triple(w.src, w.typ, w.dst);
    ApplyAllHasEdges(g, moves, w);
    KeepsThrough(ApplyAll(g, moves), t, p, w.pattern);
    DeleteKeepsEdge(ApplyAll(g, moves), PersonNode(stale), t, p);
  }

  /**
   A fold carries every property along: for every edge of the stale node but its
   self-loops there is an edge of the same type, with the stale end renamed, that has all
   its properties, the display flag apart; and for a directional type so has the partner.
   */
  lemma RehomeCarriesProperties(g: Graph, stale: string, canonical: string, out: seq<nat>, inn: seq<nat>, i: nat)
    requires WellFormed(g) && RehomeRows(g, stale, out, inn) && stale != canonical
    requires i in g.edges && Touches(TripleOf(g.edges[i]), PersonNode(stale)) && !SelfLoop(TripleOf(g.edges[i]))
    ensures var t, h := Rename(TripleOf(g.edges[i]), PersonNode(stale), PersonNode(canonical)), Rehomed(g, stale, canonical, out, inn);
      HasEdge(h, t, g.edges[i].props) && (Directional(t.typ) ==> HasEdge(h, Partner(t), g.edges[i].props))
  {
    hide WellFormed, HasEdge, Keeps, Rehomed, MoveWrites, Reverse, RelationshipWrites;
    var e := g.edges[i];
    var outgoing := e.src == PersonNode(stale);
    var r := Moved(e, canonical, outgoing);
    var ws := RelationshipWrites(r);
    assert i in (if outgoing then out else inn) by {
      assert if outgoing then i in Outgoing(g, PersonNode(stale)) else i in Incoming(g, PersonNode(stale));
    }
    RelationshipPatterns(r);
    assert r.props == e.props && ws[0] in ws;
    MovedInAll(g, canonical, out, inn, i, outgoing, ws[0]);
    MoveLeavesEdge(g, stale, canonical, out, inn, ws[0], e.props);
    if |ws| == 2 {
      assert ws[1] in ws;
      MovedInAll(g, canonical, out, inn, i, outgoing, ws[1]);
      MoveLeavesEdge(g, stale, canonical, out, inn, ws[1], e.props);
    }
  }

  lemma MovedInAll(g: Graph, canonical: string, out: seq<nat>, inn: seq<nat>, i: nat, outgoing: bool, w: Write)
    requires Rows(g, out) && Rows(g, inn) && i in (if outgoing then out else inn)
    requires w in RelationshipWrites(Moved(g.edges[i], canonical, outgoing))
    ensures w in AllMoves(g, canonical, out, inn)
  {
    hide MoveWrites, RelationshipWrites;
    MoveWritesAre(g, if outgoing then out else inn, canonical, outgoing, w);
  }

  /** The edge has the data of an edge of the stale node, on the renamed triple or its partner. */
  ghost predicate CarriedFrom(g: Graph, stale: string, canonical: string, e: Edge, i: nat) {
    && i in g.edges && Touches(TripleOf(g.edges[i]), PersonNode(stale)) && !SelfLoop(TripleOf(g.edges[i]))
    && TripleOf(e) in WithPartner(Rename(TripleOf(g.edges[i]), PersonNode(stale), PersonNode(canonical)))
    && SameData(g.edges[i].props, e.props)
  }

  /**
   And it invents none: every edge afterwards was there before with the same data, or has
   exactly the data of an edge of the stale node that it takes the place of.
   */
  lemma RehomeInventsNothing(g: Graph, stale: string, canonical: string, out: seq<nat>, inn: seq<nat>, j: nat)
    requires WellFormed(g) && RehomeRows(g, stale, out, inn) && stale != canonical
    requires j in Rehomed(g, stale, canonical, out, inn).edges
    ensures var e := Rehomed(g, stale, canonical, out, inn).edges[j];
      || (j in g.edges && TripleOf(e) == TripleOf(g.edges[j]) && SameData(g.edges[j].props, e.props))
      || exists i :: CarriedFrom(g, stale, canonical, e, i)
  {
    hide MoveWrites, WellFormed, SameData, RelationshipWrites;
    var moves := AllMoves(g, canonical, out, inn);
    MovesAssignDisplay(g, canonical, out, inn);
    RehomedSplit(g, stale, canonical, out, inn);
    ApplyAllAppend(g, MoveWrites(g, out, canonical, true), MoveWrites(g, inn, canonical, false));
    hide Rehomed, ApplyAll;
    var h := ApplyAll(g, moves);
    ApplyAllInventsNothing(g, moves, j);
    if !(j in g.edges && TripleOf(h.edges[j]) == TripleOf(g.edges[j]) && SameData(g.edges[j].props, h.edges[j].props)) {
      var w :| w in moves && AssignsDisplay(w) && TripleOf(h.edges[j]) == Triple(w.src, w.typ, w.dst) && SameData(w.pattern, h.edges[j].props);
      hide Apply, ComesFrom;
      var i := MoveComesFrom(g, stale, canonical, out, inn, w, h.edges[j]);
    }
  }

  lemma WritesOfRelationship(r: Relationship, w: Write)
    requires w in RelationshipWrites(r)
    ensures w.MergeRel? && Triple(w.src, w.typ, w.dst) in WithPartner(Triple(r.src, r.typ, r.dst))
  {
    hide Reverse;
  }

  lemma MoveComesFrom(g: Graph, stale: string, canonical: string, out: seq<nat>, inn: seq<nat>, w: Write, e: Edge) returns (i: nat)
    requires RehomeRows(g, stale, out, inn) && stale != canonical
    requires w in AllMoves(g, canonical, out, inn) && AssignsDisplay(w)
    requires TripleOf(e) == Triple(w.src, w.typ, w.dst) && SameData(w.pattern, e.props) && !Touches(TripleOf(e), PersonNode(stale))
    ensures CarriedFrom(g, stale, canonical, e, i)
  {
    hide MoveWrites, SameData, AssignsDisplay, RelationshipWrites, Reverse;
    var outgoing := w in MoveWrites(g, out, canonical, true);
    MoveWritesAre(g, out, canonical, true, w);
    MoveWritesAre(g, inn, canonical, false, w);
    i :| i in (if outgoing then out else inn) && w in RelationshipWrites(Moved(g.edges[i], canonical, outgoing));
    var r := Moved(g.edges[i], canonical, outgoing);
    RelationshipPatterns(r);
    SameDataThrough(g.edges[i].props, w.pattern, e.props);
    WritesOfRelationship(r, w);
    assert i in (if outgoing then Outgoing(g, PersonNode(stale)) else Incoming(g, PersonNode(stale)));
    MovedEdge(g, stale, canonical, i, outgoing, TripleOf(e));
  }

  lemma MovedEdge(g: Graph, stale: string, canonical: string, i: nat, outgoing: bool, t: Triple)
    requires i in (if outgoing then Outgoing(g, PersonNode(stale)) else Incoming(g, PersonNode(stale))) && stale != canonical
    requires t in WithPartner(MovedTriple(g.edges[i], canonical, outgoing)) && !Touches(t, PersonNode(stale))
    ensures i in g.edges && Touches(TripleOf(g.edges[i]), PersonNode(stale)) && !SelfLoop(TripleOf(g.edges[i]))
    ensures t in WithPartner(Rename(TripleOf(g.edges[i]), PersonNode(stale), PersonNode(canonical)))
  {
    hide Reverse;
  }
}
