/**
 What the timeline tables hold, in terms of the signals written: which signals count as
 the same event, which of them becomes the row, and which action rows there are.
 */
module ActivityTables {
  import opened Options
  import opened ActivityWriter

  /** Equal in everything but the signal id. */
  predicate SameEvent(a: Signal, b: Signal) {
    && a.source == b.source && a.entityType == b.entityType && a.id == b.id && a.eventTime == b.eventTime
    && a.attributes == b.attributes && a.relationships == b.relationships
  }

  const NO_ROWS := Tables(map[], multiset{})

  /** Some signal before the `n`-th is the same event. */
  predicate SeenBefore(ss: seq<Signal>, s: Signal) { exists i :: 0 <= i < |ss| && SameEvent(ss[i], s) }

  lemma KeysTell(a: Signal, b: Signal)
    ensures KeyOf(a) == KeyOf(b) <==> SameEvent(a, b)
  {
  }

  lemma SeenIsKnown(ss: seq<Signal>, s: Signal)
    ensures SeenBefore(ss, s) <==> HasKey(ss, KeyOf(s))
  {
    hide KeyOf, SameEvent;
    forall i | 0 <= i < |ss| ensures KeyOf(ss[i]) == KeyOf(s) <==> SameEvent(ss[i], s) {
      KeysTell(ss[i], s);
    }
  }

  /** The signals of a list that are not the same event as an earlier one, in order. */
  function FirstOnes(ss: seq<Signal>): seq<Signal> {
    if ss == [] then []
    else FirstOnes(ss[..|ss| - 1]) + if SeenBefore(ss[..|ss| - 1], ss[|ss| - 1]) then [] else [ss[|ss| - 1]]
  }

  /**
   Writing one more signal changes nothing if it is the same event as one written before,
   whatever its signal id; otherwise it adds its row, and one action row a relationship.
   */
  lemma WriteExactly(ss: seq<Signal>, s: Signal, r: Signal)
    ensures var t, t1 := InsertAll(NO_ROWS, ss), InsertAll(NO_ROWS, ss + [s]);
      if SeenBefore(ss, s) then t1 == t
      else
        && |t1.events| == |t.events| + 1 && (r in t1.events.Values <==> r in t.events.Values || r == s)
        && exists rows: seq<Action> :: |rows| == |s.relationships| && t1.actions == t.actions + multiset(rows)
             && forall i :: 0 <= i < |rows| ==> RowFor(s, s.relationships[i], rows[i])
  {
    hide KeyOf, SeenBefore, HasKey, RowFor;
    var t := InsertAll(NO_ROWS, ss);
    assert (ss + [s])[..|ss|] == ss && InsertAll(NO_ROWS, ss + [s]) == Insert(t, s);
    hide InsertAll, Actions;
    SeenIsKnown(ss, s);
    InsertAllEvents(NO_ROWS, ss, KeyOf(s));
    if !SeenBefore(ss, s) {
      RowsAre(s);
      NewValue(t.events, KeyOf(s), s, r);
      assert Insert(t, s).events == t.events[KeyOf(s) := s];
      assert Insert(t, s).actions == t.actions + multiset(Actions(s));
    }
  }

  lemma NewValue(events: map<Key, Signal>, k: Key, s: Signal, r: Signal)
    requires k !in events
    ensures |events[k := s]| == |events| + 1
    ensures r in events[k := s].Values <==> r in events.Values || r == s
  {
    var more := events[k := s];
    assert more.Keys == events.Keys + {k};
    assert more[k] == s;
    if r in events.Values {
      var x :| x in events && events[x] == r;
      assert more[x] == r;
    }
  }

  lemma RowsAre(s: Signal)
    ensures |Actions(s)| == |s.relationships|
    ensures forall i :: 0 <= i < |s.relationships| ==> RowFor(s, s.relationships[i], Actions(s)[i])
  {
  }

  /** The event rows are exactly the signals that are not the same event as an earlier one. */
  lemma {:induction false} RowsAreFirstOnes(ss: seq<Signal>, r: Signal)
    ensures r in InsertAll(NO_ROWS, ss).events.Values <==> r in FirstOnes(ss)
    ensures |InsertAll(NO_ROWS, ss).events| == |FirstOnes(ss)|
  {
    hide SeenBefore, InsertAll;
    if ss == [] {
      InsertNone(NO_ROWS);
    } else {
      var rest, last := ss[..|ss| - 1], ss[|ss| - 1];
      RowsAreFirstOnes(rest, r);
      WriteExactly(rest, last, r);
      assert rest + [last] == ss;
    }
  }

  /** A wait that brings the hundredth signal flushes the batch; one that brings less does not. */
  lemma HundredthFlushes(queued: nat, held: nat)
    requires queued > 0
    ensures AfterWait(Got(None), queued, held) == Some((queued - 1, if held < 99 then held + 1 else 0))
  {
  }
}
