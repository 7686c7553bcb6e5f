/**
 Leader election and due-checking of src/app/scheduler.py.

 Each app instance wakes up every tick, reads its own clock and sends one
 conditional UPDATE to the single lease row.  The model takes these attempts in
 the order the database commits them; instances' readings may be off, and an
 attempt may reach the database long after its reading was taken.
 */
module SchedulerLease {
  import opened Options

  /** The lease row; the migration seeds it unheld and expired. */
  datatype Lease = Lease(heldBy: Option<string>, expiresAt: int)

  predicate CanAcquire(l: Lease, instance: string, now: int) {
    l.expiresAt < now || l.heldBy == Some(instance)
  }

  class LeaseRow {
    var heldBy: Option<string>
    var expiresAt: int

    constructor (seed: int)
      ensures Row() == Lease(None, seed)
    {
      heldBy, expiresAt := None, seed;
    }

    ghost function Row(): Lease
      reads this
    {
      Lease(heldBy, expiresAt)
    }

    /** `_try_acquire_lease`: true when the row was updated, which renews or takes over. */
    method TryAcquire(instance: string, now: int, tick: nat) returns (won: bool)
      modifies this
      ensures won <==> CanAcquire(old(Row()), instance, now)
      ensures won <==> old(expiresAt) < now || old(heldBy) == Some(instance)
      ensures heldBy == (if won then Some(instance) else old(heldBy)) && expiresAt == (if won then now + 2 * tick else old(expiresAt))
      ensures Row() == if won then Lease(Some(instance), now + 2 * tick) else old(Row())
    {
      var expires := now + tick * 2;
      won := expiresAt < now || heldBy == Some(instance);
      if won {
        heldBy, expiresAt := Some(instance), expires;
      }
    }
  }

  // ---------------------------------------------------------------- Exclusion

  /** One UPDATE: who sent it, the true time its clock was read, and what the clock said. */
  datatype Attempt = Attempt(instance: string, at: int, reading: int)

  /** The lease row after the first `n` attempts. */
  function LeaseAfter(seed: Lease, tick: nat, tries: seq<Attempt>, n: nat): Lease
    requires n <= |tries|
  {
    if n == 0 then seed
    else
      var l, a := LeaseAfter(seed, tick, tries, n - 1), tries[n - 1];
      if CanAcquire(l, a.instance, a.reading) then Lease(Some(a.instance), a.reading + 2 * tick) else l
  }

  predicate Wins(seed: Lease, tick: nat, tries: seq<Attempt>, i: nat)
    requires i < |tries|
  {
    CanAcquire(LeaseAfter(seed, tick, tries, i), tries[i].instance, tries[i].reading)
  }

  /** Clocks are within `skew` of true time, and each instance makes its attempts one after the other. */
  ghost predicate Plausible(tries: seq<Attempt>, skew: nat) {
    && (forall i :: 0 <= i < |tries| ==> tries[i].at - skew <= tries[i].reading <= tries[i].at + skew)
    && (forall i, j :: 0 <= i < j < |tries| && tries[i].instance == tries[j].instance ==> tries[i].at <= tries[j].at)
  }

  /** The last win before attempt `k`: whose it is, and how much later than win `i` it came. */
  lemma {:induction false} LastWin(seed: Lease, tick: nat, skew: nat, tries: seq<Attempt>, i: nat, k: nat) returns (m: nat)
    requires Plausible(tries, skew) && skew <= tick
    requires i < k <= |tries| && Wins(seed, tick, tries, i)
    ensures i <= m < k && Wins(seed, tick, tries, m) && (Wins(seed, tick, tries, k - 1) ==> m == k - 1)
    ensures LeaseAfter(seed, tick, tries, k) == Lease(Some(tries[m].instance), tries[m].reading + 2 * tick)
    ensures tries[i].at <= tries[m].at
    ensures tries[m].instance != tries[i].instance ==> tries[i].at + 2 * tick - 2 * skew < tries[m].at
  {
    if k == i + 1 {
      m := i;
    } else {
      m := LastWin(seed, tick, skew, tries, i, k - 1);
      if Wins(seed, tick, tries, k - 1) {
        m := k - 1;
      }
    }
  }

  /**
   Two wins of different instances were read more than two ticks apart, less
   twice the clock skew, whatever else happened in between.
   */
  lemma WinsAreApart(seed: Lease, tick: nat, skew: nat, tries: seq<Attempt>, i: nat, j: nat)
    requires Plausible(tries, skew) && skew <= tick
    requires i < j < |tries| && Wins(seed, tick, tries, i) && Wins(seed, tick, tries, j)
    requires tries[i].instance != tries[j].instance
    ensures tries[i].at + 2 * tick - 2 * skew < tries[j].at
  {
    var m := LastWin(seed, tick, skew, tries, i, j + 1);
  }

  /**
   So when the work of each winning tick ends within that time, no two instances
   ever act at once: the earlier one's work is over when the later one's begins.
   */
  lemma NoTwoActAtOnce(seed: Lease, tick: nat, skew: nat, tries: seq<Attempt>, ends: seq<int>, i: nat, j: nat)
    requires Plausible(tries, skew) && skew <= tick && |ends| == |tries|
    requires forall k :: 0 <= k < |tries| ==> ends[k] <= tries[k].at + 2 * tick - 2 * skew
    requires i < j < |tries| && Wins(seed, tick, tries, i) && Wins(seed, tick, tries, j)
    requires tries[i].instance != tries[j].instance
    ensures ends[i] < tries[j].at
  {
    WinsAreApart(seed, tick, skew, tries, i, j);
  }

  // ----------------------------------------------------------------- Takeover

  /** A shared clock: readings are true and attempts are committed in the order they were read. */
  ghost predicate OneClock(tries: seq<Attempt>) {
    && (forall i :: 0 <= i < |tries| ==> tries[i].reading == tries[i].at)
    && (forall i, j :: 0 <= i < j < |tries| ==> tries[i].at <= tries[j].at)
  }

  /** `wakes` are times one tick apart. */
  ghost predicate Ticking(wakes: seq<int>, tick: nat) {
    forall n :: 0 < n < |wakes| ==> wakes[n] == wakes[n - 1] + tick
  }

  lemma {:induction false} WakesWithin(wakes: seq<int>, tick: nat, after: int) returns (n: nat)
    requires Ticking(wakes, tick) && wakes != [] && wakes[0] <= after + tick && after < wakes[|wakes| - 1]
    ensures n < |wakes| && after < wakes[n] <= after + tick
  {
    if after < wakes[0] {
      n := 0;
    } else {
      assert wakes[1] == wakes[0] + tick;
      n := WakesWithin(wakes[1..], tick, after);
      n := n + 1;
    }
  }

  lemma {:induction false} HeldUntil(seed: Lease, tick: nat, tries: seq<Attempt>, i: nat, k: nat)
    requires i < k <= |tries| && Wins(seed, tick, tries, i)
    requires forall x :: i < x < k ==> !Wins(seed, tick, tries, x)
    ensures LeaseAfter(seed, tick, tries, k) == Lease(Some(tries[i].instance), tries[i].reading + 2 * tick)
  {
    if k > i + 1 {
      assert !Wins(seed, tick, tries, k - 1);
      HeldUntil(seed, tick, tries, i, k - 1);
    }
  }

  /**
   After the holder's last win at `t`, a live instance waking every tick takes
   over by `t` plus three ticks, or another has by then.
   */
  lemma TakenOverInThreeTicks(seed: Lease, tick: nat, tries: seq<Attempt>, i: nat, live: string, wakes: seq<int>) returns (k: nat)
    requires OneClock(tries) && i < |tries| && Wins(seed, tick, tries, i)
    requires forall x :: i < x < |tries| ==> tries[x].instance != tries[i].instance
    requires Ticking(wakes, tick) && wakes != []
    requires wakes[0] <= tries[i].at + 3 * tick && tries[i].at + 2 * tick < wakes[|wakes| - 1]
    requires forall n :: 0 <= n < |wakes| && tries[i].at < wakes[n] ==>
      exists x :: 0 <= x < |tries| && tries[x].instance == live && tries[x].at == wakes[n]
    ensures i < k < |tries| && Wins(seed, tick, tries, k) && tries[k].instance != tries[i].instance
    ensures tries[k].at <= tries[i].at + 3 * tick
  {
    var n := WakesWithin(wakes, tick, tries[i].at + 2 * tick);
    var x :| 0 <= x < |tries| && tries[x].instance == live && tries[x].at == wakes[n];
    assert i < x by {
      assert tries[i].at < tries[x].at;
    }
    if y :| i < y < x && Wins(seed, tick, tries, y) {
      k := y;
    } else {
      HeldUntil(seed, tick, tries, i, x);
      k := x;
    }
  }

  /**
   When a takeover succeeds: the first win after win `i`, by another instance, comes
   with an attempt if and only if it is more than two ticks after win `i`.
   */
  lemma TakeoverExactly(seed: Lease, tick: nat, tries: seq<Attempt>, i: nat, x: nat)
    requires OneClock(tries) && i < x < |tries| && Wins(seed, tick, tries, i)
    requires forall y :: i < y < x ==> !Wins(seed, tick, tries, y)
    requires tries[x].instance != tries[i].instance
    ensures Wins(seed, tick, tries, x) <==> tries[i].at + 2 * tick < tries[x].at
  {
    HeldUntil(seed, tick, tries, i, x);
  }

  /** So no other instance ever wins within two ticks of a win. */
  lemma NeverTakenOverEarly(seed: Lease, tick: nat, tries: seq<Attempt>, i: nat, x: nat)
    requires OneClock(tries) && i < x < |tries| && Wins(seed, tick, tries, i)
    requires tries[x].instance != tries[i].instance && tries[x].at <= tries[i].at + 2 * tick
    ensures !Wins(seed, tick, tries, x)
  {
    if Wins(seed, tick, tries, x) {
      assert Plausible(tries, 0);
      WinsAreApart(seed, tick, 0, tries, i, x);
    }
  }

  /** The holder's own attempts always win, however late, as long as nobody else has won in between. */
  lemma RenewalAlwaysWins(seed: Lease, tick: nat, tries: seq<Attempt>, i: nat, x: nat)
    requires i < x < |tries| && Wins(seed, tick, tries, i) && tries[x].instance == tries[i].instance
    requires forall y :: i < y < x ==> !Wins(seed, tick, tries, y)
    ensures Wins(seed, tick, tries, x)
    ensures LeaseAfter(seed, tick, tries, x + 1) == Lease(Some(tries[i].instance), tries[x].reading + 2 * tick)
  {
    HeldUntil(seed, tick, tries, i, x);
  }

  /** `dead` wins at `t` and stops; `live` wakes up every tick from `t + wait` on. */
  function Handover(t: int, tick: nat, wait: nat, dead: string, live: string): seq<Attempt> {
    [Attempt(dead, t, t), Attempt(live, t + wait, t + wait), Attempt(live, t + tick + wait, t + tick + wait),
     Attempt(live, t + 2 * tick + wait, t + 2 * tick + wait)]
  }

  /**
   And every delay up to three ticks occurs: whatever the tick and the phase of the
   surviving instance, its first two attempts fail and the third wins, between two and
   three ticks after the last win.
   */
  lemma TakeoverCanTakeThreeTicks(seed: Lease, t: int, tick: nat, wait: nat, dead: string, live: string)
    requires 0 < wait <= tick && dead != live && CanAcquire(seed, dead, t)
    ensures var tries := Handover(t, tick, wait, dead, live);
      && OneClock(tries) && Wins(seed, tick, tries, 0)
      && !Wins(seed, tick, tries, 1) && !Wins(seed, tick, tries, 2)
      && Wins(seed, tick, tries, 3) && tries[3].at - tries[0].at == 2 * tick + wait
  {
    var tries := Handover(t, tick, wait, dead, live);
    TakeoverExactly(seed, tick, tries, 0, 1);
    TakeoverExactly(seed, tick, tries, 0, 2);
    TakeoverExactly(seed, tick, tries, 0, 3);
  }

  // ---------------------------------------------------------------- Due check

  datatype Connector = Connector(kind: string, intervalHours: Option<nat>)

  /** A row of command_status. */
  datatype Command = Command(target: string, kind: string, createdAt: int)

  const HOUR := 3600

  predicate IsScanOf(c: Command, producer: string) { c.target == producer && c.kind == "scan" }

  /** The producer's container, when the registry names one. */
  function Producer(registry: map<string, string>, kind: string): string {
    if kind in registry then registry[kind] else ""
  }

  /** Every scan of the producer on record is at least the interval old. */
  predicate IsDue(c: Connector, registry: map<string, string>, rows: seq<Command>, now: int) {
    && c.intervalHours.Some? && Producer(registry, c.kind) != ""
    && forall r :: r in rows && IsScanOf(r, Producer(registry, c.kind)) ==> now - r.createdAt >= c.intervalHours.value * HOUR
  }

  function Due(cs: seq<Connector>, registry: map<string, string>, rows: seq<Command>, now: int): seq<(string, string)> {
    if cs == [] then []
    else
      var n := |cs| - 1;
      Due(cs[..n], registry, rows, now)
      + if IsDue(cs[n], registry, rows, now) then [(cs[n].kind, Producer(registry, cs[n].kind))] else []
  }

  /** MAX(created_at) over the producer's scans. */
  method LastScan(rows: seq<Command>, producer: string) returns (last: Option<int>)
    ensures last.None? ==> forall r :: r in rows ==> !IsScanOf(r, producer)
    ensures last.Some? ==> exists r :: r in rows && IsScanOf(r, producer) && r.createdAt == last.value
    ensures last.Some? ==> forall r :: r in rows && IsScanOf(r, producer) ==> r.createdAt <= last.value
  {
    last := None;
    for i := 0 to |rows|
      invariant last.None? ==> forall r :: r in rows[..i] ==> !IsScanOf(r, producer)
      invariant last.Some? ==> exists r :: r in rows && IsScanOf(r, producer) && r.createdAt == last.value
      invariant last.Some? ==> forall r :: r in rows[..i] && IsScanOf(r, producer) ==> r.createdAt <= last.value
    {
      if IsScanOf(rows[i], producer) && (last.None? || last.value < rows[i].createdAt) {
        last := Some(rows[i].createdAt);
      }
      assert rows[..i + 1] == rows[..i] + [rows[i]];
    }
    assert rows[..|rows|] == rows;
  }

  /** `_get_due_connectors`: the maximum is compared, which is the same as comparing every scan. */
  method GetDueConnectors(cs: seq<Connector>, registry: map<string, string>, rows: seq<Command>, now: int)
    returns (due: seq<(string, string)>)
    ensures due == Due(cs, registry, rows, now)
  {
    due := [];
    for i := 0 to |cs|
      invariant due == Due(cs[..i], registry, rows, now)
    {
      assert cs[..i + 1][..i] == cs[..i];
      var producer := Producer(registry, cs[i].kind);
      if cs[i].intervalHours.Some? && producer != "" {
        var last := LastScan(rows, producer);
        if last.None? || now - last.value >= cs[i].intervalHours.value * HOUR {
          due := due + [(cs[i].kind, producer)];
        }
      }
    }
    assert cs[..|cs|] == cs;
  }

  /**
   Who is due, one connector at a time: it has an interval and a named producer, and no
   scan command for that producer, whatever became of it, is younger than the interval.
   */
  lemma DueExactly(cs: seq<Connector>, c: Connector, registry: map<string, string>, rows: seq<Command>, now: int)
    ensures Due([], registry, rows, now) == []
    ensures Due(cs + [c], registry, rows, now) == Due(cs, registry, rows, now) +
      if && c.intervalHours.Some? && c.kind in registry && registry[c.kind] != ""
         && forall k :: 0 <= k < |rows| && rows[k].target == registry[c.kind] && rows[k].kind == "scan" ==>
              now - rows[k].createdAt >= c.intervalHours.value * 3600
      then [(c.kind, registry[c.kind])] else []
  {
    assert (cs + [c])[..|cs|] == cs;
  }

  // ------------------------------------------------------------ Firings apart

  /** One winning or losing tick: when it read the lease clock and the due clock, when it ended, what it fired. */
  datatype Tick = Tick(instance: string, at: int, now: int, ends: int, fired: map<string, int>)

  function Tries(ticks: seq<Tick>): (tries: seq<Attempt>)
    ensures |tries| == |ticks|
    ensures forall i :: 0 <= i < |ticks| ==> tries[i] == Attempt(ticks[i].instance, ticks[i].at, ticks[i].at)
  {
    seq(|ticks|, i requires 0 <= i < |ticks| => Attempt(ticks[i].instance, ticks[i].at, ticks[i].at))
  }

  /**
   Runs on one clock: only the leader fires, each scan row is created between the
   tick's clock reading and its end, an instance's ticks do not overlap, and the
   work of a tick fits into two ticks.
   */
  ghost predicate Orderly(seed: Lease, tick: nat, ticks: seq<Tick>) {
    forall i :: 0 <= i < |ticks| ==>
      && ticks[i].at <= ticks[i].now <= ticks[i].ends <= ticks[i].at + 2 * tick
      && (ticks[i].fired != map[] ==> Wins(seed, tick, Tries(ticks), i))
      && (forall p :: p in ticks[i].fired ==> ticks[i].now <= ticks[i].fired[p] <= ticks[i].ends)
      && (forall j :: i < j < |ticks| && ticks[i].instance == ticks[j].instance ==> ticks[i].ends <= ticks[j].at)
  }

  /** The due check a tick passed: it saw at least the rows of every tick that had ended when it read the clock. */
  ghost predicate ChecksDue(ticks: seq<Tick>, cs: seq<Connector>, registry: map<string, string>) {
    forall j, p :: 0 <= j < |ticks| && p in ticks[j].fired ==>
      exists c, rows: seq<Command> :: c in cs && Producer(registry, c.kind) == p && IsDue(c, registry, rows, ticks[j].now)
        && forall i :: 0 <= i < |ticks| && p in ticks[i].fired && ticks[i].ends <= ticks[j].now ==>
             Command(p, "scan", ticks[i].fired[p]) in rows
  }

  /** Two firings for one producer are at least its scan interval apart, whichever instances fired. */
  lemma FiringsAreApart(seed: Lease, tick: nat, ticks: seq<Tick>, cs: seq<Connector>, registry: map<string, string>,
                        i: nat, j: nat, p: string, hours: nat)
    requires Orderly(seed, tick, ticks) && ChecksDue(ticks, cs, registry)
    requires i < j < |ticks| && p in ticks[i].fired && p in ticks[j].fired
    requires forall c :: c in cs && Producer(registry, c.kind) == p && c.intervalHours.Some? ==> c.intervalHours.value == hours
    ensures ticks[j].fired[p] - ticks[i].fired[p] >= hours * 3600
    ensures ticks[j].now - ticks[i].fired[p] >= hours * 3600
    ensures ticks[j].now - ticks[i].now >= hours * 3600
  {
    var tries := Tries(ticks);
    if ticks[i].instance != ticks[j].instance {
      assert Plausible(tries, 0);
      WinsAreApart(seed, tick, 0, tries, i, j);
    }
    assert ticks[i].ends <= ticks[j].now;
    var c, rows: seq<Command> :| c in cs && Producer(registry, c.kind) == p && IsDue(c, registry, rows, ticks[j].now)
      && forall x :: 0 <= x < |ticks| && p in ticks[x].fired && ticks[x].ends <= ticks[j].now ==>
           Command(p, "scan", ticks[x].fired[p]) in rows;
    var row := Command(p, "scan", ticks[i].fired[p]);
    assert row in rows && IsScanOf(row, p);
  }
}
