/**
 * Filtering, counting and summing over ticket lists. The store's getters
 * are `filter` expressions over the ticket list, and the daily statistics
 * are running counts and means of the same lists; this module gives both
 * one vocabulary and the facts about how they change when a ticket is
 * appended or replaced.
 */
module Tally {
  import opened QueueTypes

  /** A filter: by service type, by status, or both (`None` = any). */
  datatype Sel = Sel(serviceType: Option<ServiceType>, status: Option<Status>)

  predicate Matches(t: Ticket, sel: Sel) {
    (sel.serviceType.None? || t.serviceType == sel.serviceType.value) &&
    (sel.status.None? || t.status == sel.status.value)
  }

  /** `ts.filter(...)`: the matching tickets, in list order. */
  function Select(ts: seq<Ticket>, sel: Sel): (r: seq<Ticket>)
    ensures |r| <= |ts|
  {
    if ts == [] then []
    else (if Matches(ts[0], sel) then [ts[0]] else []) + Select(ts[1..], sel)
  }

  /** The filter keeps exactly the matching tickets. */
  lemma {:induction false} SelectMembers(ts: seq<Ticket>, sel: Sel)
    ensures forall t :: t in Select(ts, sel) <==> t in ts && Matches(t, sel)
    decreases |ts|
  {
    if ts != [] {
      SelectMembers(ts[1..], sel);
      assert ts == [ts[0]] + ts[1..];
    }
  }

  /** The filter keeps every copy of a matching ticket and no copy of another. */
  lemma {:induction false} SelectMultiplicity(ts: seq<Ticket>, sel: Sel)
    ensures forall t :: multiset(Select(ts, sel))[t] == if Matches(t, sel) then multiset(ts)[t] else 0
    decreases |ts|
  {
    if ts != [] {
      SelectMultiplicity(ts[1..], sel);
      assert ts == [ts[0]] + ts[1..];
      assert multiset(ts) == multiset([ts[0]]) + multiset(ts[1..]);
    }
  }

  function Count(ts: seq<Ticket>, sel: Sel): nat {
    |Select(ts, sel)|
  }

  /** The two per-ticket durations the statistics average. */
  datatype Metric = WaitTime | ServiceTime

  /** Milliseconds between two instants, in minutes. */
  function Minutes(from: int, to: int): real {
    (to - from) as real / 60000.0
  }

  /**
   * A ticket's wait (created to called) or service (called to completed)
   * time in minutes; 0 when the instants it needs are missing, as in the
   * source's `ticket.calledAt ? ... : 0`.
   */
  function Measure(t: Ticket, m: Metric): real {
    match m
    case WaitTime =>
      if t.calledAt.Some? then Minutes(t.createdAt, t.calledAt.value) else 0.0
    case ServiceTime =>
      if t.calledAt.Some? && t.completedAt.Some? then Minutes(t.calledAt.value, t.completedAt.value) else 0.0
  }

  /** The sum of `m` over the matching tickets. */
  function Total(ts: seq<Ticket>, sel: Sel, m: Metric): real {
    if ts == [] then 0.0
    else (if Matches(ts[0], sel) then Measure(ts[0], m) else 0.0) + Total(ts[1..], sel, m)
  }

  /** Filtering distributes over concatenation. */
  lemma {:induction false} SelectAppend(a: seq<Ticket>, b: seq<Ticket>, sel: Sel)
    ensures Select(a + b, sel) == Select(a, sel) + Select(b, sel)
    decreases |a|
  {
    if a == [] {
      assert a + b == b;
    } else {
      assert (a + b)[1..] == a[1..] + b;
      SelectAppend(a[1..], b, sel);
    }
  }

  lemma CountAppend(a: seq<Ticket>, b: seq<Ticket>, sel: Sel)
    ensures Count(a + b, sel) == Count(a, sel) + Count(b, sel)
  {
    SelectAppend(a, b, sel);
  }

  /** Appending one ticket adds one to every count it matches and nothing to the others. */
  lemma CountPush(a: seq<Ticket>, x: Ticket, sel: Sel)
    ensures Count(a + [x], sel) == Count(a, sel) + (if Matches(x, sel) then 1 else 0)
  {
    CountAppend(a, [x], sel);
    assert [x][1..] == [];
  }

  lemma {:induction false} TotalAppend(a: seq<Ticket>, b: seq<Ticket>, sel: Sel, m: Metric)
    ensures Total(a + b, sel, m) == Total(a, sel, m) + Total(b, sel, m)
    decreases |a|
  {
    if a == [] {
      assert a + b == b;
    } else {
      assert (a + b)[1..] == a[1..] + b;
      TotalAppend(a[1..], b, sel, m);
    }
  }

  lemma TotalPush(a: seq<Ticket>, x: Ticket, sel: Sel, m: Metric)
    ensures Total(a + [x], sel, m) == Total(a, sel, m) + (if Matches(x, sel) then Measure(x, m) else 0.0)
  {
    TotalAppend(a, [x], sel, m);
    assert [x][1..] == [];
  }

  /** Replacing the ticket at `k` moves each count by what the old and new ticket contribute. */
  lemma {:induction false} CountUpdate(a: seq<Ticket>, k: nat, x: Ticket, sel: Sel)
    requires k < |a|
    ensures Count(a[k := x], sel) as int ==
            Count(a, sel) - (if Matches(a[k], sel) then 1 else 0) + (if Matches(x, sel) then 1 else 0)
    decreases k
  {
    var b := a[k := x];
    if k == 0 {
      assert b[1..] == a[1..];
    } else {
      assert b[1..] == a[1..][k - 1 := x];
      CountUpdate(a[1..], k - 1, x, sel);
    }
  }

  /** Replacing the ticket at `k` moves each sum by what the old and new ticket contribute. */
  lemma {:induction false} TotalUpdate(a: seq<Ticket>, k: nat, x: Ticket, sel: Sel, m: Metric)
    requires k < |a|
    ensures Total(a[k := x], sel, m) ==
            Total(a, sel, m) - (if Matches(a[k], sel) then Measure(a[k], m) else 0.0)
                             + (if Matches(x, sel) then Measure(x, m) else 0.0)
    decreases k
  {
    var b := a[k := x];
    if k == 0 {
      assert b[1..] == a[1..];
    } else {
      assert b[1..] == a[1..][k - 1 := x];
      TotalUpdate(a[1..], k - 1, x, sel, m);
    }
  }

  /** Counting by service type alone sees only the service types of the tickets. */
  lemma {:induction false} CountByTypeOnly(a: seq<Ticket>, b: seq<Ticket>, st: Option<ServiceType>)
    requires |a| == |b|
    requires forall i :: 0 <= i < |a| ==> a[i].serviceType == b[i].serviceType
    ensures Count(a, Sel(st, None)) == Count(b, Sel(st, None))
    decreases |a|
  {
    if a != [] {
      CountByTypeOnly(a[1..], b[1..], st);
    }
  }
}
