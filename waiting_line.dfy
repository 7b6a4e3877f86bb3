/**
 * The store's read-only queries (context/QueueContext.tsx) and the order
 * in which tickets are called: waiting tickets sorted by creation time with
 * a stable sort, so that tickets created at the same instant keep their
 * list order.
 */
module WaitingLine {
  import opened QueueTypes
  import opened Tally

  predicate Sorted(s: seq<Ticket>) {
    forall i, j :: 0 <= i < j < |s| ==> s[i].createdAt <= s[j].createdAt
  }

  /** Places `x` before the first element of `r` created no earlier than it. */
  function Insert(x: Ticket, r: seq<Ticket>): (s: seq<Ticket>)
    ensures |s| == |r| + 1
    ensures multiset(s) == multiset(r) + multiset{x}
    ensures s[0] == if r == [] || x.createdAt <= r[0].createdAt then x else r[0]
  {
    if r == [] || x.createdAt <= r[0].createdAt then [x] + r
    else
      assert r == [r[0]] + r[1..];
      [r[0]] + Insert(x, r[1..])
  }

  lemma {:induction false} InsertSorted(x: Ticket, r: seq<Ticket>)
    requires Sorted(r)
    ensures Sorted(Insert(x, r))
    decreases |r|
  {
    if !(r == [] || x.createdAt <= r[0].createdAt) {
      var tail := Insert(x, r[1..]);
      InsertSorted(x, r[1..]);
      assert r[0].createdAt <= tail[0].createdAt by {
        if r[1..] != [] {
          assert r[1..][0] == r[1];
        }
      }
      var s := [r[0]] + tail;
      forall i, j | 0 <= i < j < |s| ensures s[i].createdAt <= s[j].createdAt {
        if i == 0 {
          assert s[j] == tail[j - 1];
          assert j > 1 ==> tail[0].createdAt <= tail[j - 1].createdAt;
        } else {
          assert s[i] == tail[i - 1] && s[j] == tail[j - 1];
        }
      }
    }
  }

  /**
   * `sort((a, b) => a.createdAt - b.createdAt)`: ascending by creation time;
   * JavaScript's sort is stable, and so is this insertion sort.
   */
  function SortByCreated(s: seq<Ticket>): (r: seq<Ticket>)
    ensures |r| == |s|
    ensures multiset(r) == multiset(s)
    ensures Sorted(r)
  {
    if s == [] then []
    else
      assert s == [s[0]] + s[1..];
      var tail := SortByCreated(s[1..]);
      InsertSorted(s[0], tail);
      Insert(s[0], tail)
  }

  /** The tickets created at instant `time`, in list order. */
  function CreatedAt(s: seq<Ticket>, time: int): seq<Ticket> {
    if s == [] then []
    else (if s[0].createdAt == time then [s[0]] else []) + CreatedAt(s[1..], time)
  }

  lemma {:induction false} InsertKeepsTies(x: Ticket, r: seq<Ticket>, time: int)
    ensures CreatedAt(Insert(x, r), time) == (if x.createdAt == time then [x] else []) + CreatedAt(r, time)
    decreases |r|
  {
    var hx := if x.createdAt == time then [x] else [];
    if r == [] || x.createdAt <= r[0].createdAt {
      assert ([x] + r)[0] == x && ([x] + r)[1..] == r;
    } else {
      var tail := Insert(x, r[1..]);
      var hr := if r[0].createdAt == time then [r[0]] else [];
      assert ([r[0]] + tail)[0] == r[0] && ([r[0]] + tail)[1..] == tail;
      assert CreatedAt(Insert(x, r), time) == hr + CreatedAt(tail, time);
      InsertKeepsTies(x, r[1..], time);
      assert CreatedAt(tail, time) == hx + CreatedAt(r[1..], time);
      assert CreatedAt(r, time) == hr + CreatedAt(r[1..], time);
      // x was created after r[0], so at most one of them was created at `time`.
      if x.createdAt != time {
        assert hx == [];
        assert hx + CreatedAt(r[1..], time) == CreatedAt(r[1..], time);
        assert hx + CreatedAt(r, time) == CreatedAt(r, time);
      } else {
        assert r[0].createdAt != time;
        assert hr == [];
        assert hr + CreatedAt(tail, time) == CreatedAt(tail, time);
        assert hr + CreatedAt(r[1..], time) == CreatedAt(r[1..], time);
      }
    }
  }

  /**
   * Stability: for every instant, the tickets created at that instant come
   * out of the sort in the order they went in.
   */
  lemma {:induction false} SortIsStable(s: seq<Ticket>, time: int)
    ensures CreatedAt(SortByCreated(s), time) == CreatedAt(s, time)
    decreases |s|
  {
    if s != [] {
      SortIsStable(s[1..], time);
      InsertKeepsTies(s[0], SortByCreated(s[1..]), time);
    }
  }

  function WaitingSel(st: Option<ServiceType>): Sel {
    Sel(st, Some(Waiting))
  }

  /**
   * getWaitingTickets: the waiting tickets (of queue `st`, or of every queue
   * when `st` is None), earliest created first.
   */
  function GetWaitingTickets(ts: seq<Ticket>, st: Option<ServiceType>): (r: seq<Ticket>)
    ensures forall t :: t in r <==> t in ts && t.status == Waiting && (st.None? || t.serviceType == st.value)
    ensures multiset(r) == multiset(Select(ts, WaitingSel(st)))
    ensures forall t :: multiset(r)[t] ==
              if t.status == Waiting && (st.None? || t.serviceType == st.value) then multiset(ts)[t] else 0
    ensures Sorted(r)
  {
    var w := Select(ts, WaitingSel(st));
    var r := SortByCreated(w);
    SelectMembers(ts, WaitingSel(st));
    SelectMultiplicity(ts, WaitingSel(st));
    forall t ensures t in r <==> t in ts && t.status == Waiting && (st.None? || t.serviceType == st.value) {
      assert t in r <==> t in multiset(r);
      assert t in w <==> t in multiset(w);
    }
    r
  }

  /** getWaitingCount: how many tickets are waiting (in queue `st`, or in all). */
  function GetWaitingCount(ts: seq<Ticket>, st: Option<ServiceType>): (n: nat)
    ensures n == |GetWaitingTickets(ts, st)|
    ensures n <= |ts|
  {
    Count(ts, WaitingSel(st))
  }

  /** getCurrentServing: the tickets now being served, each as often as it is listed. */
  function GetCurrentServing(ts: seq<Ticket>): (r: seq<Ticket>)
    ensures forall t :: t in r <==> t in ts && t.status == Serving
    ensures forall t :: multiset(r)[t] == if t.status == Serving then multiset(ts)[t] else 0
    ensures |r| <= |ts|
  {
    SelectMembers(ts, Sel(None, Some(Serving)));
    SelectMultiplicity(ts, Sel(None, Some(Serving)));
    Select(ts, Sel(None, Some(Serving)))
  }

  /**
   * `ts[k]` is the ticket that callNext picks among those matching `sel`:
   * it matches, nothing matching was created earlier, and every matching
   * ticket before it in the list was created strictly later.
   */
  ghost predicate IsNextInLine(ts: seq<Ticket>, sel: Sel, k: int) {
    0 <= k < |ts| && Matches(ts[k], sel) &&
    (forall j :: 0 <= j < |ts| && Matches(ts[j], sel) ==> ts[k].createdAt <= ts[j].createdAt) &&
    (forall j :: 0 <= j < k && Matches(ts[j], sel) ==> ts[k].createdAt < ts[j].createdAt)
  }

  /** At most one position is next in line. */
  lemma NextInLineUnique(ts: seq<Ticket>, sel: Sel, k: int, k': int)
    requires IsNextInLine(ts, sel, k) && IsNextInLine(ts, sel, k')
    ensures k == k'
  {
  }

  /** The first ticket is next in line when it matches and no matching ticket was created earlier. */
  lemma NextInLineAtFront(ts: seq<Ticket>, sel: Sel)
    requires ts != [] && Matches(ts[0], sel)
    requires forall t :: t in Select(ts[1..], sel) ==> ts[0].createdAt <= t.createdAt
    ensures IsNextInLine(ts, sel, 0)
  {
    SelectMembers(ts[1..], sel);
    forall j | 1 <= j < |ts| && Matches(ts[j], sel) ensures ts[0].createdAt <= ts[j].createdAt {
      assert ts[j] == ts[1..][j - 1];
    }
  }

  /** Next in line in the tail stays next in line when the front ticket does not beat it. */
  lemma NextInLineBehindFront(ts: seq<Ticket>, sel: Sel, k: int)
    requires ts != [] && IsNextInLine(ts[1..], sel, k)
    requires Matches(ts[0], sel) ==> ts[k + 1].createdAt < ts[0].createdAt
    ensures IsNextInLine(ts, sel, k + 1)
  {
    assert ts[k + 1] == ts[1..][k];
    forall j | 1 <= j < |ts| && Matches(ts[j], sel) ensures ts[k + 1].createdAt <= ts[j].createdAt {
      assert ts[j] == ts[1..][j - 1];
    }
    forall j | 1 <= j < k + 1 && Matches(ts[j], sel) ensures ts[k + 1].createdAt < ts[j].createdAt {
      assert ts[j] == ts[1..][j - 1];
    }
  }

  /**
   * The head of the sorted waiting list is the ticket next in line: the
   * earliest created, and of those the first in the list.
   */
  lemma {:induction false} SortedHeadIsNextInLine(ts: seq<Ticket>, sel: Sel) returns (k: int)
    requires Select(ts, sel) != []
    ensures IsNextInLine(ts, sel, k) && SortByCreated(Select(ts, sel))[0] == ts[k]
    decreases |ts|
  {
    var w := Select(ts, sel);
    var rest := Select(ts[1..], sel);
    var here := Matches(ts[0], sel);
    assert w == (if here then [ts[0]] else []) + rest;
    if !here {
      assert w == rest;
      var k' := SortedHeadIsNextInLine(ts[1..], sel);
      NextInLineBehindFront(ts, sel, k');
      k := k' + 1;
      assert ts[k] == ts[1..][k'];
    } else {
      assert w[0] == ts[0] && w[1..] == rest;
      ghost var sw := SortByCreated(w);
      assert sw == Insert(ts[0], SortByCreated(rest));
      if rest == [] {
        NextInLineAtFront(ts, sel);
        k := 0;
        assert sw[0] == ts[0];
      } else {
        var k' := SortedHeadIsNextInLine(ts[1..], sel);
        var sr := SortByCreated(rest);
        assert sr[0] == ts[k' + 1];
        if ts[0].createdAt <= sr[0].createdAt {
          forall t | t in rest ensures ts[0].createdAt <= t.createdAt {
            SelectMembers(ts[1..], sel);
            var j :| 0 <= j < |ts[1..]| && ts[1..][j] == t;
          }
          NextInLineAtFront(ts, sel);
          k := 0;
          assert sw[0] == ts[0];
        } else {
          NextInLineBehindFront(ts, sel, k');
          k := k' + 1;
          assert sw[0] == sr[0];
        }
      }
    }
  }
}
