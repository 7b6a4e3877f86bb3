/**
 * The four pieces of the queue store's state as values (context/QueueContext.tsx):
 * the initial counter configuration, the zero statistics, the statistics
 * updaters, the invariant that ties tickets, counters, statistics and
 * sequence counters together, and the proofs that each store operation
 * keeps it.
 */
module StoreState {
  import opened QueueTypes
  import opened DisplayCode
  import opened Tally
  import opened WaitingLine

  /** INITIAL_COUNTERS: five counters, counter 4 closed. */
  const InitialCounters: seq<Counter> := [
    Counter(1, "Loket 1", Teller, true, None, None),
    Counter(2, "Loket 2", Teller, true, None, None),
    Counter(3, "Loket 3", CustomerService, true, None, None),
    Counter(4, "Loket 4", CustomerService, false, None, None),
    Counter(5, "Loket 5", Loan, true, None, None)
  ]

  const ZeroServiceStats := ServiceStats(0, 0, 0, 0.0)

  /** getInitialStats, with today's date passed in. */
  function InitialStats(date: string): QueueStats {
    QueueStats(date, 0, 0, 0.0, 0.0,
      map[Teller := ZeroServiceStats, CustomerService := ZeroServiceStats, Loan := ZeroServiceStats],
      seq(24, i => HourCount(i, 0)))
  }

  /** The sequence counters after a reset: every queue at 0. */
  const ZeroTicketCounters: map<ServiceType, nat> := map[Teller := 0, CustomerService := 0, Loan := 0]

  /** `(oldAvg * n + x) / (n + 1)`: the mean of n + 1 samples from the mean of n. */
  function RunningMean(avg: real, n: nat, x: real): (r: real)
    ensures r * (n + 1) as real == avg * n as real + x
  {
    (avg * n as real + x) / (n + 1) as real
  }

  /** The statistics updater of takeTicket: one more issued in `st` and in hour `hour`. */
  function IssuedStats(stats: QueueStats, st: ServiceType, hour: int): QueueStats
    requires st in stats.byService
  {
    var s := stats.byService[st];
    var h := stats.hourlyData;
    stats.(
      byService := stats.byService[st := s.(total := s.total + 1)],
      hourlyData := seq(|h|, i requires 0 <= i < |h| =>
        if h[i].hour == hour then h[i].(count := h[i].count + 1) else h[i]))
  }

  /**
   * The statistics updater of completeService for ticket `t` completed at
   * `now`: wait = called - created and service = now - called, in minutes
   * (0 when `calledAt` is missing), folded into the running means with the
   * counts before the increment.
   */
  function ServedStats(stats: QueueStats, t: Ticket, now: int): QueueStats
    requires t.serviceType in stats.byService
  {
    var wait := Measure(t, WaitTime);
    var service := Measure(t.(completedAt := Some(now)), ServiceTime);
    var s := stats.byService[t.serviceType];
    stats.(
      totalServed := stats.totalServed + 1,
      averageWaitTime := RunningMean(stats.averageWaitTime, stats.totalServed, wait),
      averageServiceTime := RunningMean(stats.averageServiceTime, stats.totalServed, service),
      byService := stats.byService[t.serviceType :=
        s.(served := s.served + 1, avgWaitTime := RunningMean(s.avgWaitTime, s.served, wait))])
  }

  /** The statistics updater of skipTicket: one more skipped, overall and in `st`. */
  function SkippedStats(stats: QueueStats, st: ServiceType): QueueStats
    requires st in stats.byService
  {
    var s := stats.byService[st];
    stats.(
      totalSkipped := stats.totalSkipped + 1,
      byService := stats.byService[st := s.(skipped := s.skipped + 1)])
  }

  /**
   * takeTicket's statistics: `st`'s total and the bucket of hour `hour` go up
   * by one; every other count, bucket and average stays as it was.
   */
  lemma IssuedStatsChanges(stats: QueueStats, st: ServiceType, hour: int)
    requires st in stats.byService
    ensures var r := IssuedStats(stats, st, hour);
      r.byService.Keys == stats.byService.Keys &&
      r.byService[st] == stats.byService[st].(total := stats.byService[st].total + 1) &&
      (forall u :: u in stats.byService && u != st ==> r.byService[u] == stats.byService[u]) &&
      |r.hourlyData| == |stats.hourlyData| &&
      (forall i :: 0 <= i < |stats.hourlyData| ==>
        r.hourlyData[i].hour == stats.hourlyData[i].hour &&
        r.hourlyData[i].count == stats.hourlyData[i].count + (if stats.hourlyData[i].hour == hour then 1 else 0)) &&
      r.date == stats.date && r.totalServed == stats.totalServed && r.totalSkipped == stats.totalSkipped &&
      r.averageWaitTime == stats.averageWaitTime && r.averageServiceTime == stats.averageServiceTime
  {
  }

  /**
   * completeService's statistics: one more served overall and in `t`'s
   * queue, each mean advanced by the ticket's sample; skipped counts,
   * totals, other queues and the hourly buckets stay as they were.
   */
  lemma ServedStatsChanges(stats: QueueStats, t: Ticket, now: int)
    requires t.serviceType in stats.byService
    ensures var r := ServedStats(stats, t, now);
      var s := stats.byService[t.serviceType];
      var rs := r.byService[t.serviceType];
      r.byService.Keys == stats.byService.Keys &&
      r.totalServed == stats.totalServed + 1 && rs.served == s.served + 1 &&
      r.averageWaitTime * r.totalServed as real ==
        stats.averageWaitTime * stats.totalServed as real + Measure(t, WaitTime) &&
      r.averageServiceTime * r.totalServed as real ==
        stats.averageServiceTime * stats.totalServed as real + Measure(t.(completedAt := Some(now)), ServiceTime) &&
      rs.avgWaitTime * rs.served as real == s.avgWaitTime * s.served as real + Measure(t, WaitTime) &&
      rs.total == s.total && rs.skipped == s.skipped &&
      (forall u :: u in stats.byService && u != t.serviceType ==> r.byService[u] == stats.byService[u]) &&
      r.date == stats.date && r.totalSkipped == stats.totalSkipped && r.hourlyData == stats.hourlyData
  {
  }

  /**
   * skipTicket's statistics: one more skipped overall and in `st`; served
   * counts, every average, other queues and the hourly buckets stay as
   * they were.
   */
  lemma SkippedStatsChanges(stats: QueueStats, st: ServiceType)
    requires st in stats.byService
    ensures var r := SkippedStats(stats, st);
      r.byService.Keys == stats.byService.Keys &&
      r.totalSkipped == stats.totalSkipped + 1 &&
      r.byService[st] == stats.byService[st].(skipped := stats.byService[st].skipped + 1) &&
      (forall u :: u in stats.byService && u != st ==> r.byService[u] == stats.byService[u]) &&
      r.date == stats.date && r.totalServed == stats.totalServed &&
      r.averageWaitTime == stats.averageWaitTime && r.averageServiceTime == stats.averageServiceTime &&
      r.hourlyData == stats.hourlyData
  {
  }

  /**
   * The reset state: counters 1 to 5 with counter 4 the only closed one and
   * every slot empty; every statistic 0 with 24 buckets for hours 0 to 23;
   * every sequence counter 0.
   */
  lemma InitialShape(date: string)
    ensures |InitialCounters| == 5
    ensures forall i :: 0 <= i < 5 ==>
      InitialCounters[i].id == i + 1 && (InitialCounters[i].isActive <==> i != 3) &&
      InitialCounters[i].currentTicket.None? && InitialCounters[i].officerName.None?
    ensures var stats := InitialStats(date);
      stats.date == date && stats.totalServed == 0 && stats.totalSkipped == 0 &&
      stats.averageWaitTime == 0.0 && stats.averageServiceTime == 0.0 &&
      (forall u: ServiceType :: u in stats.byService && stats.byService[u] == ServiceStats(0, 0, 0, 0.0)) &&
      |stats.hourlyData| == 24 &&
      (forall i :: 0 <= i < 24 ==> stats.hourlyData[i] == HourCount(i, 0))
    ensures forall u: ServiceType :: u in ZeroTicketCounters && ZeroTicketCounters[u] == 0
  {
    forall u: ServiceType
      ensures u in InitialStats(date).byService && InitialStats(date).byService[u] == ServiceStats(0, 0, 0, 0.0)
      ensures u in ZeroTicketCounters && ZeroTicketCounters[u] == 0
    {
      assert u == Teller || u == CustomerService || u == Loan;
    }
  }

  // ---------------------------------------------------------------------
  // Ticket transitions

  /** The ticket takeTicket builds for number `n`. */
  function NewTicket(st: ServiceType, n: nat, id: nat, now: int): Ticket {
    Ticket(id, n, TicketCode(st, n), st, Waiting, now, None, None, None)
  }

  function CalledTicket(t: Ticket, now: int, counterId: int): Ticket {
    t.(status := Serving, calledAt := Some(now), counter := Some(counterId))
  }

  function CompletedTicket(t: Ticket, now: int): Ticket {
    t.(status := Completed, completedAt := Some(now))
  }

  function SkippedTicket(t: Ticket, now: int): Ticket {
    t.(status := Skipped, completedAt := Some(now))
  }

  /** The fields fixed when a ticket is issued. */
  predicate SameIssue(a: Ticket, b: Ticket) {
    a.id == b.id && a.number == b.number && a.displayNumber == b.displayNumber &&
    a.serviceType == b.serviceType && a.createdAt == b.createdAt
  }

  /**
   * `after` extends `before`: no ticket is lost or re-issued, every ticket
   * moves forward along its lifecycle, and completed and skipped tickets do
   * not change at all.
   */
  ghost predicate Evolves(before: seq<Ticket>, after: seq<Ticket>) {
    |before| <= |after| &&
    forall i :: 0 <= i < |before| ==>
      SameIssue(before[i], after[i]) && Advances(before[i].status, after[i].status) &&
      (IsTerminal(before[i].status) ==> after[i] == before[i])
  }

  // ---------------------------------------------------------------------
  // The store invariant

  /** Ids, names and service types of the counters are those of INITIAL_COUNTERS. */
  ghost predicate CountersFixed(cs: seq<Counter>) {
    |cs| == |InitialCounters| &&
    forall i :: 0 <= i < |cs| ==>
      cs[i].id == InitialCounters[i].id && cs[i].name == InitialCounters[i].name &&
      cs[i].serviceType == InitialCounters[i].serviceType
  }

  /**
   * The optional fields agree with the status: a waiting ticket has not been
   * called, a called one records when and where, and exactly the completed
   * and skipped ones record when they were resolved.
   */
  ghost predicate WellFormed(t: Ticket) {
    t.displayNumber == TicketCode(t.serviceType, t.number) &&
    (t.status == Waiting <==> t.calledAt.None?) &&
    (t.status == Waiting <==> t.counter.None?) &&
    (IsTerminal(t.status) <==> t.completedAt.Some?)
  }

  ghost predicate UniqueIds(ts: seq<Ticket>) {
    forall i, j :: 0 <= i < j < |ts| ==> ts[i].id != ts[j].id
  }

  /** Each ticket's number is one more than the tickets of its queue issued before it. */
  ghost predicate Numbered(ts: seq<Ticket>) {
    forall i :: 0 <= i < |ts| ==> ts[i].number == Count(ts[..i], Sel(Some(ts[i].serviceType), None)) + 1
  }

  function ByType(s: ServiceType): Sel {
    Sel(Some(s), None)
  }

  ghost predicate TicketsSound(ts: seq<Ticket>, seqno: map<ServiceType, nat>) {
    UniqueIds(ts) && Numbered(ts) &&
    (forall i :: 0 <= i < |ts| ==> WellFormed(ts[i])) &&
    forall s: ServiceType :: s in seqno && seqno[s] == Count(ts, ByType(s))
  }

  /**
   * Every non-empty counter slot is a copy of a ticket in the list that is
   * being served at that counter and belongs to the counter's queue.
   */
  ghost predicate Mirrored(cs: seq<Counter>, ts: seq<Ticket>) {
    forall i :: 0 <= i < |cs| && cs[i].currentTicket.Some? ==>
      cs[i].currentTicket.value in ts &&
      cs[i].currentTicket.value.status == Serving &&
      cs[i].currentTicket.value.counter == Some(cs[i].id) &&
      cs[i].currentTicket.value.serviceType == cs[i].serviceType
  }

  function Slots(cs: seq<Counter>): (r: seq<Option<Ticket>>)
    ensures |r| == |cs|
  {
    seq(|cs|, i requires 0 <= i < |cs| => cs[i].currentTicket)
  }

  /** Every ticket being served sits in some counter's slot. */
  ghost predicate NoOrphans(cs: seq<Counter>, ts: seq<Ticket>) {
    forall t :: t in ts && t.status == Serving ==> Some(t) in Slots(cs)
  }

  const ServedSel := Sel(None, Some(Completed))
  const SkippedSel := Sel(None, Some(Skipped))

  function ServedIn(s: ServiceType): Sel {
    Sel(Some(s), Some(Completed))
  }

  function SkippedIn(s: ServiceType): Sel {
    Sel(Some(s), Some(Skipped))
  }

  function HourTotal(h: seq<HourCount>): nat {
    if h == [] then 0 else h[0].count + HourTotal(h[1..])
  }

  /** One service's counters are the counts of its issued, completed and skipped tickets. */
  ghost predicate ServiceCounts(ss: ServiceStats, ts: seq<Ticket>, s: ServiceType) {
    ss.total == Count(ts, ByType(s)) &&
    ss.served == Count(ts, ServedIn(s)) &&
    ss.skipped == Count(ts, SkippedIn(s))
  }

  /** A running mean agrees with its samples: the mean times the count is the sum. */
  ghost predicate MeanOf(avg: real, n: nat, sum: real) {
    avg * n as real == sum
  }

  /** 24 hourly buckets, hours 0..23, together counting every issued ticket. */
  ghost predicate HoursAgree(h: seq<HourCount>, issued: nat) {
    |h| == 24 && (forall i :: 0 <= i < |h| ==> h[i].hour == i) && HourTotal(h) == issued
  }

  /** The counters of the statistics are counts over the ticket list. */
  ghost predicate StatsCounts(stats: QueueStats, ts: seq<Ticket>) {
    stats.totalServed == Count(ts, ServedSel) &&
    stats.totalSkipped == Count(ts, SkippedSel) &&
    (forall s: ServiceType :: s in stats.byService && ServiceCounts(stats.byService[s], ts, s)) &&
    HoursAgree(stats.hourlyData, |ts|)
  }

  /** Each average of the statistics is the mean of its samples over the completed tickets. */
  ghost predicate StatsMeans(stats: QueueStats, ts: seq<Ticket>) {
    MeanOf(stats.averageWaitTime, stats.totalServed, Total(ts, ServedSel, WaitTime)) &&
    MeanOf(stats.averageServiceTime, stats.totalServed, Total(ts, ServedSel, ServiceTime)) &&
    forall s: ServiceType :: s in stats.byService ==>
      MeanOf(stats.byService[s].avgWaitTime, stats.byService[s].served, Total(ts, ServedIn(s), WaitTime))
  }

  /**
   * The statistics are the counts of issued, completed and skipped tickets,
   * and each average times its count is the sum of its samples.
   */
  ghost predicate StatsAgree(stats: QueueStats, ts: seq<Ticket>) {
    StatsCounts(stats, ts) && StatsMeans(stats, ts)
  }

  ghost predicate Invariant(ts: seq<Ticket>, cs: seq<Counter>, stats: QueueStats, seqno: map<ServiceType, nat>) {
    CountersFixed(cs) && TicketsSound(ts, seqno) && Mirrored(cs, ts) && StatsAgree(stats, ts)
  }

  // ---------------------------------------------------------------------
  // Small facts

  lemma CounterIds(cs: seq<Counter>)
    requires CountersFixed(cs)
    ensures forall i :: 0 <= i < |cs| ==> cs[i].id == i + 1
  {
  }

  lemma InAfterReplace(ts: seq<Ticket>, k: nat, x: Ticket, p: Ticket)
    requires k < |ts| && p in ts && p != ts[k]
    ensures p in ts[k := x]
  {
    var i :| 0 <= i < |ts| && ts[i] == p;
    assert ts[k := x][i] == p;
  }

  lemma SlotAfterReplace(cs: seq<Counter>, j: nat, c: Counter, t: Ticket)
    requires j < |cs| && Some(t) in Slots(cs) && cs[j].currentTicket != Some(t)
    ensures Some(t) in Slots(cs[j := c])
  {
    var i :| 0 <= i < |cs| && Slots(cs)[i] == Some(t);
    assert Slots(cs[j := c])[i] == Some(t);
  }

  lemma {:induction false} HourTotalUpdate(h: seq<HourCount>, k: nat, x: HourCount)
    requires k < |h|
    ensures HourTotal(h[k := x]) == HourTotal(h) - h[k].count + x.count
    decreases k
  {
    if k == 0 {
      assert h[k := x][1..] == h[1..];
    } else {
      assert h[k := x][1..] == h[1..][k - 1 := x];
      HourTotalUpdate(h[1..], k - 1, x);
    }
  }

  lemma {:induction false} HourTotalZero(n: nat)
    ensures HourTotal(seq(n, i => HourCount(i, 0))) == 0
    decreases n
  {
    if n > 0 {
      var h := seq(n, i => HourCount(i, 0));
      var g := seq(n - 1, i => HourCount(i, 0));
      assert h == g + [HourCount(n - 1, 0)];
      HourTotalAppend(g, [HourCount(n - 1, 0)]);
      HourTotalZero(n - 1);
    }
  }

  lemma {:induction false} HourTotalAppend(a: seq<HourCount>, b: seq<HourCount>)
    ensures HourTotal(a + b) == HourTotal(a) + HourTotal(b)
    decreases |a|
  {
    if a == [] {
      assert a + b == b;
    } else {
      assert (a + b)[1..] == a[1..] + b;
      HourTotalAppend(a[1..], b);
    }
  }

  /** Tickets that agree on their issue fields are numbered alike. */
  lemma NumberedBySameIssue(a: seq<Ticket>, b: seq<Ticket>)
    requires |a| == |b| && forall i :: 0 <= i < |a| ==> SameIssue(a[i], b[i])
    requires Numbered(a)
    ensures Numbered(b)
    ensures forall s: ServiceType :: Count(a, ByType(s)) == Count(b, ByType(s))
  {
    forall i | 0 <= i < |b|
      ensures b[i].number == Count(b[..i], ByType(b[i].serviceType)) + 1
    {
      CountByTypeOnly(a[..i], b[..i], Some(b[i].serviceType));
    }
    forall s: ServiceType ensures Count(a, ByType(s)) == Count(b, ByType(s)) {
      CountByTypeOnly(a, b, Some(s));
    }
  }

  /** Replacing a ticket by a well-formed one with the same issue fields keeps the list sound. */
  lemma ReplaceKeepsTicketsSound(ts: seq<Ticket>, seqno: map<ServiceType, nat>, k: nat, x: Ticket)
    requires TicketsSound(ts, seqno) && k < |ts|
    requires SameIssue(ts[k], x) && WellFormed(x)
    ensures TicketsSound(ts[k := x], seqno)
    ensures Evolves(ts, ts[k := x]) <== Advances(ts[k].status, x.status) && !IsTerminal(ts[k].status)
  {
    var ts' := ts[k := x];
    forall i | 0 <= i < |ts| ensures SameIssue(ts[i], ts'[i]) {
      if i != k {
        assert ts'[i] == ts[i];
      }
    }
    NumberedBySameIssue(ts, ts');
    ReplaceKeepsUniqueIds(ts, k, x);
    forall i | 0 <= i < |ts'| ensures WellFormed(ts'[i]) {
      if i != k {
        assert ts'[i] == ts[i];
      }
    }
    assert forall s: ServiceType :: s in seqno && seqno[s] == Count(ts', ByType(s));
    TicketsSoundIntro(ts', seqno);
    if Advances(ts[k].status, x.status) && !IsTerminal(ts[k].status) {
      ReplaceEvolves(ts, k, x);
    }
  }

  lemma ReplaceKeepsUniqueIds(ts: seq<Ticket>, k: nat, x: Ticket)
    requires UniqueIds(ts) && k < |ts| && x.id == ts[k].id
    ensures UniqueIds(ts[k := x])
  {
    var ts' := ts[k := x];
    forall i, j | 0 <= i < j < |ts'| ensures ts'[i].id != ts'[j].id {
      assert ts'[i].id == ts[i].id && ts'[j].id == ts[j].id;
    }
  }

  /** Moving one ticket forward along its lifecycle, keeping its issue fields, evolves the list. */
  lemma ReplaceEvolves(ts: seq<Ticket>, k: nat, x: Ticket)
    requires k < |ts| && SameIssue(ts[k], x)
    requires Advances(ts[k].status, x.status) && !IsTerminal(ts[k].status)
    ensures Evolves(ts, ts[k := x])
  {
    var ts' := ts[k := x];
    forall i | 0 <= i < |ts| ensures SameIssue(ts[i], ts'[i]) && Advances(ts[i].status, ts'[i].status) {
      if i != k {
        assert ts'[i] == ts[i];
      }
    }
  }

  // ---------------------------------------------------------------------
  // Statistics after each operation

  /** Folding one more sample into a running mean keeps it the mean of its samples. */
  lemma MeanStep(avg: real, n: nat, sum: real, x: real)
    requires MeanOf(avg, n, sum)
    ensures MeanOf(RunningMean(avg, n, x), n + 1, sum + x)
  {
    var r := RunningMean(avg, n, x);
    assert r * (n + 1) as real == avg * n as real + x;
  }

  lemma CountsAfterIssue(stats: QueueStats, ts: seq<Ticket>, t: Ticket, hour: int)
    requires StatsCounts(stats, ts) && t.status == Waiting && 0 <= hour < 24
    ensures StatsCounts(IssuedStats(stats, t.serviceType, hour), ts + [t])
  {
    var stats' := IssuedStats(stats, t.serviceType, hour);
    var ts' := ts + [t];
    CountPush(ts, t, ServedSel);
    CountPush(ts, t, SkippedSel);
    forall s: ServiceType ensures s in stats'.byService && ServiceCounts(stats'.byService[s], ts', s) {
      CountPush(ts, t, ByType(s));
      CountPush(ts, t, ServedIn(s));
      CountPush(ts, t, SkippedIn(s));
    }
    var h := stats.hourlyData;
    assert stats'.hourlyData == h[hour := h[hour].(count := h[hour].count + 1)];
    HourTotalUpdate(h, hour, h[hour].(count := h[hour].count + 1));
  }

  lemma MeansAfterIssue(stats: QueueStats, ts: seq<Ticket>, t: Ticket, hour: int)
    requires StatsMeans(stats, ts) && t.status == Waiting && t.serviceType in stats.byService
    ensures StatsMeans(IssuedStats(stats, t.serviceType, hour), ts + [t])
  {
    var stats' := IssuedStats(stats, t.serviceType, hour);
    TotalPush(ts, t, ServedSel, WaitTime);
    TotalPush(ts, t, ServedSel, ServiceTime);
    forall s: ServiceType | s in stats'.byService
      ensures MeanOf(stats'.byService[s].avgWaitTime, stats'.byService[s].served, Total(ts + [t], ServedIn(s), WaitTime))
    {
      TotalPush(ts, t, ServedIn(s), WaitTime);
    }
  }

  lemma CountsAfterCall(stats: QueueStats, ts: seq<Ticket>, k: nat, x: Ticket)
    requires StatsCounts(stats, ts) && k < |ts|
    requires ts[k].status == Waiting && x.status == Serving && x.serviceType == ts[k].serviceType
    ensures StatsCounts(stats, ts[k := x])
  {
    var ts' := ts[k := x];
    CountUpdate(ts, k, x, ServedSel);
    CountUpdate(ts, k, x, SkippedSel);
    forall s: ServiceType ensures ServiceCounts(stats.byService[s], ts', s) {
      CountUpdate(ts, k, x, ByType(s));
      CountUpdate(ts, k, x, ServedIn(s));
      CountUpdate(ts, k, x, SkippedIn(s));
    }
  }

  lemma MeansAfterCall(stats: QueueStats, ts: seq<Ticket>, k: nat, x: Ticket)
    requires StatsMeans(stats, ts) && k < |ts|
    requires ts[k].status == Waiting && x.status == Serving
    ensures StatsMeans(stats, ts[k := x])
  {
    TotalUpdate(ts, k, x, ServedSel, WaitTime);
    TotalUpdate(ts, k, x, ServedSel, ServiceTime);
    forall s: ServiceType | s in stats.byService
      ensures MeanOf(stats.byService[s].avgWaitTime, stats.byService[s].served, Total(ts[k := x], ServedIn(s), WaitTime))
    {
      TotalUpdate(ts, k, x, ServedIn(s), WaitTime);
    }
  }

  lemma CountsAfterComplete(stats: QueueStats, ts: seq<Ticket>, k: nat, now: int)
    requires StatsCounts(stats, ts) && k < |ts| && ts[k].status == Serving
    ensures StatsCounts(ServedStats(stats, ts[k], now), ts[k := CompletedTicket(ts[k], now)])
  {
    var x := CompletedTicket(ts[k], now);
    var ts' := ts[k := x];
    var stats' := ServedStats(stats, ts[k], now);
    CountUpdate(ts, k, x, ServedSel);
    CountUpdate(ts, k, x, SkippedSel);
    forall s: ServiceType ensures s in stats'.byService && ServiceCounts(stats'.byService[s], ts', s) {
      CountUpdate(ts, k, x, ByType(s));
      CountUpdate(ts, k, x, ServedIn(s));
      CountUpdate(ts, k, x, SkippedIn(s));
    }
  }

  lemma MeansAfterComplete(stats: QueueStats, ts: seq<Ticket>, k: nat, now: int)
    requires StatsMeans(stats, ts) && k < |ts|
    requires ts[k].status == Serving && ts[k].calledAt.Some? && ts[k].serviceType in stats.byService
    ensures StatsMeans(ServedStats(stats, ts[k], now), ts[k := CompletedTicket(ts[k], now)])
  {
    var t := ts[k];
    var x := CompletedTicket(t, now);
    var stats' := ServedStats(stats, t, now);
    var wait := Minutes(t.createdAt, t.calledAt.value);
    var service := Minutes(t.calledAt.value, now);
    assert Measure(x, WaitTime) == wait;
    assert Measure(x, ServiceTime) == service;
    TotalUpdate(ts, k, x, ServedSel, WaitTime);
    TotalUpdate(ts, k, x, ServedSel, ServiceTime);
    MeanStep(stats.averageWaitTime, stats.totalServed, Total(ts, ServedSel, WaitTime), wait);
    MeanStep(stats.averageServiceTime, stats.totalServed, Total(ts, ServedSel, ServiceTime), service);
    forall s: ServiceType | s in stats'.byService
      ensures MeanOf(stats'.byService[s].avgWaitTime, stats'.byService[s].served, Total(ts[k := x], ServedIn(s), WaitTime))
    {
      TotalUpdate(ts, k, x, ServedIn(s), WaitTime);
      if s == t.serviceType {
        var ss := stats.byService[s];
        MeanStep(ss.avgWaitTime, ss.served, Total(ts, ServedIn(s), WaitTime), wait);
      }
    }
  }

  lemma CountsAfterSkip(stats: QueueStats, ts: seq<Ticket>, k: nat, now: int)
    requires StatsCounts(stats, ts) && k < |ts| && ts[k].status == Serving
    ensures StatsCounts(SkippedStats(stats, ts[k].serviceType), ts[k := SkippedTicket(ts[k], now)])
  {
    var x := SkippedTicket(ts[k], now);
    var ts' := ts[k := x];
    var stats' := SkippedStats(stats, ts[k].serviceType);
    CountUpdate(ts, k, x, ServedSel);
    CountUpdate(ts, k, x, SkippedSel);
    forall s: ServiceType ensures s in stats'.byService && ServiceCounts(stats'.byService[s], ts', s) {
      CountUpdate(ts, k, x, ByType(s));
      CountUpdate(ts, k, x, ServedIn(s));
      CountUpdate(ts, k, x, SkippedIn(s));
    }
  }

  lemma MeansAfterSkip(stats: QueueStats, ts: seq<Ticket>, k: nat, now: int)
    requires StatsMeans(stats, ts) && k < |ts|
    requires ts[k].status == Serving && ts[k].serviceType in stats.byService
    ensures StatsMeans(SkippedStats(stats, ts[k].serviceType), ts[k := SkippedTicket(ts[k], now)])
  {
    var x := SkippedTicket(ts[k], now);
    var stats' := SkippedStats(stats, ts[k].serviceType);
    TotalUpdate(ts, k, x, ServedSel, WaitTime);
    TotalUpdate(ts, k, x, ServedSel, ServiceTime);
    forall s: ServiceType | s in stats'.byService
      ensures MeanOf(stats'.byService[s].avgWaitTime, stats'.byService[s].served, Total(ts[k := x], ServedIn(s), WaitTime))
    {
      TotalUpdate(ts, k, x, ServedIn(s), WaitTime);
    }
  }

  // ---------------------------------------------------------------------
  // Each operation keeps the invariant

  /** The store starts, and restarts after resetQueue, in a state that satisfies the invariant. */
  lemma InitialInvariant(date: string)
    ensures Invariant([], InitialCounters, InitialStats(date), ZeroTicketCounters)
    ensures NoOrphans(InitialCounters, [])
  {
    InitialTicketsSound();
    InitialStatsAgree(date);
    InitialCountersFixed();
  }

  lemma InitialCountersFixed()
    ensures CountersFixed(InitialCounters) && Mirrored(InitialCounters, [])
  {
  }

  lemma InitialTicketsSound()
    ensures TicketsSound([], ZeroTicketCounters)
  {
    forall s: ServiceType ensures s in ZeroTicketCounters && ZeroTicketCounters[s] == Count([], ByType(s)) {
      assert s == Teller || s == CustomerService || s == Loan;
    }
  }

  lemma InitialStatsAgree(date: string)
    ensures StatsAgree(InitialStats(date), [])
  {
    var stats := InitialStats(date);
    HourTotalZero(24);
    assert StatsCounts(stats, []) by {
      forall s: ServiceType ensures s in stats.byService && ServiceCounts(stats.byService[s], [], s) {
        assert s == Teller || s == CustomerService || s == Loan;
      }
    }
    assert StatsMeans(stats, []) by {
      forall s: ServiceType | s in stats.byService
        ensures MeanOf(stats.byService[s].avgWaitTime, stats.byService[s].served, Total([], ServedIn(s), WaitTime))
      {
      }
    }
  }

  /** Appending a ticket numbered one past the count of its queue keeps the numbering. */
  lemma PushKeepsNumbered(ts: seq<Ticket>, t: Ticket)
    requires Numbered(ts) && t.number == Count(ts, ByType(t.serviceType)) + 1
    ensures Numbered(ts + [t])
  {
    var ts' := ts + [t];
    forall i | 0 <= i < |ts'|
      ensures ts'[i].number == Count(ts'[..i], ByType(ts'[i].serviceType)) + 1
    {
      if i < |ts| {
        assert ts'[..i] == ts[..i];
      } else {
        assert ts'[..i] == ts;
      }
    }
  }

  /** Appending a ticket with a fresh id keeps the ids unique. */
  lemma PushKeepsUniqueIds(ts: seq<Ticket>, t: Ticket)
    requires UniqueIds(ts) && forall i :: 0 <= i < |ts| ==> ts[i].id != t.id
    ensures UniqueIds(ts + [t])
  {
    var ts' := ts + [t];
    forall i, j | 0 <= i < j < |ts'| ensures ts'[i].id != ts'[j].id {
      assert ts'[i] == ts[i];
    }
  }

  /** Appending a well-formed ticket keeps every ticket well formed. */
  lemma PushKeepsWellFormed(ts: seq<Ticket>, t: Ticket)
    requires (forall i :: 0 <= i < |ts| ==> WellFormed(ts[i])) && WellFormed(t)
    ensures forall i :: 0 <= i < |ts + [t]| ==> WellFormed((ts + [t])[i])
  {
    forall i | 0 <= i < |ts + [t]| ensures WellFormed((ts + [t])[i]) {
      if i < |ts| {
        assert (ts + [t])[i] == ts[i];
      }
    }
  }

  /** Appending a ticket of queue `st` and bumping that queue's counter keeps the counters exact. */
  lemma PushKeepsSequence(ts: seq<Ticket>, seqno: map<ServiceType, nat>, t: Ticket)
    requires forall s: ServiceType :: s in seqno && seqno[s] == Count(ts, ByType(s))
    ensures var seqno' := seqno[t.serviceType := seqno[t.serviceType] + 1];
      forall s: ServiceType :: s in seqno' && seqno'[s] == Count(ts + [t], ByType(s))
  {
    forall s: ServiceType
      ensures s in seqno[t.serviceType := seqno[t.serviceType] + 1] &&
              seqno[t.serviceType := seqno[t.serviceType] + 1][s] == Count(ts + [t], ByType(s))
    {
      CountPush(ts, t, ByType(s));
    }
  }

  /** Every ticket before the end of a list is unchanged by appending to it. */
  lemma PushEvolves(ts: seq<Ticket>, t: Ticket)
    ensures Evolves(ts, ts + [t])
  {
    assert forall i :: 0 <= i < |ts| ==> (ts + [t])[i] == ts[i];
  }

  /** Issuing a fresh ticket numbered one past its queue's counter keeps the list sound. */
  lemma IssueKeepsTickets(ts: seq<Ticket>, seqno: map<ServiceType, nat>, st: ServiceType, id: nat, now: int)
    requires TicketsSound(ts, seqno)
    requires forall i :: 0 <= i < |ts| ==> ts[i].id != id
    ensures var t := NewTicket(st, seqno[st] + 1, id, now);
      TicketsSound(ts + [t], seqno[st := seqno[st] + 1]) && Evolves(ts, ts + [t])
  {
    var t := NewTicket(st, seqno[st] + 1, id, now);
    assert t.serviceType == st && WellFormed(t);
    PushKeepsTicketsSound(ts, seqno, t);
    PushEvolves(ts, t);
  }

  /** Appending a fresh, well-formed ticket numbered one past its queue's counter keeps the list sound. */
  lemma PushKeepsTicketsSound(ts: seq<Ticket>, seqno: map<ServiceType, nat>, t: Ticket)
    requires TicketsSound(ts, seqno) && WellFormed(t)
    requires forall i :: 0 <= i < |ts| ==> ts[i].id != t.id
    requires t.number == seqno[t.serviceType] + 1
    ensures TicketsSound(ts + [t], seqno[t.serviceType := t.number])
  {
    PushKeepsNumbered(ts, t);
    PushKeepsUniqueIds(ts, t);
    PushKeepsWellFormed(ts, t);
    PushKeepsSequence(ts, seqno, t);
    TicketsSoundIntro(ts + [t], seqno[t.serviceType := t.number]);
  }

  /** The four parts of TicketsSound, put together. */
  lemma TicketsSoundIntro(ts: seq<Ticket>, seqno: map<ServiceType, nat>)
    requires UniqueIds(ts) && Numbered(ts)
    requires forall i :: 0 <= i < |ts| ==> WellFormed(ts[i])
    requires forall s: ServiceType :: s in seqno && seqno[s] == Count(ts, ByType(s))
    ensures TicketsSound(ts, seqno)
  {
  }

  /** Appending a waiting ticket changes no slot and serves nobody. */
  lemma AppendWaitingKeepsSlots(cs: seq<Counter>, ts: seq<Ticket>, t: Ticket)
    requires t.status == Waiting
    ensures Mirrored(cs, ts) ==> Mirrored(cs, ts + [t])
    ensures NoOrphans(cs, ts) ==> NoOrphans(cs, ts + [t])
  {
    assert forall p :: p in ts ==> p in ts + [t];
  }

  /** takeTicket keeps the invariant. */
  lemma IssueKeepsInvariant(ts: seq<Ticket>, cs: seq<Counter>, stats: QueueStats,
                            seqno: map<ServiceType, nat>, st: ServiceType, id: nat, now: int, hour: int)
    requires Invariant(ts, cs, stats, seqno)
    requires forall i :: 0 <= i < |ts| ==> ts[i].id != id
    requires 0 <= hour < 24
    ensures var t := NewTicket(st, seqno[st] + 1, id, now);
      Invariant(ts + [t], cs, IssuedStats(stats, st, hour), seqno[st := seqno[st] + 1]) &&
      Evolves(ts, ts + [t]) &&
      (NoOrphans(cs, ts) ==> NoOrphans(cs, ts + [t]))
  {
    var t := NewTicket(st, seqno[st] + 1, id, now);
    IssueKeepsTickets(ts, seqno, st, id, now);
    AppendWaitingKeepsSlots(cs, ts, t);
    CountsAfterIssue(stats, ts, t, hour);
    MeansAfterIssue(stats, ts, t, hour);
  }

  /** Calling waiting ticket `k` to counter `j` leaves every slot mirrored. */
  lemma CallKeepsMirror(ts: seq<Ticket>, cs: seq<Counter>, j: nat, k: nat, now: int)
    requires CountersFixed(cs) && Mirrored(cs, ts)
    requires j < |cs| && k < |ts| && ts[k].status == Waiting && ts[k].serviceType == cs[j].serviceType
    ensures var c := CalledTicket(ts[k], now, cs[j].id);
      Mirrored(cs[j := cs[j].(currentTicket := Some(c))], ts[k := c])
  {
    var c := CalledTicket(ts[k], now, cs[j].id);
    var cs' := cs[j := cs[j].(currentTicket := Some(c))];
    forall i | 0 <= i < |cs'| && cs'[i].currentTicket.Some?
      ensures cs'[i].currentTicket.value in ts[k := c]
    {
      if i != j {
        InAfterReplace(ts, k, c, cs[i].currentTicket.value);
      } else {
        assert ts[k := c][k] == c;
      }
    }
  }

  /** With the counter's slot empty, calling a ticket to it leaves no serving ticket unheld. */
  lemma CallKeepsNoOrphans(ts: seq<Ticket>, cs: seq<Counter>, j: nat, k: nat, now: int)
    requires NoOrphans(cs, ts)
    requires j < |cs| && k < |ts| && cs[j].currentTicket.None?
    ensures var c := CalledTicket(ts[k], now, cs[j].id);
      NoOrphans(cs[j := cs[j].(currentTicket := Some(c))], ts[k := c])
  {
    var c := CalledTicket(ts[k], now, cs[j].id);
    var ts' := ts[k := c];
    var cs' := cs[j := cs[j].(currentTicket := Some(c))];
    forall t | t in ts' && t.status == Serving ensures Some(t) in Slots(cs') {
      if t != c {
        var i :| 0 <= i < |ts'| && ts'[i] == t;
        assert i != k && ts[i] == t;
        SlotAfterReplace(cs, j, cs'[j], t);
      } else {
        assert Slots(cs')[j] == Some(c);
      }
    }
  }

  /**
   * callNext overwrites a full slot: the ticket it held stays in the list,
   * still serving, and no counter holds it any more.
   */
  lemma CallOrphansPrevious(ts: seq<Ticket>, cs: seq<Counter>, j: nat, k: nat, now: int)
    requires CountersFixed(cs) && Mirrored(cs, ts) && UniqueIds(ts)
    requires j < |cs| && k < |ts| && ts[k].status == Waiting && cs[j].currentTicket.Some?
    ensures var c := CalledTicket(ts[k], now, cs[j].id);
      var p := cs[j].currentTicket.value;
      p in ts[k := c] && p.status == Serving &&
      Some(p) !in Slots(cs[j := cs[j].(currentTicket := Some(c))])
  {
    var c := CalledTicket(ts[k], now, cs[j].id);
    var cs' := cs[j := cs[j].(currentTicket := Some(c))];
    var p := cs[j].currentTicket.value;
    CounterIds(cs);
    InAfterReplace(ts, k, c, p);
    var pi :| 0 <= pi < |ts| && ts[pi] == p;
    assert pi != k;
    assert p.id != c.id;
    forall i | 0 <= i < |cs'| ensures Slots(cs')[i] != Some(p) {
      if i != j {
        assert cs[i].currentTicket == Some(p) ==> p.counter == Some(cs[i].id);
      }
    }
  }

  /**
   * callNext at counter `j`, picking ticket `k`, keeps the invariant. It
   * keeps NoOrphans when the counter's slot was empty; when the slot held a
   * ticket, that ticket stays serving and no counter holds it any more.
   */
  lemma CallKeepsInvariant(ts: seq<Ticket>, cs: seq<Counter>, stats: QueueStats,
                           seqno: map<ServiceType, nat>, j: nat, k: nat, now: int)
    requires Invariant(ts, cs, stats, seqno)
    requires j < |cs| && IsNextInLine(ts, WaitingSel(Some(cs[j].serviceType)), k)
    ensures var c := CalledTicket(ts[k], now, cs[j].id);
      var cs' := cs[j := cs[j].(currentTicket := Some(c))];
      Invariant(ts[k := c], cs', stats, seqno) &&
      Evolves(ts, ts[k := c]) &&
      (NoOrphans(cs, ts) && cs[j].currentTicket.None? ==> NoOrphans(cs', ts[k := c])) &&
      (cs[j].currentTicket.Some? ==>
        cs[j].currentTicket.value in ts[k := c] &&
        cs[j].currentTicket.value.status == Serving &&
        Some(cs[j].currentTicket.value) !in Slots(cs'))
  {
    var c := CalledTicket(ts[k], now, cs[j].id);
    var cs' := cs[j := cs[j].(currentTicket := Some(c))];
    assert TicketsSound(ts[k := c], seqno) && Evolves(ts, ts[k := c]) by {
      assert WellFormed(ts[k]);
      ReplaceKeepsTicketsSound(ts, seqno, k, c);
    }
    assert StatsAgree(stats, ts[k := c]) by {
      CountsAfterCall(stats, ts, k, c);
      MeansAfterCall(stats, ts, k, c);
    }
    assert CountersFixed(cs') by {
      SlotEditKeepsCounters(cs, j, Some(c));
    }
    CallKeepsMirror(ts, cs, j, k, now);
    if NoOrphans(cs, ts) && cs[j].currentTicket.None? {
      CallKeepsNoOrphans(ts, cs, j, k, now);
    }
    if cs[j].currentTicket.Some? {
      CallOrphansPrevious(ts, cs, j, k, now);
    }
  }

  /** Emptying or filling a slot keeps the counters' ids, names and queues. */
  lemma SlotEditKeepsCounters(cs: seq<Counter>, j: nat, slot: Option<Ticket>)
    requires CountersFixed(cs) && j < |cs|
    ensures CountersFixed(cs[j := cs[j].(currentTicket := slot)])
  {
  }

  /** The ticket in a counter's slot is a well-formed serving ticket of the list. */
  lemma SlotTicket(ts: seq<Ticket>, cs: seq<Counter>, seqno: map<ServiceType, nat>, j: nat, k: nat)
    requires TicketsSound(ts, seqno) && Mirrored(cs, ts)
    requires j < |cs| && k < |ts| && cs[j].currentTicket == Some(ts[k])
    ensures ts[k].status == Serving && ts[k].calledAt.Some? && WellFormed(ts[k])
  {
  }

  /** completeService at counter `j`, whose slot holds ticket `k`, keeps the invariant and NoOrphans. */
  lemma CompleteKeepsInvariant(ts: seq<Ticket>, cs: seq<Counter>, stats: QueueStats,
                               seqno: map<ServiceType, nat>, j: nat, k: nat, now: int)
    requires Invariant(ts, cs, stats, seqno)
    requires j < |cs| && k < |ts| && cs[j].currentTicket == Some(ts[k])
    ensures var x := CompletedTicket(ts[k], now);
      var cs' := cs[j := cs[j].(currentTicket := None)];
      Invariant(ts[k := x], cs', ServedStats(stats, ts[k], now), seqno) &&
      Evolves(ts, ts[k := x]) &&
      (NoOrphans(cs, ts) ==> NoOrphans(cs', ts[k := x]))
  {
    var x := CompletedTicket(ts[k], now);
    var cs' := cs[j := cs[j].(currentTicket := None)];
    var stats' := ServedStats(stats, ts[k], now);
    SlotTicket(ts, cs, seqno, j, k);
    assert TicketsSound(ts[k := x], seqno) && Evolves(ts, ts[k := x]) by {
      ReplaceKeepsTicketsSound(ts, seqno, k, x);
    }
    assert StatsCounts(stats', ts[k := x]) by {
      CountsAfterComplete(stats, ts, k, now);
    }
    assert StatsMeans(stats', ts[k := x]) by {
      MeansAfterComplete(stats, ts, k, now);
    }
    assert Mirrored(cs', ts[k := x]) by {
      ResolvedKeepsMirror(ts, cs, seqno, j, k, x);
    }
    assert CountersFixed(cs') by {
      SlotEditKeepsCounters(cs, j, None);
    }
    if NoOrphans(cs, ts) {
      ResolvedKeepsNoOrphans(ts, cs, seqno, j, k, x);
    }
  }

  /** skipTicket at counter `j`, whose slot holds ticket `k`, keeps the invariant and NoOrphans. */
  lemma SkipKeepsInvariant(ts: seq<Ticket>, cs: seq<Counter>, stats: QueueStats,
                           seqno: map<ServiceType, nat>, j: nat, k: nat, now: int)
    requires Invariant(ts, cs, stats, seqno)
    requires j < |cs| && k < |ts| && cs[j].currentTicket == Some(ts[k])
    ensures var x := SkippedTicket(ts[k], now);
      var cs' := cs[j := cs[j].(currentTicket := None)];
      Invariant(ts[k := x], cs', SkippedStats(stats, ts[k].serviceType), seqno) &&
      Evolves(ts, ts[k := x]) &&
      (NoOrphans(cs, ts) ==> NoOrphans(cs', ts[k := x]))
  {
    var x := SkippedTicket(ts[k], now);
    var cs' := cs[j := cs[j].(currentTicket := None)];
    var stats' := SkippedStats(stats, ts[k].serviceType);
    SlotTicket(ts, cs, seqno, j, k);
    assert TicketsSound(ts[k := x], seqno) && Evolves(ts, ts[k := x]) by {
      ReplaceKeepsTicketsSound(ts, seqno, k, x);
    }
    assert StatsCounts(stats', ts[k := x]) by {
      CountsAfterSkip(stats, ts, k, now);
    }
    assert StatsMeans(stats', ts[k := x]) by {
      MeansAfterSkip(stats, ts, k, now);
    }
    assert Mirrored(cs', ts[k := x]) by {
      ResolvedKeepsMirror(ts, cs, seqno, j, k, x);
    }
    assert CountersFixed(cs') by {
      SlotEditKeepsCounters(cs, j, None);
    }
    if NoOrphans(cs, ts) {
      ResolvedKeepsNoOrphans(ts, cs, seqno, j, k, x);
    }
  }

  /** Resolving the ticket in slot `j` and clearing that slot leaves every other slot mirrored. */
  lemma ResolvedKeepsMirror(ts: seq<Ticket>, cs: seq<Counter>, seqno: map<ServiceType, nat>,
                            j: nat, k: nat, x: Ticket)
    requires CountersFixed(cs) && Mirrored(cs, ts)
    requires j < |cs| && k < |ts| && cs[j].currentTicket == Some(ts[k])
    ensures Mirrored(cs[j := cs[j].(currentTicket := None)], ts[k := x])
  {
    var cs' := cs[j := cs[j].(currentTicket := None)];
    CounterIds(cs);
    forall i | 0 <= i < |cs'| && cs'[i].currentTicket.Some?
      ensures cs'[i].currentTicket.value in ts[k := x]
    {
      assert i != j;
      assert cs[i].currentTicket.value.counter != ts[k].counter;
      InAfterReplace(ts, k, x, cs[i].currentTicket.value);
    }
  }

  /** Resolving the ticket in slot `j`, which is no longer serving, leaves no serving ticket unheld. */
  lemma ResolvedKeepsNoOrphans(ts: seq<Ticket>, cs: seq<Counter>, seqno: map<ServiceType, nat>,
                               j: nat, k: nat, x: Ticket)
    requires TicketsSound(ts, seqno) && NoOrphans(cs, ts)
    requires j < |cs| && k < |ts| && cs[j].currentTicket == Some(ts[k]) && x.status != Serving
    ensures NoOrphans(cs[j := cs[j].(currentTicket := None)], ts[k := x])
  {
    var ts' := ts[k := x];
    forall t | t in ts' && t.status == Serving
      ensures Some(t) in Slots(cs[j := cs[j].(currentTicket := None)])
    {
      var i :| 0 <= i < |ts'| && ts'[i] == t;
      assert i != k && ts[i] == t;
      assert t.id != ts[k].id;
      SlotAfterReplace(cs, j, cs[j].(currentTicket := None), t);
    }
  }

  /** setCounterActive and setOfficerName change only flags and labels, so they keep the invariant. */
  lemma CounterEditKeepsInvariant(ts: seq<Ticket>, cs: seq<Counter>, cs': seq<Counter>,
                                  stats: QueueStats, seqno: map<ServiceType, nat>)
    requires Invariant(ts, cs, stats, seqno)
    requires |cs'| == |cs|
    requires forall i :: 0 <= i < |cs| ==>
      cs'[i] == cs[i].(isActive := cs'[i].isActive, officerName := cs'[i].officerName)
    ensures Invariant(ts, cs', stats, seqno)
    ensures NoOrphans(cs, ts) ==> NoOrphans(cs', ts)
  {
    assert Slots(cs') == Slots(cs);
  }

  // ---------------------------------------------------------------------
  // What the invariant gives

  /** Each stored average is exactly the mean of its samples. */
  lemma AverageIsMean(ts: seq<Ticket>, cs: seq<Counter>, stats: QueueStats, seqno: map<ServiceType, nat>, s: ServiceType)
    requires Invariant(ts, cs, stats, seqno)
    ensures stats.totalServed > 0 ==>
      stats.averageWaitTime == Total(ts, ServedSel, WaitTime) / stats.totalServed as real &&
      stats.averageServiceTime == Total(ts, ServedSel, ServiceTime) / stats.totalServed as real
    ensures stats.byService[s].served > 0 ==>
      stats.byService[s].avgWaitTime == Total(ts, ServedIn(s), WaitTime) / stats.byService[s].served as real
  {
    if stats.totalServed > 0 {
      MeanIsQuotient(stats.averageWaitTime, stats.totalServed, Total(ts, ServedSel, WaitTime));
      MeanIsQuotient(stats.averageServiceTime, stats.totalServed, Total(ts, ServedSel, ServiceTime));
    }
    var ss := stats.byService[s];
    if ss.served > 0 {
      MeanIsQuotient(ss.avgWaitTime, ss.served, Total(ts, ServedIn(s), WaitTime));
    }
  }

  lemma MeanIsQuotient(avg: real, n: nat, sum: real)
    requires MeanOf(avg, n, sum) && n > 0
    ensures avg == sum / n as real
  {
  }

  /** In each queue the numbers run 1, 2, 3, ... in issue order, up to the sequence counter. */
  lemma {:induction false} NumbersCountFromOne(ts: seq<Ticket>, s: ServiceType)
    requires Numbered(ts)
    ensures forall i :: 0 <= i < |Select(ts, ByType(s))| ==> Select(ts, ByType(s))[i].number == i + 1
    decreases |ts|
  {
    if ts != [] {
      var p := ts[..|ts| - 1];
      var x := ts[|ts| - 1];
      assert ts == p + [x];
      assert Numbered(p) by {
        forall i | 0 <= i < |p| ensures p[i].number == Count(p[..i], ByType(p[i].serviceType)) + 1 {
          assert p[..i] == ts[..i];
        }
      }
      NumbersCountFromOne(p, s);
      SelectAppend(p, [x], ByType(s));
      assert [x][1..] == [];
      assert ts[..|ts| - 1] == p;
    }
  }

  /** Within a queue, a ticket issued later has a larger number. */
  lemma NumberGrows(ts: seq<Ticket>, i: nat, j: nat)
    requires Numbered(ts) && i < j < |ts| && ts[i].serviceType == ts[j].serviceType
    ensures ts[i].number < ts[j].number
  {
    var sel := ByType(ts[i].serviceType);
    assert ts[..j] == ts[..i] + ts[i..j];
    CountAppend(ts[..i], ts[i..j], sel);
    assert ts[i..j] == [ts[i]] + ts[i + 1..j];
    CountAppend([ts[i]], ts[i + 1..j], sel);
    assert [ts[i]][1..] == [];
  }

  /** No two tickets in the list share a display code. */
  lemma DisplayNumbersUnique(ts: seq<Ticket>, seqno: map<ServiceType, nat>)
    requires TicketsSound(ts, seqno)
    ensures forall i, j :: 0 <= i < j < |ts| ==> ts[i].displayNumber != ts[j].displayNumber
  {
    forall i, j | 0 <= i < j < |ts| ensures ts[i].displayNumber != ts[j].displayNumber {
      assert WellFormed(ts[i]) && WellFormed(ts[j]);
      TicketCodeInjective(ts[i].serviceType, ts[i].number, ts[j].serviceType, ts[j].number);
      if ts[i].serviceType == ts[j].serviceType {
        NumberGrows(ts, i, j);
      }
    }
  }

  /** With no orphans, every ticket being served sits in the slot of the counter it records. */
  lemma ServingIsHeld(ts: seq<Ticket>, cs: seq<Counter>)
    requires Mirrored(cs, ts) && NoOrphans(cs, ts)
    ensures forall i :: 0 <= i < |ts| && ts[i].status == Serving ==>
      exists c :: 0 <= c < |cs| && cs[c].currentTicket == Some(ts[i]) && ts[i].counter == Some(cs[c].id)
  {
    forall i | 0 <= i < |ts| && ts[i].status == Serving
      ensures exists c :: 0 <= c < |cs| && cs[c].currentTicket == Some(ts[i]) && ts[i].counter == Some(cs[c].id)
    {
      assert ts[i] in ts;
      var c :| 0 <= c < |cs| && Slots(cs)[c] == Some(ts[i]);
      assert cs[c].currentTicket == Some(ts[i]);
    }
  }

  /** With no orphans, a counter serves at most one ticket at a time. */
  lemma OneTicketPerCounter(ts: seq<Ticket>, cs: seq<Counter>)
    requires CountersFixed(cs) && Mirrored(cs, ts) && UniqueIds(ts) && NoOrphans(cs, ts)
    ensures forall i, j ::
      (0 <= i < |ts| && 0 <= j < |ts| && ts[i].status == Serving && ts[j].status == Serving &&
       ts[i].counter == ts[j].counter) ==> i == j
  {
    CounterIds(cs);
    forall i, j | 0 <= i < |ts| && 0 <= j < |ts| && ts[i].status == Serving && ts[j].status == Serving &&
      ts[i].counter == ts[j].counter
      ensures i == j
    {
      assert ts[i] in ts && ts[j] in ts;
      var a :| 0 <= a < |cs| && Slots(cs)[a] == Some(ts[i]);
      var b :| 0 <= b < |cs| && Slots(cs)[b] == Some(ts[j]);
      assert cs[a].currentTicket == Some(ts[i]) && cs[b].currentTicket == Some(ts[j]);
      assert a == b;
      assert ts[i].id == ts[j].id;
    }
  }
}
