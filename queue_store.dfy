/**
 * The queue store of context/QueueContext.tsx as an object. Its four
 * pieces of React state (tickets, counters, today's statistics, the
 * per-queue sequence counters) are held together in one `Snapshot`, and
 * each store operation is a method that replaces it the way the source's
 * setters do. Every method keeps the store invariant of StoreState.
 */
module QueueContext {
  import opened QueueTypes
  import opened Tally
  import opened WaitingLine
  import opened StoreState

  /** `counters.find(c => c.id === id)`, as the position of the first counter with that id. */
  function FindCounter(cs: seq<Counter>, id: int): (r: Option<nat>)
    ensures r.None? <==> forall i :: 0 <= i < |cs| ==> cs[i].id != id
    ensures r.Some? ==> r.value < |cs| && cs[r.value].id == id &&
                        forall i :: 0 <= i < r.value ==> cs[i].id != id
  {
    if cs == [] then None
    else if cs[0].id == id then Some(0)
    else
      match FindCounter(cs[1..], id)
      case None =>
        assert forall i :: 1 <= i < |cs| ==> cs[i] == cs[1..][i - 1];
        None
      case Some(i) =>
        assert forall m :: 1 <= m < |cs| ==> cs[m] == cs[1..][m - 1];
        Some(i + 1)
  }

  /** The changes the store's handlers make to a single ticket. */
  datatype TicketEdit = CallTo(calledAt: int, counterId: int) | CompleteAt(completedAt: int) | SkipAt(skippedAt: int)

  function EditTicket(t: Ticket, e: TicketEdit): Ticket {
    match e
    case CallTo(now, counterId) => CalledTicket(t, now, counterId)
    case CompleteAt(now) => CompletedTicket(t, now)
    case SkipAt(now) => SkippedTicket(t, now)
  }

  /** The changes the store's handlers make to a single counter. */
  datatype CounterEdit = SetSlot(slot: Option<Ticket>) | SetActive(isActive: bool) | SetOfficer(name: string)

  function EditCounter(c: Counter, e: CounterEdit): Counter {
    match e
    case SetSlot(slot) => c.(currentTicket := slot)
    case SetActive(isActive) => c.(isActive := isActive)
    case SetOfficer(name) => c.(officerName := Some(name))
  }

  /** `prev.map(t => t.id === id ? edited : t)` over the ticket list. */
  function UpdateTickets(ts: seq<Ticket>, id: nat, e: TicketEdit): (r: seq<Ticket>)
    ensures |r| == |ts|
  {
    seq(|ts|, i requires 0 <= i < |ts| => if ts[i].id == id then EditTicket(ts[i], e) else ts[i])
  }

  /** `prev.map(c => c.id === id ? edited : c)` over the counters. */
  function UpdateCounters(cs: seq<Counter>, id: int, e: CounterEdit): (r: seq<Counter>)
    ensures |r| == |cs|
  {
    seq(|cs|, i requires 0 <= i < |cs| => if cs[i].id == id then EditCounter(cs[i], e) else cs[i])
  }

  /** With unique ids, updating by the id of ticket `k` updates exactly position `k`. */
  lemma UpdateTicketsAt(ts: seq<Ticket>, k: nat, e: TicketEdit)
    requires UniqueIds(ts) && k < |ts|
    ensures UpdateTickets(ts, ts[k].id, e) == ts[k := EditTicket(ts[k], e)]
  {
    var r := UpdateTickets(ts, ts[k].id, e);
    forall i | 0 <= i < |ts| && i != k ensures r[i] == ts[i] {
      assert ts[i].id != ts[k].id;
    }
  }

  /** The fixed counters have distinct ids, so updating by id updates the counter `FindCounter` finds. */
  lemma UpdateCountersAt(cs: seq<Counter>, id: int, e: CounterEdit)
    requires CountersFixed(cs)
    ensures FindCounter(cs, id).None? ==> UpdateCounters(cs, id, e) == cs
    ensures FindCounter(cs, id).Some? ==>
      var j := FindCounter(cs, id).value;
      UpdateCounters(cs, id, e) == cs[j := EditCounter(cs[j], e)]
  {
    CounterIds(cs);
  }

  /**
   * The provider's four pieces of state: the ticket list, the counters, the
   * day's statistics and the per-queue sequence counters.
   */
  datatype Snapshot = Snapshot(tickets: seq<Ticket>, counters: seq<Counter>,
                               todayStats: QueueStats, ticketCounters: map<ServiceType, nat>)

  ghost predicate SnapshotValid(s: Snapshot) {
    Invariant(s.tickets, s.counters, s.todayStats, s.ticketCounters)
  }

  ghost predicate SnapshotHeld(s: Snapshot) {
    NoOrphans(s.counters, s.tickets)
  }

  /** takeTicket's updaters keep the invariant; the new ticket's number counts the tickets of its queue. */
  lemma IssueSound(s: Snapshot, serviceType: ServiceType, id: nat, now: int, hour: int)
    requires SnapshotValid(s)
    requires forall i :: 0 <= i < |s.tickets| ==> s.tickets[i].id != id
    requires 0 <= hour < 24
    ensures var n := s.ticketCounters[serviceType] + 1;
      var t := NewTicket(serviceType, n, id, now);
      var s' := s.(tickets := s.tickets + [t],
                   todayStats := IssuedStats(s.todayStats, serviceType, hour),
                   ticketCounters := s.ticketCounters[serviceType := n]);
      n == Count(s.tickets, ByType(serviceType)) + 1 &&
      SnapshotValid(s') && Evolves(s.tickets, s'.tickets) && (SnapshotHeld(s) ==> SnapshotHeld(s'))
  {
    IssueKeepsInvariant(s.tickets, s.counters, s.todayStats, s.ticketCounters, serviceType, id, now, hour);
  }

  /**
   * callNext's updaters at counter `j`, calling the head of its sorted
   * waiting list, keep the invariant; the head is the ticket `k` next in line.
   */
  lemma CallSound(s: Snapshot, counterId: int, now: int, j: nat) returns (k: nat)
    requires SnapshotValid(s)
    requires FindCounter(s.counters, counterId) == Some(j)
    requires GetWaitingTickets(s.tickets, Some(s.counters[j].serviceType)) != []
    ensures var st := s.counters[j].serviceType;
      var next := GetWaitingTickets(s.tickets, Some(st))[0];
      var called := CalledTicket(next, now, counterId);
      var s' := s.(tickets := UpdateTickets(s.tickets, next.id, CallTo(now, counterId)),
                   counters := UpdateCounters(s.counters, counterId, SetSlot(Some(called))));
      IsNextInLine(s.tickets, WaitingSel(Some(st)), k) && s.tickets[k] == next &&
      s'.tickets == s.tickets[k := called] &&
      s'.counters == s.counters[j := s.counters[j].(currentTicket := Some(called))] &&
      SnapshotValid(s') && Evolves(s.tickets, s'.tickets) &&
      (s.counters[j].currentTicket.None? && SnapshotHeld(s) ==> SnapshotHeld(s')) &&
      (s.counters[j].currentTicket.Some? ==>
        var p := s.counters[j].currentTicket.value;
        p in s'.tickets && p.status == Serving && Some(p) !in Slots(s'.counters))
  {
    var st := s.counters[j].serviceType;
    var sel := WaitingSel(Some(st));
    var waiting := GetWaitingTickets(s.tickets, Some(st));
    assert |multiset(Select(s.tickets, sel))| > 0;
    k := SortedHeadIsNextInLine(s.tickets, sel);
    var called := CalledTicket(waiting[0], now, counterId);
    CounterIds(s.counters);
    CallKeepsInvariant(s.tickets, s.counters, s.todayStats, s.ticketCounters, j, k, now);
    UpdateTicketsAt(s.tickets, k, CallTo(now, counterId));
    UpdateCountersAt(s.counters, counterId, SetSlot(Some(called)));
  }

  /** A ticket in a counter's slot is on the ticket list. */
  lemma SlotIndex(s: Snapshot, j: nat) returns (k: nat)
    requires SnapshotValid(s) && j < |s.counters| && s.counters[j].currentTicket.Some?
    ensures k < |s.tickets| && s.tickets[k] == s.counters[j].currentTicket.value
  {
    k :| 0 <= k < |s.tickets| && s.tickets[k] == s.counters[j].currentTicket.value;
  }

  /** completeService's updaters, applied at counter `j` whose slot holds ticket `k`, keep the invariant. */
  lemma CompleteSound(s: Snapshot, counterId: int, now: int, j: nat, k: nat)
    requires SnapshotValid(s)
    requires FindCounter(s.counters, counterId) == Some(j) && k < |s.tickets|
    requires s.counters[j].currentTicket == Some(s.tickets[k])
    ensures var t := s.counters[j].currentTicket.value;
      var s' := s.(tickets := UpdateTickets(s.tickets, t.id, CompleteAt(now)),
                   counters := UpdateCounters(s.counters, counterId, SetSlot(None)),
                   todayStats := ServedStats(s.todayStats, t, now));
      s'.tickets == s.tickets[k := CompletedTicket(t, now)] &&
      s'.counters == s.counters[j := s.counters[j].(currentTicket := None)] &&
      SnapshotValid(s') && Evolves(s.tickets, s'.tickets) && (SnapshotHeld(s) ==> SnapshotHeld(s'))
  {
    CounterIds(s.counters);
    UpdateTicketsAt(s.tickets, k, CompleteAt(now));
    UpdateCountersAt(s.counters, counterId, SetSlot(None));
    CompleteKeepsInvariant(s.tickets, s.counters, s.todayStats, s.ticketCounters, j, k, now);
  }

  /** skipTicket's updaters, applied at counter `j` whose slot holds ticket `k`, keep the invariant. */
  lemma SkipSound(s: Snapshot, counterId: int, now: int, j: nat, k: nat)
    requires SnapshotValid(s)
    requires FindCounter(s.counters, counterId) == Some(j) && k < |s.tickets|
    requires s.counters[j].currentTicket == Some(s.tickets[k])
    ensures var t := s.counters[j].currentTicket.value;
      var s' := s.(tickets := UpdateTickets(s.tickets, t.id, SkipAt(now)),
                   counters := UpdateCounters(s.counters, counterId, SetSlot(None)),
                   todayStats := SkippedStats(s.todayStats, t.serviceType));
      s'.tickets == s.tickets[k := SkippedTicket(t, now)] &&
      s'.counters == s.counters[j := s.counters[j].(currentTicket := None)] &&
      SnapshotValid(s') && Evolves(s.tickets, s'.tickets) && (SnapshotHeld(s) ==> SnapshotHeld(s'))
  {
    CounterIds(s.counters);
    UpdateTicketsAt(s.tickets, k, SkipAt(now));
    UpdateCountersAt(s.counters, counterId, SetSlot(None));
    SkipKeepsInvariant(s.tickets, s.counters, s.todayStats, s.ticketCounters, j, k, now);
  }

  /**
   * The queue store. Its `state` is replaced as a whole by each operation:
   * the setters one handler of the provider calls are applied together
   * before the next render.
   */
  class QueueStore {
    var state: Snapshot

    ghost predicate Valid()
      reads this
    {
      SnapshotValid(state)
    }

    /** A fresh store on day `today`: no tickets, the initial counters, zero statistics. */
    constructor (today: string)
      ensures state == Snapshot([], InitialCounters, InitialStats(today), ZeroTicketCounters)
      ensures Valid() && SnapshotHeld(state)
    {
      state := Snapshot([], InitialCounters, InitialStats(today), ZeroTicketCounters);
      InitialInvariant(today);
    }

    /**
     * takeTicket: issue the next number of queue `serviceType`. The ticket
     * id and the clock (`now` in ms, `hour` of the day) are supplied by the
     * caller.
     */
    method TakeTicket(serviceType: ServiceType, id: nat, now: int, hour: int) returns (ticket: Ticket)
      requires Valid()
      requires forall i :: 0 <= i < |state.tickets| ==> state.tickets[i].id != id
      requires 0 <= hour < 24
      modifies this
      ensures ticket.number == Count(old(state).tickets, ByType(serviceType)) + 1
      ensures ticket == NewTicket(serviceType, old(state).ticketCounters[serviceType] + 1, id, now)
      ensures state == old(state).(
        tickets := old(state).tickets + [ticket],
        todayStats := IssuedStats(old(state).todayStats, serviceType, hour),
        ticketCounters := old(state).ticketCounters[serviceType := ticket.number])
      ensures Valid() && Evolves(old(state).tickets, state.tickets)
      ensures SnapshotHeld(old(state)) ==> SnapshotHeld(state)
    {
      var s := state;
      IssueSound(s, serviceType, id, now, hour);
      var newCounter := s.ticketCounters[serviceType] + 1;
      ticket := NewTicket(serviceType, newCounter, id, now);
      state := s.(
        tickets := s.tickets + [ticket],
        todayStats := IssuedStats(s.todayStats, serviceType, hour),
        ticketCounters := s.ticketCounters[serviceType := newCounter]);
    }

    /**
     * callNext: at an active counter, call the earliest waiting ticket of its
     * queue. Returns None, changing nothing, when the counter does not
     * exist, is closed, or its queue is empty. The slot is overwritten even
     * when it still holds a ticket; that ticket stays serving with no
     * counter holding it.
     */
    method CallNext(counterId: int, now: int) returns (r: Option<Ticket>)
      requires Valid()
      modifies this
      ensures var s := old(state); var f := FindCounter(s.counters, counterId);
        r.Some? <==> f.Some? && s.counters[f.value].isActive &&
                     GetWaitingCount(s.tickets, Some(s.counters[f.value].serviceType)) > 0
      ensures r.None? ==> state == old(state)
      ensures r.Some? ==>
        var s := old(state);
        var j := FindCounter(s.counters, counterId).value;
        var st := s.counters[j].serviceType;
        r.value == CalledTicket(GetWaitingTickets(s.tickets, Some(st))[0], now, counterId) &&
        (exists k :: IsNextInLine(s.tickets, WaitingSel(Some(st)), k) && s.tickets[k].id == r.value.id &&
                     state.tickets == s.tickets[k := r.value]) &&
        state.counters == s.counters[j := s.counters[j].(currentTicket := r)] &&
        state.todayStats == s.todayStats && state.ticketCounters == s.ticketCounters &&
        (s.counters[j].currentTicket.None? && SnapshotHeld(s) ==> SnapshotHeld(state)) &&
        (s.counters[j].currentTicket.Some? ==>
          var p := s.counters[j].currentTicket.value;
          p in state.tickets && p.status == Serving && Some(p) !in Slots(state.counters))
      ensures Valid() && Evolves(old(state).tickets, state.tickets)
    {
      var s := state;
      r := None;
      var found := FindCounter(s.counters, counterId);
      if found.Some? && s.counters[found.value].isActive {
        var j := found.value;
        var counter := s.counters[j];
        var waiting := GetWaitingTickets(s.tickets, Some(counter.serviceType));
        if |waiting| > 0 {
          var next := waiting[0];
          var called := CalledTicket(next, now, counterId);
          ghost var k := CallSound(s, counterId, now, j);
          state := s.(
            tickets := UpdateTickets(s.tickets, next.id, CallTo(now, counterId)),
            counters := UpdateCounters(s.counters, counterId, SetSlot(Some(called))));
          r := Some(called);
        }
      }
    }

    /**
     * completeService: finish the ticket in the counter's slot, empty the
     * slot and fold the ticket's wait and service times into the means. Does
     * nothing when the counter does not exist or its slot is empty.
     */
    method CompleteService(counterId: int, now: int)
      requires Valid()
      modifies this
      ensures var s := old(state); var f := FindCounter(s.counters, counterId);
        if f.None? || s.counters[f.value].currentTicket.None? then state == s
        else
          var j := f.value;
          var t := s.counters[j].currentTicket.value;
          (exists k :: 0 <= k < |s.tickets| && s.tickets[k] == t &&
                       state.tickets == s.tickets[k := CompletedTicket(t, now)]) &&
          state.counters == s.counters[j := s.counters[j].(currentTicket := None)] &&
          state.todayStats == ServedStats(s.todayStats, t, now) &&
          state.ticketCounters == s.ticketCounters
      ensures Valid() && Evolves(old(state).tickets, state.tickets)
      ensures SnapshotHeld(old(state)) ==> SnapshotHeld(state)
    {
      var s := state;
      var found := FindCounter(s.counters, counterId);
      if found.Some? && s.counters[found.value].currentTicket.Some? {
        var j := found.value;
        var ticket := s.counters[j].currentTicket.value;
        ghost var k := SlotIndex(s, j);
        CompleteSound(s, counterId, now, j, k);
        state := s.(
          tickets := UpdateTickets(s.tickets, ticket.id, CompleteAt(now)),
          counters := UpdateCounters(s.counters, counterId, SetSlot(None)),
          todayStats := ServedStats(s.todayStats, ticket, now));
      }
    }

    /**
     * skipTicket: mark the ticket in the counter's slot skipped and empty the
     * slot. Does nothing when the counter does not exist or its slot is empty.
     */
    method SkipTicket(counterId: int, now: int)
      requires Valid()
      modifies this
      ensures var s := old(state); var f := FindCounter(s.counters, counterId);
        if f.None? || s.counters[f.value].currentTicket.None? then state == s
        else
          var j := f.value;
          var t := s.counters[j].currentTicket.value;
          (exists k :: 0 <= k < |s.tickets| && s.tickets[k] == t &&
                       state.tickets == s.tickets[k := SkippedTicket(t, now)]) &&
          state.counters == s.counters[j := s.counters[j].(currentTicket := None)] &&
          state.todayStats == SkippedStats(s.todayStats, t.serviceType) &&
          state.ticketCounters == s.ticketCounters
      ensures Valid() && Evolves(old(state).tickets, state.tickets)
      ensures SnapshotHeld(old(state)) ==> SnapshotHeld(state)
    {
      var s := state;
      var found := FindCounter(s.counters, counterId);
      if found.Some? && s.counters[found.value].currentTicket.Some? {
        var j := found.value;
        var ticket := s.counters[j].currentTicket.value;
        ghost var k := SlotIndex(s, j);
        SkipSound(s, counterId, now, j, k);
        state := s.(
          tickets := UpdateTickets(s.tickets, ticket.id, SkipAt(now)),
          counters := UpdateCounters(s.counters, counterId, SetSlot(None)),
          todayStats := SkippedStats(s.todayStats, ticket.serviceType));
      }
    }

    /** setCounterActive: open or close every counter with id `counterId`. */
    method SetCounterActive(counterId: int, isActive: bool)
      requires Valid()
      modifies this
      ensures state == old(state).(counters := UpdateCounters(old(state).counters, counterId,
                                                              SetActive(isActive)))
      ensures Valid()
      ensures SnapshotHeld(old(state)) ==> SnapshotHeld(state)
    {
      var s := state;
      var cs := UpdateCounters(s.counters, counterId, SetActive(isActive));
      CounterEditKeepsInvariant(s.tickets, s.counters, cs, s.todayStats, s.ticketCounters);
      state := s.(counters := cs);
    }

    /** setOfficerName: record the officer on duty at every counter with id `counterId`. */
    method SetOfficerName(counterId: int, name: string)
      requires Valid()
      modifies this
      ensures state == old(state).(counters := UpdateCounters(old(state).counters, counterId,
                                                              SetOfficer(name)))
      ensures Valid()
      ensures SnapshotHeld(old(state)) ==> SnapshotHeld(state)
    {
      var s := state;
      var cs := UpdateCounters(s.counters, counterId, SetOfficer(name));
      CounterEditKeepsInvariant(s.tickets, s.counters, cs, s.todayStats, s.ticketCounters);
      state := s.(counters := cs);
    }

    /** resetQueue: back to the state of a fresh store on day `today`. */
    method ResetQueue(today: string)
      modifies this
      ensures state == Snapshot([], InitialCounters, InitialStats(today), ZeroTicketCounters)
      ensures Valid() && SnapshotHeld(state)
    {
      state := Snapshot([], InitialCounters, InitialStats(today), ZeroTicketCounters);
      InitialInvariant(today);
    }
  }
}
