/**
 * Records of the bank-branch queue: the closed set of service types with
 * their static catalogue, and the shapes of tickets, counters and the daily
 * statistics (types/queue.ts).
 */
module QueueTypes {

  datatype Option<T> = None | Some(value: T)

  /** The three queues of the branch; each has its own ticket sequence. */
  datatype ServiceType = Teller | CustomerService | Loan

  /** One catalogue entry; `estimatedTime` is in minutes. */
  datatype ServiceTypeInfo = ServiceTypeInfo(
    id: ServiceType,
    name: string,
    prefix: string,
    description: string,
    icon: string,
    estimatedTime: int)

  /** The static catalogue, in the order the source lists it. */
  const ServiceTypes: seq<ServiceTypeInfo> := [
    ServiceTypeInfo(Teller, "Teller", "A",
      "Setor, tarik tunai, transfer", "Banknote", 5),
    ServiceTypeInfo(CustomerService, "Customer Service", "B",
      "Pembukaan rekening, informasi produk", "HeadphonesIcon", 15),
    ServiceTypeInfo(Loan, "Kredit/Pinjaman", "C",
      "Pengajuan kredit, konsultasi pinjaman", "FileText", 30)
  ]

  /** `Array.prototype.find` over the catalogue: the first entry with id `t`. */
  function FindServiceInfo(infos: seq<ServiceTypeInfo>, t: ServiceType): (r: Option<ServiceTypeInfo>)
    ensures r.None? <==> forall i :: 0 <= i < |infos| ==> infos[i].id != t
    ensures r.Some? ==> exists i :: 0 <= i < |infos| && infos[i] == r.value && r.value.id == t &&
                                    forall j :: 0 <= j < i ==> infos[j].id != t
  {
    if infos == [] then None
    else if infos[0].id == t then Some(infos[0])
    else
      var r := FindServiceInfo(infos[1..], t);
      assert forall i :: 1 <= i < |infos| ==> infos[i] == infos[1..][i - 1];
      r
  }

  /** `find(...) || infos[0]`: the first entry with id `t`, or the first entry of all. */
  function FindOrFirst(infos: seq<ServiceTypeInfo>, t: ServiceType): (r: ServiceTypeInfo)
    requires infos != []
    ensures r in infos
    ensures (exists i :: 0 <= i < |infos| && infos[i].id == t) ==>
              exists i :: 0 <= i < |infos| && infos[i] == r && r.id == t &&
                          forall j :: 0 <= j < i ==> infos[j].id != t
    ensures (forall i :: 0 <= i < |infos| ==> infos[i].id != t) ==> r == infos[0]
  {
    match FindServiceInfo(infos, t)
    case Some(info) => info
    case None => infos[0]
  }

  /** The position of `t` in the catalogue. */
  function CatalogueIndex(t: ServiceType): (i: nat)
    ensures i < |ServiceTypes| && ServiceTypes[i].id == t
  {
    match t
    case Teller => 0
    case CustomerService => 1
    case Loan => 2
  }

  /** The catalogue entry of `t` (getServiceTypeInfo). */
  function GetServiceTypeInfo(t: ServiceType): (r: ServiceTypeInfo)
    ensures r.id == t && r in ServiceTypes
  {
    assert ServiceTypes[CatalogueIndex(t)].id == t;
    FindOrFirst(ServiceTypes, t)
  }

  /** The set of ids the catalogue lists. */
  function CatalogueIds(): set<ServiceType> {
    set i | 0 <= i < |ServiceTypes| :: ServiceTypes[i].id
  }

  /** The catalogue lists every service type exactly once. */
  lemma CatalogueIsExact()
    ensures |ServiceTypes| == 3
    ensures forall t: ServiceType :: t in CatalogueIds()
    ensures forall i, j :: 0 <= i < j < |ServiceTypes| ==> ServiceTypes[i].id != ServiceTypes[j].id
  {
    forall t: ServiceType
      ensures t in CatalogueIds()
    {
      assert ServiceTypes[CatalogueIndex(t)].id == t;
    }
  }

  /** The default branch of `GetServiceTypeInfo` is never taken. */
  lemma FallbackUnreachable(t: ServiceType)
    ensures FindServiceInfo(ServiceTypes, t).Some?
  {
    assert ServiceTypes[CatalogueIndex(t)].id == t;
  }

  /** The entry returned for `t` is the catalogue's `t` entry. */
  lemma InfoIsCatalogueEntry(t: ServiceType)
    ensures GetServiceTypeInfo(t) == ServiceTypes[CatalogueIndex(t)]
  {
    var r := GetServiceTypeInfo(t);
    var i :| 0 <= i < |ServiceTypes| && ServiceTypes[i] == r;
    assert i == CatalogueIndex(t);
  }

  /** Prefixes are the single letters A, B, C, so they tell the queues apart. */
  lemma PrefixesDistinct(s: ServiceType, t: ServiceType)
    ensures |GetServiceTypeInfo(s).prefix| == 1
    ensures GetServiceTypeInfo(Teller).prefix == "A"
    ensures GetServiceTypeInfo(CustomerService).prefix == "B"
    ensures GetServiceTypeInfo(Loan).prefix == "C"
    ensures GetServiceTypeInfo(s).prefix == GetServiceTypeInfo(t).prefix ==> s == t
  {
    InfoIsCatalogueEntry(s);
    InfoIsCatalogueEntry(t);
    InfoIsCatalogueEntry(Teller);
    InfoIsCatalogueEntry(CustomerService);
    InfoIsCatalogueEntry(Loan);
  }

  /** Every catalogue entry promises a positive service time: 5, 15 and 30 minutes. */
  lemma EstimatedTimesPositive(t: ServiceType)
    ensures GetServiceTypeInfo(t).estimatedTime > 0
    ensures GetServiceTypeInfo(Teller).estimatedTime == 5
    ensures GetServiceTypeInfo(CustomerService).estimatedTime == 15
    ensures GetServiceTypeInfo(Loan).estimatedTime == 30
  {
    InfoIsCatalogueEntry(t);
    InfoIsCatalogueEntry(Teller);
    InfoIsCatalogueEntry(CustomerService);
    InfoIsCatalogueEntry(Loan);
  }

  /** A ticket's lifecycle state. */
  datatype Status = Waiting | Serving | Completed | Skipped

  predicate IsTerminal(s: Status) {
    s == Completed || s == Skipped
  }

  /**
   * The lifecycle order waiting -> serving -> completed | skipped, taken
   * reflexively: `Advances(a, b)` holds when a ticket in state `a` may later
   * be in state `b`.
   */
  predicate Advances(a: Status, b: Status) {
    match a
    case Waiting => true
    case Serving => b != Waiting
    case Completed => b == Completed
    case Skipped => b == Skipped
  }

  /**
   * One ticket; times are milliseconds. `calledAt`, `completedAt` and
   * `counter` are the source's optional fields.
   */
  datatype Ticket = Ticket(
    id: nat,
    number: nat,
    displayNumber: string,
    serviceType: ServiceType,
    status: Status,
    createdAt: int,
    calledAt: Option<int>,
    completedAt: Option<int>,
    counter: Option<int>)

  /** A service point with its single current-ticket slot. */
  datatype Counter = Counter(
    id: int,
    name: string,
    serviceType: ServiceType,
    isActive: bool,
    currentTicket: Option<Ticket>,
    officerName: Option<string>)

  /** Per-service part of the daily statistics; `avgWaitTime` is in minutes. */
  datatype ServiceStats = ServiceStats(total: nat, served: nat, skipped: nat, avgWaitTime: real)

  datatype HourCount = HourCount(hour: int, count: nat)

  /** The daily statistics; averages are in minutes. */
  datatype QueueStats = QueueStats(
    date: string,
    totalServed: nat,
    totalSkipped: nat,
    averageWaitTime: real,
    averageServiceTime: real,
    byService: map<ServiceType, ServiceStats>,
    hourlyData: seq<HourCount>)
}
