/** The payout rotation (`schedule_service.py`).

    A collector with a cycle start date pays its active, positioned clients
    in position order, one every `interval` days; a cycle lasts
    `n × interval` days for `n` positioned clients and cycles repeat.  Dates
    are day ordinals (see `Calendar`) and `today` is a parameter.

    `SetRotationOrder` rewrites the positions of one collector's clients in
    bulk, after checking that the new positions are exactly 1..N and that
    every listed client is the collector's. */
module Schedule {
  import opened Wrappers
  import opened Ledger
  import opened Sorting

  datatype ScheduleEntry = ScheduleEntry(
    clientId: nat,
    fullName: string,
    position: int,
    payoutDate: int,
    isCurrent: bool,
    isCompleted: bool)

  datatype RotationSchedule = RotationSchedule(
    cycleStartDate: int,
    payoutIntervalDays: int,
    cycleLengthDays: int,
    currentCycle: int,
    entries: seq<ScheduleEntry>)

  /** The clients `get_rotation_schedule` lists: the collector's active
      clients with a position. */
  function Positioned(collectorId: nat): Client -> bool {
    (c: Client) => c.collectorId == collectorId && c.isActive && c.payoutPosition.Some?
  }

  function PositionOf(c: Client): int {
    c.payoutPosition.GetOr(0)
  }

  /** Whole cycles elapsed since the start; 0 before the start. */
  function CurrentCycle(start: int, cycleLength: int, today: int): (r: int)
    requires cycleLength > 0
    ensures r >= 0
    ensures today >= start ==> start + r * cycleLength <= today < start + r * cycleLength + cycleLength
    ensures today < start ==> r == 0
  {
    if today < start then 0
    else
      var d := today - start;
      assert d == d / cycleLength * cycleLength + d % cycleLength;
      d / cycleLength
  }

  function EntryFor(c: Client, cycleStart: int, interval: int, today: int): ScheduleEntry {
    var pos := PositionOf(c);
    var date := cycleStart + (pos - 1) * interval;
    var current := date <= today < date + interval;
    ScheduleEntry(c.id, c.fullName, pos, date, current, date < today && !current)
  }

  /** `get_rotation_schedule`: nothing when the collector is unknown, has no
      cycle start or has no active positioned client; otherwise one entry
      per such client, in position order, dated within the current cycle. */
  function GetRotationSchedule(collectors: seq<Collector>, clients: seq<Client>, collectorId: nat, today: int)
    : (r: Option<RotationSchedule>)
    requires ClientsIndexed(clients)
    requires collectorId < |collectors| ==> collectors[collectorId].payoutIntervalDays >= 1
    ensures r.None? <==> collectorId >= |collectors| || collectors[collectorId].cycleStartDate.None?
                         || Select(clients, Positioned(collectorId)) == []
    ensures r.Some? ==> ScheduleShape(r.value, collectorId, collectors[collectorId], clients, today)
  {
    if collectorId >= |collectors| || collectors[collectorId].cycleStartDate.None? then None
    else
      var positioned := SortBy(Select(clients, Positioned(collectorId)), PositionOf);
      if positioned == [] then None
      else
        var s := BuildSchedule(collectors[collectorId].cycleStartDate.value,
                               collectors[collectorId].payoutIntervalDays, positioned, today);
        SortBySorted(Select(clients, Positioned(collectorId)), PositionOf);
        BuiltScheduleShape(collectors[collectorId], clients, collectorId, positioned, s, today);
        Some(s)
  }

  /** The cycle arithmetic and the entries over clients already in
      position order. */
  function BuildSchedule(start: int, interval: int, positioned: seq<Client>, today: int): (s: RotationSchedule)
    requires interval >= 1 && |positioned| > 0
    ensures s.cycleStartDate == start && s.payoutIntervalDays == interval
    ensures |s.entries| == |positioned| && s.cycleLengthDays == |positioned| * interval
    ensures s.currentCycle == CurrentCycle(start, s.cycleLengthDays, today)
    ensures forall k :: 0 <= k < |positioned| ==>
      s.entries[k] == EntryFor(positioned[k], start + s.currentCycle * s.cycleLengthDays, interval, today)
  {
    var cycleLength := |positioned| * interval;
    assert cycleLength >= interval by {
      assert |positioned| * interval >= 1 * interval;
    }
    var cycle := CurrentCycle(start, cycleLength, today);
    var cycleStart := start + cycle * cycleLength;
    var entries := seq(|positioned|, k requires 0 <= k < |positioned| => EntryFor(positioned[k], cycleStart, interval, today));
    RotationSchedule(start, interval, cycleLength, cycle, entries)
  }

  lemma BuiltScheduleShape(collector: Collector, clients: seq<Client>, collectorId: nat, positioned: seq<Client>,
                           s: RotationSchedule, today: int)
    requires ClientsIndexed(clients)
    requires collector.cycleStartDate.Some? && collector.payoutIntervalDays >= 1 && |positioned| > 0
    requires SortedBy(positioned, PositionOf)
    requires multiset(positioned) == multiset(Select(clients, Positioned(collectorId)))
    requires s == BuildSchedule(collector.cycleStartDate.value, collector.payoutIntervalDays, positioned, today)
    ensures ScheduleShape(s, collectorId, collector, clients, today)
  {
    BuiltCycleShape(collector, positioned, s, today);
    BuiltEntriesShape(collector, clients, collectorId, positioned, s, today);
  }

  lemma BuiltCycleShape(collector: Collector, positioned: seq<Client>, s: RotationSchedule, today: int)
    requires collector.cycleStartDate.Some? && collector.payoutIntervalDays >= 1 && |positioned| > 0
    requires s == BuildSchedule(collector.cycleStartDate.value, collector.payoutIntervalDays, positioned, today)
    ensures CycleShape(s, collector, today)
  {
    assert s.cycleLengthDays >= s.payoutIntervalDays by {
      assert |positioned| * s.payoutIntervalDays >= 1 * s.payoutIntervalDays;
    }
  }

  lemma BuiltEntriesShape(collector: Collector, clients: seq<Client>, collectorId: nat, positioned: seq<Client>,
                          s: RotationSchedule, today: int)
    requires ClientsIndexed(clients)
    requires collector.cycleStartDate.Some? && collector.payoutIntervalDays >= 1 && |positioned| > 0
    requires SortedBy(positioned, PositionOf)
    requires multiset(positioned) == multiset(Select(clients, Positioned(collectorId)))
    requires s == BuildSchedule(collector.cycleStartDate.value, collector.payoutIntervalDays, positioned, today)
    ensures EntriesShape(s, collectorId, clients, today)
  {
    var cycleStart := s.cycleStartDate + s.currentCycle * s.cycleLengthDays;
    PositionedEntries(clients, collectorId, positioned, s.entries, cycleStart, s.payoutIntervalDays, today);
    forall i, j | 0 <= i < j < |s.entries| ensures s.entries[i].position <= s.entries[j].position {
      assert PositionOf(positioned[i]) <= PositionOf(positioned[j]);
    }
    BuiltListsEveryClient(clients, collectorId, positioned, s, cycleStart, today);
  }

  /** Building from a permutation of the selection lists every selected
      client once. */
  lemma BuiltListsEveryClient(clients: seq<Client>, collectorId: nat, positioned: seq<Client>,
                              s: RotationSchedule, cycleStart: int, today: int)
    requires multiset(positioned) == multiset(Select(clients, Positioned(collectorId)))
    requires |s.entries| == |positioned|
    requires forall k :: 0 <= k < |positioned| ==>
      s.entries[k] == EntryFor(positioned[k], cycleStart, s.payoutIntervalDays, today)
    ensures EveryClientListed(s.entries, Select(clients, Positioned(collectorId)))
  {
    var listed := Select(clients, Positioned(collectorId));
    assert |positioned| == |multiset(positioned)| == |multiset(listed)| == |listed|;
    forall c | c in listed ensures exists k :: 0 <= k < |s.entries| && s.entries[k].clientId == c.id {
      assert c in multiset(listed);
      assert c in positioned;
      var k :| 0 <= k < |positioned| && positioned[k] == c;
      assert s.entries[k].clientId == c.id;
    }
  }

  /** What a schedule says: the cycle arithmetic, and for each entry its
      client, its date in the current cycle and its two flags. */
  predicate ScheduleShape(s: RotationSchedule, collectorId: nat, collector: Collector, clients: seq<Client>, today: int) {
    CycleShape(s, collector, today) && EntriesShape(s, collectorId, clients, today)
  }

  /** The current cycle is the one `today` falls in (the first before the
      start). */
  predicate CycleShape(s: RotationSchedule, collector: Collector, today: int) {
    var cycleStart := s.cycleStartDate + s.currentCycle * s.cycleLengthDays;
    collector.cycleStartDate == Some(s.cycleStartDate)
    && s.payoutIntervalDays == collector.payoutIntervalDays >= 1
    && |s.entries| > 0 && s.cycleLengthDays == |s.entries| * s.payoutIntervalDays
    && s.currentCycle >= 0
    && (today < s.cycleStartDate ==> s.currentCycle == 0)
    && (today >= s.cycleStartDate ==> cycleStart <= today < cycleStart + s.cycleLengthDays)
  }

  /** The entries are in position order, one per active positioned client of
      the collector: each entry is such a client's, there are as many
      entries as such clients, and each such client has an entry. */
  predicate EntriesShape(s: RotationSchedule, collectorId: nat, clients: seq<Client>, today: int) {
    var n := |s.entries|;
    var cycleStart := s.cycleStartDate + s.currentCycle * s.cycleLengthDays;
    (forall i, j :: 0 <= i < j < n ==> s.entries[i].position <= s.entries[j].position)
    && (forall k :: 0 <= k < n ==> EntryShape(s.entries[k], collectorId, clients, cycleStart, s.payoutIntervalDays, today))
    && EveryClientListed(s.entries, Select(clients, Positioned(collectorId)))
  }

  /** As many entries as clients, and an entry for each client. */
  predicate EveryClientListed(entries: seq<ScheduleEntry>, listed: seq<Client>) {
    |entries| == |listed|
    && forall c :: c in listed ==> exists k :: 0 <= k < |entries| && entries[k].clientId == c.id
  }

  predicate EntryShape(e: ScheduleEntry, collectorId: nat, clients: seq<Client>, cycleStart: int, interval: int, today: int) {
    e.clientId < |clients| && clients[e.clientId].collectorId == collectorId
    && clients[e.clientId].isActive && clients[e.clientId].payoutPosition == Some(e.position)
    && e.fullName == clients[e.clientId].fullName
    && e.payoutDate == cycleStart + (e.position - 1) * interval
    && (e.isCurrent <==> e.payoutDate <= today < e.payoutDate + interval)
    && (e.isCompleted <==> e.payoutDate < today && !e.isCurrent)
  }

  lemma PositionedEntries(clients: seq<Client>, collectorId: nat, positioned: seq<Client>, entries: seq<ScheduleEntry>,
                          cycleStart: int, interval: int, today: int)
    requires ClientsIndexed(clients)
    requires multiset(positioned) == multiset(Select(clients, Positioned(collectorId)))
    requires |entries| == |positioned|
    requires forall k :: 0 <= k < |entries| ==> entries[k] == EntryFor(positioned[k], cycleStart, interval, today)
    ensures forall k :: 0 <= k < |entries| ==>
      EntryShape(entries[k], collectorId, clients, cycleStart, interval, today)
  {
    forall k | 0 <= k < |entries|
      ensures EntryShape(entries[k], collectorId, clients, cycleStart, interval, today)
    {
      assert positioned[k] in multiset(positioned);
      assert positioned[k] in Select(clients, Positioned(collectorId));
    }
  }

  lemma MulMono(a: int, b: int, m: int)
    requires a <= b && m >= 0
    ensures a * m <= b * m
  {
    assert b * m - a * m == (b - a) * m;
  }

  /** The slot `e / interval` of a cycle of `n` slots holds the day `e`. */
  lemma SlotHolds(e: int, interval: int, n: int)
    requires interval >= 1 && 0 <= e < n * interval
    ensures 0 <= e / interval < n
    ensures (e / interval) * interval <= e < (e / interval) * interval + interval
  {
    var k := e / interval;
    assert e == k * interval + e % interval;
    if k >= n {
      MulMono(n, k, interval);
    }
  }

  /** No two slots hold the same day. */
  lemma SlotUnique(i: int, j: int, e: int, interval: int)
    requires interval >= 1
    requires i * interval <= e < i * interval + interval
    requires j * interval <= e < j * interval + interval
    ensures i == j
  {
    if i < j {
      MulMono(i + 1, j, interval);
    } else if j < i {
      MulMono(j + 1, i, interval);
    }
  }

  /** Once the cycle has started, and with positions exactly 1..n, exactly
      one entry is current: the one whose `interval`-day slot of the current
      cycle holds today. */
  lemma ExactlyOneCurrent(s: RotationSchedule, collectorId: nat, collector: Collector, clients: seq<Client>, today: int)
    requires ScheduleShape(s, collectorId, collector, clients, today)
    requires today >= s.cycleStartDate
    requires forall k :: 0 <= k < |s.entries| ==> s.entries[k].position == k + 1
    ensures exists k :: 0 <= k < |s.entries| && s.entries[k].isCurrent
    ensures forall i, j :: (0 <= i < |s.entries| && 0 <= j < |s.entries|
                           && s.entries[i].isCurrent && s.entries[j].isCurrent) ==> i == j
  {
    var n := |s.entries|;
    var interval := s.payoutIntervalDays;
    var cycleStart := s.cycleStartDate + s.currentCycle * s.cycleLengthDays;
    var e := today - cycleStart;
    assert CycleShape(s, collector, today);
    SlotHolds(e, interval, n);
    var k := e / interval;
    assert EntryShape(s.entries[k], collectorId, clients, cycleStart, interval, today);
    assert s.entries[k].isCurrent;
    forall i, j | 0 <= i < n && 0 <= j < n && s.entries[i].isCurrent && s.entries[j].isCurrent
      ensures i == j
    {
      assert EntryShape(s.entries[i], collectorId, clients, cycleStart, interval, today);
      assert EntryShape(s.entries[j], collectorId, clients, cycleStart, interval, today);
      SlotUnique(i, j, e, interval);
    }
  }

  /** An entry is never both current and completed. */
  lemma CurrentIsNotCompleted(s: RotationSchedule, collectorId: nat, collector: Collector, clients: seq<Client>, today: int, k: nat)
    requires ScheduleShape(s, collectorId, collector, clients, today) && k < |s.entries|
    ensures !(s.entries[k].isCurrent && s.entries[k].isCompleted)
    ensures s.entries[k].payoutDate < today ==> (s.entries[k].isCurrent || s.entries[k].isCompleted)
  {
    assert EntryShape(s.entries[k], collectorId, clients, s.cycleStartDate + s.currentCycle * s.cycleLengthDays,
                      s.payoutIntervalDays, today);
  }

  // ---------------------------------------------------------------------
  // One client's view

  datatype ScheduleSummary = ScheduleSummary(
    hasSchedule: bool,
    myPosition: Option<int>,
    myPayoutDate: Option<int>,
    daysUntilMyPayout: Option<int>,
    currentRecipientName: Option<string>,
    nextRecipientName: Option<string>,
    totalPositions: nat,
    payoutIntervalDays: int)

  /** The answer for a client with no schedule. */
  const NoSchedule: ScheduleSummary := ScheduleSummary(false, None, None, None, None, None, 0, 7)

  function IsClient(clientId: nat): ScheduleEntry -> bool { (e: ScheduleEntry) => e.clientId == clientId }

  function IsCurrentEntry(e: ScheduleEntry): bool { e.isCurrent }

  function DatedAfter(today: int): ScheduleEntry -> bool { (e: ScheduleEntry) => e.payoutDate > today }

  function NameAt(entries: seq<ScheduleEntry>, i: Option<nat>): Option<string>
    requires i.Some? ==> i.value < |entries|
  {
    if i.Some? then Some(entries[i.value].fullName) else None
  }

  /** `get_client_schedule_summary`. */
  function GetClientScheduleSummary(collectors: seq<Collector>, clients: seq<Client>, client: Client, today: int)
    : (r: ScheduleSummary)
    requires ClientsIndexed(clients)
    requires client.collectorId < |collectors| ==> collectors[client.collectorId].payoutIntervalDays >= 1
    ensures GetRotationSchedule(collectors, clients, client.collectorId, today).None? || client.payoutPosition.None?
            ==> r == NoSchedule
    ensures r.hasSchedule ==> SummaryShape(r, GetRotationSchedule(collectors, clients, client.collectorId, today).value,
                                            client, today)
    ensures r.hasSchedule <==> GetRotationSchedule(collectors, clients, client.collectorId, today).Some?
                               && client.payoutPosition.Some?
    ensures r.hasSchedule ==> r.totalPositions == |Select(clients, Positioned(client.collectorId))|
  {
    var schedule := GetRotationSchedule(collectors, clients, client.collectorId, today);
    if schedule.None? || client.payoutPosition.None? then NoSchedule
    else Summarize(schedule.value, client, today)
  }

  /** The summary of a client that has a position in a schedule. */
  function Summarize(s: RotationSchedule, client: Client, today: int): (r: ScheduleSummary)
    requires client.payoutPosition.Some?
    ensures r.hasSchedule && SummaryShape(r, s, client, today)
  {
    var myDate := MyPayoutDate(s.entries, client.id);
    ScheduleSummary(
      true,
      client.payoutPosition,
      myDate,
      if myDate.Some? && myDate.value >= today then Some(myDate.value - today) else None,
      CurrentName(s.entries),
      NextName(s.entries, today),
      |s.entries|,
      s.payoutIntervalDays)
  }

  /** The payout date of the first entry of the client, if it has one. */
  function MyPayoutDate(entries: seq<ScheduleEntry>, clientId: nat): (d: Option<int>)
    ensures d.None? <==> forall k :: 0 <= k < |entries| ==> entries[k].clientId != clientId
    ensures d.Some? ==> exists k :: 0 <= k < |entries| && entries[k].clientId == clientId
                                    && entries[k].payoutDate == d.value
  {
    var mine := FirstIndex(entries, IsClient(clientId));
    if mine.Some? then Some(entries[mine.value].payoutDate) else None
  }

  /** The name on the first entry marked current, if any. */
  function CurrentName(entries: seq<ScheduleEntry>): (n: Option<string>)
    ensures n.None? <==> forall k :: 0 <= k < |entries| ==> !entries[k].isCurrent
  {
    NameAt(entries, FirstIndex(entries, IsCurrentEntry))
  }

  /** The name on the first entry dated after `today`, if any. */
  function NextName(entries: seq<ScheduleEntry>, today: int): (n: Option<string>)
    ensures n.None? <==> forall k :: 0 <= k < |entries| ==> entries[k].payoutDate <= today
    ensures n.Some? ==>
      exists k :: (0 <= k < |entries| && entries[k].payoutDate > today
                   && entries[k].fullName == n.value
                   && forall j :: 0 <= j < k ==> entries[j].payoutDate <= today)
  {
    NameAt(entries, FirstIndex(entries, DatedAfter(today)))
  }

  /** The summary of a client with a schedule: its own date, the days left
      until it (only when not past), the current recipient and the first
      one dated after today. */
  predicate SummaryShape(r: ScheduleSummary, s: RotationSchedule, client: Client, today: int) {
    var entries := s.entries;
    r.myPosition == client.payoutPosition
    && r.totalPositions == |entries| && r.payoutIntervalDays == s.payoutIntervalDays
    && (r.myPayoutDate.None? <==> forall k :: 0 <= k < |entries| ==> entries[k].clientId != client.id)
    && (r.myPayoutDate.Some? ==> exists k :: 0 <= k < |entries| && entries[k].clientId == client.id
                                              && entries[k].payoutDate == r.myPayoutDate.value)
    && (r.daysUntilMyPayout.Some? <==> r.myPayoutDate.Some? && r.myPayoutDate.value >= today)
    && (r.daysUntilMyPayout.Some? ==> r.daysUntilMyPayout.value == r.myPayoutDate.value - today >= 0)
    && (r.currentRecipientName.None? <==> forall k :: 0 <= k < |entries| ==> !entries[k].isCurrent)
    && (r.nextRecipientName.None? <==> forall k :: 0 <= k < |entries| ==> entries[k].payoutDate <= today)
    && (r.nextRecipientName.Some? ==>
          exists k :: (0 <= k < |entries| && entries[k].payoutDate > today
                       && entries[k].fullName == r.nextRecipientName.value
                       && forall j :: 0 <= j < k ==> entries[j].payoutDate <= today))
  }

  // ---------------------------------------------------------------------
  // Rewriting the rotation

  datatype PositionAssignment = PositionAssignment(clientId: nat, position: int)

  datatype ScheduleError = NotContiguous(sortedPositions: seq<int>) | ClientsNotInGroup

  function IntKey(x: int): int { x }

  function Positions(ps: seq<PositionAssignment>): (r: seq<int>)
    ensures |r| == |ps| && forall k :: 0 <= k < |ps| ==> r[k] == ps[k].position
  {
    seq(|ps|, k requires 0 <= k < |ps| => ps[k].position)
  }

  /** The list 1..n. */
  function OneTo(n: nat): (r: seq<int>)
    ensures |r| == n && forall k :: 0 <= k < n ==> r[k] == k + 1
  {
    seq(n, k requires 0 <= k < n => k + 1)
  }

  /** `sorted(positions) == list(range(1, N + 1))`. */
  predicate Contiguous(ps: seq<PositionAssignment>) {
    SortBy(Positions(ps), IntKey) == OneTo(|ps|)
  }

  /** Every listed client is one of the collector's. */
  predicate AllInGroup(clients: seq<Client>, collectorId: nat, ps: seq<PositionAssignment>) {
    forall k :: 0 <= k < |ps| ==> ps[k].clientId < |clients| && clients[ps[k].clientId].collectorId == collectorId
  }

  /** The validation of `set_rotation_order`: an empty list always passes;
      otherwise the positions must be 1..N and the clients the collector's. */
  function RotationCheck(clients: seq<Client>, collectorId: nat, ps: seq<PositionAssignment>): (r: Option<ScheduleError>)
    ensures r.None? <==> ps == [] || (Contiguous(ps) && AllInGroup(clients, collectorId, ps))
    ensures ps != [] && !Contiguous(ps) ==> r == Some(NotContiguous(SortBy(Positions(ps), IntKey)))
    ensures ps != [] && Contiguous(ps) && !AllInGroup(clients, collectorId, ps) ==> r == Some(ClientsNotInGroup)
  {
    if ps == [] then None
    else if !Contiguous(ps) then Some(NotContiguous(SortBy(Positions(ps), IntKey)))
    else if !AllInGroup(clients, collectorId, ps) then Some(ClientsNotInGroup)
    else None
  }

  /** The last entry of the list naming the client: later writes win. */
  function LastAssignment(ps: seq<PositionAssignment>, clientId: nat): (r: Option<nat>)
    ensures r.Some? ==> r.value < |ps| && ps[r.value].clientId == clientId
                        && forall j :: r.value < j < |ps| ==> ps[j].clientId != clientId
    ensures r.None? <==> forall j :: 0 <= j < |ps| ==> ps[j].clientId != clientId
  {
    if ps == [] then None
    else if ps[|ps| - 1].clientId == clientId then Some(|ps| - 1)
    else LastAssignment(ps[..|ps| - 1], clientId)
  }

  /** The position the client holds once the list has been written. */
  function AssignedPosition(ps: seq<PositionAssignment>, clientId: nat): Option<int> {
    match LastAssignment(ps, clientId)
    case None => None
    case Some(k) => Some(ps[k].position)
  }

  /** The client table after clearing the collector's positions and writing
      the list in order. */
  function Reassigned(clients: seq<Client>, collectorId: nat, ps: seq<PositionAssignment>): seq<Client> {
    seq(|clients|, k requires 0 <= k < |clients| =>
      if clients[k].collectorId == collectorId then clients[k].(payoutPosition := AssignedPosition(ps, k))
      else clients[k])
  }

  /** `set_rotation_order`: validate, clear the collector's positions, then
      write the list one entry at a time. */
  method SetRotationOrder(db: Database, collectorId: nat, positions: seq<PositionAssignment>)
    returns (r: Result<(), ScheduleError>)
    requires db.Valid()
    modifies db
    ensures db.Valid()
    ensures db.collectors == old(db.collectors) && db.transactions == old(db.transactions)
    ensures db.payouts == old(db.payouts)
    ensures r.Failure? <==> RotationCheck(old(db.clients), collectorId, positions).Some?
    ensures r.Failure? ==> r.error == RotationCheck(old(db.clients), collectorId, positions).value
                           && db.clients == old(db.clients)
    ensures r.Success? ==> db.clients == Reassigned(old(db.clients), collectorId, positions)
  {
    if positions == [] {
      ReassignedKeepsConsistent(db.collectors, db.clients, db.transactions, db.payouts, collectorId, positions);
      db.clients := Reassigned(db.clients, collectorId, []);
      return Success(());
    }
    var sorted := SortBy(Positions(positions), IntKey);
    if sorted != OneTo(|positions|) {
      return Failure(NotContiguous(sorted));
    }
    // A separate duplicate-position check follows in the source; it can
    // never fail once the positions are 1..N (ContiguousHasNoDuplicates).
    if !AllInGroup(db.clients, collectorId, positions) {
      return Failure(ClientsNotInGroup);
    }
    ContiguousHasNoDuplicates(positions);
    ReassignedKeepsConsistent(db.collectors, db.clients, db.transactions, db.payouts, collectorId, positions);
    var before := db.clients;
    db.clients := Reassigned(db.clients, collectorId, []);
    var i := 0;
    while i < |positions|
      invariant 0 <= i <= |positions|
      invariant db.clients == Reassigned(before, collectorId, positions[..i])
      invariant db.collectors == old(db.collectors) && db.transactions == old(db.transactions)
      invariant db.payouts == old(db.payouts)
    {
      var p := positions[i];
      WriteOneMore(before, collectorId, positions, i);
      db.clients := db.clients[p.clientId := db.clients[p.clientId].(payoutPosition := Some(p.position))];
      i := i + 1;
    }
    assert positions[..i] == positions;
    r := Success(());
  }

  /** Writing entry `i` extends the rewrite of the first `i` entries. */
  lemma WriteOneMore(clients: seq<Client>, collectorId: nat, ps: seq<PositionAssignment>, i: nat)
    requires i < |ps| && AllInGroup(clients, collectorId, ps)
    ensures var before := Reassigned(clients, collectorId, ps[..i]);
      var p := ps[i];
      Reassigned(clients, collectorId, ps[..i + 1])
        == before[p.clientId := before[p.clientId].(payoutPosition := Some(p.position))]
  {
    assert ps[..i + 1][..i] == ps[..i];
  }

  lemma StrictlyIncreasingCountsOnce(xs: seq<int>, v: int)
    requires forall i, j :: 0 <= i < j < |xs| ==> xs[i] < xs[j]
    ensures multiset(xs)[v] <= 1
  {
    if xs != [] {
      assert xs == [xs[0]] + xs[1..];
      StrictlyIncreasingCountsOnce(xs[1..], v);
      if xs[0] == v {
        assert v !in xs[1..];
      }
    }
  }

  lemma RepeatCountsTwice(xs: seq<int>, i: nat, j: nat)
    requires i < j < |xs| && xs[i] == xs[j]
    ensures multiset(xs)[xs[i]] >= 2
  {
    assert xs == xs[..i] + [xs[i]] + xs[i + 1..j] + [xs[j]] + xs[j + 1..];
  }

  /** Positions that sort to 1..N are pairwise distinct, so the source's
      separate duplicate check never fires. */
  lemma ContiguousHasNoDuplicates(ps: seq<PositionAssignment>)
    requires Contiguous(ps)
    ensures forall i, j :: 0 <= i < |ps| && 0 <= j < |ps| && i != j ==> ps[i].position != ps[j].position
  {
    var values := Positions(ps);
    assert multiset(values) == multiset(OneTo(|ps|));
    forall i, j | 0 <= i < |ps| && 0 <= j < |ps| && i != j
      ensures ps[i].position != ps[j].position
    {
      if ps[i].position == ps[j].position {
        if i < j {
          RepeatCountsTwice(values, i, j);
        } else {
          RepeatCountsTwice(values, j, i);
        }
        StrictlyIncreasingCountsOnce(OneTo(|ps|), ps[i].position);
      }
    }
  }

  /** With pairwise distinct positions the rewrite keeps the table
      invariants, the unique (collector, position) index included. */
  lemma ReassignedKeepsConsistent(collectors: seq<Collector>, clients: seq<Client>, ts: seq<Transaction>,
                                  payouts: seq<Payout>, collectorId: nat, ps: seq<PositionAssignment>)
    requires ConsistentTables(collectors, clients, ts, payouts)
    requires forall i, j :: 0 <= i < |ps| && 0 <= j < |ps| && i != j ==> ps[i].position != ps[j].position
    ensures ConsistentTables(collectors, Reassigned(clients, collectorId, ps), ts, payouts)
  {
    var cs := Reassigned(clients, collectorId, ps);
    forall i, j | 0 <= i < |cs| && 0 <= j < |cs| && i != j && cs[i].collectorId == cs[j].collectorId
                  && cs[i].payoutPosition.Some?
      ensures cs[i].payoutPosition != cs[j].payoutPosition
    {
      if clients[i].collectorId == collectorId && cs[j].payoutPosition.Some? {
        var m := LastAssignment(ps, i).value;
        var n := LastAssignment(ps, j).value;
        assert m != n;
      }
    }
    assert TransactionsLinked(ts, cs);
    assert PayoutsLinked(payouts, cs);
  }

  /** After a successful rewrite each listed client holds the position of
      its last listing, every other client of the collector (inactive ones
      included) holds none, and other collectors' clients are untouched. */
  lemma RewriteOutcome(clients: seq<Client>, collectorId: nat, ps: seq<PositionAssignment>, k: nat)
    requires k < |clients|
    ensures var c := Reassigned(clients, collectorId, ps)[k];
      c == clients[k].(payoutPosition := c.payoutPosition)
      && (clients[k].collectorId != collectorId ==> c == clients[k])
      && ((clients[k].collectorId == collectorId && forall j :: 0 <= j < |ps| ==> ps[j].clientId != k)
          ==> c.payoutPosition.None?)
      && (forall j :: (0 <= j < |ps| && ps[j].clientId == k && clients[k].collectorId == collectorId
                       && (forall m :: j < m < |ps| ==> ps[m].clientId != k))
            ==> c.payoutPosition == Some(ps[j].position))
  {
    var c := Reassigned(clients, collectorId, ps)[k];
    forall j | 0 <= j < |ps| && ps[j].clientId == k && clients[k].collectorId == collectorId
               && (forall m :: j < m < |ps| ==> ps[m].clientId != k)
      ensures c.payoutPosition == Some(ps[j].position)
    {
      var last := LastAssignment(ps, k).value;
      assert last == j;
    }
  }

  /** Applying the same list twice passes the same validation and changes
      nothing the second time. */
  lemma RewriteIdempotent(clients: seq<Client>, collectorId: nat, ps: seq<PositionAssignment>)
    ensures RotationCheck(Reassigned(clients, collectorId, ps), collectorId, ps) == RotationCheck(clients, collectorId, ps)
    ensures Reassigned(Reassigned(clients, collectorId, ps), collectorId, ps) == Reassigned(clients, collectorId, ps)
  {
    var cs := Reassigned(clients, collectorId, ps);
    assert AllInGroup(cs, collectorId, ps) <==> AllInGroup(clients, collectorId, ps);
  }

  /** Positions 1 and 2, in that order, are contiguous. */
  lemma FirstTwoContiguous(a: nat, b: nat)
    ensures Contiguous([PositionAssignment(a, 1), PositionAssignment(b, 2)])
  {
    assert Positions([PositionAssignment(a, 1), PositionAssignment(b, 2)]) == [1, 2];
    SortByOfSorted([1, 2], IntKey);
    assert OneTo(2) == [1, 2];
  }

  /** A client listed twice passes validation, keeps the later position and
      leaves the earlier one held by no client of the collector. */
  lemma RepeatedClientLeavesGap(clients: seq<Client>, collectorId: nat, a: nat)
    requires a < |clients| && clients[a].collectorId == collectorId
    ensures var ps := [PositionAssignment(a, 1), PositionAssignment(a, 2)];
      RotationCheck(clients, collectorId, ps).None?
      && Reassigned(clients, collectorId, ps)[a].payoutPosition == Some(2)
      && forall k :: 0 <= k < |clients| && clients[k].collectorId == collectorId ==>
           Reassigned(clients, collectorId, ps)[k].payoutPosition != Some(1)
  {
    var ps := [PositionAssignment(a, 1), PositionAssignment(a, 2)];
    FirstTwoContiguous(a, a);
    forall k | 0 <= k < |clients| && clients[k].collectorId == collectorId
      ensures Reassigned(clients, collectorId, ps)[k].payoutPosition != Some(1)
    {
      if k == a {
        assert LastAssignment(ps, a) == Some(1);
      } else {
        assert LastAssignment(ps, k).None?;
      }
    }
    assert LastAssignment(ps, a) == Some(1);
  }

  predicate ClientsIndexed(clients: seq<Client>) {
    forall k :: 0 <= k < |clients| ==> clients[k].id == k
  }
}
