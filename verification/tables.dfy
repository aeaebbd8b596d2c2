/** The durable tables as values, and what each statement of internal/store does to them.
    The class Store runs these on its fields; the run-level machines use them directly. */
module Tables {
  import opened Domain
  import opened Debounce
  import opened Decision

  /** An alert_state row: last_alert_at in whole unix seconds, 0 for "never". */
  datatype StateRow = StateRow(view: Observation, lastAlertAt: int)

  /** The same row as the manager sees it. */
  datatype StateRecord = StateRecord(view: Observation, lastAlertAt: Instant)

  datatype ProbeRow = ProbeRow(id: int, key: Key, checkedAt: int, seen: Observation)

  datatype AlertLogRow = AlertLogRow(channel: Channel, view: Observation, loggedAt: int)

  datatype OutboxRow = OutboxRow(
    id: int, channel: Channel, body: Value, enqueuedAt: int, attempts: nat, lastError: string)

  datatype Database = Database(
    states: map<Key, StateRow>,
    probes: seq<ProbeRow>,
    alerts: seq<AlertLogRow>,
    outbox: seq<OutboxRow>)

  /** time.Time.Unix: whole seconds, rounded down. */
  function Unix(t: Instant): int { t / SECOND }

  function StoredTime(t: Instant): int { if t == ZERO_TIME then 0 else Unix(t) }

  function LoadedTime(s: int): Instant { if s == 0 then ZERO_TIME else s * SECOND }

  function ToRow(r: StateRecord): StateRow { StateRow(r.view, StoredTime(r.lastAlertAt)) }

  function FromRow(r: StateRow): StateRecord { StateRecord(r.view, LoadedTime(r.lastAlertAt)) }

  /** A state row survives the round trip with its time cut down by less than a second,
      for every instant from one second past the epoch on, and for the zero time. */
  lemma StateRoundTrip(r: StateRecord)
    requires r.lastAlertAt == ZERO_TIME || r.lastAlertAt >= SECOND
    ensures var back := FromRow(ToRow(r));
            && back.view == r.view
            && back.lastAlertAt <= r.lastAlertAt < back.lastAlertAt + SECOND
            && (back.lastAlertAt == ZERO_TIME <==> r.lastAlertAt == ZERO_TIME)
            && ToRow(r).lastAlertAt * SECOND == if r.lastAlertAt == ZERO_TIME then 0 else back.lastAlertAt
  {
  }

  // ----- row ids: INTEGER PRIMARY KEY without AUTOINCREMENT -----------------------------

  function MaxId(rows: seq<OutboxRow>): int {
    if rows == [] then 0
    else var m := MaxId(Init(rows)); if Last(rows).id > m then Last(rows).id else m
  }

  lemma {:induction false} MaxIdIsTheLargest(rows: seq<OutboxRow>)
    ensures forall r :: r in rows ==> r.id <= MaxId(rows)
    ensures MaxId(rows) == 0 || exists r :: r in rows && r.id == MaxId(rows)
    ensures MaxId(rows) >= 0
  {
    if rows != [] {
      MaxIdIsTheLargest(Init(rows));
      assert rows == Init(rows) + [Last(rows)];
    }
  }

  function FreshId(rows: seq<OutboxRow>): int { MaxId(rows) + 1 }

  function MaxProbeId(rows: seq<ProbeRow>): (m: int)
    ensures forall r :: r in rows ==> r.id <= m
    ensures m >= 0
  {
    if rows == [] then 0
    else var m := MaxProbeId(Init(rows)); if Last(rows).id > m then Last(rows).id else m
  }

  ghost predicate AscendingIds(rows: seq<OutboxRow>) {
    forall i, j :: 0 <= i < j < |rows| ==> rows[i].id < rows[j].id
  }

  // ----- alert_state, probe_log ---------------------------------------------------------

  function SaveState(db: Database, key: Key, r: StateRecord): Database {
    db.(states := db.states[key := ToRow(r)])
  }

  function Log(db: Database, key: Key, checkedAt: Instant, seen: Observation): Database {
    db.(probes := db.probes + [ProbeRow(MaxProbeId(db.probes) + 1, key, Unix(checkedAt), seen)])
  }

  function ProbesOf(rows: seq<ProbeRow>, key: Key): seq<ProbeRow> {
    if rows == [] then []
    else ProbesOf(Init(rows), key) + (if Last(rows).key == key then [Last(rows)] else [])
  }

  function Seen(rows: seq<ProbeRow>): (s: seq<Observation>)
    ensures |s| == |rows| && forall i :: 0 <= i < |s| ==> s[i] == rows[i].seen
  {
    seq(|rows|, i requires 0 <= i < |rows| => rows[i].seen)
  }

  /** ORDER BY checked_at DESC, id DESC. */
  predicate Later(a: ProbeRow, b: ProbeRow) {
    a.checkedAt > b.checkedAt || (a.checkedAt == b.checkedAt && a.id > b.id)
  }

  function NewestAt(rows: seq<ProbeRow>): (i: nat)
    requires rows != []
    ensures i < |rows|
    ensures forall j :: 0 <= j < |rows| && j != i ==> !Later(rows[j], rows[i])
  {
    if |rows| == 1 then 0
    else
      var i := NewestAt(Init(rows));
      if Later(Last(rows), rows[i]) then |rows| - 1 else i
  }

  function Without(rows: seq<ProbeRow>, i: nat): (r: seq<ProbeRow>)
    requires i < |rows|
    ensures |r| == |rows| - 1
  {
    rows[..i] + rows[i + 1..]
  }

  function Newest(rows: seq<ProbeRow>, limit: int): (r: seq<ProbeRow>)
    decreases |rows|
  {
    if rows == [] || limit <= 0 then []
    else [rows[NewestAt(rows)]] + Newest(Without(rows, NewestAt(rows)), limit - 1)
  }

  /** Rows of one target as a clock that never steps back leaves them. */
  ghost predicate Chronological(rows: seq<ProbeRow>) {
    forall i, j :: 0 <= i < j < |rows| ==> Later(rows[j], rows[i])
  }

  lemma NewestIsLast(rows: seq<ProbeRow>)
    requires Chronological(rows) && rows != []
    ensures NewestAt(rows) == |rows| - 1
  {
  }

  lemma NewestStep(rows: seq<ProbeRow>, limit: int)
    requires Chronological(rows) && rows != [] && limit > 0
    ensures Newest(rows, limit) == [Last(rows)] + Newest(Init(rows), limit - 1)
  {
    NewestIsLast(rows);
    assert Without(rows, |rows| - 1) == Init(rows);
  }

  lemma SuffixStep<T>(s: seq<T>, limit: int)
    requires s != [] && limit > 0
    ensures Reverse(Suffix(s, limit)) == [Last(s)] + Reverse(Suffix(Init(s), limit - 1))
  {
  }

  /** Under such a clock the query returns the last rows, newest first. */
  lemma {:induction false} NewestIsSuffix(rows: seq<ProbeRow>, limit: int)
    requires Chronological(rows)
    ensures Newest(rows, limit) == Reverse(Suffix(rows, limit))
    decreases |rows|
  {
    if rows != [] && limit > 0 {
      NewestIsSuffix(Init(rows), limit - 1);
      NewestStep(rows, limit);
      SuffixStep(rows, limit);
    }
  }

  lemma SeenNewest(rows: seq<ProbeRow>, limit: int)
    requires Chronological(rows)
    ensures Seen(Newest(rows, limit)) == Reverse(Suffix(Seen(rows), limit))
  {
    NewestIsSuffix(rows, limit);
    assert Seen(Suffix(rows, limit)) == Suffix(Seen(rows), limit);
  }

  /** The premise is needed: after a clock step the query's newest row is not the row that
      was written last, so a rebuild would count from the wrong observation. */
  lemma ClockStepHidesTheLastRow(id: int, key: Key, t: int)
    ensures var ok := ProbeRow(id, key, t, HEALTHY);
            var down := ProbeRow(id + 1, key, t - 1, Observation(StatusUnreachable, SeverityCritical));
            Newest([ok, down], 1) == [ok]
  {
  }

  function KeepProbes(rows: seq<ProbeRow>, cutoff: int): (kept: seq<ProbeRow>)
    ensures |kept| <= |rows|
  {
    if rows == [] then []
    else KeepProbes(Init(rows), cutoff) + (if Last(rows).checkedAt < cutoff then [] else [Last(rows)])
  }

  function KeepAlerts(rows: seq<AlertLogRow>, cutoff: int): (kept: seq<AlertLogRow>)
    ensures |kept| <= |rows|
  {
    if rows == [] then []
    else KeepAlerts(Init(rows), cutoff) + (if Last(rows).loggedAt < cutoff then [] else [Last(rows)])
  }

  function Prune(db: Database, probeCutoff: int, alertCutoff: int): Database {
    db.(probes := KeepProbes(db.probes, probeCutoff), alerts := KeepAlerts(db.alerts, alertCutoff))
  }

  /** Pruning takes exactly what is older than the cutoffs. */
  lemma {:induction false} PruneTakesTheOld(db: Database, probeCutoff: int, alertCutoff: int)
    ensures var after := Prune(db, probeCutoff, alertCutoff);
            && (forall p :: p in after.probes <==> p in db.probes && p.checkedAt >= probeCutoff)
            && (forall a :: a in after.alerts <==> a in db.alerts && a.loggedAt >= alertCutoff)
            && after.states == db.states && after.outbox == db.outbox
  {
    ProbesKept(db.probes, probeCutoff);
    AlertsKept(db.alerts, alertCutoff);
  }

  /** A logged probe has its target, its outcome and the newest id, and stays until a cutoff
      passes the second it was made in. */
  lemma LoggedUntilPruned(db: Database, key: Key, at: Instant, x: Observation, cutoff: int, alertCutoff: int)
    ensures var after := Log(db, key, at, x);
            var row := Last(after.probes);
            && after.probes == db.probes + [row] && after == db.(probes := after.probes)
            && row.key == key && row.seen == x && (forall r :: r in db.probes ==> r.id < row.id)
            && (row in Prune(after, cutoff, alertCutoff).probes <==> cutoff * SECOND <= at)
  {
    ProbesKept(Log(db, key, at, x).probes, cutoff);
  }

  lemma {:induction false} ProbesKept(rows: seq<ProbeRow>, cutoff: int)
    ensures forall p :: p in KeepProbes(rows, cutoff) <==> p in rows && p.checkedAt >= cutoff
  {
    if rows != [] {
      ProbesKept(Init(rows), cutoff);
      assert rows == Init(rows) + [Last(rows)];
    }
  }

  lemma {:induction false} AlertsKept(rows: seq<AlertLogRow>, cutoff: int)
    ensures forall a :: a in KeepAlerts(rows, cutoff) <==> a in rows && a.loggedAt >= cutoff
  {
    if rows != [] {
      AlertsKept(Init(rows), cutoff);
      assert rows == Init(rows) + [Last(rows)];
    }
  }

  // ----- the outbox ---------------------------------------------------------------------

  function InsertAlerts(alerts: seq<AlertLogRow>, key: Key, at: int, ds: seq<Delivery>): seq<AlertLogRow> {
    if ds == [] then alerts
    else InsertAlerts(alerts, key, at, Init(ds))
         + [AlertLogRow(Channel(Last(ds).notifier, key), Last(ds).view, at)]
  }

  function InsertRows(outbox: seq<OutboxRow>, key: Key, at: int, ds: seq<Delivery>): seq<OutboxRow> {
    if ds == [] then outbox
    else
      var before := InsertRows(outbox, key, at, Init(ds));
      before + [OutboxRow(FreshId(before), Channel(Last(ds).notifier, key), Last(ds).body, at, 0, "")]
  }

  /** The Enqueue transaction: one state row, one alert_log and one outbox row per delivery. */
  function Enqueued(db: Database, key: Key, r: StateRecord, at: Instant, ds: seq<Delivery>): Database {
    Database(db.states[key := ToRow(r)], db.probes,
             InsertAlerts(db.alerts, key, Unix(at), ds), InsertRows(db.outbox, key, Unix(at), ds))
  }

  lemma {:induction false} AlertsInserted(alerts: seq<AlertLogRow>, key: Key, at: int, ds: seq<Delivery>)
    ensures var after := InsertAlerts(alerts, key, at, ds);
            && |after| == |alerts| + |ds| && alerts <= after
            && forall i :: 0 <= i < |ds| ==>
                 after[|alerts| + i] == AlertLogRow(Channel(ds[i].notifier, key), ds[i].view, at)
    decreases |ds|
  {
    if ds != [] {
      AlertsInserted(alerts, key, at, Init(ds));
    }
  }

  predicate HoldsDelivery(row: OutboxRow, key: Key, at: int, d: Delivery) {
    row.channel == Channel(d.notifier, key) && row.body == d.body && row.enqueuedAt == at
    && row.attempts == 0 && row.lastError == ""
  }

  lemma LastInserted(rows: seq<OutboxRow>, key: Key, at: int, ds: seq<Delivery>) returns (row: OutboxRow)
    requires ds != []
    ensures InsertRows(rows, key, at, ds) == InsertRows(rows, key, at, Init(ds)) + [row]
    ensures HoldsDelivery(row, key, at, Last(ds))
  {
    row := Last(InsertRows(rows, key, at, ds));
  }

  predicate HoldsDeliveries(rows: seq<OutboxRow>, after: seq<OutboxRow>, key: Key, at: int, ds: seq<Delivery>) {
    && |after| == |rows| + |ds| && rows <= after
    && forall i :: 0 <= i < |ds| ==> HoldsDelivery(after[|rows| + i], key, at, ds[i])
  }

  lemma SnocHolds(
    rows: seq<OutboxRow>, after: seq<OutboxRow>, key: Key, at: int, ds: seq<Delivery>, row: OutboxRow, d: Delivery)
    requires HoldsDeliveries(rows, after, key, at, ds) && HoldsDelivery(row, key, at, d)
    ensures HoldsDeliveries(rows, after + [row], key, at, ds + [d])
  {
  }

  lemma {:induction false} RowsInserted(rows: seq<OutboxRow>, key: Key, at: int, ds: seq<Delivery>)
    ensures HoldsDeliveries(rows, InsertRows(rows, key, at, ds), key, at, ds)
    decreases |ds|
  {
    if ds != [] {
      RowsInserted(rows, key, at, Init(ds));
      var row := LastInserted(rows, key, at, ds);
      SnocHolds(rows, InsertRows(rows, key, at, Init(ds)), key, at, Init(ds), row, Last(ds));
      assert Init(ds) + [Last(ds)] == ds;
    }
  }

  /** Each delivery becomes one alert_log row and one outbox row, in order, side by side: the
      same channel and second in both, the view in the log, the body in the queue. */
  lemma EnqueuePairsLogAndQueue(db: Database, key: Key, r: StateRecord, at: Instant, ds: seq<Delivery>, i: nat)
    requires i < |ds|
    ensures var after := Enqueued(db, key, r, at, ds);
            && |after.alerts| == |db.alerts| + |ds| && db.alerts <= after.alerts
            && |after.outbox| == |db.outbox| + |ds| && db.outbox <= after.outbox
            && var logged, queued := after.alerts[|db.alerts| + i], after.outbox[|db.outbox| + i];
               logged.channel == queued.channel == Channel(ds[i].notifier, key)
               && logged.view == ds[i].view && queued.body == ds[i].body
               && logged.loggedAt == queued.enqueuedAt == Unix(at) && queued.attempts == 0
  {
    AlertsInserted(db.alerts, key, Unix(at), ds);
    RowsInserted(db.outbox, key, Unix(at), ds);
    assert InsertAlerts(db.alerts, key, Unix(at), ds)[|db.alerts| + i].view == ds[i].view;
    assert HoldsDelivery(InsertRows(db.outbox, key, Unix(at), ds)[|db.outbox| + i], key, Unix(at), ds[i]);
  }

  function RowsOn(c: Channel, rows: seq<OutboxRow>): seq<OutboxRow> {
    if rows == [] then []
    else RowsOn(c, Init(rows)) + (if Last(rows).channel == c then [Last(rows)] else [])
  }

  /** NextPending: the queued row of the channel with the smallest id. */
  ghost predicate IsOldest(row: OutboxRow, c: Channel, rows: seq<OutboxRow>) {
    row in rows && row.channel == c && forall r :: r in rows && r.channel == c ==> row.id <= r.id
  }

  function WithoutId(rows: seq<OutboxRow>, id: int): seq<OutboxRow> {
    if rows == [] then []
    else WithoutId(Init(rows), id) + (if Last(rows).id == id then [] else [Last(rows)])
  }

  function FailedId(rows: seq<OutboxRow>, id: int, error: string): seq<OutboxRow> {
    if rows == [] then []
    else
      var last := Last(rows);
      FailedId(Init(rows), id, error)
      + [if last.id == id then last.(attempts := last.attempts + 1, lastError := error) else last]
  }

  function WithoutNotifiers(rows: seq<OutboxRow>, valid: set<Name>): seq<OutboxRow> {
    if rows == [] then []
    else WithoutNotifiers(Init(rows), valid) + (if Last(rows).channel.notifier in valid then [Last(rows)] else [])
  }

  // ----- one cycle and one restart of one target ----------------------------------------

  function MemoryOf(m: Option<TargetMemory>): TargetMemory {
    if m.Some? then m.value else UNKNOWN_TARGET
  }

  /** What a cycle leaves in the tables once its write committed. */
  function Written(db: Database, key: Key, d: Decision, at: Instant, ds: seq<Delivery>): Database {
    var r := StateRecord(d.state.confirmed, d.state.lastAlertAt);
    if d.held then db
    else if ds != [] then Enqueued(db, key, r, at, ds)
    else if d.changed then SaveState(db, key, r)
    else db
  }

  /** What a state row alone restores to. */
  function Loaded(r: Option<StateRecord>): Option<TargetMemory> {
    if r.Some? then Some(TargetMemory(r.value.view, r.value.lastAlertAt, NO_PENDING)) else None
  }

  /** Restore for one target: the state loaded from its row, if any, and the candidate that
      the probe log (newest first) stands for. A target with neither gets no state. */
  function Resumed(loaded: Option<TargetMemory>, n: int, newestFirst: seq<Observation>): Option<TargetMemory> {
    var pending := PendingFor(n, MemoryOf(loaded).confirmed, Reverse(newestFirst));
    if pending.count > 0 then Some(MemoryOf(loaded).(pending := pending)) else loaded
  }
}
