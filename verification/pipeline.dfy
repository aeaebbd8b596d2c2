/** The whole durable pipeline: many targets probed, decided and committed concurrently, one
    queue drained by many dispatchers, log pruning at any cutoff, writes that fail, a probe-log
    clock that may jump, and a crash and restart between any two atomic steps of any of them.
    Every such run projects to one run of each target and one run of the queue, which carries
    their results over; the end-to-end results follow. */
module Pipeline {
  import opened Domain
  import opened Debounce
  import opened Decision
  import opened Tables
  import Bodies
  import TargetRuns
  import Outbox

  datatype Config = Config(notifiers: map<Name, NotifierConfig>, targets: map<Key, TargetConfig>)

  ghost predicate Valid(c: Config) {
    forall k :: k in c.targets ==> ValidTarget(c.notifiers, c.targets[k])
  }

  /** History of one target, as in TargetRuns. */
  datatype History = History(
    seen: seq<Observation>, queued: seq<Delivery>, lastFired: Option<Instant>, rowFired: Option<Instant>,
    restarted: bool, behind: bool, missed: set<Name>, counted: seq<Observation>)

  const NO_HISTORY := History([], [], None, None, false, false, {}, [])

  datatype Sys = Sys(
    db: Database,
    // volatile
    memory: map<Key, TargetMemory>,
    phases: map<Key, TargetRuns.Phase>,
    hands: map<Channel, Outbox.Hand>,
    // history
    histories: map<Key, History>,
    queued: seq<Outbox.Queued>,
    deleted: seq<OutboxRow>,
    receipts: seq<Outbox.Receipt>)

  const START := Sys(Database(map[], [], [], []), map[], map[], map[], map[], [], [], [])

  datatype Event =
    | Record(key: Key, checkedAt: Instant, x: Observation, logged: bool)  // logged: the write went through
    | Choose(key: Key, now: Instant, render: Renderer)
    | Commit(key: Key, ok: bool)  // ok: the write of the decision, if it needs one, went through
    | Prune(probeCutoff: int, alertCutoff: int)
    | Deliver(step: Outbox.Event)
    | Crash(unread: set<Key>)  // the targets whose probe log the restart could not read

  function PhaseOf(s: Sys, k: Key): TargetRuns.Phase {
    if k in s.phases then s.phases[k] else TargetRuns.Idle
  }

  function HistoryOf(s: Sys, k: Key): History {
    if k in s.histories then s.histories[k] else NO_HISTORY
  }

  ghost predicate Enabled(c: Config, s: Sys, e: Event) {
    match e
    case Record(k, _, _, _) => k in c.targets && PhaseOf(s, k).Idle?
    case Choose(k, now, render) =>
      k in c.targets && PhaseOf(s, k).Recorded? && now >= SECOND && TargetRuns.Total(c.notifiers, render)
    case Commit(k, _) => k in c.targets && PhaseOf(s, k).Decided?
    case Prune(_, _) => true
    case Deliver(step) => !step.Insert? && !step.Crash? && Outbox.Enabled(Queue(s), step)
    case Crash(_) => true
  }

  /** What a restart reads of a target's log, newest first. */
  function ReadBack(c: Config, db: Database, unread: set<Key>, k: Key): seq<Observation>
    requires k in c.targets
  {
    if k in unread then [] else Seen(Newest(ProbesOf(db.probes, k), Streak(c.targets[k])))
  }

  function Restart(c: Config, db: Database, unread: set<Key>, k: Key): Option<TargetMemory>
    requires k in c.targets
  {
    Resumed(Loaded(TargetRuns.RecordOf(Get(db.states, k))), Streak(c.targets[k]), ReadBack(c, db, unread, k))
  }

  function RestartAll(c: Config, db: Database, unread: set<Key>): map<Key, TargetMemory> {
    map k | k in c.targets && Restart(c, db, unread, k).Some? :: Restart(c, db, unread, k).value
  }

  function Restarted(c: Config, s: Sys, unread: set<Key>, k: Key): History
    requires k in c.targets
  {
    var h := HistoryOf(s, k);
    h.(lastFired := h.rowFired, restarted := true, behind := false,
       counted := Reverse(ReadBack(c, s.db, unread, k)))
  }

  /** The history of a target after the commit of its decision, as in TargetRuns. */
  function Committed(c: Config, s: Sys, k: Key, ok: bool): History
    requires k in c.targets && PhaseOf(s, k).Decided?
  {
    var p, h := PhaseOf(s, k), HistoryOf(s, k);
    var writes := TargetRuns.Writes(p.decision, p.deliveries);
    var fired := if TargetRuns.Fired(p.decision) then Some(p.now) else h.lastFired;
    h.(queued := if ok then h.queued + p.deliveries else h.queued,
       lastFired := fired,
       rowFired := if ok && writes then fired else h.rowFired,
       restarted := h.restarted && !TargetRuns.Fired(p.decision),
       behind := if writes then !ok else h.behind,
       missed := if ok && writes then h.missed + TargetRuns.NotCaughtUp(TargetConfigOf(c, k), Target(s, k))
                 else h.missed)
  }

  function Apply(c: Config, s: Sys, e: Event): Sys {
    match e
    case Record(k, checkedAt, x, logged) =>
      var h := HistoryOf(s, k);
      s.(db := if logged then Log(s.db, k, checkedAt, x) else s.db,
         phases := s.phases[k := TargetRuns.Recorded(x)],
         histories := s.histories[k := h.(seen := h.seen + [x], counted := h.counted + [x])])
    case Choose(k, now, render) =>
      if k !in c.targets || !PhaseOf(s, k).Recorded? then s
      else
        var t, x := c.targets[k], PhaseOf(s, k).x;
        var d := Decide(t, MemoryOf(Get(s.memory, k)), x, now);
        s.(memory := s.memory[k := d.state],
           phases := s.phases[k := TargetRuns.Decided(x, now, d, Owed(c.notifiers, t, d, x, render))])
    case Commit(k, ok) =>
      if k !in c.targets || !PhaseOf(s, k).Decided? then s
      else
        var p := PhaseOf(s, k);
        s.(db := if ok then Written(s.db, k, p.decision, p.now, p.deliveries) else s.db,
           phases := s.phases[k := TargetRuns.Idle],
           histories := s.histories[k := Committed(c, s, k, ok)],
           queued := if ok then s.queued + Outbox.Tagged(k, p.deliveries) else s.queued)
    case Prune(probeCutoff, alertCutoff) => s.(db := Tables.Prune(s.db, probeCutoff, alertCutoff))
    case Deliver(step) =>
      var q := Outbox.Apply(Queue(s), step);
      s.(db := s.db.(outbox := q.rows), hands := q.hands,
         queued := q.queued, deleted := q.deleted, receipts := q.receipts)
    case Crash(unread) =>
      s.(memory := RestartAll(c, s.db, unread), phases := map[], hands := map[],
         histories := map k | k in c.targets :: Restarted(c, s, unread, k))
  }

  ghost function Run(c: Config, events: seq<Event>): Option<Sys> {
    if events == [] then Some(START)
    else
      var s := Run(c, Init(events));
      if s.Some? && Enabled(c, s.value, Last(events)) then Some(Apply(c, s.value, Last(events))) else None
  }

  // ----- the projections ----------------------------------------------------------------

  function TargetConfigOf(c: Config, k: Key): TargetRuns.Config
    requires k in c.targets
  {
    TargetRuns.Config(c.notifiers, c.targets[k])
  }

  function Target(s: Sys, k: Key): TargetRuns.TargetSys {
    var h := HistoryOf(s, k);
    TargetRuns.TargetSys(Get(s.db.states, k), Get(s.memory, k), PhaseOf(s, k), h.seen, h.queued,
                         h.lastFired, h.rowFired, h.restarted, h.behind, h.missed, h.counted)
  }

  function Queue(s: Sys): Outbox.OutboxSys {
    Outbox.OutboxSys(s.db.outbox, s.hands, s.queued, s.deleted, s.receipts)
  }

  /** A decision that held committed nothing. */
  ghost predicate SharedOk(s: Sys) {
    forall k :: PhaseOf(s, k).Decided? && PhaseOf(s, k).decision.held ==> PhaseOf(s, k).deliveries == []
  }

  lemma StepKeepsShared(c: Config, s: Sys, e: Event)
    requires SharedOk(s) && Enabled(c, s, e)
    ensures SharedOk(Apply(c, s, e))
  {
    forall k | PhaseOf(Apply(c, s, e), k).Decided? && PhaseOf(Apply(c, s, e), k).decision.held
      ensures PhaseOf(Apply(c, s, e), k).deliveries == []
    {
      if PhaseOf(s, k).Decided? {
        assert PhaseOf(Apply(c, s, e), k) == PhaseOf(s, k);
      }
    }
  }

  // ----- each step projects ---------------------------------------------------------------

  /** The step that a pipeline event is for one target; None when the target does not move. */
  function TargetStep(c: Config, s: Sys, e: Event, k: Key): Option<TargetRuns.Event>
    requires k in c.targets
  {
    match e
    case Record(key, _, x, _) => if key == k then Some(TargetRuns.Record(x)) else None
    case Choose(key, now, render) => if key == k then Some(TargetRuns.Choose(now, render)) else None
    case Commit(key, ok) => if key == k then Some(TargetRuns.Commit(ok)) else None
    case Prune(_, _) => None
    case Deliver(_) => None
    case Crash(unread) => Some(TargetRuns.Crash(ReadBack(c, s.db, unread, k)))
  }

  lemma ProjectRecord(c: Config, s: Sys, e: Event, k: Key)
    requires k in c.targets && e.Record? && Enabled(c, s, e)
    ensures Target(Apply(c, s, e), k)
         == if e.key == k then TargetRuns.Apply(TargetConfigOf(c, k), Target(s, k), TargetRuns.Record(e.x))
            else Target(s, k)
  {
  }

  lemma ProjectCrash(c: Config, s: Sys, unread: set<Key>, k: Key)
    requires k in c.targets
    ensures Target(Apply(c, s, Crash(unread)), k)
         == TargetRuns.Apply(TargetConfigOf(c, k), Target(s, k), TargetRuns.Crash(ReadBack(c, s.db, unread, k)))
  {
  }

  lemma ProjectCommit(c: Config, s: Sys, e: Event, k: Key)
    requires k in c.targets && e.Commit? && Enabled(c, s, e) && SharedOk(s)
    ensures Target(Apply(c, s, e), k)
         == if e.key == k then TargetRuns.Apply(TargetConfigOf(c, k), Target(s, k), TargetRuns.Commit(e.ok))
            else Target(s, k)
  {
  }

  lemma ProjectChoose(c: Config, s: Sys, e: Event, k: Key)
    requires k in c.targets && e.Choose? && Enabled(c, s, e)
    ensures Target(Apply(c, s, e), k)
         == if e.key == k then TargetRuns.Apply(TargetConfigOf(c, k), Target(s, k), TargetRuns.Choose(e.now, e.render))
            else Target(s, k)
  {
  }

  lemma ProjectEnabled(c: Config, s: Sys, e: Event, k: Key)
    requires k in c.targets && Enabled(c, s, e)
    ensures var te := TargetStep(c, s, e, k);
            te.Some? ==> TargetRuns.Enabled(TargetConfigOf(c, k), Target(s, k), te.value)
  {
  }

  lemma ProjectStep(c: Config, s: Sys, e: Event, k: Key)
    requires Valid(c) && k in c.targets && SharedOk(s) && Enabled(c, s, e)
    ensures var te := TargetStep(c, s, e, k);
            Target(Apply(c, s, e), k)
            == if te.Some? then TargetRuns.Apply(TargetConfigOf(c, k), Target(s, k), te.value) else Target(s, k)
  {
    match e
    case Record(_, _, _, _) => ProjectRecord(c, s, e, k);
    case Choose(_, _, _) => ProjectChoose(c, s, e, k);
    case Commit(_, _) => ProjectCommit(c, s, e, k);
    case Crash(unread) => ProjectCrash(c, s, unread, k);
    case _ =>
  }

  // ----- the probe log of a target ----------------------------------------------------------

  lemma ProbesOfSnoc(rows: seq<ProbeRow>, row: ProbeRow, k: Key)
    ensures ProbesOf(rows + [row], k) == ProbesOf(rows, k) + (if row.key == k then [row] else [])
  {
  }

  lemma {:induction false} ProbesOfMembers(rows: seq<ProbeRow>, k: Key)
    ensures forall r :: r in ProbesOf(rows, k) ==> r in rows
  {
    if rows != [] {
      ProbesOfMembers(Init(rows), k);
    }
  }

  lemma KeepProbesSnoc(rows: seq<ProbeRow>, row: ProbeRow, cutoff: int)
    ensures KeepProbes(rows + [row], cutoff)
         == KeepProbes(rows, cutoff) + (if row.checkedAt < cutoff then [] else [row])
  {
  }

  /** Pruning the table prunes each target's rows. */
  lemma {:induction false} KeepProbesOf(rows: seq<ProbeRow>, cutoff: int, k: Key)
    ensures ProbesOf(KeepProbes(rows, cutoff), k) == KeepProbes(ProbesOf(rows, k), cutoff)
  {
    if rows != [] {
      var rest, last := Init(rows), Last(rows);
      KeepProbesOf(rest, cutoff, k);
      ProbesOfSnoc(KeepProbes(rest, cutoff), last, k);
      KeepProbesSnoc(ProbesOf(rest, k), last, cutoff);
      assert KeepProbes(rest, cutoff) + [] == KeepProbes(rest, cutoff);
      assert ProbesOf(rest, k) + [] == ProbesOf(rest, k);
    }
  }

  /** Under a clock that does not step back, pruning takes rows off the front only. */
  lemma {:induction false} KeepProbesIsSuffix(rows: seq<ProbeRow>, cutoff: int)
    requires Chronological(rows)
    ensures var kept := KeepProbes(rows, cutoff); |kept| <= |rows| && kept == rows[|rows| - |kept|..]
    ensures rows != [] && Last(rows).checkedAt < cutoff ==> KeepProbes(rows, cutoff) == []
  {
    if rows != [] {
      var rest := Init(rows);
      KeepProbesIsSuffix(rest, cutoff);
      if Last(rows).checkedAt < cutoff && rest != [] {
        assert Later(rows[|rows| - 1], rows[|rows| - 2]);
      }
    }
  }

  lemma ChronologicalSnoc(rows: seq<ProbeRow>, row: ProbeRow)
    requires Chronological(rows)
    requires forall r :: r in rows ==> r.checkedAt <= row.checkedAt && r.id < row.id
    ensures Chronological(rows + [row])
  {
  }

  lemma TailOfTail(n: int, part: seq<Observation>, seen: seq<Observation>, kept: seq<Observation>)
    requires TargetRuns.Tail(n, part, seen) && TargetRuns.Tail(n, kept, part)
    ensures TargetRuns.Tail(n, kept, seen)
  {
  }

  /** Rows in the order they were written, and in them the newest part of what was seen, the n
      newest at least. */
  ghost predicate NewestRows(n: int, rows: seq<ProbeRow>, seen: seq<Observation>) {
    Chronological(rows) && TargetRuns.Tail(n, Seen(rows), seen)
  }

  ghost predicate LogTail(s: Sys, k: Key, n: int) {
    NewestRows(n, ProbesOf(s.db.probes, k), HistoryOf(s, k).seen)
  }

  /** What a step makes of the probe log. */
  function ProbesAfter(probes: seq<ProbeRow>, e: Event): seq<ProbeRow> {
    match e
    case Record(k, checkedAt, x, logged) =>
      if logged then probes + [ProbeRow(MaxProbeId(probes) + 1, k, Unix(checkedAt), x)] else probes
    case Prune(cutoff, _) => KeepProbes(probes, cutoff)
    case _ => probes
  }

  function SeenAfter(seen: seq<Observation>, e: Event, k: Key): seq<Observation> {
    if e.Record? && e.key == k then seen + [e.x] else seen
  }

  lemma StepOnLog(c: Config, s: Sys, e: Event, k: Key)
    requires k in c.targets
    ensures Apply(c, s, e).db.probes == ProbesAfter(s.db.probes, e)
    ensures HistoryOf(Apply(c, s, e), k).seen == SeenAfter(HistoryOf(s, k).seen, e, k)
  {
  }

  /** A step that logs what it sees of the target under a clock that does not step back, and
      prunes its log to no less than n rows. */
  ghost predicate OrderlyStep(probes: seq<ProbeRow>, k: Key, n: int, e: Event) {
    var rows := ProbesOf(probes, k);
    match e
    case Record(key, checkedAt, _, logged) =>
      key == k ==> logged && forall r :: r in rows ==> r.checkedAt <= Unix(checkedAt)
    case Prune(cutoff, _) => |ProbesOf(KeepProbes(probes, cutoff), k)| >= Min(n, |rows|)
    case _ => true
  }

  ghost predicate Orderly(c: Config, events: seq<Event>, k: Key, n: int) {
    events != [] && Run(c, Init(events)).Some? ==>
      Orderly(c, Init(events), k, n) && OrderlyStep(Run(c, Init(events)).value.db.probes, k, n, Last(events))
  }

  /** Orderly with n = 0 asks nothing of the pruning. */
  lemma {:induction false} OrderlyForLess(c: Config, events: seq<Event>, k: Key, n: int)
    requires Orderly(c, events, k, n) && n >= 0
    ensures Orderly(c, events, k, 0)
  {
    if events != [] && Run(c, Init(events)).Some? {
      OrderlyForLess(c, Init(events), k, n);
    }
  }

  lemma SeenTail(rows: seq<ProbeRow>, kept: seq<ProbeRow>, n: int)
    requires |kept| <= |rows| && kept == rows[|rows| - |kept|..] && |kept| >= Min(n, |rows|)
    ensures TargetRuns.Tail(n, Seen(kept), Seen(rows))
  {
  }

  lemma SuffixInOrder(rows: seq<ProbeRow>, kept: seq<ProbeRow>)
    requires Chronological(rows) && |kept| <= |rows| && kept == rows[|rows| - |kept|..]
    ensures Chronological(kept)
  {
  }

  lemma NewestRowsKept(n: int, rows: seq<ProbeRow>, seen: seq<Observation>, cutoff: int)
    requires NewestRows(n, rows, seen) && |KeepProbes(rows, cutoff)| >= Min(n, |rows|)
    ensures NewestRows(n, KeepProbes(rows, cutoff), seen)
  {
    var kept := KeepProbes(rows, cutoff);
    KeepProbesIsSuffix(rows, cutoff);
    SuffixInOrder(rows, kept);
    SeenTail(rows, kept, n);
    TailOfTail(n, Seen(rows), seen, Seen(kept));
  }

  lemma NewestRowsGrow(n: int, rows: seq<ProbeRow>, seen: seq<Observation>, row: ProbeRow)
    requires NewestRows(n, rows, seen)
    requires forall r :: r in rows ==> r.checkedAt <= row.checkedAt && r.id < row.id
    ensures NewestRows(n, rows + [row], seen + [row.seen])
  {
    ChronologicalSnoc(rows, row);
    TargetRuns.TailGrows(n, Seen(rows), seen, row.seen);
    assert Seen(rows + [row]) == Seen(rows) + [row.seen];
  }

  lemma LogKeepsTail(probes: seq<ProbeRow>, row: ProbeRow, k: Key, n: int, seen: seq<Observation>)
    requires NewestRows(n, ProbesOf(probes, k), seen) && row.id == MaxProbeId(probes) + 1
    requires row.key == k ==> forall r :: r in ProbesOf(probes, k) ==> r.checkedAt <= row.checkedAt
    ensures NewestRows(n, ProbesOf(probes + [row], k), if row.key == k then seen + [row.seen] else seen)
  {
    ProbesOfSnoc(probes, row, k);
    ProbesOfMembers(probes, k);
    if row.key == k {
      NewestRowsGrow(n, ProbesOf(probes, k), seen, row);
    } else {
      assert ProbesOf(probes, k) + [] == ProbesOf(probes, k);
    }
  }

  lemma StepKeepsTail(probes: seq<ProbeRow>, e: Event, k: Key, n: int, seen: seq<Observation>)
    requires NewestRows(n, ProbesOf(probes, k), seen) && OrderlyStep(probes, k, n, e)
    ensures NewestRows(n, ProbesOf(ProbesAfter(probes, e), k), SeenAfter(seen, e, k))
  {
    if e.Record? && e.logged {
      LogKeepsTail(probes, ProbeRow(MaxProbeId(probes) + 1, e.key, Unix(e.checkedAt), e.x), k, n, seen);
    } else if e.Prune? {
      KeepProbesOf(probes, e.probeCutoff, k);
      NewestRowsKept(n, ProbesOf(probes, k), seen, e.probeCutoff);
    }
  }

  lemma {:induction false} OrderlyKeepsTail(c: Config, events: seq<Event>, k: Key, n: int)
    requires Run(c, events).Some? && Orderly(c, events, k, n) && k in c.targets
    ensures LogTail(Run(c, events).value, k, n)
  {
    if events != [] {
      var s := Run(c, Init(events)).value;
      OrderlyKeepsTail(c, Init(events), k, n);
      StepOnLog(c, s, Last(events), k);
      StepKeepsTail(s.db.probes, Last(events), k, n, HistoryOf(s, k).seen);
    }
  }

  lemma LimitedTail(n: int, log: seq<Observation>, seen: seq<Observation>, limit: int)
    requires TargetRuns.Tail(n, log, seen) && 0 <= n <= limit
    ensures TargetRuns.Tail(n, Suffix(log, limit), seen)
  {
  }

  lemma ReverseTwice<T>(s: seq<T>)
    ensures Reverse(Reverse(s)) == s
  {
  }

  /** The rebuild's query on such rows reads the newest part of what was seen. */
  lemma NewestRowsRead(n: int, rows: seq<ProbeRow>, seen: seq<Observation>, limit: int)
    requires NewestRows(n, rows, seen) && 0 <= n <= limit
    ensures TargetRuns.Tail(n, Reverse(Seen(Newest(rows, limit))), seen)
  {
    SeenNewest(rows, limit);
    ReverseTwice(Suffix(Seen(rows), limit));
    LimitedTail(n, Seen(rows), seen, limit);
  }

  lemma ReadsTheTail(c: Config, s: Sys, unread: set<Key>, k: Key, n: int)
    requires k in c.targets && LogTail(s, k, n) && 0 <= n <= Streak(c.targets[k])
    requires k in unread ==> n == 0
    ensures TargetRuns.Tail(n, Reverse(ReadBack(c, s.db, unread, k)), HistoryOf(s, k).seen)
  {
    if k !in unread {
      NewestRowsRead(n, ProbesOf(s.db.probes, k), HistoryOf(s, k).seen, Streak(c.targets[k]));
    }
  }

  // ----- every run projects -------------------------------------------------------------------

  lemma OneMore(c: TargetRuns.Config, own: seq<TargetRuns.Event>, t: TargetRuns.TargetSys, e: TargetRuns.Event)
    requires TargetRuns.Run(c, own) == Some(t) && TargetRuns.Enabled(c, t, e)
    ensures TargetRuns.Run(c, own + [e]) == Some(TargetRuns.Apply(c, t, e))
    ensures TargetRuns.ReadsNewest(c, own) && TargetRuns.ReadsTail(t, e) ==> TargetRuns.ReadsNewest(c, own + [e])
  {
    assert Init(own + [e]) == own;
  }

  lemma TailIsRead(t: TargetRuns.TargetSys, seen: seq<Observation>, newest: seq<Observation>)
    requires t.seen == seen && TargetRuns.Tail(0, Reverse(newest), seen)
    ensures TargetRuns.ReadsTail(t, TargetRuns.Crash(newest))
  {
  }

  lemma SeenOfTarget(s: Sys, k: Key)
    ensures Target(s, k).seen == HistoryOf(s, k).seen
  {
  }

  lemma CrashReads(c: Config, s: Sys, e: Event, k: Key)
    requires k in c.targets && LogTail(s, k, 0) && Streak(c.targets[k]) >= 0
    ensures var te := TargetStep(c, s, e, k);
            te.Some? ==> TargetRuns.ReadsTail(Target(s, k), te.value)
  {
    if e.Crash? {
      ReadsTheTail(c, s, e.unread, k, 0);
      SeenOfTarget(s, k);
      TailIsRead(Target(s, k), HistoryOf(s, k).seen, ReadBack(c, s.db, e.unread, k));
    }
  }

  /** Every run of the pipeline is a run of each of its targets; one that is orderly for a
      target is one whose restarts read the newest part of what was seen of it. */
  lemma {:induction false} ProjectsToTarget(c: Config, events: seq<Event>, k: Key) returns (own: seq<TargetRuns.Event>)
    requires Valid(c) && Run(c, events).Some? && k in c.targets
    ensures TargetRuns.Run(TargetConfigOf(c, k), own) == Some(Target(Run(c, events).value, k))
    ensures Orderly(c, events, k, 0) ==> TargetRuns.ReadsNewest(TargetConfigOf(c, k), own)
    ensures SharedOk(Run(c, events).value)
  {
    if events == [] {
      own := [];
    } else {
      var s, e := Run(c, Init(events)).value, Last(events);
      own := ProjectsToTarget(c, Init(events), k);
      ProjectEnabled(c, s, e, k);
      ProjectStep(c, s, e, k);
      StepKeepsShared(c, s, e);
      var te := TargetStep(c, s, e, k);
      if te.Some? {
        if Orderly(c, Init(events), k, 0) {
          OrderlyKeepsTail(c, Init(events), k, 0);
          CrashReads(c, s, e, k);
        }
        OneMore(TargetConfigOf(c, k), own, Target(s, k), te.value);
        own := own + [te.value];
      }
    }
  }

  function QueueEvent(s: Sys, e: Event): Option<Outbox.Event> {
    match e
    case Commit(k, ok) =>
      if ok && PhaseOf(s, k).Decided?
      then Some(Outbox.Insert(k, Unix(PhaseOf(s, k).now), PhaseOf(s, k).deliveries)) else None
    case Deliver(step) => Some(step)
    case Crash(_) => Some(Outbox.Crash)
    case _ => None
  }

  lemma QueueStep(c: Config, s: Sys, e: Event)
    requires SharedOk(s) && Enabled(c, s, e)
    ensures var oe := QueueEvent(s, e);
            && (oe.Some? ==> Outbox.Enabled(Queue(s), oe.value))
            && Queue(Apply(c, s, e)) == if oe.Some? then Outbox.Apply(Queue(s), oe.value) else Queue(s)
  {
  }

  /** Every run of the pipeline is a run of its queue. */
  lemma {:induction false} ProjectsToQueue(c: Config, events: seq<Event>) returns (own: seq<Outbox.Event>)
    requires Valid(c) && Run(c, events).Some?
    ensures Outbox.Run(own) == Some(Queue(Run(c, events).value))
    ensures SharedOk(Run(c, events).value)
  {
    if events == [] {
      own := [];
    } else {
      var s, e := Run(c, Init(events)).value, Last(events);
      own := ProjectsToQueue(c, Init(events));
      QueueStep(c, s, e);
      StepKeepsShared(c, s, e);
      var oe := QueueEvent(s, e);
      if oe.Some? {
        assert Init(own + [oe.value]) == own;
        own := own + [oe.value];
      }
    }
  }

  // ----- the two projections agree on what was queued ---------------------------------------

  function QueuedViews(qs: seq<Outbox.Queued>): (vs: seq<Observation>)
    ensures |vs| == |qs| && forall i :: 0 <= i < |qs| ==> vs[i] == qs[i].view
  {
    seq(|qs|, i requires 0 <= i < |qs| => qs[i].view)
  }

  /** The channel's stream as the queue saw it is the stream its target committed. */
  ghost predicate Linked(s: Sys, k: Key, name: Name) {
    QueuedViews(Outbox.QueuedOn(Channel(name, k), s.queued)) == TargetRuns.Stream(name, HistoryOf(s, k).queued)
  }

  lemma LinkSnoc(c: Channel, qs: seq<Outbox.Queued>, q: Outbox.Queued)
    ensures QueuedViews(Outbox.QueuedOn(c, qs + [q]))
         == QueuedViews(Outbox.QueuedOn(c, qs)) + (if q.channel == c then [q.view] else [])
  {
  }

  lemma StreamSnoc(name: Name, ds: seq<Delivery>)
    requires ds != []
    ensures TargetRuns.Stream(name, ds)
         == TargetRuns.Stream(name, Init(ds)) + (if Last(ds).notifier == name then [Last(ds).view] else [])
  {
  }

  lemma TaggedSnoc(owner: Key, qs: seq<Outbox.Queued>, ds: seq<Delivery>)
    requires ds != []
    ensures qs + Outbox.Tagged(owner, ds)
         == (qs + Outbox.Tagged(owner, Init(ds)))
            + [Outbox.Queued(Channel(Last(ds).notifier, owner), Last(ds).view, Last(ds).body)]
  {
  }

  lemma {:induction false} TaggedLinks(k: Key, name: Name, owner: Key, qs: seq<Outbox.Queued>, ds: seq<Delivery>)
    ensures QueuedViews(Outbox.QueuedOn(Channel(name, k), qs + Outbox.Tagged(owner, ds)))
         == QueuedViews(Outbox.QueuedOn(Channel(name, k), qs))
            + (if owner == k then TargetRuns.Stream(name, ds) else [])
    decreases |ds|
  {
    var c, before := Channel(name, k), QueuedViews(Outbox.QueuedOn(Channel(name, k), qs));
    if ds == [] {
      assert qs + Outbox.Tagged(owner, ds) == qs && before + [] == before;
    } else {
      var rest, last := Init(ds), Last(ds);
      var q := Outbox.Queued(Channel(last.notifier, owner), last.view, last.body);
      TaggedLinks(k, name, owner, qs, rest);
      TaggedSnoc(owner, qs, ds);
      LinkSnoc(c, qs + Outbox.Tagged(owner, rest), q);
      if owner == k {
        StreamSnoc(name, ds);
        Associative(before, TargetRuns.Stream(name, rest), if last.notifier == name then [last.view] else []);
      }
    }
  }

  lemma Associative(a: seq<Observation>, b: seq<Observation>, c: seq<Observation>)
    ensures (a + b) + c == a + (b + c)
  {
  }

  lemma StepKeepsLink(c: Config, s: Sys, e: Event, k: Key, name: Name)
    requires Enabled(c, s, e) && Linked(s, k, name) && k in c.targets
    ensures Linked(Apply(c, s, e), k, name)
  {
    if e.Commit? && e.ok {
      var p := PhaseOf(s, e.key);
      TaggedLinks(k, name, e.key, s.queued, p.deliveries);
      if e.key == k {
        TargetRuns.StreamConcat(name, HistoryOf(s, k).queued, p.deliveries);
      }
    }
  }

  lemma {:induction false} RunKeepsLink(c: Config, events: seq<Event>, k: Key, name: Name)
    requires Run(c, events).Some? && k in c.targets
    ensures Linked(Run(c, events).value, k, name)
  {
    if events != [] {
      RunKeepsLink(c, Init(events), k, name);
      StepKeepsLink(c, Run(c, Init(events)).value, Last(events), k, name);
    }
  }

  // ----- the results --------------------------------------------------------------------

  /** The confirmed state of a target as the database has it. */
  function DurableView(s: Sys, k: Key): Observation {
    if k in s.db.states then s.db.states[k].view else HEALTHY
  }

  /** What the receiver behind a channel believes: the notice it accepted last. */
  function ReceiverBelieves(l: Outbox.Lane): Observation {
    if l.receipts == [] || Last(l.receipts).position >= |l.queued| then HEALTHY
    else l.queued[Last(l.receipts).position].view
  }

  lemma CollapseEndsWithLast(rs: seq<Outbox.Receipt>)
    requires rs != []
    ensures Outbox.Collapse(rs) != [] && Last(Outbox.Collapse(rs)) == Last(rs).position
  {
  }

  /** At every point of every run of the whole pipeline, for every attached channel: nothing
      that was queued is lost, repeated out of turn or reordered on its way to the receiver;
      and if every write that went through caught the channel up, the queued notices are up to
      date with the durable confirmed state and pair each recovery with its problem. */
  lemma PipelineIsFaithful(c: Config, events: seq<Event>, k: Key, name: Name)
    requires Valid(c) && Run(c, events).Some? && k in c.targets && name in c.targets[k].notifiers
    ensures var s := Run(c, events).value;
            var l := Outbox.LaneOf(Queue(s), Channel(name, k));
            var m := |Outbox.Collapse(l.receipts)|;
            && Outbox.Conserved(l) && Outbox.FaithfulBodies(l)
            && Outbox.Collapse(l.receipts) == Outbox.UpTo(m)
            && |l.gone| <= m <= |l.gone| + 1 && m <= |l.queued|
            && (name !in HistoryOf(s, k).missed ==>
                  TargetRuns.UpToDate(c.notifiers[name], QueuedViews(l.queued), DurableView(s, k)))
  {
    var s := Run(c, events).value;
    var queueRun := ProjectsToQueue(c, events);
    Outbox.NothingLostOrReordered(queueRun, Channel(name, k));
    var targetRun := ProjectsToTarget(c, events, k);
    TargetRuns.StreamsTrackTheRow(TargetConfigOf(c, k), targetRun, name);
    RunKeepsLink(c, events, k, name);
  }

  /** This commit writes to the target's row. */
  ghost predicate WritesTo(s: Sys, e: Event, k: Key) {
    && e.Commit? && e.key == k && e.ok && PhaseOf(s, k).Decided?
    && TargetRuns.Writes(PhaseOf(s, k).decision, PhaseOf(s, k).deliveries)
  }

  /** The target's row is never behind when it is written: each write that failed was followed
      by a restart before the next that went through. */
  ghost predicate FailStop(c: Config, events: seq<Event>, k: Key) {
    events != [] && Run(c, Init(events)).Some? ==>
      var s := Run(c, Init(events)).value;
      FailStop(c, Init(events), k) && (WritesTo(s, Last(events), k) ==> !HistoryOf(s, k).behind)
  }

  /** Then every write caught every channel of the target up. */
  lemma {:induction false} FailStopCatchesUp(c: Config, events: seq<Event>, k: Key, name: Name)
    requires Valid(c) && Run(c, events).Some? && k in c.targets && name in c.targets[k].notifiers
    requires FailStop(c, events, k)
    ensures name !in HistoryOf(Run(c, events).value, k).missed
  {
    if events != [] {
      var s, e := Run(c, Init(events)).value, Last(events);
      FailStopCatchesUp(c, Init(events), k, name);
      if WritesTo(s, e, k) {
        var targetRun := ProjectsToTarget(c, Init(events), k);
        TargetRuns.OnlyLateWritesMiss(TargetConfigOf(c, k), targetRun, e.ok, name);
        ProjectCommit(c, s, e, k);
      }
    }
  }

  /** End to end: whenever a channel's queue is empty, whatever crashed, failed or was sent
      twice before, its receiver believes exactly the channel's view of the confirmed state
      in the database, if every write that went through caught the channel up. */
  lemma DrainedReceiverIsRight(c: Config, events: seq<Event>, k: Key, name: Name)
    requires Valid(c) && Run(c, events).Some? && k in c.targets && name in c.targets[k].notifiers
    requires SendsRecovery(c.notifiers[name])
    requires RowsOn(Channel(name, k), Run(c, events).value.db.outbox) == []
    requires name !in HistoryOf(Run(c, events).value, k).missed
    ensures var s := Run(c, events).value;
            var l := Outbox.LaneOf(Queue(s), Channel(name, k));
            ReceiverBelieves(l) == ClampView(DurableView(s, k), Floor(c.notifiers[name]))
  {
    PipelineIsFaithful(c, events, k, name);
    LaneBelief(Outbox.LaneOf(Queue(Run(c, events).value), Channel(name, k)), c.notifiers[name],
               DurableView(Run(c, events).value, k));
  }

  lemma RunSnoc(c: Config, events: seq<Event>, s: Sys, e: Event)
    requires Run(c, events) == Some(s) && Enabled(c, s, e)
    ensures Run(c, events + [e]) == Some(Apply(c, s, e))
  {
    assert Init(events + [e]) == events;
  }

  lemma QueueIsOk(c: Config, events: seq<Event>, s: Sys)
    requires Valid(c) && Run(c, events) == Some(s)
    ensures Outbox.Inv(Queue(s))
  {
    var own := ProjectsToQueue(c, events);
    Outbox.RunKeepsInv(own);
  }

  /** Nothing has changed but the queue and the hands. */
  ghost predicate OnlyQueueMoved(s: Sys, t: Sys) {
    && t.db.(outbox := s.db.outbox) == s.db && t.memory == s.memory && t.phases == s.phases
    && t.histories == s.histories && t.queued == s.queued
  }

  lemma MovedTwice(s: Sys, t: Sys, u: Sys)
    requires OnlyQueueMoved(s, t) && OnlyQueueMoved(t, u)
    ensures OnlyQueueMoved(s, u)
  {
  }

  lemma DeliveryMoves(c: Config, s: Sys, step: Outbox.Event)
    requires !step.Insert? && !step.Crash?
    ensures OnlyQueueMoved(s, Apply(c, s, Deliver(step)))
    ensures Queue(Apply(c, s, Deliver(step))) == Outbox.Apply(Queue(s), step)
  {
  }

  /** One more delivery step of a run. */
  lemma DeliverOne(c: Config, events: seq<Event>, s: Sys, step: Outbox.Event) returns (longer: seq<Event>, t: Sys)
    requires Run(c, events) == Some(s) && !step.Insert? && !step.Crash? && Outbox.Enabled(Queue(s), step)
    ensures Run(c, longer) == Some(t) && OnlyQueueMoved(s, t) && Queue(t) == Outbox.Apply(Queue(s), step)
    ensures events <= longer
  {
    longer, t := events + [Deliver(step)], Apply(c, s, Deliver(step));
    RunSnoc(c, events, s, Deliver(step));
    DeliveryMoves(c, s, step);
  }

  /** The head of a channel's queue goes in three steps. */
  lemma HeadCanGo(c: Config, events: seq<Event>, s: Sys, ch: Channel) returns (longer: seq<Event>, t: Sys)
    requires Valid(c) && Run(c, events) == Some(s)
    requires Outbox.HandOf(Queue(s), ch).Free? && RowsOn(ch, s.db.outbox) != []
    ensures Run(c, longer) == Some(t) && OnlyQueueMoved(s, t) && events <= longer
    ensures Outbox.HandOf(Queue(t), ch).Free? && RowsOn(ch, t.db.outbox) == RowsOn(ch, s.db.outbox)[1..]
  {
    QueueIsOk(c, events, s);
    Outbox.HeadGoes(Queue(s), ch);
    var taken, sent: Sys;
    longer, taken := DeliverOne(c, events, s, Outbox.Take(ch, RowsOn(ch, s.db.outbox)[0]));
    longer, sent := DeliverOne(c, longer, taken, Outbox.SendOk(ch));
    longer, t := DeliverOne(c, longer, sent, Outbox.Delete(ch));
    MovedTwice(s, taken, sent);
    MovedTwice(s, sent, t);
    assert t.db.outbox == Queue(t).rows;
  }

  lemma {:induction false} FreeHandDrains(c: Config, events: seq<Event>, s: Sys, ch: Channel)
    returns (longer: seq<Event>, t: Sys)
    requires Valid(c) && Run(c, events) == Some(s) && Outbox.HandOf(Queue(s), ch).Free?
    ensures Run(c, longer) == Some(t) && OnlyQueueMoved(s, t) && events <= longer
    ensures RowsOn(ch, t.db.outbox) == []
    decreases |RowsOn(ch, s.db.outbox)|
  {
    if RowsOn(ch, s.db.outbox) == [] {
      longer, t := events, s;
    } else {
      var u: Sys;
      longer, u := HeadCanGo(c, events, s, ch);
      longer, t := FreeHandDrains(c, longer, u, ch);
      MovedTwice(s, u, t);
    }
  }

  /** From every point of every run a channel's queue can be emptied by deliveries alone. */
  lemma QueueCanDrain(c: Config, events: seq<Event>, s: Sys, ch: Channel) returns (longer: seq<Event>, t: Sys)
    requires Valid(c) && Run(c, events) == Some(s)
    ensures Run(c, longer) == Some(t) && OnlyQueueMoved(s, t) && events <= longer
    ensures RowsOn(ch, t.db.outbox) == []
  {
    var u: Sys := s;
    longer := events;
    if !Outbox.HandOf(Queue(s), ch).Free? {
      longer, u := DeliverOne(c, events, s, Outbox.SendFail(ch, "", false));
    }
    longer, t := FreeHandDrains(c, longer, u, ch);
    MovedTwice(s, u, t);
  }

  /** So from every point of every run a receiver that was always caught up can be brought to
      believe the channel's view of the confirmed state in the database. */
  lemma ReceiverCanBeRight(c: Config, events: seq<Event>, s: Sys, k: Key, name: Name)
    returns (longer: seq<Event>, t: Sys)
    requires Valid(c) && Run(c, events) == Some(s) && k in c.targets && name in c.targets[k].notifiers
    requires SendsRecovery(c.notifiers[name]) && name !in HistoryOf(s, k).missed
    ensures Run(c, longer) == Some(t) && OnlyQueueMoved(s, t) && events <= longer
    ensures ReceiverBelieves(Outbox.LaneOf(Queue(t), Channel(name, k)))
         == ClampView(DurableView(s, k), Floor(c.notifiers[name]))
  {
    longer, t := QueueCanDrain(c, events, s, Channel(name, k));
    DrainedReceiverIsRight(c, longer, k, name);
  }

  lemma LaneBelief(l: Outbox.Lane, n: NotifierConfig, confirmed: Observation)
    requires SendsRecovery(n) && l.queue == [] && Outbox.Conserved(l)
    requires TargetRuns.UpToDate(n, QueuedViews(l.queued), confirmed)
    requires var m := |Outbox.Collapse(l.receipts)|;
             Outbox.Collapse(l.receipts) == Outbox.UpTo(m) && |l.gone| <= m <= |l.queued|
    ensures ReceiverBelieves(l) == ClampView(confirmed, Floor(n))
  {
    if l.receipts != [] {
      CollapseEndsWithLast(l.receipts);
    }
  }

  /** The debounce end to end: where a target's probes are logged under a clock that does not
      step back, and whatever pruning takes off, a cycle adopts its observation exactly when
      everything ever seen backs it against the confirmed state (the one in the database,
      unless a write failed since the last that went through) and, if the change is contested,
      n cycles are counted. */
  lemma DebounceEndToEnd(c: Config, events: seq<Event>, k: Key, now: Instant)
    requires Valid(c) && Run(c, events).Some? && k in c.targets && Orderly(c, events, k, 0)
    requires PhaseOf(Run(c, events).value, k).Recorded?
    ensures var s := Run(c, events).value;
            var x, h, n := PhaseOf(s, k).x, HistoryOf(s, k), Streak(c.targets[k]);
            var confirmed := MemoryOf(Get(s.memory, k)).confirmed;
            && (!h.behind ==> confirmed == DurableView(s, k))
            && h.seen != [] && Last(h.seen) == x
            && (!Decide(c.targets[k], MemoryOf(Get(s.memory, k)), x, now).held
                <==> Trusted(n, confirmed, h.seen) && (n <= |h.counted| || !Contested(x, confirmed)))
  {
    var own := ProjectsToTarget(c, events, k);
    TargetRuns.DebounceAcrossCrashes(TargetConfigOf(c, k), own, now);
  }

  /** The restart end to end: if pruning also leaves such a target the n newest rows, a restart
      that can read its log reads its candidate rightly, and a decision that the crash undid is
      made again by the next matching cycle (unless the row was behind). */
  lemma RestartEndToEnd(
    c: Config, events: seq<Event>, unread: set<Key>, k: Key, now: Instant, later: Instant, name: Name)
    requires Valid(c) && Run(c, events).Some? && k in c.targets && k !in unread
    requires Orderly(c, events, k, Streak(c.targets[k]))
    requires SECOND <= now <= later && name in c.targets[k].notifiers
    ensures var s, tc := Run(c, events).value, TargetConfigOf(c, k);
            var t, p, newest := Target(s, k), PhaseOf(s, k), ReadBack(c, s.db, unread, k);
            && !TargetRuns.MisreadsCandidate(tc, t, newest)
            && (p.Decided? && p.now <= later && !t.behind ==>
                  TargetRuns.Remade(tc, t, newest, p.decision, p.x, later, name))
            && (p.Recorded? && !t.behind ==>
                  TargetRuns.Remade(tc, t, newest, Decide(tc.target, TargetRuns.Memory(t), p.x, now), p.x, later, name))
  {
    var s, tc, n := Run(c, events).value, TargetConfigOf(c, k), Streak(c.targets[k]);
    OrderlyForLess(c, events, k, n);
    var own := ProjectsToTarget(c, events, k);
    OrderlyKeepsTail(c, events, k, n);
    ReadsTheTail(c, s, unread, k, n);
    var newest := ReadBack(c, s.db, unread, k);
    TargetRuns.TailCandidate(n, DurableView(s, k), Reverse(newest), HistoryOf(s, k).seen);
    if !HistoryOf(s, k).behind {
      TargetRuns.LostDecisionIsRemade(tc, own, newest, now, later, name);
    }
  }

  /** The runs above ask that every notice renders; that is what the startup check of the
      notifiers' bodies provides. */
  lemma AcceptedBodiesAreTotal(c: Config, bodies: map<Name, Bodies.Body>, r: Bodies.Report, show: Bodies.Layout)
    requires forall name :: name in c.notifiers ==> name in bodies && Bodies.Accepted(bodies[name], show)
    ensures TargetRuns.Total(c.notifiers, Bodies.RendererOf(bodies, r, show))
  {
    forall name, notice | name in c.notifiers
      ensures Bodies.RendererOf(bodies, r, show)(name, notice).Some?
    {
      Bodies.NoNoticeFailsToRender(bodies, r, show, name, notice);
    }
  }
}
