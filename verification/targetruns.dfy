/** Whole runs of one target: probe cycles, commits and crashes in every order. A cycle is
    three atomic steps (log the probe, decide in memory, commit the write) and a crash may
    fall between any two of them; it is followed by Restore, which reads the probe log back
    as whatever is left of it: failed log writes, pruning and clock steps may have changed it
    in any way. The write of a decision may fail; the monitor then goes on with a memory that
    is ahead of its row. */
module TargetRuns {
  import opened Domain
  import opened Debounce
  import opened Decision
  import opened Tables

  /** The fixed configuration of a run. */
  datatype Config = Config(notifiers: map<Name, NotifierConfig>, target: TargetConfig)

  ghost predicate Valid(c: Config) { ValidTarget(c.notifiers, c.target) }

  datatype Phase =
    | Idle
    | Recorded(x: Observation)
    | Decided(x: Observation, now: Instant, decision: Decision, deliveries: seq<Delivery>)

  datatype TargetSys = TargetSys(
    // durable: the alert_state row
    row: Option<StateRow>,
    // volatile
    memory: Option<TargetMemory>,
    phase: Phase,
    // history: everything ever observed, every delivery that was committed, when the problem
    // last fired as memory has it and as the row has it, whether the monitor restarted since,
    // whether a write has failed since the last one that went through, the channels that a
    // later write did not catch up, and the observations the counter stands for: those the
    // last restart read and those since
    seen: seq<Observation>,
    queued: seq<Delivery>,
    lastFired: Option<Instant>,
    rowFired: Option<Instant>,
    restarted: bool,
    behind: bool,
    missed: set<Name>,
    counted: seq<Observation>)

  const START := TargetSys(None, None, Idle, [], [], None, None, false, false, {}, [])

  datatype Event =
    | Record(x: Observation)
    | Choose(now: Instant, render: Renderer)
    | Commit(ok: bool)  // ok: the write of the decision, if it needs one, went through
    | Crash(newest: seq<Observation>)  // what the restart reads, newest first; [] if it cannot read

  ghost predicate Total(notifiers: map<Name, NotifierConfig>, render: Renderer) {
    forall name, notice :: name in notifiers ==> render(name, notice).Some?
  }

  /** The clock stands past the first second of 1970 and bodies render. */
  ghost predicate Enabled(c: Config, s: TargetSys, e: Event) {
    match e
    case Record(_) => s.phase.Idle?
    case Choose(now, render) => s.phase.Recorded? && now >= SECOND && Total(c.notifiers, render)
    case Commit(_) => s.phase.Decided?
    case Crash(_) => true
  }

  function Memory(s: TargetSys): TargetMemory { MemoryOf(s.memory) }

  /** The confirmed state as the durable row has it. */
  function RowView(s: TargetSys): Observation {
    if s.row.Some? then s.row.value.view else HEALTHY
  }

  function RowTime(s: TargetSys): Instant {
    if s.row.Some? then LoadedTime(s.row.value.lastAlertAt) else ZERO_TIME
  }

  function RecordOf(r: Option<StateRow>): Option<StateRecord> {
    if r.Some? then Some(FromRow(r.value)) else None
  }

  /** A target whose probe log is empty or cannot be read keeps what its row says. */
  function Restart(c: Config, s: TargetSys, newest: seq<Observation>): Option<TargetMemory> {
    Resumed(Loaded(RecordOf(s.row)), Streak(c.target), newest)
  }

  function Fired(d: Decision): bool { d.shapeChange || d.repeatDue }

  /** The decision needs a write. */
  function Writes(d: Decision, ds: seq<Delivery>): bool { !d.held && (ds != [] || d.changed) }

  function Views(ds: seq<Delivery>): (vs: seq<Observation>)
    ensures |vs| == |ds| && forall i :: 0 <= i < |ds| ==> vs[i] == ds[i].view
  {
    seq(|ds|, i requires 0 <= i < |ds| => ds[i].view)
  }

  /** The views queued for one notifier, in order. */
  function Stream(name: Name, queued: seq<Delivery>): seq<Observation> {
    Views(DeliveriesTo(name, queued))
  }

  /** What a receiver of the whole stream believes. */
  function Believed(stream: seq<Observation>): Observation {
    if stream == [] then HEALTHY else Last(stream)
  }

  /** What a write tells a channel suffices, given what it was told last and the confirmed
      state in memory, which after failed writes need not be the durable one: a problem
      differs from the one in memory, is due, or is what the channel was told last; or, with
      no problem left, memory and the channel agree on whether there was one. */
  predicate CatchesUp(c: NotifierConfig, told: Observation, memory: Observation, x: Observation, due: bool) {
    var known, view := ClampView(memory, Floor(c)), ClampView(x, Floor(c));
    if Bad(view) then view != known || due || view == told
    else SendsRecovery(c) ==> Bad(known) == Bad(told)
  }

  /** The channels that the pending write does not catch up. */
  function NotCaughtUp(c: Config, s: TargetSys): set<Name>
    requires s.phase.Decided?
  {
    var x, d := s.phase.x, s.phase.decision;
    set n | n in c.target.notifiers && n in c.notifiers
            && !CatchesUp(c.notifiers[n], Believed(Stream(n, s.queued)), d.previous, x, d.repeatDue)
  }

  function Apply(c: Config, s: TargetSys, e: Event): TargetSys {
    match e
    case Record(x) =>
      s.(phase := Recorded(x), seen := s.seen + [x], counted := s.counted + [x])
    case Choose(now, render) =>
      if !s.phase.Recorded? then s
      else
        var d := Decide(c.target, Memory(s), s.phase.x, now);
        s.(memory := Some(d.state),
           phase := Decided(s.phase.x, now, d, Owed(c.notifiers, c.target, d, s.phase.x, render)))
    case Commit(ok) =>
      if !s.phase.Decided? then s
      else
        var d := s.phase.decision;
        var written := ok && Writes(d, s.phase.deliveries);
        var fired := if Fired(d) then Some(s.phase.now) else s.lastFired;
        s.(row := if written then Some(ToRow(StateRecord(d.state.confirmed, d.state.lastAlertAt))) else s.row,
           phase := Idle,
           queued := if ok then s.queued + s.phase.deliveries else s.queued,
           lastFired := fired,
           rowFired := if written then fired else s.rowFired,
           restarted := s.restarted && !Fired(d),
           behind := if Writes(d, s.phase.deliveries) then !ok else s.behind,
           missed := if written then s.missed + NotCaughtUp(c, s) else s.missed)
    case Crash(newest) =>
      s.(memory := Restart(c, s, newest), phase := Idle, lastFired := s.rowFired,
         restarted := true, behind := false, counted := Reverse(newest))
  }

  /** The state after a run, None when some event of it could not happen. */
  ghost function Run(c: Config, events: seq<Event>): Option<TargetSys> {
    if events == [] then Some(START)
    else
      var s := Run(c, Init(events));
      if s.Some? && Enabled(c, s.value, Last(events)) then Some(Apply(c, s.value, Last(events))) else None
  }

  /** A cycle is never stuck: between two of them any observation can be made, decided and
      committed, whatever comes of the write. */
  lemma CycleGoesThrough(c: Config, s: TargetSys, x: Observation, now: Instant, render: Renderer, ok: bool)
    requires s.phase.Idle? && now >= SECOND && Total(c.notifiers, render)
    ensures var seen := Apply(c, s, Record(x));
            var decided := Apply(c, seen, Choose(now, render));
            && Enabled(c, s, Record(x)) && Enabled(c, seen, Choose(now, render)) && Enabled(c, decided, Commit(ok))
            && decided.phase.decision == Decide(c.target, Memory(s), x, now)
            && Apply(c, decided, Commit(ok)).phase.Idle?
  {
  }

  ghost predicate Reachable(c: Config, s: TargetSys) {
    exists events :: Run(c, events) == Some(s)
  }

  // ----- the invariant ------------------------------------------------------------------

  /** What a bad confirmed state implies about its clock: it was set, by a firing. */
  ghost predicate ClockSet(view: Observation, at: Instant) {
    && (at == ZERO_TIME || at >= SECOND)
    && (Bad(view) ==> at != ZERO_TIME)
  }

  ghost predicate Within(at: Instant, fired: Option<Instant>) {
    if fired.None? then at == ZERO_TIME else at <= fired.value < at + SECOND
  }

  ghost predicate DurableOk(s: TargetSys) {
    && ClockSet(RowView(s), RowTime(s))
    && Within(RowTime(s), s.rowFired)
    && (s.row.Some? ==> ToRow(FromRow(s.row.value)) == s.row.value)
  }

  /** A clock in memory stands for the last firing, and so does what a write makes of it. */
  ghost predicate ClockOk(s: TargetSys, at: Instant) {
    && Within(at, s.lastFired)
    && Within(LoadedTime(StoredTime(at)), s.lastFired)
    && (!s.restarted && s.lastFired.Some? ==> at == s.lastFired.value)
  }

  /** The row has this clock, up to the second. */
  ghost predicate RowHas(s: TargetSys, at: Instant) {
    LoadedTime(StoredTime(at)) == RowTime(s) && s.lastFired == s.rowFired
  }

  /** Memory keeps its clock, and agrees with the row unless that is behind. */
  ghost predicate MemoryOk(s: TargetSys) {
    var m := Memory(s);
    && ClockSet(m.confirmed, m.lastAlertAt)
    && ClockOk(s, m.lastAlertAt)
    && (!s.behind ==> m.confirmed == RowView(s) && RowHas(s, m.lastAlertAt))
  }

  /** The candidate in memory is the one these observations stand for. */
  ghost predicate PendingOk(c: Config, s: TargetSys, observed: seq<Observation>) {
    SamePending(Memory(s).pending, PendingFor(Streak(c.target), Memory(s).confirmed, observed))
  }

  ghost predicate DecidedOk(c: Config, s: TargetSys)
    requires s.phase.Decided?
  {
    var x, now, d := s.phase.x, s.phase.now, s.phase.decision;
    && Memory(s) == d.state && now >= SECOND
    && s.counted != [] && Last(s.counted) == x
    && (!d.held <==> Trusted(Streak(c.target), d.previous, s.counted))
    && (d.held ==> s.phase.deliveries == [] && !Fired(d) && d.state.confirmed == d.previous)
    && (!d.held ==> d.state.confirmed == x && d.changed == (x != d.previous || Fired(d)))
    && (!s.behind ==> d.previous == RowView(s))
    && (!s.behind && d.repeatDue ==> RepeatDue(c.target, RowTime(s), x, now))
    && (Fired(d) ==> d.state.lastAlertAt == now && Bad(x))
    && (!Fired(d) ==> ClockOk(s, d.state.lastAlertAt) && (!s.behind ==> RowHas(s, d.state.lastAlertAt)))
    && ClockSet(d.state.confirmed, d.state.lastAlertAt)
  }

  ghost predicate PhaseOk(c: Config, s: TargetSys) {
    match s.phase
    case Idle => MemoryOk(s) && PendingOk(c, s, s.counted)
    case Recorded(x) =>
      MemoryOk(s) && s.counted != [] && Last(s.counted) == x && PendingOk(c, s, Init(s.counted))
    case Decided(_, _, _, _) => DecidedOk(c, s) && PendingOk(c, s, s.counted)
  }

  ghost predicate StateOk(c: Config, s: TargetSys) {
    DurableOk(s) && PhaseOk(c, s)
  }

  // ----- what a restart reads -----------------------------------------------------------

  /** Part is the newest part of what was seen, and the n newest are in it. */
  ghost predicate Tail(n: int, part: seq<Observation>, seen: seq<Observation>) {
    |part| <= |seen| && part == seen[|seen| - |part|..] && |part| >= Min(n, |seen|)
  }

  lemma TailGrows(n: int, part: seq<Observation>, seen: seq<Observation>, x: Observation)
    requires Tail(n, part, seen)
    ensures Tail(n, part + [x], seen + [x])
  {
  }

  /** What the restart read is the newest part of what was seen, however short. */
  ghost predicate ReadsTail(s: TargetSys, e: Event) {
    e.Crash? ==> Tail(0, Reverse(e.newest), s.seen)
  }

  /** Every restart of the run read so: no log write in it was lost behind a later one, and
      the log's clock hid no row. */
  ghost predicate ReadsNewest(c: Config, events: seq<Event>) {
    events != [] && Run(c, Init(events)).Some? ==>
      ReadsNewest(c, Init(events)) && ReadsTail(Run(c, Init(events)).value, Last(events))
  }

  /** On such a run the counter stands for the newest part of what was seen. */
  lemma {:induction false} CountsNewest(c: Config, events: seq<Event>)
    requires Run(c, events).Some? && ReadsNewest(c, events)
    ensures var s := Run(c, events).value; Tail(0, s.counted, s.seen)
  {
    if events != [] {
      CountsNewest(c, Init(events));
      var s := Run(c, Init(events)).value;
      if Last(events).Record? {
        TailGrows(0, s.counted, s.seen, Last(events).x);
      }
    }
  }

  /** What the newest part of the observations backs: what all of them back, as far as it has
      the n cycles a contested change needs. */
  lemma TailBacks(n: int, confirmed: Observation, part: seq<Observation>, seen: seq<Observation>)
    requires part != [] && Tail(0, part, seen)
    ensures seen != [] && Last(part) == Last(seen)
    ensures Trusted(n, confirmed, part)
       <==> Trusted(n, confirmed, seen) && (n <= |part| || !Contested(Last(seen), confirmed))
  {
  }

  lemma TailCandidate(n: int, confirmed: Observation, kept: seq<Observation>, seen: seq<Observation>)
    requires n >= 1 && Tail(n, kept, seen)
    ensures PendingFor(n, confirmed, kept) == PendingFor(n, confirmed, seen)
  {
    var oldest := |seen| - |kept|;
    assert kept == seen[oldest..] && |kept| >= Min(n - 1, |seen|) && (seen != [] ==> kept != []);
    PendingFromSuffix(n, confirmed, seen, kept);
  }

  /** A restart keeps the row's state, and its candidate is the one that its read stands for. */
  lemma RestartAgrees(c: Config, s: TargetSys, newest: seq<Observation>)
    requires DurableOk(s)
    ensures StateOk(c, Apply(c, s, Crash(newest)))
    ensures var after := Memory(Apply(c, s, Crash(newest)));
            && after.confirmed == RowView(s)
            && SamePending(after.pending, PendingFor(Streak(c.target), RowView(s), Reverse(newest)))
  {
  }

  lemma DecideKeepsState(c: Config, s: TargetSys, now: Instant, render: Renderer)
    requires StateOk(c, s) && s.phase.Recorded? && now >= SECOND
    ensures StateOk(c, Apply(c, s, Choose(now, render)))
  {
    var x := s.phase.x;
    assert Init(s.counted) + [x] == s.counted;
    JudgeMeetsHistory(Streak(c.target), Memory(s).confirmed, Memory(s).pending, Init(s.counted), x);
    StateRoundTrip(StateRecord(Memory(s).confirmed, Memory(s).lastAlertAt));
  }

  lemma CommitKeepsState(c: Config, s: TargetSys, ok: bool)
    requires StateOk(c, s) && s.phase.Decided?
    ensures StateOk(c, Apply(c, s, Commit(ok)))
  {
    var d := s.phase.decision;
    StateRoundTrip(StateRecord(d.state.confirmed, d.state.lastAlertAt));
  }

  lemma StepKeepsState(c: Config, s: TargetSys, e: Event)
    requires Streak(c.target) >= 1 && StateOk(c, s) && Enabled(c, s, e)
    ensures StateOk(c, Apply(c, s, e))
  {
    match e
    case Record(x) => assert Init(s.counted + [x]) == s.counted;
    case Choose(now, render) => DecideKeepsState(c, s, now, render);
    case Commit(ok) => CommitKeepsState(c, s, ok);
    case Crash(newest) => RestartAgrees(c, s, newest);
  }

  // ----- the streams of notices ---------------------------------------------------------

  /** Every recovery closes exactly one open problem: the notice right before it. */
  ghost predicate Paired(stream: seq<Observation>) {
    forall i :: 0 <= i < |stream| && !Bad(stream[i]) ==> stream[i] == HEALTHY && i > 0 && Bad(stream[i - 1])
  }

  /** A stream is up to date with a confirmed state: a problem the channel carries is the last
      thing it was told, and an opted-in channel is also told when there is none any more. */
  ghost predicate UpToDate(c: NotifierConfig, stream: seq<Observation>, confirmed: Observation) {
    var view := ClampView(confirmed, Floor(c));
    && (Bad(view) ==> Believed(stream) == view)
    && (SendsRecovery(c) ==> Believed(stream) == view)
    && Paired(stream)
  }

  function NoticeViews(notice: Option<Notice>): seq<Observation> {
    if notice.None? then [] else [notice.value.view]
  }

  lemma NoticeKeepsUpToDate(
    c: NotifierConfig, stream: seq<Observation>, previous: Observation, x: Observation, repeatDue: bool)
    requires ValidFloor(Floor(c)) && (repeatDue ==> Bad(x))
    requires UpToDate(c, stream, previous)
    ensures UpToDate(c, stream + NoticeViews(ChannelNotice(c, previous, x, repeatDue)), x)
  {
  }

  ghost predicate StreamsOk(c: Config, s: TargetSys)
    requires Valid(c)
  {
    && (forall n :: n in c.target.notifiers && n !in s.missed ==>
          UpToDate(c.notifiers[n], Stream(n, s.queued), RowView(s)))
    && (s.phase.Decided? ==> forall n :: n in c.target.notifiers ==>
          Stream(n, s.phase.deliveries)
          == if s.phase.decision.held then []
             else NoticeViews(ChannelNotice(
               c.notifiers[n], s.phase.decision.previous, s.phase.x, s.phase.decision.repeatDue)))
  }

  lemma StreamConcat(n: Name, a: seq<Delivery>, b: seq<Delivery>)
    ensures Stream(n, a + b) == Stream(n, a) + Stream(n, b)
  {
    DeliveriesToConcat(n, a, b);
  }

  lemma DeliveryStream(c: Config, previous: Observation, x: Observation, due: bool, render: Renderer, n: Name)
    requires n in c.notifiers && Total(c.notifiers, render)
    ensures Views(DeliveryFor(c.notifiers, n, render, previous, x, due))
         == NoticeViews(ChannelNotice(c.notifiers[n], previous, x, due))
  {
  }

  lemma OwedStream(c: Config, d: Decision, x: Observation, render: Renderer, n: Name)
    requires Valid(c) && n in c.target.notifiers && Total(c.notifiers, render)
    ensures Stream(n, Owed(c.notifiers, c.target, d, x, render))
         == if d.held then [] else NoticeViews(ChannelNotice(c.notifiers[n], d.previous, x, d.repeatDue))
  {
    if d.held {
      assert DeliveriesTo(n, []) == [];
    } else {
      FanOutIsPerChannel(c.notifiers, c.target.notifiers, render, d.previous, x, d.repeatDue, n);
      DeliveryStream(c, d.previous, x, d.repeatDue, render, n);
    }
  }

  /** When a write goes through, the channel's stream is up to date again exactly if it
      catches up. */
  lemma StreamAfterFailedWrites(
    c: NotifierConfig, stream: seq<Observation>, durable: Observation, memory: Observation, x: Observation, due: bool)
    requires ValidFloor(Floor(c)) && UpToDate(c, stream, durable) && (due ==> Bad(x))
    ensures UpToDate(c, stream + NoticeViews(ChannelNotice(c, memory, x, due)), x)
       <==> CatchesUp(c, Believed(stream), memory, x, due)
  {
    ClampIsRealOrHealthy(durable, Floor(c));
    ClampIsRealOrHealthy(memory, Floor(c));
    ClampIsRealOrHealthy(x, Floor(c));
    var notice := ChannelNotice(c, memory, x, due);
    var after := stream + NoticeViews(notice);
    if notice.None? {
      assert after == stream;
    } else {
      var n := |stream|;
      assert after[n] == notice.value.view && (n > 0 ==> after[n - 1] == Last(stream));
      assert forall i :: 0 <= i < n ==> after[i] == stream[i];
      assert Paired(after) <==> Bad(after[n]) || Bad(Believed(stream));
    }
  }

  /** A commit leaves row and stream as they were, or the row holds what was adopted and the
      stream what the channel was owed. */
  lemma CommittedStream(c: Config, s: TargetSys, ok: bool, n: Name)
    requires Valid(c) && StateOk(c, s) && StreamsOk(c, s) && s.phase.Decided? && n in c.target.notifiers
    ensures var after, d := Apply(c, s, Commit(ok)), s.phase.decision;
            if ok && Writes(d, s.phase.deliveries) then
              && RowView(after) == s.phase.x && (d.repeatDue ==> Bad(s.phase.x))
              && Stream(n, after.queued)
                 == Stream(n, s.queued)
                    + NoticeViews(ChannelNotice(c.notifiers[n], d.previous, s.phase.x, d.repeatDue))
            else RowView(after) == RowView(s) && Stream(n, after.queued) == Stream(n, s.queued)
  {
    StreamConcat(n, s.queued, s.phase.deliveries);
    if !Writes(s.phase.decision, s.phase.deliveries) {
      assert s.queued + s.phase.deliveries == s.queued;
    }
  }

  /** For a channel that every write so far has caught up. */
  lemma CommitKeepsStreams(c: Config, s: TargetSys, ok: bool, n: Name)
    requires Valid(c) && StateOk(c, s) && StreamsOk(c, s) && s.phase.Decided?
    requires n in c.target.notifiers && n !in s.missed
    ensures var after := Apply(c, s, Commit(ok));
            UpToDate(c.notifiers[n], Stream(n, after.queued), RowView(after)) <==> n !in after.missed
  {
    var d := s.phase.decision;
    CommittedStream(c, s, ok, n);
    if ok && Writes(d, s.phase.deliveries) {
      StreamAfterFailedWrites(
        c.notifiers[n], Stream(n, s.queued), RowView(s), d.previous, s.phase.x, d.repeatDue);
    }
  }

  lemma StepKeepsStreams(c: Config, s: TargetSys, e: Event)
    requires Valid(c) && StateOk(c, s) && StreamsOk(c, s) && Enabled(c, s, e)
    ensures StreamsOk(c, Apply(c, s, e))
  {
    match e
    case Choose(now, render) =>
      var d := Decide(c.target, Memory(s), s.phase.x, now);
      forall n | n in c.target.notifiers
        ensures Stream(n, Owed(c.notifiers, c.target, d, s.phase.x, render))
             == if d.held then [] else NoticeViews(ChannelNotice(c.notifiers[n], d.previous, s.phase.x, d.repeatDue))
      {
        OwedStream(c, d, s.phase.x, render, n);
      }
    case Commit(ok) =>
      forall n | n in c.target.notifiers && n !in Apply(c, s, e).missed
        ensures UpToDate(c.notifiers[n], Stream(n, Apply(c, s, e).queued), RowView(Apply(c, s, e)))
      {
        CommitKeepsStreams(c, s, ok, n);
      }
    case _ =>
  }

  ghost predicate Inv(c: Config, s: TargetSys)
    requires Valid(c)
  { StateOk(c, s) && StreamsOk(c, s) }

  lemma StartOk(c: Config)
    requires Valid(c)
    ensures Inv(c, START)
  {
  }

  lemma StepKeepsInv(c: Config, s: TargetSys, e: Event)
    requires Valid(c) && Inv(c, s) && Enabled(c, s, e)
    ensures Inv(c, Apply(c, s, e))
  {
    StepKeepsState(c, s, e);
    StepKeepsStreams(c, s, e);
  }

  lemma {:induction false} RunKeepsInv(c: Config, events: seq<Event>)
    requires Valid(c) && Run(c, events).Some?
    ensures Inv(c, Run(c, events).value)
  {
    if events == [] {
      StartOk(c);
    } else {
      RunKeepsInv(c, Init(events));
      StepKeepsInv(c, Run(c, Init(events)).value, Last(events));
    }
  }

  // ----- the results --------------------------------------------------------------------

  /** The debounce meets its history definition on every run: the pending decision adopts the
      observation just made exactly when the observations the counter stands for back it
      against the confirmed state in memory, which is the durable one unless a write failed
      since the last that went through or the restart. Where restarts read the newest part of
      what was seen, however short, that is exactly when everything ever seen backs it and, if
      the change is contested, n cycles are counted, read back or made since. */
  lemma DebounceAcrossCrashes(c: Config, events: seq<Event>, now: Instant)
    requires Valid(c) && Run(c, events).Some? && Run(c, events).value.phase.Recorded?
    ensures var s := Run(c, events).value;
            && (!s.behind ==> Memory(s).confirmed == RowView(s))
            && (!Decide(c.target, Memory(s), s.phase.x, now).held
                <==> Trusted(Streak(c.target), Memory(s).confirmed, s.counted))
    ensures var s, n := Run(c, events).value, Streak(c.target);
            var confirmed := Memory(s).confirmed;
            ReadsNewest(c, events) ==>
              && s.seen != [] && Last(s.seen) == s.phase.x
              && (!Decide(c.target, Memory(s), s.phase.x, now).held
                  <==> Trusted(n, confirmed, s.seen) && (n <= |s.counted| || !Contested(s.phase.x, confirmed)))
  {
    var s := Run(c, events).value;
    RunKeepsInv(c, events);
    AdoptsIffTrusted(c, s, s.counted, now);
    if ReadsNewest(c, events) {
      CountsNewest(c, events);
      TailBacks(Streak(c.target), Memory(s).confirmed, s.counted, s.seen);
    }
  }

  lemma AdoptsIffTrusted(c: Config, s: TargetSys, observed: seq<Observation>, now: Instant)
    requires s.phase.Recorded? && observed != [] && Last(observed) == s.phase.x
    requires PendingOk(c, s, Init(observed))
    ensures !Decide(c.target, Memory(s), s.phase.x, now).held
       <==> Trusted(Streak(c.target), Memory(s).confirmed, observed)
  {
    assert Init(observed) + [s.phase.x] == observed;
    JudgeMeetsHistory(Streak(c.target), Memory(s).confirmed, Memory(s).pending, Init(observed), s.phase.x);
  }

  /** The confirmed state the process has, or is about to have after the observation it made. */
  ghost function Standing(c: Config, s: TargetSys): Observation {
    if s.phase.Recorded? && s.seen != [] && Trusted(Streak(c.target), Memory(s).confirmed, s.seen) then s.phase.x
    else Memory(s).confirmed
  }

  /** A crash in this state undoes a change of the confirmed state that the row does not have:
      one that is pending, or one whose write failed. */
  ghost predicate UndoesChange(c: Config, s: TargetSys) { Standing(c, s) != RowView(s) }

  /** A restart here reads another candidate out of the log than the observations stand for,
      or none, or one where they stand for none. */
  ghost predicate MisreadsCandidate(c: Config, s: TargetSys, newest: seq<Observation>) {
    var n := Streak(c.target);
    !SamePending(PendingFor(n, RowView(s), Reverse(newest)), PendingFor(n, RowView(s), s.seen))
  }

  ghost predicate LosesNothing(c: Config, s: TargetSys, e: Event) {
    e.Crash? ==> !UndoesChange(c, s) && !MisreadsCandidate(c, s, e.newest)
  }

  /** Crashes anywhere, except where they undo a change of the confirmed state or their
      restart misreads the candidate. */
  ghost predicate Lossless(c: Config, events: seq<Event>) {
    events != [] && Run(c, Init(events)).Some? ==>
      Lossless(c, Init(events)) && LosesNothing(c, Run(c, Init(events)).value, Last(events))
  }

  /** Where the confirmed state and the candidate in memory stand in the uninterrupted
      machine's history. */
  ghost predicate OnHistory(c: Config, s: TargetSys) {
    var n := Streak(c.target);
    if s.phase.Recorded? then
      && s.seen != [] && Last(s.seen) == s.phase.x
      && Memory(s).confirmed == Confirmed(n, Init(s.seen)) && PendingOk(c, s, Init(s.seen))
    else
      Memory(s).confirmed == Confirmed(n, s.seen) && PendingOk(c, s, s.seen)
  }

  lemma ChooseKeepsHistory(c: Config, s: TargetSys, now: Instant, render: Renderer)
    requires Streak(c.target) >= 1 && StateOk(c, s) && OnHistory(c, s) && s.phase.Recorded?
    ensures OnHistory(c, Apply(c, s, Choose(now, render)))
  {
    var x := s.phase.x;
    assert Init(s.seen) + [x] == s.seen;
    JudgeMeetsHistory(Streak(c.target), Memory(s).confirmed, Memory(s).pending, Init(s.seen), x);
  }

  /** A crash stays on the history if and only if it loses nothing. */
  lemma CrashKeepsHistory(c: Config, s: TargetSys, newest: seq<Observation>)
    requires Streak(c.target) >= 1 && StateOk(c, s) && OnHistory(c, s)
    ensures OnHistory(c, Apply(c, s, Crash(newest))) <==> LosesNothing(c, s, Crash(newest))
  {
    RestartAgrees(c, s, newest);
    assert Standing(c, s) == Confirmed(Streak(c.target), s.seen);
  }

  lemma StepKeepsHistory(c: Config, s: TargetSys, e: Event)
    requires Valid(c) && StateOk(c, s) && OnHistory(c, s) && Enabled(c, s, e)
    ensures OnHistory(c, Apply(c, s, e)) <==> LosesNothing(c, s, e)
  {
    match e
    case Record(x) => assert Init(s.seen + [x]) == s.seen;
    case Choose(now, render) => ChooseKeepsHistory(c, s, now, render);
    case Commit(_) =>
    case Crash(newest) => CrashKeepsHistory(c, s, newest);
  }

  /** On the history at every point of the run. */
  ghost predicate AlwaysOnHistory(c: Config, events: seq<Event>)
    requires Run(c, events).Some?
  {
    OnHistory(c, Run(c, events).value) && (events != [] ==> AlwaysOnHistory(c, Init(events)))
  }

  /** Restart refinement. A run follows the uninterrupted counter at every point if and only if
      none of its crashes undid a change of the confirmed state and none of its restarts
      misread the candidate. */
  lemma {:induction false} RestartsRefineOneRun(c: Config, events: seq<Event>)
    requires Valid(c) && Run(c, events).Some?
    ensures Lossless(c, events) <==> AlwaysOnHistory(c, events)
  {
    if events != [] {
      var s := Run(c, Init(events)).value;
      RestartsRefineOneRun(c, Init(events));
      RunKeepsInv(c, Init(events));
      if OnHistory(c, s) {
        StepKeepsHistory(c, s, Last(events));
      }
    }
  }

  /** What following it means between two cycles: the confirmed state and the candidate are
      those an uninterrupted counter reaches on the same observations, and the row has that
      state unless a write failed since the last that went through. */
  lemma OnHistoryIsTheCounter(c: Config, s: TargetSys)
    requires Valid(c) && Reachable(c, s) && s.phase.Idle?
    ensures OnHistory(c, s)
       <==> && Memory(s).confirmed == Counter(Streak(c.target), s.seen).0
            && SamePending(Memory(s).pending, Counter(Streak(c.target), s.seen).1)
    ensures !s.behind ==> RowView(s) == Memory(s).confirmed
  {
    var events :| Run(c, events) == Some(s);
    RunKeepsInv(c, events);
    CounterMeetsHistory(Streak(c.target), s.seen);
  }

  /** The candidate after a restart that read the n newest of some observations. */
  lemma RestartCandidate(c: Config, s: TargetSys, newest: seq<Observation>, observed: seq<Observation>)
    requires Streak(c.target) >= 1 && DurableOk(s) && Tail(Streak(c.target), Reverse(newest), observed)
    ensures var after := Memory(Apply(c, s, Crash(newest)));
            && after.confirmed == RowView(s)
            && SamePending(after.pending, PendingFor(Streak(c.target), RowView(s), observed))
  {
    RestartAgrees(c, s, newest);
    TailCandidate(Streak(c.target), RowView(s), Reverse(newest), observed);
  }

  lemma RestartClock(c: Config, s: TargetSys, newest: seq<Observation>)
    requires StateOk(c, s) && s.phase.Idle?
    ensures var before, after := Memory(s), Memory(Apply(c, s, Crash(newest)));
            && after.lastAlertAt == RowTime(s)
            && (!s.behind ==> after.lastAlertAt <= before.lastAlertAt < after.lastAlertAt + SECOND)
  {
    StateRoundTrip(StateRecord(Memory(s).confirmed, Memory(s).lastAlertAt));
  }

  /** A restart between two cycles goes back to the row and to the candidate that its read
      stands for. Unless the row is behind that keeps the confirmed state and all but the
      sub-second part of the reminder clock, whatever it reads. A read of the n newest of what
      was seen gives the candidate that all of it stands for; a read of the n newest of what
      was counted gives the one in memory before the crash. */
  lemma RestartIsInvisible(c: Config, s: TargetSys, newest: seq<Observation>)
    requires Valid(c) && Reachable(c, s) && s.phase.Idle?
    ensures var n, before := Streak(c.target), Memory(s);
            var after := Memory(Apply(c, s, Crash(newest)));
            && after.confirmed == RowView(s) && after.lastAlertAt == RowTime(s)
            && SamePending(after.pending, PendingFor(n, RowView(s), Reverse(newest)))
            && (Tail(n, Reverse(newest), s.seen) ==>
                  SamePending(after.pending, PendingFor(n, RowView(s), s.seen)))
            && (!s.behind ==>
                  && after.confirmed == before.confirmed
                  && after.lastAlertAt <= before.lastAlertAt < after.lastAlertAt + SECOND
                  && (Tail(n, Reverse(newest), s.counted) ==> SamePending(after.pending, before.pending)))
  {
    var events :| Run(c, events) == Some(s);
    RunKeepsInv(c, events);
    RestartAgrees(c, s, newest);
    RestartClock(c, s, newest);
    var n := Streak(c.target);
    if Tail(n, Reverse(newest), s.seen) {
      RestartCandidate(c, s, newest, s.seen);
    }
    if Tail(n, Reverse(newest), s.counted) {
      RestartCandidate(c, s, newest, s.counted);
    }
  }

  // ----- a decision that a crash undid -----------------------------------------------------

  /** A crash before the commit leaves nothing of a decision, made or not. */
  lemma CrashForgetsTheChoice(
    c: Config, s: TargetSys, now: Instant, render: Renderer, newest: seq<Observation>)
    ensures Apply(c, Apply(c, s, Choose(now, render)), Crash(newest)) == Apply(c, s, Crash(newest))
  {
  }

  lemma StillTrusted(n: int, confirmed: Observation, h: seq<Observation>, x: Observation)
    requires h != [] && Last(h) == x && Trusted(n, confirmed, h)
    ensures Trusted(n, confirmed, h + [x])
  {
  }

  /** The row is not behind, and the restart read the n newest of what was seen, of which the
      counter stood for a part. */
  ghost predicate GoodRead(c: Config, s: TargetSys, newest: seq<Observation>) {
    !s.behind && Tail(Streak(c.target), Reverse(newest), s.seen) && Tail(0, s.counted, s.seen)
  }

  /** What the next cycle that sees x decides after the crash. */
  lemma RemadeAlike(c: Config, s: TargetSys, newest: seq<Observation>, later: Instant)
    requires Streak(c.target) >= 1 && StateOk(c, s) && s.phase.Decided? && s.phase.now <= later
    requires GoodRead(c, s, newest)
    ensures var x, lost := s.phase.x, s.phase.decision;
            var again := Decide(c.target, Memory(Apply(c, s, Crash(newest))), x, later);
            && again.previous == lost.previous
            && (!lost.held ==> !again.held && again.state.confirmed == x && (lost.repeatDue ==> again.repeatDue))
  {
    var x, n := s.phase.x, Streak(c.target);
    var restarted := Apply(c, s, Crash(newest));
    RestartCandidate(c, s, newest, s.seen);
    JudgeMeetsHistory(n, Memory(restarted).confirmed, Memory(restarted).pending, s.seen, x);
    TailBacks(n, RowView(s), s.counted, s.seen);
    if Trusted(n, RowView(s), s.seen) {
      StillTrusted(n, RowView(s), s.seen, x);
    }
  }

  lemma DueKeepsNotice(c: NotifierConfig, previous: Observation, x: Observation, due: bool, dueLater: bool)
    requires due ==> dueLater
    ensures var owed := ChannelNotice(c, previous, x, due);
            owed.Some? ==> ChannelNotice(c, previous, x, dueLater) == owed
  {
  }

  /** What the crash of a cycle that has decided costs, at most one matching cycle: an undone
      decision to adopt is made again by it, with the same notice for every channel that was
      owed one; a decision that held is not lost, its candidate being rebuilt from the log. */
  ghost predicate Remade(
    c: Config, s: TargetSys, newest: seq<Observation>, lost: Decision, x: Observation, later: Instant, name: Name)
    requires name in c.notifiers
  {
    var restarted := Apply(c, s, Crash(newest));
    var again := Decide(c.target, Memory(restarted), x, later);
    && (lost.held ==>
          && Memory(restarted).confirmed == lost.state.confirmed
          && (s.counted == s.seen ==> SamePending(Memory(restarted).pending, lost.state.pending)))
    && (!lost.held ==>
          && !again.held && again.state.confirmed == x && again.previous == lost.previous
          && var owed := ChannelNotice(c.notifiers[name], lost.previous, x, lost.repeatDue);
             (owed.Some? ==> ChannelNotice(c.notifiers[name], again.previous, x, again.repeatDue) == owed))
  }

  lemma HeldIsRebuilt(c: Config, s: TargetSys, newest: seq<Observation>)
    requires Streak(c.target) >= 1 && StateOk(c, s) && s.phase.Decided? && s.phase.decision.held
    requires GoodRead(c, s, newest)
    ensures var restarted, lost := Memory(Apply(c, s, Crash(newest))), s.phase.decision;
            restarted.confirmed == lost.state.confirmed
            && (s.counted == s.seen ==> SamePending(restarted.pending, lost.state.pending))
  {
    RestartCandidate(c, s, newest, s.seen);
  }

  lemma DecisionIsRemade(c: Config, s: TargetSys, newest: seq<Observation>, later: Instant, name: Name)
    requires Streak(c.target) >= 1 && StateOk(c, s) && s.phase.Decided? && s.phase.now <= later
    requires name in c.notifiers && GoodRead(c, s, newest)
    ensures Remade(c, s, newest, s.phase.decision, s.phase.x, later, name)
  {
    var lost := s.phase.decision;
    if lost.held {
      HeldIsRebuilt(c, s, newest);
    } else {
      RemadeAlike(c, s, newest, later);
      var again := Decide(c.target, Memory(Apply(c, s, Crash(newest))), s.phase.x, later);
      DueKeepsNotice(c.notifiers[name], lost.previous, s.phase.x, lost.repeatDue, again.repeatDue);
    }
  }

  /** Whichever of the two crash points between the log and the commit it falls on, if the row
      is not behind and the restart reads the n newest of what was seen, the newest part of
      which those before it read, however short. */
  lemma LostDecisionIsRemade(
    c: Config, events: seq<Event>, newest: seq<Observation>, now: Instant, later: Instant, name: Name)
    requires Valid(c) && Run(c, events).Some? && ReadsNewest(c, events)
    requires !Run(c, events).value.behind && Tail(Streak(c.target), Reverse(newest), Run(c, events).value.seen)
    requires SECOND <= now <= later && name in c.target.notifiers
    ensures var s := Run(c, events).value;
            && (s.phase.Decided? && s.phase.now <= later ==>
                  Remade(c, s, newest, s.phase.decision, s.phase.x, later, name))
            && (s.phase.Recorded? ==>
                  Remade(c, s, newest, Decide(c.target, Memory(s), s.phase.x, now), s.phase.x, later, name))
  {
    var s := Run(c, events).value;
    RunKeepsInv(c, events);
    CountsNewest(c, events);
    if s.phase.Decided? && s.phase.now <= later {
      DecisionIsRemade(c, s, newest, later, name);
    } else if s.phase.Recorded? {
      var render: Renderer := (name, notice) => Some(Null);
      var decided := Apply(c, s, Choose(now, render));
      StepKeepsInv(c, s, Choose(now, render));
      DecisionIsRemade(c, decided, newest, later, name);
      CrashForgetsTheChoice(c, s, now, render, newest);
    }
  }

  /** Whatever the restarts read, n matching cycles that are counted confirm. */
  lemma MatchingCyclesConfirmAgain(c: Config, s: TargetSys, now: Instant)
    requires Valid(c) && Reachable(c, s) && s.phase.Recorded?
    requires Backed(Streak(c.target), s.counted, s.phase.x)
    ensures var d := Decide(c.target, Memory(s), s.phase.x, now);
            !d.held && d.state.confirmed == s.phase.x
  {
    var events :| Run(c, events) == Some(s);
    RunKeepsInv(c, events);
    AdoptsIffTrusted(c, s, s.counted, now);
  }

  /** They are needed: here everything seen backs the outage, and one more cycle would have
      confirmed it, but the restart could not read the log. */
  lemma UnreadLogDelaysAnOutage()
    ensures var down := Observation(StatusUnreachable, SeverityCritical);
            Trusted(2, HEALTHY, [down, down]) && !Judge(2, HEALTHY, NO_PENDING, down).adopted
  {
  }

  /** The channel's stream is up to date with the durable row and pairs each recovery with the
      problem it closes, now and at every earlier point of the run. */
  ghost predicate AlwaysUpToDate(c: Config, events: seq<Event>, name: Name)
    requires Run(c, events).Some? && name in c.notifiers
  {
    var s := Run(c, events).value;
    && UpToDate(c.notifiers[name], Stream(name, s.queued), RowView(s))
    && (events != [] ==> AlwaysUpToDate(c, Init(events), name))
  }

  /** On every run, whatever its restarts read and its writes came to, an attached channel's
      queued stream is up to date at every point if and only if every write that went through
      caught it up. */
  lemma {:induction false} StreamsTrackTheRow(c: Config, events: seq<Event>, name: Name)
    requires Valid(c) && Run(c, events).Some? && name in c.target.notifiers
    ensures name !in Run(c, events).value.missed <==> AlwaysUpToDate(c, events, name)
  {
    RunKeepsInv(c, events);
    if events != [] {
      var s := Run(c, Init(events)).value;
      StreamsTrackTheRow(c, Init(events), name);
      RunKeepsInv(c, Init(events));
      if Last(events).Commit? && name !in s.missed {
        CommitKeepsStreams(c, s, Last(events).ok, name);
      }
    }
  }

  /** Only a write made while the row is behind can fail to: every other one catches up every
      channel that was up to date. So a run in which a failed write is followed by a restart
      before the next change keeps every stream up to date. */
  lemma OnlyLateWritesMiss(c: Config, events: seq<Event>, ok: bool, name: Name)
    requires Valid(c) && Run(c, events).Some? && name in c.target.notifiers
    requires Run(c, events).value.phase.Decided?
    ensures var s := Run(c, events).value;
            !s.behind && name !in s.missed ==> name !in Apply(c, s, Commit(ok)).missed
  {
    var s := Run(c, events).value;
    RunKeepsInv(c, events);
    if !s.behind && name !in s.missed {
      var d := s.phase.decision;
      CommittedStream(c, s, ok, name);
      CommitKeepsStreams(c, s, ok, name);
      if ok && Writes(d, s.phase.deliveries) {
        NoticeKeepsUpToDate(c.notifiers[name], Stream(name, s.queued), d.previous, s.phase.x, d.repeatDue);
      }
    }
  }

  /** The reminder clock on every run. A reminder (a firing without a change of shape) comes a
      full cadence after the last firing that memory has, or after a restart the row, less
      under a second when that restart cut the clock down; once a cadence has passed, every
      cycle that is not held fires; and a "never" cadence does not remind within the 292 years
      a Duration can count. */
  lemma ReminderClock(c: Config, s: TargetSys, now: Instant)
    requires Valid(c) && Reachable(c, s) && s.phase.Recorded? && AlertingSeverity(s.phase.x.severity)
    ensures var x := s.phase.x;
            var d := Decide(c.target, Memory(s), x, now);
            var cadence := c.target.repeat[x.severity];
            && (!d.held && !d.shapeChange ==> s.lastFired.Some?)
            && (!d.held && !d.shapeChange && d.repeatDue ==>
                  now - s.lastFired.value > cadence - (if s.restarted then SECOND else 1))
            && (!d.held && s.lastFired.Some? && now - s.lastFired.value >= cadence ==> Fired(d))
            && (cadence == NEVER && !d.held && !d.shapeChange && now - s.lastFired.value < MAX_DURATION - SECOND ==>
                  !Fired(d))
  {
    var events :| Run(c, events) == Some(s);
    RunKeepsInv(c, events);
  }

  /** Without the clock invariant this would be false: from the zero time the saturating
      difference equals the "never" sentinel, and a held problem would remind at once. */
  lemma ZeroClockWouldRemind(t: TargetConfig, x: Observation, now: Instant)
    requires Bad(x) && x.severity in t.repeat && t.repeat[x.severity] == NEVER && now >= SECOND
    ensures RepeatDue(t, ZERO_TIME, x, now)
  {
  }

  /** A write that failed without a restart. The code's comment says the next cycle queues the
      notice again. It does so exactly when the channel's floor is met and a full cadence has
      passed since the failed attempt; a recovery is never retried. */
  lemma FailedEnqueueIsRetriedByReminderOnly(
    c: NotifierConfig, t: TargetConfig, m: TargetMemory, x: Observation, now: Instant, later: Instant)
    requires ValidFloor(Floor(c))
    requires var d := Decide(t, m, x, now); !d.held && ChannelNotice(c, d.previous, x, d.repeatDue).Some?
    ensures var d := Decide(t, m, x, now);
            var next := Decide(t, d.state, x, later);
            && !next.held
            && (ChannelNotice(c, next.previous, x, next.repeatDue).Some?
                <==> Meets(x.severity, Floor(c)) && Sub(later, now) >= For(t.repeat, x.severity))
  {
  }

  /** The condition is needed: a critical outage whose first notice was lost is not told again
      a minute later under an hour's cadence. */
  lemma LostNoticeStaysLost(c: NotifierConfig, t: TargetConfig)
    requires c.minSeverity.None? && Streak(t) == 1
    requires SeverityCritical in t.repeat && t.repeat[SeverityCritical] == 3600 * SECOND
    ensures var down := Observation(StatusUnreachable, SeverityCritical);
            var d := Decide(t, UNKNOWN_TARGET, down, SECOND);
            var next := Decide(t, d.state, down, 61 * SECOND);
            && ChannelNotice(c, d.previous, down, d.repeatDue) == Some(Notice(down, false))
            && ChannelNotice(c, next.previous, down, next.repeatDue).None?
  {
  }

  /** An emergency that dropped to critical while the write failed, then to warning: a pager
      with an emergency floor is never told that it is over. */
  lemma PagerMissesTheRecovery(stream: seq<Observation>, due: bool)
    requires var c := NotifierConfig(Some(SeverityEmergency), None);
             UpToDate(c, stream, Observation(StatusExpired, SeverityEmergency))
    ensures var c := NotifierConfig(Some(SeverityEmergency), None);
            var weak := Observation(StatusWeakSignature, SeverityCritical);
            var soon := Observation(StatusExpiringSoon, SeverityWarning);
            && ChannelNotice(c, weak, soon, due).None?
            && !UpToDate(c, stream, soon)
  {
  }
}
