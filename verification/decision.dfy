/** The decision of Manager.Process on one target and its fan-out to the attached
    notifiers: one shared row per target, one stateless clamp per channel. */
module Decision {
  import opened Domain
  import opened Debounce

  // ----- configuration ----------------------------------------------------------------

  /** RepeatInterval: a cadence per severity; "never" is stored as MAX_DURATION. */
  type RepeatInterval = map<Severity, Duration>

  const NEVER: Duration := MAX_DURATION

  function For(r: RepeatInterval, s: Severity): Duration {
    if s in r then r[s] else 0
  }

  predicate AlertingSeverity(s: Severity) {
    s == SeverityWarning || s == SeverityCritical || s == SeverityEmergency
  }

  /** min_severity is optional text in the source; None is the unset value. send_recovery is
      a *bool there; None is nil. */
  datatype NotifierConfig = NotifierConfig(minSeverity: Option<Severity>, sendRecovery: Option<bool>)

  datatype TargetConfig = TargetConfig(
    notifiers: seq<Name>,
    flapStreak: Option<int>,
    repeat: RepeatInterval)

  function Streak(t: TargetConfig): int {
    if t.flapStreak.Some? then t.flapStreak.value else 1
  }

  function Floor(c: NotifierConfig): Severity {
    if c.minSeverity.Some? then c.minSeverity.value else SeverityWarning
  }

  predicate SendsRecovery(c: NotifierConfig) {
    c.sendRecovery.None? || c.sendRecovery.value
  }

  predicate NoDuplicates<T(==)>(s: seq<T>) {
    forall i, j :: 0 <= i < j < |s| ==> s[i] != s[j]
  }

  predicate ValidFloor(s: Severity) { AlertingSeverity(s) }

  /** What Config.Validate guarantees about one target and the notifiers it names
      (internal/config/config.go:768-771, 829-861). */
  ghost predicate ValidTarget(notifiers: map<Name, NotifierConfig>, t: TargetConfig) {
    && Streak(t) >= 1
    && t.notifiers != [] && NoDuplicates(t.notifiers)
    && (forall n :: n in t.notifiers ==> n in notifiers)
    && (forall n :: n in t.notifiers && n in notifiers ==> ValidFloor(Floor(notifiers[n])))
    && (forall s :: AlertingSeverity(s) ==> s in t.repeat && 0 < t.repeat[s] <= NEVER)
  }

  // ----- the clamp --------------------------------------------------------------------

  function SeverityRank(s: Severity): int {
    match s
    case SeverityWarning => 1
    case SeverityCritical => 2
    case SeverityEmergency => 3
    case _ => 0
  }

  predicate Bad(v: Observation) { v.severity != SeverityOK }

  function ClampView(v: Observation, floor: Severity): Observation {
    if SeverityRank(v.severity) >= SeverityRank(floor) then v else HEALTHY
  }

  /** Which severities a floor lets through. */
  predicate Meets(severity: Severity, floor: Severity) {
    match floor
    case SeverityWarning => severity in {SeverityWarning, SeverityCritical, SeverityEmergency}
    case SeverityCritical => severity in {SeverityCritical, SeverityEmergency}
    case SeverityEmergency => severity == SeverityEmergency
    case _ => true
  }

  /** A channel has a problem to see exactly where its floor names its severity. */
  lemma FloorsByName(v: Observation, floor: Severity)
    ensures Meets(v.severity, floor) <==> SeverityRank(v.severity) >= SeverityRank(floor)
    ensures Bad(ClampView(v, SeverityWarning))
       <==> v.severity in {SeverityWarning, SeverityCritical, SeverityEmergency}
    ensures Bad(ClampView(v, SeverityCritical)) <==> v.severity in {SeverityCritical, SeverityEmergency}
    ensures Bad(ClampView(v, SeverityEmergency)) <==> v.severity in {SeverityEmergency}
  {
  }

  /** Under a validated floor a channel sees either the real pair, and then a severity that
      meets the floor, or the healthy pair. */
  lemma ClampIsRealOrHealthy(v: Observation, floor: Severity)
    requires ValidFloor(floor)
    ensures Bad(ClampView(v, floor)) <==> Meets(v.severity, floor)
    ensures Bad(ClampView(v, floor)) ==> ClampView(v, floor) == v && Bad(v)
    ensures !Bad(ClampView(v, floor)) ==> ClampView(v, floor) == HEALTHY
  {
  }

  /** A comment in the source says an unknown floor carries nothing. A floor carries every
      observation, healthy ones included, exactly when it is not an alerting severity. */
  lemma FloorCarriesEverything(floor: Severity)
    ensures (forall v :: ClampView(v, floor) == v) <==> !AlertingSeverity(floor)
  {
    var quiet := Observation(StatusUnreachable, SeverityOK);
    assert ClampView(quiet, SeverityWarning) != quiet;
    if AlertingSeverity(floor) {
      assert ClampView(quiet, floor) != quiet;
    }
  }

  // ----- the per-target decision ------------------------------------------------------

  /** In-memory state of one target. */
  datatype TargetMemory = TargetMemory(confirmed: Observation, lastAlertAt: Instant, pending: Pending)

  const UNKNOWN_TARGET := TargetMemory(HEALTHY, ZERO_TIME, NO_PENDING)

  datatype Decision = Decision(
    state: TargetMemory,      // the in-memory state afterwards
    held: bool,              // the debounce kept the old state: nothing else happens
    previous: Observation,   // the confirmed state before
    shapeChange: bool,
    repeatDue: bool,
    changed: bool)           // the state row has to be written

  predicate ShapeChange(previous: Observation, x: Observation) {
    Bad(x) && (!Bad(previous) || x != previous)
  }

  predicate RepeatDue(t: TargetConfig, lastAlertAt: Instant, x: Observation, now: Instant) {
    Bad(x) && Sub(now, lastAlertAt) >= For(t.repeat, x.severity)
  }

  function Decide(t: TargetConfig, st: TargetMemory, x: Observation, now: Instant): Decision {
    var v := Judge(Streak(t), st.confirmed, st.pending, x);
    if !v.adopted then
      Decision(st.(pending := v.pending), true, st.confirmed, false, false, false)
    else
      var shape := ShapeChange(st.confirmed, x);
      var due := RepeatDue(t, st.lastAlertAt, x, now);
      var fired := shape || due;
      Decision(TargetMemory(x, if fired then now else st.lastAlertAt, v.pending),
               false, st.confirmed, shape, due, x != st.confirmed || fired)
  }

  /** An unset streak leaves the debounce off; a set one is the n of the history definition. */
  lemma DecideMeetsHistory(t: TargetConfig, m: TargetMemory, h: seq<Observation>, x: Observation, now: Instant)
    requires t.flapStreak.Some? ==> SamePending(m.pending, PendingFor(t.flapStreak.value, m.confirmed, h))
    ensures var d := Decide(t, m, x, now);
            && (d.held <==> t.flapStreak.Some? && !Trusted(t.flapStreak.value, m.confirmed, h + [x]))
            && d.previous == m.confirmed && d.state.confirmed == (if d.held then m.confirmed else x)
            && (t.flapStreak.Some? ==>
                  SamePending(d.state.pending, PendingFor(t.flapStreak.value, d.state.confirmed, h + [x])))
  {
    if t.flapStreak.Some? {
      JudgeMeetsHistory(t.flapStreak.value, m.confirmed, m.pending, h, x);
    }
  }

  // ----- the fan-out ------------------------------------------------------------------

  /** What one channel is told: its clamped view, and whether it is a recovery. */
  datatype Notice = Notice(view: Observation, recovered: bool)

  function ChannelNotice(c: NotifierConfig, previous: Observation, x: Observation, repeatDue: bool): Option<Notice> {
    var before := ClampView(previous, Floor(c));
    var after := ClampView(x, Floor(c));
    if Bad(after) && (!Bad(before) || after != before) then Some(Notice(after, false))
    else if Bad(after) && repeatDue then Some(Notice(after, false))
    else if !Bad(after) && Bad(before) && SendsRecovery(c) then Some(Notice(after, true))
    else None
  }

  /** A queued delivery: the notice and its rendered body. */
  datatype Delivery = Delivery(notifier: Name, view: Observation, body: Value)

  /** Rendering of one channel's notice; None is a failed render. */
  type Renderer = (Name, Notice) -> Option<Value>

  function DeliveryFor(
    notifiers: map<Name, NotifierConfig>, name: Name, render: Renderer,
    previous: Observation, x: Observation, repeatDue: bool): seq<Delivery>
  {
    if name !in notifiers then []
    else
      var notice := ChannelNotice(notifiers[name], previous, x, repeatDue);
      if notice.None? then []
      else
        var body := render(name, notice.value);
        if body.None? then [] else [Delivery(name, notice.value.view, body.value)]
  }

  /** A delivery carries the channel's view and what the renderer made of its notice. */
  lemma DeliveryCarriesTheRender(
    notifiers: map<Name, NotifierConfig>, name: Name, render: Renderer,
    previous: Observation, x: Observation, repeatDue: bool, d: Delivery)
    requires name in notifiers
    ensures d in DeliveryFor(notifiers, name, render, previous, x, repeatDue)
       <==> exists notice ::
              && ChannelNotice(notifiers[name], previous, x, repeatDue) == Some(notice)
              && render(name, notice) == Some(d.body)
              && d.notifier == name && d.view == notice.view
    ensures |DeliveryFor(notifiers, name, render, previous, x, repeatDue)| <= 1
  {
    var notice := ChannelNotice(notifiers[name], previous, x, repeatDue);
    if notice.Some? && render(name, notice.value).Some? {
      assert ChannelNotice(notifiers[name], previous, x, repeatDue) == Some(notice.value);
    }
  }

  function FanOut(
    notifiers: map<Name, NotifierConfig>, names: seq<Name>, render: Renderer,
    previous: Observation, x: Observation, repeatDue: bool): seq<Delivery>
  {
    if names == [] then []
    else FanOut(notifiers, Init(names), render, previous, x, repeatDue)
         + DeliveryFor(notifiers, Last(names), render, previous, x, repeatDue)
  }

  /** What a decision owes its target's notifiers. */
  function Owed(notifiers: map<Name, NotifierConfig>, t: TargetConfig, d: Decision, x: Observation, render: Renderer)
    : seq<Delivery>
  {
    if d.held then [] else FanOut(notifiers, t.notifiers, render, d.previous, x, d.repeatDue)
  }

  function DeliveriesTo(name: Name, ds: seq<Delivery>): seq<Delivery> {
    if ds == [] then []
    else DeliveriesTo(name, Init(ds)) + (if Last(ds).notifier == name then [Last(ds)] else [])
  }

  lemma {:induction false} DeliveriesToConcat(name: Name, a: seq<Delivery>, b: seq<Delivery>)
    ensures DeliveriesTo(name, a + b) == DeliveriesTo(name, a) + DeliveriesTo(name, b)
  {
    if b == [] {
      assert a + b == a;
    } else {
      assert Init(a + b) == a + Init(b);
      DeliveriesToConcat(name, a, Init(b));
    }
  }

  /** Each channel gets what its own switch decides, once, whatever the other channels do. */
  lemma {:induction false} FanOutIsPerChannel(
    notifiers: map<Name, NotifierConfig>, names: seq<Name>, render: Renderer,
    previous: Observation, x: Observation, repeatDue: bool, name: Name)
    requires NoDuplicates(names)
    ensures DeliveriesTo(name, FanOut(notifiers, names, render, previous, x, repeatDue))
         == if name in names then DeliveryFor(notifiers, name, render, previous, x, repeatDue) else []
  {
    if names != [] {
      var rest := Init(names);
      FanOutIsPerChannel(notifiers, rest, render, previous, x, repeatDue, name);
      var own := DeliveryFor(notifiers, Last(names), render, previous, x, repeatDue);
      DeliveriesToConcat(name, FanOut(notifiers, rest, render, previous, x, repeatDue), own);
      assert own == [] || own == [own[0]];
      assert DeliveriesTo(name, own) == if Last(names) == name then own else [] by {
        if own != [] { assert Init(own) == []; }
      }
      assert forall i :: 0 <= i < |rest| ==> rest[i] == names[i];
      assert name in names <==> name in rest || name == Last(names);
    }
  }

  /** By the notifier's own settings, and by the severities they name. */
  ghost predicate Fires(
    c: NotifierConfig, previous: Observation, x: Observation, repeatDue: bool, notice: Option<Notice>)
  {
    var floor := if c.minSeverity == None then SeverityWarning else c.minSeverity.value;
    var met, wasMet := Meets(x.severity, floor), Meets(previous.severity, floor);
    && (notice == Some(Notice(x, false)) <==> met && (x != previous || repeatDue))
    && (notice == Some(Notice(HEALTHY, true)) <==> !met && wasMet && c.sendRecovery != Some(false))
    && (notice.Some? ==> notice.value == Notice(x, false) || notice.value == Notice(HEALTHY, true))
  }

  /** On a cycle that was not held, a channel is told of a problem exactly when the target's
      problem fired (it changed shape, or its reminder is due) and its floor is met; it is told
      of a recovery exactly when its view turned healthy and it opted in. */
  lemma ChannelFires(c: NotifierConfig, previous: Observation, x: Observation, repeatDue: bool)
    requires ValidFloor(Floor(c))
    requires repeatDue ==> Bad(x)
    ensures Fires(c, previous, x, repeatDue, ChannelNotice(c, previous, x, repeatDue))
  {
  }

  /** Every problem and every recovery reaches a notifier that sets neither option. */
  lemma UnsetNotifierHearsEverything(c: NotifierConfig, previous: Observation, x: Observation, repeatDue: bool)
    requires c.minSeverity.None? && c.sendRecovery.None?
    requires Bad(previous) ==> AlertingSeverity(previous.severity)
    requires Bad(x) ==> AlertingSeverity(x.severity)
    requires repeatDue ==> Bad(x)
    ensures ChannelNotice(c, previous, x, repeatDue)
         == if ShapeChange(previous, x) || repeatDue then Some(Notice(x, false))
            else if Bad(previous) && !Bad(x) then Some(Notice(HEALTHY, true))
            else None
  {
  }

  /** A severity without a cadence reminds on every cycle. */
  lemma UnknownSeverityRepeatsAtOnce(t: TargetConfig, lastAlertAt: Instant, x: Observation, now: Instant)
    requires Bad(x) && x.severity !in t.repeat
    ensures RepeatDue(t, lastAlertAt, x, now) <==> now >= lastAlertAt
  {
  }

  // ----- one shared row simulates a memory per channel ----------------------------------

  /** The naive design: the debounce, the reminder clock and, for every channel, the view it
      saw last. Only the clock still needs the target's own previous state. */
  datatype NaiveState = NaiveState(target: TargetMemory, seen: map<Name, Observation>)

  datatype Cycle = Cycle(x: Observation, now: Instant)

  function NaiveNotice(c: NotifierConfig, seen: Observation, x: Observation, repeatDue: bool): Option<Notice> {
    var after := ClampView(x, Floor(c));
    if Bad(after) && (after != seen || repeatDue) then Some(Notice(after, false))
    else if !Bad(after) && after != seen && SendsRecovery(c) then Some(Notice(after, true))
    else None
  }

  function NaiveStep(notifiers: map<Name, NotifierConfig>, t: TargetConfig, s: NaiveState, c: Cycle): NaiveState {
    var d := Decide(t, s.target, c.x, c.now);
    if d.held then NaiveState(d.state, s.seen)
    else NaiveState(d.state, map n | n in notifiers :: ClampView(c.x, Floor(notifiers[n])))
  }

  function NaiveRun(notifiers: map<Name, NotifierConfig>, t: TargetConfig, cycles: seq<Cycle>): NaiveState {
    if cycles == [] then NaiveState(UNKNOWN_TARGET, map n | n in notifiers :: HEALTHY)
    else NaiveStep(notifiers, t, NaiveRun(notifiers, t, Init(cycles)), Last(cycles))
  }

  function SharedRun(t: TargetConfig, cycles: seq<Cycle>): TargetMemory {
    if cycles == [] then UNKNOWN_TARGET
    else Decide(t, SharedRun(t, Init(cycles)), Last(cycles).x, Last(cycles).now).state
  }

  /** After every run the naive memories are the clamp of the one shared row, so the two
      designs send the same notice to every channel on the next cycle, whatever it brings. */
  lemma {:induction false} SharedRowSimulatesChannels(
    notifiers: map<Name, NotifierConfig>, t: TargetConfig, cycles: seq<Cycle>, next: Cycle, n: Name)
    requires n in notifiers && (forall m :: m in notifiers ==> ValidFloor(Floor(notifiers[m])))
    ensures var naive := NaiveRun(notifiers, t, cycles);
            var shared := SharedRun(t, cycles);
            var d := Decide(t, shared, next.x, next.now);
            && naive.target == shared
            && naive.seen.Keys == notifiers.Keys
            && naive.seen[n] == ClampView(shared.confirmed, Floor(notifiers[n]))
            && NaiveNotice(notifiers[n], naive.seen[n], next.x, d.repeatDue)
               == ChannelNotice(notifiers[n], d.previous, next.x, d.repeatDue)
  {
    if cycles != [] {
      SharedRowSimulatesChannels(notifiers, t, Init(cycles), Last(cycles), n);
    }
    var before := SharedRun(t, cycles).confirmed;
    ClampIsRealOrHealthy(before, Floor(notifiers[n]));
    ClampIsRealOrHealthy(next.x, Floor(notifiers[n]));
  }
}
