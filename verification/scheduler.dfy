/** internal/scheduler and the health threshold of cmd/certel/monitor.go, in real time: probes
    released with jitter into a bounded pool, a barrier at the end of a cycle, and a ticker
    that does not stack cycles. */
module Scheduler {
  import opened Domain

  /** The probe settings of one target that bound how long it can hold a slot. */
  datatype TargetParams = TargetParams(connectRetries: nat, timeout: Duration)

  datatype Config = Config(
    keys: seq<Key>, targets: seq<TargetParams>, concurrency: nat, jitter: Duration, checkInterval: Duration,
    startedAt: Instant)

  predicate Valid(c: Config) {
    && |c.keys| == |c.targets| > 0
    && (forall i, j :: 0 <= i < j < |c.keys| ==> c.keys[i] != c.keys[j])
    && c.concurrency > 0 && c.jitter >= 0 && c.checkInterval > 0 && c.startedAt >= SECOND
    && (forall i :: 0 <= i < |c.targets| ==> c.targets[i].timeout > 0)
  }

  function Attempts(t: TargetParams): nat { t.connectRetries + 1 }

  /** The longest Check: every attempt times out and is followed by a one-second pause, the
      last one too. */
  function Hold(t: TargetParams): Duration { Attempts(t) * (t.timeout + SECOND) }

  // ----- Prober.Check -------------------------------------------------------------------

  datatype Attempt = Attempt(unreachable: bool, took: Duration)

  function Took(attempts: seq<Attempt>): Duration {
    if attempts == [] then 0 else Took(Init(attempts)) + Last(attempts).took
  }

  /** The retry loop: attempts[i] is what attempt i would see. Only unreachable is retried, the
      last attempt's outcome is the result, and the slot is held for what the attempts took and a
      second after each unreachable one, no longer than Hold. */
  method Check(t: TargetParams, attempts: seq<Attempt>) returns (result: Attempt, made: nat, held: Duration)
    requires |attempts| == Attempts(t)
    requires forall i :: 0 <= i < |attempts| ==> 0 <= attempts[i].took <= t.timeout
    ensures 1 <= made <= Attempts(t) && result == attempts[made - 1]
    ensures forall i :: 0 <= i < made - 1 ==> attempts[i].unreachable
    ensures !result.unreachable || made == Attempts(t)
    ensures held == Took(attempts[..made]) + (if result.unreachable then made else made - 1) * SECOND
    ensures 0 <= held <= Hold(t)
    ensures (forall i :: 0 <= i < |attempts| ==> attempts[i] == Attempt(true, t.timeout)) ==> held == Hold(t)
  {
    made, held := 0, 0;
    result := attempts[0];
    while made < |attempts|
      invariant 0 <= made <= |attempts|
      invariant forall i :: 0 <= i < made ==> attempts[i].unreachable
      invariant made > 0 ==> result == attempts[made - 1]
      invariant held == Took(attempts[..made]) + made * SECOND
      invariant 0 <= held <= made * (t.timeout + SECOND)
      invariant (forall i :: 0 <= i < |attempts| ==> attempts[i] == Attempt(true, t.timeout)) ==>
                  held == made * (t.timeout + SECOND)
    {
      result := attempts[made];
      assert Init(attempts[..made + 1]) == attempts[..made];
      made, held := made + 1, held + result.took;
      MulStep(made - 1, t.timeout + SECOND);
      if !result.unreachable {
        MulMono(made, Attempts(t), t.timeout + SECOND);
        return;
      }
      held := held + SECOND;
    }
  }

  lemma MulStep(k: int, d: int)
    ensures (k + 1) * d == k * d + d
  {
  }

  lemma MulMono(a: nat, b: nat, d: nat)
    requires a <= b
    ensures a * d <= b * d
  {
  }

  // ----- the threshold ------------------------------------------------------------------

  function Waves(c: Config): nat
    requires c.concurrency > 0
  {
    (|c.targets| + c.concurrency - 1) / c.concurrency
  }

  /** Just enough waves for everyone. */
  lemma WavesAreEnough(c: Config)
    requires c.concurrency > 0
    ensures Waves(c) * c.concurrency >= |c.targets|
    ensures Waves(c) > 0 ==> (Waves(c) - 1) * c.concurrency < |c.targets|
  {
    var n := |c.targets| + c.concurrency - 1;
    assert n == Waves(c) * c.concurrency + n % c.concurrency;
    assert (Waves(c) - 1) * c.concurrency == Waves(c) * c.concurrency - c.concurrency;
  }

  function MaxAttempts(ts: seq<TargetParams>): (m: nat)
    ensures forall i :: 0 <= i < |ts| ==> Attempts(ts[i]) <= m
    ensures ts != [] ==> m >= 1
  {
    if ts == [] then 0
    else var m := MaxAttempts(Init(ts)); if Attempts(Last(ts)) > m then Attempts(Last(ts)) else m
  }

  function MaxTimeout(ts: seq<TargetParams>): (m: Duration)
    ensures forall i :: 0 <= i < |ts| ==> ts[i].timeout <= m
    ensures m >= 0
  {
    if ts == [] then 0
    else var m := MaxTimeout(Init(ts)); if Last(ts).timeout > m then Last(ts).timeout else m
  }

  /** Neither is more than some target has. */
  lemma {:induction false} MaximaAreTaken(ts: seq<TargetParams>)
    requires ts != []
    ensures exists t :: t in ts && Attempts(t) == MaxAttempts(ts)
    ensures MaxTimeout(ts) == 0 || exists t :: t in ts && t.timeout == MaxTimeout(ts)
  {
    var before, last := Init(ts), Last(ts);
    assert last in ts && forall t :: t in before ==> t in ts;
    if before == [] {
      assert MaxAttempts(before) == MaxTimeout(before) == 0;
    } else {
      MaximaAreTaken(before);
    }
  }

  const SLACK: Duration := 30 * SECOND

  function PerTarget(c: Config): Duration {
    MaxAttempts(c.targets) * MaxTimeout(c.targets) + (MaxAttempts(c.targets) - 1) * SECOND
  }

  /** The threshold as the formula has it. */
  function Threshold(c: Config): Duration
    requires c.concurrency > 0
  {
    c.checkInterval + c.jitter + Waves(c) * PerTarget(c) + SLACK
  }

  const WIDTH := 0x1_0000_0000_0000_0000

  /** Arithmetic on a Duration wraps around, as on any int64. */
  function Wrap(x: int): (d: Duration)
    ensures MIN_DURATION <= d <= MAX_DURATION
    ensures MIN_DURATION <= x <= MAX_DURATION ==> d == x
    ensures x >= 0 ==> d <= x
  {
    (x - MIN_DURATION) % WIDTH + MIN_DURATION
  }

  /** The threshold as the code has it. */
  function Liveness(c: Config): Duration
    requires c.concurrency > 0
  {
    Wrap(Threshold(c))
  }

  lemma WrapIs(x: int, k: int)
    requires MIN_DURATION <= x - k * WIDTH <= MAX_DURATION
    ensures Wrap(x) == x - k * WIDTH
  {
  }

  /** How often x has gone around. */
  function Turns(x: int): (k: int)
    ensures Wrap(x) == x - k * WIDTH
  {
    (x - MIN_DURATION) / WIDTH
  }

  /** Wrapping in between changes nothing. */
  lemma WrapSum(x: int, y: int)
    ensures Wrap(Wrap(x) + Wrap(y)) == Wrap(x + y) && Wrap(Wrap(x) + y) == Wrap(x + y)
  {
    var kx, ky, k := Turns(x), Turns(y), Turns(x + y);
    WrapIs(Wrap(x) + Wrap(y), k - kx - ky);
    WrapIs(Wrap(x) + y, k - kx);
  }

  lemma Distribute(w: int, x: int, k: int)
    ensures w * (x - k * WIDTH) == w * x - (w * k) * WIDTH
  {
  }

  lemma WrapProduct(w: int, x: int)
    ensures Wrap(w * Wrap(x)) == Wrap(w * x)
  {
    var kx, k := Turns(x), Turns(w * x);
    Distribute(w, x, kx);
    WrapIs(w * Wrap(x), k - w * kx);
  }

  lemma ProbingWraps(pauses: int, probes: int, waves: int)
    ensures Wrap(waves * Wrap(Wrap(probes) + Wrap(pauses))) == Wrap(waves * (probes + pauses))
  {
    WrapSum(probes, pauses);
    WrapProduct(waves, probes + pauses);
  }

  lemma TotalWraps(fixed: int, probing: int)
    ensures Wrap(Wrap(Wrap(fixed) + Wrap(probing)) + SLACK) == Wrap(fixed + probing + SLACK)
  {
    WrapSum(fixed, probing);
    WrapSum(fixed + probing, SLACK);
  }

  /** The loop of livenessThreshold over the targets. */
  method Maxima(targets: seq<TargetParams>) returns (maxAttempts: nat, maxTimeout: Duration)
    ensures maxAttempts == MaxAttempts(targets) && maxTimeout == MaxTimeout(targets)
  {
    maxAttempts, maxTimeout := 0, 0;
    for i := 0 to |targets|
      invariant maxAttempts == MaxAttempts(targets[..i]) && maxTimeout == MaxTimeout(targets[..i])
    {
      assert Init(targets[..i + 1]) == targets[..i];
      if targets[i].connectRetries + 1 > maxAttempts {
        maxAttempts := targets[i].connectRetries + 1;
      }
      if targets[i].timeout > maxTimeout {
        maxTimeout := targets[i].timeout;
      }
    }
    assert targets[..|targets|] == targets;
  }

  /** livenessThreshold: every sum and product is that of int64. */
  method LivenessThreshold(c: Config) returns (threshold: Duration)
    requires Valid(c)
    ensures threshold == Liveness(c)
    ensures Threshold(c) <= MAX_DURATION ==> threshold == Threshold(c)
  {
    var maxAttempts, maxTimeout := Maxima(c.targets);
    var perTarget := Wrap(Wrap(maxAttempts * maxTimeout) + Wrap((maxAttempts - 1) * SECOND));
    var waves := (|c.targets| + c.concurrency - 1) / c.concurrency;
    var probing := Wrap(waves * perTarget);
    threshold := Wrap(Wrap(Wrap(c.checkInterval + c.jitter) + probing) + SLACK);
    ProbingWraps((maxAttempts - 1) * SECOND, maxAttempts * maxTimeout, waves);
    TotalWraps(c.checkInterval + c.jitter, waves * PerTarget(c));
    ThresholdPositive(c);
  }

  lemma ThresholdPositive(c: Config)
    requires Valid(c)
    ensures Threshold(c) > 0
  {
    MulMono(0, MaxAttempts(c.targets), MaxTimeout(c.targets));
    MulMono(0, Waves(c), PerTarget(c));
  }

  /** An upper bound on every target's hold. */
  function Slowest(c: Config): Duration { MaxAttempts(c.targets) * (MaxTimeout(c.targets) + SECOND) }

  lemma HoldAtMostSlowest(c: Config, i: nat)
    requires Valid(c) && i < |c.targets|
    ensures Hold(c.targets[i]) <= Slowest(c)
  {
    var a, t := Attempts(c.targets[i]), c.targets[i].timeout;
    var ma, mt := MaxAttempts(c.targets), MaxTimeout(c.targets);
    MulMono(a, ma, t + SECOND);
    assert ma * (mt + SECOND) == ma * (t + SECOND) + ma * (mt - t);
  }

  // ----- the timed machine ----------------------------------------------------------------

  datatype Job =
    | Sleeping(wakeAt: Instant)
    | Waiting
    | Running(since: Instant)
    | Finished(since: Instant, at: Instant)

  datatype Sched = Sched(
    now: Instant,
    inCycle: bool,
    begun: Instant,              // when the current or latest cycle began
    jobs: seq<Job>,              // one per target
    lastCycle: Option<Instant>,  // when the latest cycle completed
    ticker: Option<Instant>,     // when the ticker fires next; made after the first cycle
    tick: bool,                  // the ticker's one-slot channel is full
    handled: seq<nat>)           // history: results handled per target in this cycle

  datatype Event =
    | Wake(i: nat)
    | Acquire(i: nat)
    | Finish(i: nat)
    | EndCycle
    | TickFires
    | Begin(wakes: seq<Instant>)
    | Elapse(d: Duration)

  /** rand.N(j) is below j; without jitter a probe is released at once. */
  function LatestRelease(c: Config): Duration { if c.jitter > 0 then c.jitter - 1 else 0 }

  ghost predicate Releases(c: Config, at: Instant, wakes: seq<Instant>) {
    |wakes| == |c.targets| && forall i :: 0 <= i < |wakes| ==> at <= wakes[i] <= at + LatestRelease(c)
  }

  function Asleep(wakes: seq<Instant>): (jobs: seq<Job>)
    ensures |jobs| == |wakes| && forall i :: 0 <= i < |wakes| ==> jobs[i] == Sleeping(wakes[i])
  {
    seq(|wakes|, i requires 0 <= i < |wakes| => Sleeping(wakes[i]))
  }

  function Zeros(n: nat): (z: seq<nat>)
    ensures |z| == n && forall i :: 0 <= i < n ==> z[i] == 0
  {
    seq(n, i => 0)
  }

  /** The monitor starts with a cycle. */
  function Start(c: Config, wakes: seq<Instant>): Sched {
    Sched(c.startedAt, true, c.startedAt, Asleep(wakes), None, None, false, Zeros(|wakes|))
  }

  function InFlight(jobs: seq<Job>): set<nat> {
    set i: nat | i < |jobs| && jobs[i].Running?
  }

  predicate AllFinished(jobs: seq<Job>) {
    forall i :: 0 <= i < |jobs| ==> jobs[i].Finished?
  }

  /** Time passes only when nothing is due: a sleeper wakes on time, a waiting probe takes a
      free slot at once, a probe gives its slot back within its hold, the barrier opens when the
      last probe is done, and the ticker fires on time and starts the next cycle. */
  ghost predicate NothingDue(c: Config, s: Sched, until: Instant) {
    && (s.ticker.Some? ==> until <= s.ticker.value)
    && (!s.inCycle ==> !s.tick)
    && (s.inCycle ==> !AllFinished(s.jobs) && NoProbeDue(c, s, until))
  }

  ghost predicate NoProbeDue(c: Config, s: Sched, until: Instant) {
    && (forall i :: 0 <= i < |s.jobs| && s.jobs[i].Sleeping? ==> until <= s.jobs[i].wakeAt)
    && (forall i :: 0 <= i < |s.jobs| && s.jobs[i].Waiting? ==> |InFlight(s.jobs)| >= c.concurrency)
    && (forall i :: 0 <= i < |s.jobs| && s.jobs[i].Running? && i < |c.targets| ==>
          until <= s.jobs[i].since + Hold(c.targets[i]))
  }

  ghost predicate Enabled(c: Config, s: Sched, e: Event) {
    match e
    case Wake(i) => s.inCycle && i < |s.jobs| && s.jobs[i].Sleeping? && s.jobs[i].wakeAt <= s.now
    case Acquire(i) => s.inCycle && i < |s.jobs| && s.jobs[i].Waiting? && |InFlight(s.jobs)| < c.concurrency
    case Finish(i) => s.inCycle && i < |s.jobs| && i < |s.handled| && s.jobs[i].Running?
    case EndCycle => s.inCycle && AllFinished(s.jobs)
    case TickFires => s.ticker == Some(s.now)
    case Begin(wakes) => !s.inCycle && s.tick && Releases(c, s.now, wakes)
    case Elapse(d) => d > 0 && NothingDue(c, s, s.now + d)
  }

  function Apply(c: Config, s: Sched, e: Event): Sched {
    match e
    case Wake(i) => if i < |s.jobs| then s.(jobs := s.jobs[i := Waiting]) else s
    case Acquire(i) => if i < |s.jobs| then s.(jobs := s.jobs[i := Running(s.now)]) else s
    case Finish(i) =>
      if i < |s.jobs| && i < |s.handled| && s.jobs[i].Running?
      then s.(jobs := s.jobs[i := Finished(s.jobs[i].since, s.now)], handled := s.handled[i := s.handled[i] + 1])
      else s
    case EndCycle =>
      s.(inCycle := false, lastCycle := Some(s.now),
         ticker := if s.ticker.None? then Some(s.now + c.checkInterval) else s.ticker)
    case TickFires => s.(tick := true, ticker := Some(s.now + c.checkInterval))
    case Begin(wakes) =>
      s.(inCycle := true, tick := false, begun := s.now, jobs := Asleep(wakes), handled := Zeros(|wakes|))
    case Elapse(d) => s.(now := s.now + d)
  }

  ghost predicate Reaches(c: Config, wakes: seq<Instant>, events: seq<Event>, s: Sched) {
    if events == [] then Releases(c, c.startedAt, wakes) && s == Start(c, wakes)
    else exists before ::
           Reaches(c, wakes, Init(events), before) && Enabled(c, before, Last(events))
           && s == Apply(c, before, Last(events))
  }

  ghost predicate Reachable(c: Config, s: Sched) {
    exists wakes, events :: Reaches(c, wakes, events, s)
  }

  // ----- the wave argument ----------------------------------------------------------------

  /** The k-th deadline of a cycle. */
  function Deadline(c: Config, begun: Instant, k: int): Instant {
    begun + LatestRelease(c) + k * Slowest(c)
  }

  function StartedBy(jobs: seq<Job>, t: Instant): set<nat> {
    set i: nat | i < |jobs| && (jobs[i].Running? || jobs[i].Finished?) && jobs[i].since <= t
  }

  function All(n: nat): (s: set<nat>)
    ensures |s| == n && forall i: nat :: i in s <==> i < n
  {
    if n == 0 then {} else All(n - 1) + {n - 1}
  }

  ghost predicate JobsOk(c: Config, s: Sched) {
    && |s.jobs| == |c.targets| == |s.handled|
    && |InFlight(s.jobs)| <= c.concurrency
    && (forall i :: 0 <= i < |s.jobs| ==>
          match s.jobs[i]
          case Sleeping(w) => w <= s.begun + LatestRelease(c) && s.handled[i] == 0
          case Waiting => s.handled[i] == 0
          case Running(since) => s.begun <= since <= s.now && s.handled[i] == 0
          case Finished(since, at) => since <= at <= s.now && s.handled[i] == 1)
  }

  /** Once the k-th deadline has passed, k + 1 full waves (or every probe) have started by it. */
  ghost predicate WavesOk(c: Config, s: Sched) {
    forall k: nat :: Deadline(c, s.begun, k) < s.now ==>
      |StartedBy(s.jobs, Deadline(c, s.begun, k))| >= Min(|s.jobs|, (k + 1) * c.concurrency)
  }

  ghost predicate CycleOk(c: Config, s: Sched)
    requires Valid(c)
  {
    s.inCycle ==> JobsOk(c, s) && WavesOk(c, s) && s.now <= Deadline(c, s.begun, Waves(c)) && s.begun <= s.now
  }

  ghost predicate TickerOk(c: Config, s: Sched) {
    && (s.ticker.Some? <==> s.lastCycle.Some?)
    && (!s.inCycle ==> s.lastCycle.Some?)
    && (s.ticker.Some? ==> s.now <= s.ticker.value <= s.now + c.checkInterval)
    && (s.lastCycle.Some? ==> s.lastCycle.value <= s.now && s.lastCycle.value >= SECOND)
    && (!s.inCycle ==> if s.tick then s.now <= s.lastCycle.value + c.checkInterval
                       else s.ticker.value <= s.lastCycle.value + c.checkInterval)
    && (s.inCycle ==> s.begun <= if s.lastCycle.Some? then s.lastCycle.value + c.checkInterval else c.startedAt)
    && s.now >= SECOND
  }

  ghost predicate Inv(c: Config, s: Sched)
    requires Valid(c)
  { CycleOk(c, s) && TickerOk(c, s) }

  lemma SubsetSize<T>(a: set<T>, b: set<T>)
    requires a <= b
    ensures |a| <= |b|
  {
    assert b == a + (b - a);
  }

  lemma DeadlineStep(c: Config, begun: Instant, k: nat)
    requires Valid(c)
    ensures Deadline(c, begun, k + 1) == Deadline(c, begun, k) + Slowest(c)
    ensures Slowest(c) >= 0 && Deadline(c, begun, k) >= begun + LatestRelease(c)
  {
  }

  /** Whoever started by the previous deadline has given its slot back by this one. */
  lemma EarlierAreDone(c: Config, s: Sched, until: Instant, k: nat)
    requires Valid(c) && s.inCycle && JobsOk(c, s) && NoProbeDue(c, s, until)
    requires Deadline(c, s.begun, k + 1) < until
    ensures InFlight(s.jobs) !! StartedBy(s.jobs, Deadline(c, s.begun, k))
  {
    DeadlineStep(c, s.begun, k);
    forall i | i in InFlight(s.jobs) ensures i !in StartedBy(s.jobs, Deadline(c, s.begun, k)) {
      HoldAtMostSlowest(c, i);
    }
  }

  /** With all slots busy, one more wave has started since the previous deadline. */
  lemma BusyWave(c: Config, s: Sched, until: Instant, k: nat)
    requires Valid(c) && s.inCycle && JobsOk(c, s) && NoProbeDue(c, s, until)
    requires s.now <= Deadline(c, s.begun, k) < until && |InFlight(s.jobs)| >= c.concurrency
    requires k > 0 ==> |StartedBy(s.jobs, Deadline(c, s.begun, k - 1))| >= Min(|s.jobs|, k * c.concurrency)
    ensures |StartedBy(s.jobs, Deadline(c, s.begun, k))| >= Min(|s.jobs|, (k + 1) * c.concurrency)
  {
    var busy, started := InFlight(s.jobs), StartedBy(s.jobs, Deadline(c, s.begun, k));
    assert busy <= started;
    if k == 0 {
      SubsetSize(busy, started);
    } else {
      var before := StartedBy(s.jobs, Deadline(c, s.begun, k - 1));
      EarlierAreDone(c, s, until, k - 1);
      DeadlineStep(c, s.begun, k - 1);
      StartedGrows(s.jobs, Deadline(c, s.begun, k - 1), Deadline(c, s.begun, k));
      DisjointSizes(busy, before, started);
      MulStep(k, c.concurrency);
    }
  }

  lemma StartedGrows(jobs: seq<Job>, t: Instant, u: Instant)
    requires t <= u
    ensures StartedBy(jobs, t) <= StartedBy(jobs, u)
  {
  }

  lemma DisjointSizes<T>(a: set<T>, b: set<T>, whole: set<T>)
    requires a !! b && a <= whole && b <= whole
    ensures |a| + |b| <= |whole|
  {
    SubsetSize(a + b, whole);
  }

  lemma NoneWaiting(c: Config, s: Sched, until: Instant, t: Instant)
    requires Valid(c) && s.inCycle && JobsOk(c, s) && NoProbeDue(c, s, until)
    requires s.begun + LatestRelease(c) < until && s.now <= t
    requires forall i :: 0 <= i < |s.jobs| ==> !s.jobs[i].Waiting?
    ensures StartedBy(s.jobs, t) == All(|s.jobs|)
  {
  }

  /** The heart of the bound: when time passes the k-th deadline, either everything has started
      or all slots are busy with probes that started after the previous deadline. */
  lemma {:induction false} WaveStarts(c: Config, s: Sched, until: Instant, k: nat)
    requires Valid(c) && s.inCycle && JobsOk(c, s) && WavesOk(c, s) && NoProbeDue(c, s, until)
    requires Deadline(c, s.begun, k) < until
    ensures |StartedBy(s.jobs, Deadline(c, s.begun, k))| >= Min(|s.jobs|, (k + 1) * c.concurrency)
    decreases k
  {
    DeadlineStep(c, s.begun, k);
    if s.now <= Deadline(c, s.begun, k) {
      if |InFlight(s.jobs)| >= c.concurrency {
        if k > 0 {
          DeadlineStep(c, s.begun, k - 1);
          WaveStarts(c, s, until, k - 1);
        }
        BusyWave(c, s, until, k);
      } else {
        NoneWaiting(c, s, until, Deadline(c, s.begun, k));
      }
    }
  }

  lemma WavesCover(c: Config)
    requires Valid(c)
    ensures Waves(c) >= 1 && Waves(c) * c.concurrency >= |c.targets|
  {
  }

  /** Time can pass the last deadline only when every probe is done. */
  lemma LateMeansFinished(c: Config, s: Sched, until: Instant)
    requires Valid(c) && s.inCycle && JobsOk(c, s) && WavesOk(c, s) && NoProbeDue(c, s, until)
    requires until > Deadline(c, s.begun, Waves(c))
    ensures AllFinished(s.jobs)
  {
    WavesCover(c);
    var k := Waves(c) - 1;
    DeadlineStep(c, s.begun, k);
    WaveStarts(c, s, until, k);
    var started := StartedBy(s.jobs, Deadline(c, s.begun, k));
    EverythingStarted(started, |s.jobs|);
    forall i | 0 <= i < |s.jobs| ensures s.jobs[i].Finished? {
      assert i in All(|s.jobs|);
      HoldAtMostSlowest(c, i);
    }
  }

  /** No cycle outlives its last deadline. */
  lemma ElapseStaysInTime(c: Config, s: Sched, d: Duration)
    requires Valid(c) && s.inCycle && CycleOk(c, s) && Enabled(c, s, Elapse(d))
    ensures s.now + d <= Deadline(c, s.begun, Waves(c))
  {
    if s.now + d > Deadline(c, s.begun, Waves(c)) {
      LateMeansFinished(c, s, s.now + d);
    }
  }

  lemma EverythingStarted(a: set<nat>, n: nat)
    requires a <= All(n) && |a| >= n
    ensures a == All(n)
  {
    assert All(n) == a + (All(n) - a);
  }

  lemma ElapseKeepsInv(c: Config, s: Sched, d: Duration)
    requires Valid(c) && Inv(c, s) && Enabled(c, s, Elapse(d))
    ensures Inv(c, Apply(c, s, Elapse(d)))
  {
    var after := Apply(c, s, Elapse(d));
    if s.inCycle {
      ElapseStaysInTime(c, s, d);
      forall k: nat | Deadline(c, s.begun, k) < after.now
        ensures |StartedBy(s.jobs, Deadline(c, s.begun, k))| >= Min(|s.jobs|, (k + 1) * c.concurrency)
      {
        WaveStarts(c, s, after.now, k);
      }
    }
  }

  lemma JobStepInFlight(c: Config, s: Sched, e: Event)
    requires Enabled(c, s, e) && (e.Wake? || e.Acquire? || e.Finish?)
    ensures var busy := InFlight(s.jobs);
            InFlight(Apply(c, s, e).jobs)
            == if e.Acquire? then busy + {e.i} else if e.Finish? then busy - {e.i} else busy
  {
  }

  lemma JobStepStarted(c: Config, s: Sched, e: Event, t: Instant)
    requires Enabled(c, s, e) && (e.Wake? || e.Acquire? || e.Finish?) && t < s.now
    ensures StartedBy(Apply(c, s, e).jobs, t) == StartedBy(s.jobs, t)
  {
  }

  lemma JobStepKeepsInv(c: Config, s: Sched, e: Event)
    requires Valid(c) && Inv(c, s) && Enabled(c, s, e) && (e.Wake? || e.Acquire? || e.Finish?)
    ensures Inv(c, Apply(c, s, e))
  {
    JobStepInFlight(c, s, e);
    forall k: nat | Deadline(c, s.begun, k) < s.now
      ensures |StartedBy(Apply(c, s, e).jobs, Deadline(c, s.begun, k))| >= Min(|s.jobs|, (k + 1) * c.concurrency)
    {
      JobStepStarted(c, s, e, Deadline(c, s.begun, k));
    }
  }

  lemma FreshCycle(c: Config, s: Sched, wakes: seq<Instant>)
    requires Valid(c) && s.inCycle && Releases(c, s.now, wakes) && s.begun == s.now
    requires s.jobs == Asleep(wakes) && s.handled == Zeros(|wakes|)
    ensures CycleOk(c, s)
  {
    WavesCover(c);
    assert InFlight(s.jobs) == {};
    forall k: nat ensures Deadline(c, s.begun, k) >= s.now {
      DeadlineStep(c, s.begun, k);
    }
  }

  lemma StepKeepsInv(c: Config, s: Sched, e: Event)
    requires Valid(c) && Inv(c, s) && Enabled(c, s, e)
    ensures Inv(c, Apply(c, s, e))
  {
    match e
    case Elapse(d) => ElapseKeepsInv(c, s, d);
    case Begin(wakes) => FreshCycle(c, Apply(c, s, e), wakes);
    case EndCycle =>
    case TickFires =>
    case _ => JobStepKeepsInv(c, s, e);
  }

  lemma {:induction false} ReachesInv(c: Config, wakes: seq<Instant>, events: seq<Event>, s: Sched)
    requires Valid(c) && Reaches(c, wakes, events, s)
    ensures Inv(c, s)
  {
    if events == [] {
      FreshCycle(c, s, wakes);
    } else {
      var before :| Reaches(c, wakes, Init(events), before) && Enabled(c, before, Last(events))
                    && s == Apply(c, before, Last(events));
      ReachesInv(c, wakes, Init(events), before);
      StepKeepsInv(c, before, Last(events));
    }
  }

  // ----- the results --------------------------------------------------------------------

  /** The greedy bound and the exclusions, on every run. In a cycle at most `concurrency` probes
      hold a slot, every target is handled at most once, exactly once when the cycle ends, and
      no cycle is older than jitter plus ceil(n / concurrency) of the slowest hold. */
  lemma CycleBound(c: Config, s: Sched)
    requires Valid(c) && Reachable(c, s) && s.inCycle
    ensures s.now <= s.begun + LatestRelease(c) + Waves(c) * Slowest(c)
    ensures |InFlight(s.jobs)| <= c.concurrency
    ensures |s.jobs| == |c.targets| == |s.handled|
    ensures forall i :: 0 <= i < |s.handled| ==> s.handled[i] == if s.jobs[i].Finished? then 1 else 0
    ensures Enabled(c, s, EndCycle) ==> forall i :: 0 <= i < |s.handled| ==> s.handled[i] == 1
  {
    var wakes, events :| Reaches(c, wakes, events, s);
    ReachesInv(c, wakes, events, s);
  }

  /** The barrier: no probe of an earlier cycle is left when a cycle begins, and keys are
      distinct, so two results in flight never belong to one target key. */
  lemma NoOverlapPerKey(c: Config, s: Sched, wakes: seq<Instant>, i: nat, j: nat)
    requires Valid(c) && Reachable(c, s)
    ensures Enabled(c, s, EndCycle) ==> InFlight(s.jobs) == {}
    ensures s.inCycle && i in InFlight(s.jobs) && j in InFlight(s.jobs) && i != j ==>
              i < |c.keys| && j < |c.keys| && c.keys[i] != c.keys[j]
    ensures Enabled(c, s, Begin(wakes)) ==> InFlight(Apply(c, s, Begin(wakes)).jobs) == {}
  {
    var reach, events :| Reaches(c, reach, events, s);
    ReachesInv(c, reach, events, s);
  }

  /** What /healthz computes: the age of the last completed cycle, whose time is kept in whole
      seconds; before the first one, the age of the process. */
  function Age(c: Config, s: Sched): Duration {
    Sub(s.now, if s.lastCycle.None? then c.startedAt else s.lastCycle.value / SECOND * SECOND)
  }

  /** It is up to a second more than the time that has passed: the cycle's second began then. */
  lemma AgeIsCoarse(c: Config, s: Sched)
    requires s.lastCycle.Some? && 0 <= s.now - s.lastCycle.value < MAX_DURATION - SECOND
    ensures Age(c, s) == s.now - s.lastCycle.value + s.lastCycle.value % SECOND
  {
  }

  predicate Healthy(c: Config, s: Sched)
    requires c.concurrency > 0
  {
    Age(c, s) < Liveness(c)
  }

  /** The threshold is the interval, the jitter, the waves of the slowest hold and the
      slack, less the one pause a wave that the formula forgets. */
  lemma ThresholdIsShort(c: Config)
    requires c.concurrency > 0
    ensures Threshold(c) == c.checkInterval + c.jitter + Waves(c) * Slowest(c) + SLACK - Waves(c) * SECOND
  {
    assert PerTarget(c) == Slowest(c) - SECOND;
    assert Waves(c) * (Slowest(c) - SECOND) == Waves(c) * Slowest(c) - Waves(c) * SECOND;
  }

  lemma ThresholdLeavesRoom(c: Config)
    requires Valid(c) && Waves(c) <= 29
    ensures Waves(c) * Slowest(c) + c.checkInterval + LatestRelease(c) + SECOND <= Threshold(c)
  {
  }

  /** Up to 29 waves a threshold that a Duration can hold dominates the worst legal cycle:
      health never fails, in any run, although the uncounted trailing pause costs a second per
      wave. */
  lemma HealthyUpTo29Waves(c: Config, s: Sched)
    requires Valid(c) && Reachable(c, s) && Waves(c) <= 29 && Threshold(c) <= MAX_DURATION
    ensures Healthy(c, s)
  {
    var wakes, events :| Reaches(c, wakes, events, s);
    ReachesInv(c, wakes, events, s);
    ThresholdLeavesRoom(c);
    DeadlineStep(c, s.begun, Waves(c));
    MulMono(0, Waves(c), Slowest(c));
  }

  /** One that it cannot hold wraps around. Health fails from the start exactly when it comes
      out as nothing or less, as it does in the whole first half of the wrapped range. */
  lemma OverflowFailsAtOnce(c: Config, wakes: seq<Instant>)
    requires Valid(c) && |wakes| == |c.targets|
    ensures Healthy(c, Start(c, wakes)) <==> Liveness(c) > 0
    ensures MAX_DURATION < Threshold(c) <= MAX_DURATION - MIN_DURATION ==> !Healthy(c, Start(c, wakes))
  {
    if MAX_DURATION < Threshold(c) <= MAX_DURATION - MIN_DURATION {
      WrapIs(Threshold(c), 1);
    }
  }

  /** One target with a billion retries of ten seconds is such a configuration. */
  lemma ManyRetriesOverflow(key: Key)
    ensures var c := Config([key], [TargetParams(1_000_000_000, 10 * SECOND)], 1, 0, SECOND, SECOND);
            Valid(c) && Waves(c) == 1 && !Healthy(c, Start(c, [SECOND]))
  {
    var c := Config([key], [TargetParams(1_000_000_000, 10 * SECOND)], 1, 0, SECOND, SECOND);
    assert Init(c.targets) == [];
    assert MaxAttempts(c.targets) == 1_000_000_001 && MaxTimeout(c.targets) == 10 * SECOND;
    assert PerTarget(c) == 11_000_000_010 * SECOND;
    assert Waves(c) == 1;
    OverflowFailsAtOnce(c, [SECOND]);
  }

  // ----- and no further -------------------------------------------------------------------

  ghost predicate AlwaysHealthy(c: Config)
    requires Valid(c)
  {
    forall s :: Reachable(c, s) ==> Healthy(c, s)
  }

  lemma Extend(c: Config, s: Sched, e: Event)
    requires Reachable(c, s) && Enabled(c, s, e)
    ensures Reachable(c, Apply(c, s, e))
  {
    var wakes, events :| Reaches(c, wakes, events, s);
    assert Init(events + [e]) == events && Last(events + [e]) == e;
    assert Reaches(c, wakes, events + [e], Apply(c, s, e));
  }

  function Keys(w: nat): (ks: seq<Key>)
    ensures |ks| == w && forall i :: 0 <= i < w ==> |ks[i]| == i
  {
    if w == 0 then [] else Keys(w - 1) + [seq(w - 1, i => 'k')]
  }

  const DEAF := TargetParams(0, SECOND)

  /** One slot, w targets that never answer, one attempt each: w waves of two seconds. */
  function Deaf(w: nat): Config {
    Config(Keys(w), seq(w, i => DEAF), 1, 0, (2 * w + 1) * SECOND, SECOND)
  }

  function DeafJobs(w: nat, done: nat, begun: Instant, pace: Duration, rest: Job): (jobs: seq<Job>)
    ensures |jobs| == w
    ensures forall i :: 0 <= i < w ==>
              jobs[i] == if i < done then Finished(begun + i * pace, begun + (i + 1) * pace) else rest
  {
    seq(w, i requires 0 <= i < w => if i < done then Finished(begun + i * pace, begun + (i + 1) * pace) else rest)
  }

  function DeafHandled(w: nat, done: nat): (h: seq<nat>)
    ensures |h| == w && forall i :: 0 <= i < w ==> h[i] == if i < done then 1 else 0
  {
    seq(w, i => if i < done then 1 else 0)
  }

  /** In the first cycle the probes are refused at once. */
  function FirstCycle(w: nat, done: nat): Sched {
    Sched(SECOND, true, SECOND, DeafJobs(w, done, SECOND, 0, Sleeping(SECOND)), None, None, false, DeafHandled(w, done))
  }

  /** Probe i on its way through it. */
  function FirstAt(w: nat, i: nat, job: Job): Sched
    requires i < w
  {
    var s := FirstCycle(w, i);
    s.(jobs := s.jobs[i := job])
  }

  lemma FirstWakes(w: nat, i: nat)
    requires i < w
    ensures Enabled(Deaf(w), FirstCycle(w, i), Wake(i))
    ensures Apply(Deaf(w), FirstCycle(w, i), Wake(i)) == FirstAt(w, i, Waiting)
  {
  }

  lemma FirstAcquires(w: nat, i: nat)
    requires i < w
    ensures Enabled(Deaf(w), FirstAt(w, i, Waiting), Acquire(i))
    ensures Apply(Deaf(w), FirstAt(w, i, Waiting), Acquire(i)) == FirstAt(w, i, Running(SECOND))
  {
    assert InFlight(FirstAt(w, i, Waiting).jobs) == {};
  }

  lemma FirstFinishes(w: nat, i: nat)
    requires i < w
    ensures Enabled(Deaf(w), FirstAt(w, i, Running(SECOND)), Finish(i))
    ensures Apply(Deaf(w), FirstAt(w, i, Running(SECOND)), Finish(i)) == FirstCycle(w, i + 1)
  {
  }

  lemma {:induction false} FirstCycleRuns(w: nat, done: nat)
    requires done <= w
    ensures Reachable(Deaf(w), FirstCycle(w, done))
  {
    var c := Deaf(w);
    if done == 0 {
      var wakes := seq(w, i => SECOND);
      assert FirstCycle(w, 0) == Start(c, wakes);
      assert Reaches(c, wakes, [], FirstCycle(w, 0));
    } else {
      var i := done - 1;
      FirstCycleRuns(w, i);
      FirstWakes(w, i);
      Extend(c, FirstCycle(w, i), Wake(i));
      FirstAcquires(w, i);
      Extend(c, FirstAt(w, i, Waiting), Acquire(i));
      FirstFinishes(w, i);
      Extend(c, FirstAt(w, i, Running(SECOND)), Finish(i));
    }
  }

  function SecondBegun(w: nat): Instant { SECOND + Deaf(w).checkInterval }

  function SecondCycle(w: nat, jobs: seq<Job>, now: Instant, done: nat): Sched {
    Sched(now, true, SecondBegun(w), jobs, Some(SECOND), Some(SecondBegun(w) + Deaf(w).checkInterval), false,
          DeafHandled(w, done))
  }

  function Waking(w: nat, woken: nat): (jobs: seq<Job>)
    ensures |jobs| == w
    ensures forall i :: 0 <= i < w ==> jobs[i] == if i < woken then Waiting else Sleeping(SecondBegun(w))
  {
    seq(w, i => if i < woken then Waiting else Sleeping(SecondBegun(w)))
  }

  /** After it the pool rests until the ticker is due. */
  function Rested(w: nat): Sched {
    FirstCycle(w, w).(inCycle := false, lastCycle := Some(SECOND), now := SecondBegun(w),
                      ticker := Some(SecondBegun(w)))
  }

  lemma FirstCycleRests(w: nat)
    requires w > 0
    ensures Reachable(Deaf(w), Rested(w))
  {
    var c, first := Deaf(w), FirstCycle(w, w);
    FirstCycleRuns(w, w);
    Extend(c, first, EndCycle);
    var idle := Apply(c, first, EndCycle);
    Extend(c, idle, Elapse(c.checkInterval));
    assert Apply(c, idle, Elapse(c.checkInterval)) == Rested(w);
  }

  lemma SecondCycleBegins(w: nat)
    requires w > 0
    ensures Reachable(Deaf(w), SecondCycle(w, Waking(w, 0), SecondBegun(w), 0))
  {
    var c, wakes := Deaf(w), seq(w, i => SecondBegun(w));
    FirstCycleRests(w);
    Extend(c, Rested(w), TickFires);
    var fired := Apply(c, Rested(w), TickFires);
    Extend(c, fired, Begin(wakes));
    assert Apply(c, fired, Begin(wakes)) == SecondCycle(w, Waking(w, 0), SecondBegun(w), 0);
  }

  lemma {:induction false} SecondCycleWakes(w: nat, woken: nat)
    requires 0 < w && woken <= w
    ensures Reachable(Deaf(w), SecondCycle(w, Waking(w, woken), SecondBegun(w), 0))
  {
    if woken == 0 {
      SecondCycleBegins(w);
    } else {
      SecondCycleWakes(w, woken - 1);
      var s := SecondCycle(w, Waking(w, woken - 1), SecondBegun(w), 0);
      Extend(Deaf(w), s, Wake(woken - 1));
      assert Apply(Deaf(w), s, Wake(woken - 1)).jobs == Waking(w, woken);
    }
  }

  function Probing(w: nat, done: nat): Sched {
    SecondCycle(w, DeafJobs(w, done, SecondBegun(w), 2 * SECOND, Waiting), SecondBegun(w) + done * (2 * SECOND), done)
  }

  /** Probe i holds the slot; the ones before it are done. */
  function Busy(w: nat, i: nat, now: Instant): Sched
    requires i < w
  {
    var s := Probing(w, i);
    s.(jobs := s.jobs[i := Running(s.now)], now := now)
  }

  lemma ProbeStarts(w: nat, i: nat)
    requires i < w
    ensures Enabled(Deaf(w), Probing(w, i), Acquire(i))
    ensures Apply(Deaf(w), Probing(w, i), Acquire(i)) == Busy(w, i, Probing(w, i).now)
  {
  }

  lemma ProbeHolds(w: nat, i: nat)
    requires i < w
    ensures var s := Busy(w, i, Probing(w, i).now);
            && Enabled(Deaf(w), s, Elapse(2 * SECOND))
            && Apply(Deaf(w), s, Elapse(2 * SECOND)) == Busy(w, i, Probing(w, i + 1).now)
  {
    var s := Busy(w, i, Probing(w, i).now);
    assert InFlight(s.jobs) == {i};
    assert s.jobs[i] == Running(s.now) && Hold(Deaf(w).targets[i]) == 2 * SECOND;
  }

  lemma ProbeEnds(w: nat, i: nat)
    requires i < w
    ensures var s := Busy(w, i, Probing(w, i + 1).now);
            && Enabled(Deaf(w), s, Finish(i))
            && Apply(Deaf(w), s, Finish(i)) == Probing(w, i + 1)
  {
  }

  /** In the second cycle each probe holds the slot for its two seconds. */
  lemma {:induction false} SecondCycleProbes(w: nat, done: nat)
    requires 0 < w && done <= w
    ensures Reachable(Deaf(w), Probing(w, done))
  {
    var c := Deaf(w);
    if done == 0 {
      SecondCycleWakes(w, w);
      assert Probing(w, 0).jobs == Waking(w, w);
    } else {
      var i := done - 1;
      SecondCycleProbes(w, i);
      ProbeStarts(w, i);
      Extend(c, Probing(w, i), Acquire(i));
      ProbeHolds(w, i);
      Extend(c, Busy(w, i, Probing(w, i).now), Elapse(2 * SECOND));
      ProbeEnds(w, i);
      Extend(c, Busy(w, i, Probing(w, i + 1).now), Finish(i));
    }
  }

  lemma {:induction false} DeafMaxima(ts: seq<TargetParams>)
    requires forall i :: 0 <= i < |ts| ==> ts[i] == DEAF
    ensures ts != [] ==> MaxAttempts(ts) == 1 && MaxTimeout(ts) == SECOND
  {
    if |ts| > 1 {
      DeafMaxima(Init(ts));
    }
  }

  lemma DeafIsUnhealthy(w: nat)
    requires w >= 30
    ensures Valid(Deaf(w)) && Waves(Deaf(w)) == w && !AlwaysHealthy(Deaf(w))
  {
    var c := Deaf(w);
    DeafMaxima(c.targets);
    SecondCycleProbes(w, w);
    var s := Probing(w, w);
    assert Threshold(c) == c.checkInterval + w * SECOND + SLACK;
    assert s.now - s.lastCycle.value / SECOND * SECOND == c.checkInterval + w * (2 * SECOND);
    assert Age(c, s) == MAX_DURATION || Age(c, s) >= Threshold(c) >= Liveness(c);
    assert !Healthy(c, s);
  }

  /** The exact reach of the health threshold, as far as a Duration can hold it: every such
      configuration of w waves stays healthy through every legal run if and only if w is at
      most 29. */
  lemma HealthyIffAtMost29Waves(w: nat)
    requires w >= 1 && Threshold(Deaf(w)) <= MAX_DURATION
    ensures (forall c :: Valid(c) && Waves(c) == w && Threshold(c) <= MAX_DURATION ==> AlwaysHealthy(c)) <==> w <= 29
  {
    if w <= 29 {
      forall c, s | Valid(c) && Waves(c) == w && Threshold(c) <= MAX_DURATION && Reachable(c, s) ensures Healthy(c, s) {
        HealthyUpTo29Waves(c, s);
      }
    } else {
      DeafIsUnhealthy(w);
    }
  }
}
