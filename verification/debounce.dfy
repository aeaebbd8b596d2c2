/** The flap debounce: the incremental counter of Manager.Process, the definition over the
    whole history that it computes, and the rebuild of the counter from the probe log. */
module Debounce {
  import opened Domain

  predicate Unreliable(s: Status) {
    s == StatusUnreachable || s == StatusTLSUnavailable
  }

  /** A change that the debounce has to confirm: one side of it is network-shaped. */
  predicate Contested(x: Observation, confirmed: Observation) {
    x != confirmed && (Unreliable(x.status) || Unreliable(confirmed.status))
  }

  /** The candidate under confirmation; it means nothing while count is 0. */
  datatype Pending = Pending(candidate: Observation, count: nat)

  const NO_PENDING := Pending(HEALTHY, 0)

  predicate SamePending(a: Pending, b: Pending) {
    a.count == b.count && (a.count > 0 ==> a.candidate == b.candidate)
  }

  /** Outcome of one cycle: whether x was adopted, and the candidate kept for the next one. */
  datatype Verdict = Verdict(adopted: bool, pending: Pending)

  function Judge(n: int, confirmed: Observation, pending: Pending, x: Observation): Verdict {
    if n > 1 && Contested(x, confirmed) then
      var count := if pending.count > 0 && pending.candidate == x then pending.count + 1 else 1;
      if count < n then Verdict(false, Pending(x, count)) else Verdict(true, Pending(x, 0))
    else
      Verdict(true, Pending(pending.candidate, 0))
  }

  // ----- the definition over histories --------------------------------------------------

  /** The last n observations exist and all equal x. */
  ghost predicate Backed(n: int, h: seq<Observation>, x: Observation) {
    n <= |h| && forall i :: |h| - n <= i < |h| && 0 <= i ==> h[i] == x
  }

  /** When the newest observation of h may be adopted over the confirmed state. */
  ghost predicate Trusted(n: int, confirmed: Observation, h: seq<Observation>)
    requires h != []
  {
    var x := Last(h);
    || x == confirmed
    || n <= 1
    || (!Unreliable(x.status) && !Unreliable(confirmed.status))
    || Backed(n, h, x)
  }

  /** The confirmed state as a property of the history alone: no counter anywhere. */
  ghost function Confirmed(n: int, h: seq<Observation>): Observation {
    if h == [] then HEALTHY
    else
      var before := Confirmed(n, Init(h));
      if Trusted(n, before, h) then Last(h) else before
  }

  /** The machine of Process run over a history: confirmed state and candidate. */
  function Counter(n: int, h: seq<Observation>): (Observation, Pending) {
    if h == [] then (HEALTHY, NO_PENDING)
    else
      var (confirmed, pending) := Counter(n, Init(h));
      var v := Judge(n, confirmed, pending, Last(h));
      (if v.adopted then Last(h) else confirmed, v.pending)
  }

  /** Length of the run of equal observations that ends the history. */
  function RunLength(h: seq<Observation>): (r: nat)
    ensures r <= |h|
    ensures h != [] ==> r >= 1
    ensures forall i :: |h| - r <= i < |h| ==> h[i] == h[|h| - 1]
    ensures r < |h| ==> h[|h| - 1 - r] != h[|h| - 1]
  {
    if |h| <= 1 then |h|
    else if h[|h| - 2] != h[|h| - 1] then 1
    else 1 + RunLength(Init(h))
  }

  /** The candidate that the newest observations stand for, against a confirmed state. */
  function PendingFor(n: int, confirmed: Observation, h: seq<Observation>): Pending {
    if n > 1 && h != [] && Contested(Last(h), confirmed)
    then Pending(Last(h), Min(RunLength(h), n - 1))
    else NO_PENDING
  }

  /** One cycle, from any confirmed state and any log, however that state came about: if the
      candidate is the one the log stands for, the cycle adopts exactly when the history
      definition says so, and the candidate is again the one the longer log stands for. */
  lemma JudgeMeetsHistory(n: int, confirmed: Observation, pending: Pending, h: seq<Observation>, x: Observation)
    requires SamePending(pending, PendingFor(n, confirmed, h))
    ensures var v := Judge(n, confirmed, pending, x);
            && (v.adopted <==> Trusted(n, confirmed, h + [x]))
            && SamePending(v.pending, PendingFor(n, if v.adopted then x else confirmed, h + [x]))
  {
  }

  /** The counter refines the history definition, on every history and every streak. */
  lemma {:induction false} CounterMeetsHistory(n: int, h: seq<Observation>)
    ensures Counter(n, h).0 == Confirmed(n, h)
    ensures SamePending(Counter(n, h).1, PendingFor(n, Confirmed(n, h), h))
  {
    if h != [] {
      CounterMeetsHistory(n, Init(h));
      assert Init(h) + [Last(h)] == h;
      JudgeMeetsHistory(n, Counter(n, Init(h)).0, Counter(n, Init(h)).1, Init(h), Last(h));
    }
  }

  /** No blip gets through: a change that touches a network-shaped status stands on n
      identical consecutive cycles. */
  lemma ContestedChangeIsBacked(n: int, h: seq<Observation>)
    requires h != [] && n > 1
    requires var before := Confirmed(n, Init(h)); Confirmed(n, h) != before && Contested(Last(h), before)
    ensures Backed(n, h, Confirmed(n, h))
  {
  }

  /** No real outage is missed: n identical cycles always confirm. */
  lemma BackedIsConfirmed(n: int, h: seq<Observation>, x: Observation)
    requires h != [] && n >= 1 && Backed(n, h, x)
    ensures Confirmed(n, h) == x
  {
  }

  /** README.md says a fact status always alerts on its first observation. The code keeps
      that promise exactly when the debounce is off or the confirmed state is itself reliable. */
  lemma FactAdoptedAtOnce(n: int, confirmed: Observation, pending: Pending, x: Observation)
    requires (pending.count > 0 ==> pending.candidate != x) && x != confirmed && !Unreliable(x.status)
    ensures Judge(n, confirmed, pending, x).adopted <==> n <= 1 || !Unreliable(confirmed.status)
  {
  }

  /** Which changes wait: those that start or end at unreachable or tls_unavailable. */
  lemma NetworkChangesWait(n: int, confirmed: Observation, x: Observation)
    requires n > 1 && x != confirmed
    ensures !Judge(n, confirmed, NO_PENDING, x).adopted
       <==> StatusUnreachable in {x.status, confirmed.status} || StatusTLSUnavailable in {x.status, confirmed.status}
  {
  }

  /** The family FactAdoptedAtOnce shuts out is not empty: an expiry first seen right after
      a confirmed outage is held back under the default streak of 2. */
  lemma ExpiryAfterOutageIsHeld()
    ensures var down := Observation(StatusUnreachable, SeverityCritical);
            var expired := Observation(StatusExpired, SeverityEmergency);
            Confirmed(2, [down, down, expired]) == down
  {
  }

  // ----- the rebuild after a restart -----------------------------------------------------

  /** reconstructPending: obs is newest first. found is false when there is nothing to
      rebuild; otherwise the count is the length of the leading run, capped at n - 1. */
  method ReconstructPending(confirmed: Observation, obs: seq<Observation>, n: int)
    returns (found: bool, candidate: Observation, count: int)
    ensures found <==> obs != [] && Contested(obs[0], confirmed)
    ensures found ==> candidate == obs[0]
    ensures found ==> count == Min(RunLength(Reverse(obs)), n - 1)
  {
    if obs == [] {
      return false, HEALTHY, 0;
    }
    var newest := obs[0];
    var changing := newest != confirmed;
    var touchesUnreliable := Unreliable(newest.status) || Unreliable(confirmed.status);
    if !changing || !touchesUnreliable {
      return false, HEALTHY, 0;
    }
    count := 0;
    var i := 0;
    ghost var oldestFirst := Reverse(obs);
    while i < |obs|
      invariant 0 <= i <= |obs| && count == i
      invariant forall j :: 0 <= j < i ==> obs[j] == newest
    {
      if obs[i] != newest {
        break;
      }
      count := count + 1;
      i := i + 1;
    }
    assert count == RunLength(oldestFirst) by {
      RunIs(oldestFirst, count);
    }
    if count > n - 1 {
      count := n - 1;
    }
    return true, newest, count;
  }

  lemma RunIs(h: seq<Observation>, r: nat)
    requires 0 < r <= |h|
    requires forall i :: |h| - r <= i < |h| ==> h[i] == h[|h| - 1]
    requires r < |h| ==> h[|h| - 1 - r] != h[|h| - 1]
    ensures RunLength(h) == r
  {
  }

  /** The candidate depends on the newest n - 1 log entries only (and on there being one), so
      a log pruned down to them rebuilds the same one. */
  lemma PendingFromSuffix(n: int, confirmed: Observation, h: seq<Observation>, kept: seq<Observation>)
    requires |kept| <= |h| && kept == h[|h| - |kept|..]
    requires |kept| >= Min(n - 1, |h|) && (h != [] ==> kept != [])
    ensures PendingFor(n, confirmed, kept) == PendingFor(n, confirmed, h)
  {
  }
}
