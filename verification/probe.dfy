/** internal/probe/probe.go: which of the presented certificates may drive the diagnosis, and
    how the time left on them becomes a status and a severity. */
module Probe {
  import opened Domain
  import Decision

  /** What the evaluation reads of an x509 certificate. weak: signed with an algorithm that
      Go's verifier refuses. */
  datatype Cert = Cert(subject: string, issuer: string, name: string, notAfter: Instant, weak: bool)

  predicate SelfSigned(c: Cert) { c.issuer == c.subject }

  // ----- the leaf chain -------------------------------------------------------------------

  /** The first unused position from i on whose certificate issued the one at position at. */
  function NextFrom(peers: seq<Cert>, used: set<nat>, at: nat, i: nat): Option<nat>
    requires at < |peers|
    decreases |peers| - i
  {
    if i >= |peers| then None
    else if i !in used && peers[i].subject == peers[at].issuer then Some(i)
    else NextFrom(peers, used, at, i + 1)
  }

  lemma {:induction false} NextIsFirst(peers: seq<Cert>, used: set<nat>, at: nat, i: nat)
    requires at < |peers|
    ensures var n := NextFrom(peers, used, at, i);
            && (n.Some? ==>
                  && i <= n.value < |peers| && n.value !in used && peers[n.value].subject == peers[at].issuer
                  && forall j :: i <= j < n.value && j !in used ==> peers[j].subject != peers[at].issuer)
            && (n.None? ==> forall j :: i <= j < |peers| && j !in used ==> peers[j].subject != peers[at].issuer)
    decreases |peers| - i
  {
    if i < |peers| {
      NextIsFirst(peers, used, at, i + 1);
    }
  }

  function Free(peers: seq<Cert>, used: set<nat>): set<nat> { set i: nat | 1 <= i < |peers| && i !in used }

  /** The next position on the walk; None at a self-signed certificate or a missing issuer. */
  function Step(peers: seq<Cert>, used: set<nat>, at: nat): (next: Option<nat>)
    requires at < |peers|
    ensures next.Some? ==> next.value in Free(peers, used)
  {
    NextIsFirst(peers, used, at, 1);
    if SelfSigned(peers[at]) then None else NextFrom(peers, used, at, 1)
  }

  /** The positions walked from at on, following issuer links over unused certificates. */
  function Path(peers: seq<Cert>, used: set<nat>, at: nat): (path: seq<nat>)
    requires at < |peers|
    ensures forall i :: 0 <= i < |path| ==> path[i] < |peers|
    ensures path != [] && path[0] == at
    decreases Free(peers, used)
  {
    var next := Step(peers, used, at);
    if next.None? then [at]
    else
      assert next.value !in Free(peers, used + {next.value});
      [at] + Path(peers, used + {next.value}, next.value)
  }

  function LeafPath(peers: seq<Cert>): seq<nat>
    requires peers != []
  {
    Path(peers, {}, 0)
  }

  /** The certificates along the path. */
  function ChainFrom(peers: seq<Cert>, used: set<nat>, at: nat): (chain: seq<Cert>)
    requires at < |peers|
    ensures var p := Path(peers, used, at); |chain| == |p| && forall i :: 0 <= i < |p| ==> chain[i] == peers[p[i]]
  {
    var p := Path(peers, used, at);
    seq(|p|, i requires 0 <= i < |p| => peers[p[i]])
  }

  function Chain(peers: seq<Cert>): (chain: seq<Cert>)
    requires peers != []
    ensures chain != []
  {
    ChainFrom(peers, {}, 0)
  }

  lemma ChainUnfolds(peers: seq<Cert>, used: set<nat>, at: nat)
    requires at < |peers|
    ensures var next := Step(peers, used, at);
            ChainFrom(peers, used, at)
            == [peers[at]] + if next.None? then [] else ChainFrom(peers, used + {next.value}, next.value)
  {
  }

  lemma ChainStep(peers: seq<Cert>, used: set<nat>, at: nat, done: seq<Cert>)
    requires at < |peers|
    ensures var next := Step(peers, used, at);
            done + ChainFrom(peers, used, at)
            == if next.None? then done + [peers[at]]
               else (done + [peers[at]]) + ChainFrom(peers, used + {next.value}, next.value)
    ensures var next := Step(peers, used, at);
            next.Some? ==>
              next.value !in Free(peers, used + {next.value}) && Free(peers, used + {next.value}) < Free(peers, used)
  {
    ChainUnfolds(peers, used, at);
  }

  /** leafChain: the walk with its array of used flags. */
  method LeafChain(peers: seq<Cert>) returns (chain: seq<Cert>)
    requires peers != []
    ensures chain == Chain(peers)
  {
    var used := new bool[|peers| - 1](i => false);
    var current := peers[0];
    chain := [current];
    ghost var at: nat, done: seq<Cert>, marked: set<nat> := 0, [], {};
    assert [] + Chain(peers) == Chain(peers);
    while current.issuer != current.subject
      invariant at < |peers| && current == peers[at] && chain == done + [current]
      invariant forall i :: 0 <= i < used.Length ==> (used[i] <==> i + 1 in marked)
      invariant Chain(peers) == done + ChainFrom(peers, marked, at)
      decreases Free(peers, marked)
    {
      ChainStep(peers, marked, at, done);
      var next := NextUnused(peers, used, current, at, marked);
      if next.None? {
        return;
      }
      used[next.value] := true;
      current := peers[next.value + 1];
      at, done, marked := next.value + 1, chain, marked + {next.value + 1};
      chain := chain + [current];
    }
    ChainStep(peers, marked, at, done);
  }

  /** The inner loop: an index into peers[1..]. */
  method NextUnused(peers: seq<Cert>, used: array<bool>, current: Cert, ghost at: nat, ghost marked: set<nat>)
    returns (next: Option<nat>)
    requires at < |peers| && current == peers[at] && used.Length == |peers| - 1
    requires forall i :: 0 <= i < used.Length ==> (used[i] <==> i + 1 in marked)
    ensures NextFrom(peers, marked, at, 1) == if next.Some? then Some(next.value + 1) else None
    ensures next.Some? ==> next.value < used.Length
  {
    for i := 0 to used.Length
      invariant NextFrom(peers, marked, at, 1) == NextFrom(peers, marked, at, i + 1)
    {
      if !used[i] && current.issuer == peers[i + 1].subject {
        return Some(i);
      }
    }
    return None;
  }

  /** The path visits distinct positions, each certificate issued by the next, stops early at
      a self-signed one only, and at its end no presented certificate off the path could
      have extended it. */
  lemma {:induction false} PathIsMaximalAndLinked(peers: seq<Cert>, used: set<nat>, at: nat)
    requires at < |peers| && at !in Free(peers, used)
    ensures var p := Path(peers, used, at);
            && (forall i, j :: 0 <= i < j < |p| ==> p[i] != p[j])
            && (forall i :: 0 < i < |p| ==> p[i] in Free(peers, used))
            && (forall i :: 0 <= i < |p| - 1 ==>
                  !SelfSigned(peers[p[i]]) && peers[p[i]].issuer == peers[p[i + 1]].subject)
            && (SelfSigned(peers[Last(p)])
                || forall j :: j in Free(peers, used) && j !in p ==> peers[j].subject != peers[Last(p)].issuer)
    decreases Free(peers, used)
  {
    var next := Step(peers, used, at);
    NextIsFirst(peers, used, at, 1);
    if next.Some? {
      var n := next.value;
      assert n !in Free(peers, used + {n});
      PathIsMaximalAndLinked(peers, used + {n}, n);
      var rest := Path(peers, used + {n}, n);
      assert Path(peers, used, at) == [at] + rest;
      assert forall j :: j in Free(peers, used) ==> j == n || j in Free(peers, used + {n});
      assert Last([at] + rest) == Last(rest) && rest[0] == n;
    }
  }

  /** What a caller gets: the leaf first, then issuer after issuer, no certificate twice. */
  lemma LeafChainIsThePath(peers: seq<Cert>)
    requires peers != []
    ensures var p, chain := LeafPath(peers), Chain(peers);
            && |chain| == |p| && (forall i :: 0 <= i < |p| ==> chain[i] == peers[p[i]])
            && p[0] == 0 && (forall i, j :: 0 <= i < j < |p| ==> p[i] != p[j])
            && (forall i :: 0 <= i < |p| - 1 ==> !SelfSigned(chain[i]) && chain[i].issuer == chain[i + 1].subject)
            && (SelfSigned(Last(chain))
                || forall j :: 1 <= j < |peers| && j !in p ==> peers[j].subject != Last(chain).issuer)
  {
    PathIsMaximalAndLinked(peers, {}, 0);
    assert forall j: nat :: 1 <= j < |peers| ==> j in Free(peers, {});
  }

  // ----- stragglers do not matter -----------------------------------------------------------

  predicate Issues(e: Cert, c: Cert) { !SelfSigned(c) && e.subject == c.issuer }

  lemma {:induction false} NextOfAppended(peers: seq<Cert>, extra: seq<Cert>, used: set<nat>, at: nat, i: nat)
    requires at < |peers| && i <= |peers|
    ensures var n := NextFrom(peers, used, at, i);
            NextFrom(peers + extra, used, at, i)
            == if n.Some? then n else NextFrom(peers + extra, used, at, |peers|)
    decreases |peers| - i
  {
    if i < |peers| {
      NextOfAppended(peers, extra, used, at, i + 1);
    }
  }

  /** Appending certificates only ever lengthens the chain, and leaves it as it is exactly
      when none of them issued its last certificate. */
  lemma {:induction false} ChainOfAppended(peers: seq<Cert>, extra: seq<Cert>, used: set<nat>, at: nat)
    requires at < |peers| && forall i :: i in used ==> i < |peers|
    ensures ChainFrom(peers, used, at) <= ChainFrom(peers + extra, used, at)
    ensures ChainFrom(peers + extra, used, at) == ChainFrom(peers, used, at)
       <==> forall e :: e in extra ==> !Issues(e, Last(ChainFrom(peers, used, at)))
    decreases Free(peers, used)
  {
    var all := peers + extra;
    assert all[at] == peers[at];
    NextOfAppended(peers, extra, used, at, 1);
    ChainUnfolds(peers, used, at);
    ChainUnfolds(all, used, at);
    var next := Step(peers, used, at);
    if next.Some? {
      var n := next.value;
      assert n !in Free(peers, used + {n});
      ChainOfAppended(peers, extra, used + {n}, n);
      ConsPrefix(peers[at], ChainFrom(peers, used + {n}, n), ChainFrom(all, used + {n}, n));
    } else if !SelfSigned(peers[at]) {
      AppendedStep(peers, extra, used, at);
    }
  }

  lemma ConsPrefix(c: Cert, a: seq<Cert>, b: seq<Cert>)
    requires a != [] && a <= b
    ensures [c] + a <= [c] + b && ([c] + a == [c] + b <==> a == b) && Last([c] + a) == Last(a)
  {
  }

  lemma AppendedStep(peers: seq<Cert>, extra: seq<Cert>, used: set<nat>, at: nat)
    requires at < |peers| && !SelfSigned(peers[at]) && forall i :: i in used ==> i < |peers|
    ensures NextFrom(peers + extra, used, at, |peers|).Some? <==> exists e :: e in extra && Issues(e, peers[at])
  {
    var all := peers + extra;
    assert all[at] == peers[at];
    NextIsFirst(all, used, at, |peers|);
    var n := NextFrom(all, used, at, |peers|);
    if n.Some? {
      assert extra[n.value - |peers|] == all[n.value];
      assert Issues(all[n.value], peers[at]);
    } else {
      forall k | 0 <= k < |extra|
        ensures !Issues(extra[k], peers[at])
      {
        assert all[|peers| + k] == extra[k];
      }
    }
  }

  lemma StragglersAppended(peers: seq<Cert>, extra: seq<Cert>)
    requires peers != []
    ensures Chain(peers) <= Chain(peers + extra)
    ensures Chain(peers + extra) == Chain(peers) <==> forall e :: e in extra ==> !Issues(e, Last(Chain(peers)))
  {
    ChainOfAppended(peers, extra, {}, 0);
  }

  function Shift(i: nat, j: nat): nat { if i < j then i else i + 1 }

  function Inserted(peers: seq<Cert>, j: nat, e: Cert): seq<Cert>
    requires j <= |peers|
  {
    peers[..j] + [e] + peers[j..]
  }

  /** used, seen after something was put in at position j. */
  ghost predicate Shifted(used: set<nat>, moved: set<nat>, j: nat) {
    j !in moved && forall i: nat :: i in used <==> Shift(i, j) in moved
  }

  lemma {:induction false} NextOfInserted(
    peers: seq<Cert>, j: nat, e: Cert, used: set<nat>, moved: set<nat>, at: nat, i: nat)
    requires at < |peers| && j <= |peers| && Shifted(used, moved, j) && e.subject != peers[at].issuer
    ensures var n := NextFrom(peers, used, at, i);
            NextFrom(Inserted(peers, j, e), moved, Shift(at, j), Shift(i, j))
            == if n.Some? then Some(Shift(n.value, j)) else None
    decreases |peers| - i
  {
    if i < |peers| {
      NextOfInserted(peers, j, e, used, moved, at, i + 1);
      StepOverInserted(peers, j, e, moved, at, i + 1);
    }
  }

  lemma StepOverInserted(peers: seq<Cert>, j: nat, e: Cert, moved: set<nat>, at: nat, i: nat)
    requires at < |peers| && j <= |peers| && 0 < i <= |peers| && e.subject != peers[at].issuer
    ensures NextFrom(Inserted(peers, j, e), moved, Shift(at, j), Shift(i - 1, j) + 1)
         == NextFrom(Inserted(peers, j, e), moved, Shift(at, j), Shift(i, j))
  {
  }

  /** Wherever among the issuers a straggler is put, the chain is the same. */
  lemma {:induction false} ChainOfInserted(
    peers: seq<Cert>, j: nat, e: Cert, used: set<nat>, moved: set<nat>, at: nat)
    requires at < |peers| && 1 <= j <= |peers| && Shifted(used, moved, j)
    requires forall c :: c in ChainFrom(peers, used, at) ==> !Issues(e, c)
    ensures ChainFrom(Inserted(peers, j, e), moved, Shift(at, j)) == ChainFrom(peers, used, at)
    decreases Free(peers, used)
  {
    ChainUnfolds(peers, used, at);
    ChainUnfolds(Inserted(peers, j, e), moved, Shift(at, j));
    assert peers[at] in ChainFrom(peers, used, at);
    StepOfInserted(peers, j, e, used, moved, at);
    var next := Step(peers, used, at);
    if next.Some? {
      var n := next.value;
      assert n !in Free(peers, used + {n});
      var rest := ChainFrom(peers, used + {n}, n);
      assert ChainFrom(peers, used, at) == [peers[at]] + rest;
      assert Shifted(used + {n}, moved + {Shift(n, j)}, j);
      ChainOfInserted(peers, j, e, used + {n}, moved + {Shift(n, j)}, n);
    }
  }

  lemma StepOfInserted(peers: seq<Cert>, j: nat, e: Cert, used: set<nat>, moved: set<nat>, at: nat)
    requires at < |peers| && 1 <= j <= |peers| && Shifted(used, moved, j) && !Issues(e, peers[at])
    ensures Inserted(peers, j, e)[Shift(at, j)] == peers[at]
    ensures var next := Step(peers, used, at);
            Step(Inserted(peers, j, e), moved, Shift(at, j)) == if next.Some? then Some(Shift(next.value, j)) else None
  {
    if !SelfSigned(peers[at]) {
      NextOfInserted(peers, j, e, used, moved, at, 1);
      StepOverInserted(peers, j, e, moved, at, 1);
    }
  }

  lemma StragglerInserted(peers: seq<Cert>, j: nat, e: Cert)
    requires 1 <= j <= |peers|
    requires forall c :: c in Chain(peers) ==> !Issues(e, c)
    ensures Chain(Inserted(peers, j, e)) == Chain(peers)
  {
    ChainOfInserted(peers, j, e, {}, {}, 0);
  }

  // ----- expiry -----------------------------------------------------------------------------

  const DAY: Duration := 24 * 3600 * SECOND

  function Earliest(chain: seq<Cert>): Instant
    requires chain != []
  {
    var rest := chain[1..];
    if rest == [] || chain[0].notAfter <= Earliest(rest) then chain[0].notAfter else Earliest(rest)
  }

  lemma {:induction false} EarliestIsTheMinimum(chain: seq<Cert>, t: Instant)
    requires chain != []
    ensures Earliest(chain) == t
       <==> (forall c :: c in chain ==> t <= c.notAfter) && exists c :: c in chain && c.notAfter == t
  {
    var rest := chain[1..];
    assert chain == [chain[0]] + rest;
    if rest != [] {
      EarliestIsTheMinimum(rest, Earliest(rest));
    }
    var least := Earliest(chain);
    assert forall c :: c in chain ==> least <= c.notAfter;
    assert exists c :: c in chain && c.notAfter == least;
  }

  /** earliestNotAfter. */
  method EarliestNotAfter(chain: seq<Cert>) returns (earliest: Instant)
    ensures earliest == if chain == [] then ZERO_TIME else Earliest(chain)
  {
    if chain == [] {
      return ZERO_TIME;
    }
    earliest := chain[0].notAfter;
    ghost var holder := chain[0];
    for i := 1 to |chain|
      invariant holder in chain && holder.notAfter == earliest
      invariant forall k :: 0 <= k < i ==> earliest <= chain[k].notAfter
    {
      if chain[i].notAfter < earliest {
        earliest := chain[i].notAfter;
        holder := chain[i];
      }
    }
    EarliestIsTheMinimum(chain, earliest);
  }

  /** The expiry certInfo reports, and whose it is. */
  method EarliestOf(leaf: Cert, scope: seq<Cert>) returns (earliest: Instant, name: string)
    ensures earliest == Earliest([leaf] + scope)
    ensures exists c :: c in [leaf] + scope && c.name == name && c.notAfter == earliest
  {
    earliest, name := leaf.notAfter, leaf.name;
    ghost var all := [leaf] + scope;
    ghost var holder := leaf;
    assert all[0] in all;
    for i := 0 to |scope|
      invariant holder in all && holder.notAfter == earliest && holder.name == name
      invariant forall k :: 0 <= k <= i ==> earliest <= all[k].notAfter
    {
      assert scope[i] == all[i + 1];
      if scope[i].notAfter < earliest {
        earliest, name := scope[i].notAfter, scope[i].name;
        holder := scope[i];
      }
    }
    EarliestIsTheMinimum(all, earliest);
  }

  predicate Expired(c: Cert, now: Instant) { now > c.notAfter }

  /** earliestExpired: the first one, in the order of the chain. */
  method EarliestExpired(chain: seq<Cert>, now: Instant) returns (found: Option<Cert>)
    ensures found.Some? ==>
              exists i :: 0 <= i < |chain| && chain[i] == found.value && Expired(chain[i], now)
                          && forall k :: 0 <= k < i ==> !Expired(chain[k], now)
    ensures found.None? ==> forall c :: c in chain ==> !Expired(c, now)
  {
    for i := 0 to |chain|
      invariant forall k :: 0 <= k < i ==> !Expired(chain[k], now)
    {
      if Expired(chain[i], now) {
        return Some(chain[i]);
      }
    }
    return None;
  }

  predicate WeakCause(c: Cert) { c.weak && !SelfSigned(c) }

  ghost predicate AnyWeak(peers: seq<Cert>) { exists c :: c in peers && WeakCause(c) }

  method WeakSignatureCert(peers: seq<Cert>) returns (found: Option<Cert>)
    ensures found.Some? <==> AnyWeak(peers)
    ensures found.Some? ==> found.value in peers && WeakCause(found.value)
  {
    for i := 0 to |peers|
      invariant forall k :: 0 <= k < i ==> !WeakCause(peers[k])
    {
      if WeakCause(peers[i]) {
        return Some(peers[i]);
      }
    }
    return None;
  }

  /** verify: of the chains that x509 built, the first whose earliest expiry is latest. */
  method BestChain(chains: seq<seq<Cert>>) returns (best: seq<Cert>)
    requires chains != [] && forall i :: 0 <= i < |chains| ==> chains[i] != []
    ensures best in chains && best != []
    ensures forall i :: 0 <= i < |chains| ==> Earliest(chains[i]) <= Earliest(best)
    ensures exists at :: 0 <= at < |chains| && chains[at] == best
                         && forall i :: 0 <= i < at ==> Earliest(chains[i]) < Earliest(best)
  {
    best := chains[0];
    var latest := EarliestNotAfter(best);
    ghost var at := 0;
    for i := 1 to |chains|
      invariant 0 <= at < i && best == chains[at] && latest == Earliest(best)
      invariant forall k :: 0 <= k < i ==> Earliest(chains[k]) <= latest
      invariant forall k :: 0 <= k < at ==> Earliest(chains[k]) < latest
    {
      var earliest := EarliestNotAfter(chains[i]);
      if earliest > latest {
        best, latest, at := chains[i], earliest, i;
      }
    }
  }

  // ----- days -------------------------------------------------------------------------------

  /** Go's integer division, which truncates toward zero. */
  function Truncated(d: Duration, unit: Duration): int
    requires unit > 0
  {
    if d >= 0 then d / unit else -((-d) / unit)
  }

  function DaysUntil(exp: Instant, now: Instant): int {
    if exp == ZERO_TIME then 0 else Truncated(Sub(exp, now), DAY)
  }

  /** On a certificate that has not expired, fewer than n days left means just that: whatever
      is left is short of n times 24 hours. */
  lemma DaysAreWhole(exp: Instant, now: Instant, n: int)
    requires exp != ZERO_TIME && now <= exp
    ensures DaysUntil(exp, now) < n <==> Sub(exp, now) < n * DAY
  {
  }

  /** Days truncate toward zero on both sides of the expiry: half a day past it still reads 0.
      So does an expiry that was never seen. */
  lemma DaysTruncateTowardZero(exp: Instant, now: Instant)
    ensures var days, left := DaysUntil(exp, now), Sub(exp, now);
            if exp == ZERO_TIME then days == 0
            else if left >= 0 then days * DAY <= left < (days + 1) * DAY else (days - 1) * DAY < left <= days * DAY
  {
  }

  // ----- the diagnosis ------------------------------------------------------------------------

  /** What x509 said: a chain that starts at the leaf, or why there is none. */
  datatype Verification = Verified(chain: seq<Cert>) | HostnameMismatch | Unverified

  datatype Thresholds = Thresholds(insecure: bool, warningDays: int, criticalDays: int)

  datatype Finding = Finding(
    status: Status, severity: Severity, verifyOK: bool, verifiedNotAfter: Instant,
    earliestNotAfter: Instant, daysLeft: int, blamed: Option<Cert>)

  function Scope(peers: seq<Cert>, v: Verification): seq<Cert>
    requires peers != []
  {
    if v.Verified? then v.chain else Chain(peers)
  }

  function Effective(f: Finding): Instant {
    if f.verifiedNotAfter != ZERO_TIME then f.verifiedNotAfter else f.earliestNotAfter
  }

  /** The diagnosis by the time that is left on the scope. */
  function Diagnosis(t: Thresholds, left: Duration, trusted: bool, weak: bool): Observation {
    if left < 0 then Observation(StatusExpired, SeverityEmergency)
    else if !trusted && !t.insecure then
      if weak then Observation(StatusWeakSignature, SeverityCritical) else Observation(StatusInvalid, SeverityEmergency)
    else if left < t.criticalDays * DAY then Observation(StatusExpiringSoon, SeverityCritical)
    else if left < t.warningDays * DAY then Observation(StatusExpiringSoon, SeverityWarning)
    else Observation(StatusOK, SeverityOK)
  }

  /** Every certificate of the scope has this many whole days left. */
  ghost predicate AllHave(scope: seq<Cert>, days: int, now: Instant) {
    forall c :: c in scope ==> Sub(c.notAfter, now) >= days * 24 * 3600 * SECOND
  }

  /** The diagnosis by the certificates. An expired one in scope comes first; then, unless the
      target is insecure, a chain that does not verify, by whether a certificate that is not
      self-signed has a weak signature; then the thresholds, by the certificates in scope. */
  ghost predicate Explains(view: Observation, t: Thresholds, peers: seq<Cert>, v: Verification, now: Instant)
    requires peers != []
  {
    var scope := if v.Verified? then v.chain else Chain(peers);
    var expired := exists c :: c in scope && c.notAfter < now;
    var untrusted := !v.Verified? && !t.insecure;
    var weak := exists c :: c in peers && c.weak && c.issuer != c.subject;
    && (view == Observation(StatusExpired, SeverityEmergency) <==> expired)
    && (view == Observation(StatusWeakSignature, SeverityCritical) <==> !expired && untrusted && weak)
    && (view == Observation(StatusInvalid, SeverityEmergency) <==> !expired && untrusted && !weak)
    && (view == Observation(StatusExpiringSoon, SeverityCritical)
        <==> !expired && !untrusted && !AllHave(scope, t.criticalDays, now))
    && (view == Observation(StatusExpiringSoon, SeverityWarning)
        <==> !expired && !untrusted && AllHave(scope, t.criticalDays, now) && !AllHave(scope, t.warningDays, now))
    && (view == Observation(StatusOK, SeverityOK)
        <==> !expired && !untrusted && AllHave(scope, t.criticalDays, now) && AllHave(scope, t.warningDays, now))
  }

  lemma EarliestHas(scope: seq<Cert>, days: int, now: Instant)
    requires scope != []
    ensures AllHave(scope, days, now) <==> Sub(Earliest(scope), now) >= days * DAY
  {
    EarliestIsTheMinimum(scope, Earliest(scope));
    var soonest :| soonest in scope && soonest.notAfter == Earliest(scope);
  }

  /** The thresholds of the code, which compares days, are those of the certificates. */
  lemma DiagnosisIsExplained(t: Thresholds, peers: seq<Cert>, v: Verification, now: Instant)
    requires peers != [] && Scope(peers, v) != []
    ensures Explains(Diagnose(t, peers, v, now), t, peers, v, now)
  {
    var scope := Scope(peers, v);
    EarliestHas(scope, t.criticalDays, now);
    EarliestHas(scope, t.warningDays, now);
    ExpiryIsNegative(scope, now);
    assert (exists c :: c in scope && c.notAfter < now) <==> exists c :: c in scope && Expired(c, now);
    assert (exists c :: c in peers && c.weak && c.issuer != c.subject) <==> exists c :: c in peers && WeakCause(c);
  }

  ghost function Diagnose(t: Thresholds, peers: seq<Cert>, v: Verification, now: Instant): Observation
    requires peers != [] && Scope(peers, v) != []
  {
    Diagnosis(t, Sub(Earliest(Scope(peers, v)), now), v.Verified?, AnyWeak(peers))
  }

  /** evaluate, with the branches and the day counts of the code. */
  method Evaluate(t: Thresholds, peers: seq<Cert>, v: Verification, now: Instant) returns (res: Finding)
    requires peers != [] && now > ZERO_TIME
    requires v.Verified? ==> v.chain != [] && v.chain[0] == peers[0]
    ensures Observation(res.status, res.severity) == Diagnose(t, peers, v, now)
    ensures Explains(Observation(res.status, res.severity), t, peers, v, now)
    ensures res.verifyOK == v.Verified?
    ensures Effective(res) == Earliest(Scope(peers, v)) == res.earliestNotAfter
    ensures res.verifiedNotAfter == if v.Verified? then Earliest(v.chain) else ZERO_TIME
    ensures res.daysLeft == DaysUntil(Earliest(Scope(peers, v)), now)
    ensures res.status == StatusExpired ==>
              res.blamed.Some? && res.blamed.value in Scope(peers, v) && Expired(res.blamed.value, now)
    ensures res.status == StatusWeakSignature ==>
              res.blamed.Some? && res.blamed.value in peers && WeakCause(res.blamed.value)
  {
    var scope: seq<Cert>;
    var verifiedNotAfter := ZERO_TIME;
    if v.Verified? {
      scope := v.chain;
      verifiedNotAfter := EarliestNotAfter(scope);
    } else {
      scope := LeafChain(peers);
    }
    var earliest, _ := EarliestOf(peers[0], scope);
    LeafInScope(peers[0], scope);
    ExpiryIsNegative(scope, now);
    DiagnosisIsExplained(t, peers, v, now);
    res := Finding(StatusOK, SeverityOK, v.Verified?, verifiedNotAfter, earliest, 0, None);
    res := res.(daysLeft := DaysUntil(Effective(res), now));
    var expired := EarliestExpired(scope, now);
    if expired.Some? {
      return res.(status := StatusExpired, severity := SeverityEmergency, blamed := expired);
    }
    if !res.verifyOK && !t.insecure {
      var weak := WeakSignatureCert(peers);
      if weak.Some? {
        return res.(status := StatusWeakSignature, severity := SeverityCritical, blamed := weak);
      }
      return res.(status := StatusInvalid, severity := SeverityEmergency);
    }
    var status, severity := Rate(t, Earliest(scope), now, res.daysLeft);
    res := res.(status := status, severity := severity);
  }

  /** The thresholds, compared in days. */
  method Rate(t: Thresholds, exp: Instant, now: Instant, days: int) returns (status: Status, severity: Severity)
    requires now > ZERO_TIME && now <= exp && days == DaysUntil(exp, now)
    ensures Observation(status, severity) == Diagnosis(t, Sub(exp, now), true, false)
  {
    DaysAreWhole(exp, now, t.criticalDays);
    DaysAreWhole(exp, now, t.warningDays);
    if days < t.criticalDays {
      return StatusExpiringSoon, SeverityCritical;
    } else if days < t.warningDays {
      return StatusExpiringSoon, SeverityWarning;
    }
    return StatusOK, SeverityOK;
  }

  lemma ExpiryIsNegative(scope: seq<Cert>, now: Instant)
    requires scope != []
    ensures Sub(Earliest(scope), now) < 0 <==> exists c :: c in scope && Expired(c, now)
  {
    EarliestIsTheMinimum(scope, Earliest(scope));
  }

  lemma LeafInScope(leaf: Cert, scope: seq<Cert>)
    requires scope != [] && scope[0] == leaf
    ensures Earliest([leaf] + scope) == Earliest(scope)
  {
  }

  // ----- what the diagnosis promises -----------------------------------------------------------

  /** On a fixed scope and trust outcome, severity only rises as the clock advances. */
  lemma SeverityNeverDrops(t: Thresholds, peers: seq<Cert>, v: Verification, earlier: Instant, later: Instant)
    requires peers != [] && Scope(peers, v) != [] && earlier <= later
    ensures Decision.SeverityRank(Diagnose(t, peers, v, earlier).severity)
         <= Decision.SeverityRank(Diagnose(t, peers, v, later).severity)
  {
  }

  /** A verified chain is live, so a target that verifies is never diagnosed as expired, and
      what else the server presents has no say at all. */
  lemma VerifiedIsNeverExpired(t: Thresholds, peers: seq<Cert>, others: seq<Cert>, v: Verification, now: Instant)
    requires peers != [] && others != [] && v.Verified? && v.chain != []
    requires forall c :: c in v.chain ==> !Expired(c, now)
    ensures Diagnose(t, peers, v, now).status != StatusExpired
    ensures Diagnose(t, peers, v, now) == Diagnose(t, others, v, now)
  {
    ExpiryIsNegative(v.chain, now);
  }

  /** Certificates that issue nothing on the leaf chain change the diagnosis in one case only:
      trust has failed on a live chain, and one of them is the first weak signature in sight. */
  lemma StragglersChangeOnlyTheWeakDiagnosis(
    t: Thresholds, peers: seq<Cert>, extra: seq<Cert>, v: Verification, now: Instant)
    requires peers != [] && (v.Verified? ==> v.chain != [])
    requires forall e :: e in extra ==> !Issues(e, Last(Chain(peers)))
    ensures Chain(peers) != []
    ensures Diagnose(t, peers + extra, v, now) != Diagnose(t, peers, v, now)
       <==> (&& !v.Verified? && !t.insecure && !AnyWeak(peers) && AnyWeak(extra)
             && forall c :: c in Chain(peers) ==> !Expired(c, now))
  {
    StragglersAppended(peers, extra);
    ExpiryIsNegative(Scope(peers, v), now);
    assert AnyWeak(peers + extra) <==> AnyWeak(peers) || AnyWeak(extra);
  }

  /** A self-signed certificate off the chain never changes the diagnosis, weak or not. */
  lemma SelfSignedStragglersAreHarmless(
    t: Thresholds, peers: seq<Cert>, extra: seq<Cert>, v: Verification, now: Instant)
    requires peers != [] && (v.Verified? ==> v.chain != [])
    requires forall e :: e in extra ==> SelfSigned(e) && !Issues(e, Last(Chain(peers)))
    ensures Diagnose(t, peers + extra, v, now) == Diagnose(t, peers, v, now)
  {
    StragglersChangeOnlyTheWeakDiagnosis(t, peers, extra, v, now);
  }

  /** The one case, at work: an untrusted leaf is an emergency, and a weak certificate that
      issued nothing makes it critical. */
  lemma StragglerLowersTheSeverity(t: Thresholds, now: Instant)
    requires !t.insecure && now + DAY != ZERO_TIME
    ensures var leaf := Cert("leaf", "ca", "leaf", now + DAY, false);
            var straggler := Cert("old", "root", "old", now + DAY, true);
            && Chain([leaf] + [straggler]) == [leaf]
            && Diagnose(t, [leaf], Unverified, now) == Observation(StatusInvalid, SeverityEmergency)
            && Diagnose(t, [leaf] + [straggler], Unverified, now) == Observation(StatusWeakSignature, SeverityCritical)
  {
    var leaf := Cert("leaf", "ca", "leaf", now + DAY, false);
    var straggler := Cert("old", "root", "old", now + DAY, true);
    assert leaf.subject != leaf.issuer && straggler.subject != leaf.issuer by {
      assert |leaf.subject| != |leaf.issuer| && |straggler.subject| != |leaf.issuer|;
    }
    ChainUnfolds([leaf], {}, 0);
    NextIsFirst([leaf], {}, 0, 1);
    StragglersAppended([leaf], [straggler]);
    assert ([leaf] + [straggler])[1] == straggler && straggler in [leaf] + [straggler];
    assert |straggler.issuer| != |straggler.subject| && WeakCause(straggler);
  }
}
