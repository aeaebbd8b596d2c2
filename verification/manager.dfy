/** internal/alert/manager.go: the Manager, its in-memory target states, Process and Restore. */
module Managers {
  import opened Domain
  import opened Debounce
  import opened Decision
  import opened Tables
  import opened Stores

  class TargetState {
    var severity: Severity
    var status: Status
    var lastAlertAt: Instant
    var pendingSeverity: Severity
    var pendingStatus: Status
    var pendingCount: nat

    constructor (severity: Severity, status: Status, lastAlertAt: Instant)
      ensures Memory() == TargetMemory(Observation(status, severity), lastAlertAt, NO_PENDING)
    {
      this.severity, this.status, this.lastAlertAt := severity, status, lastAlertAt;
      pendingSeverity, pendingStatus, pendingCount := SeverityOK, StatusOK, 0;
    }

    ghost function Memory(): TargetMemory
      reads this
    {
      TargetMemory(Observation(status, severity), lastAlertAt,
                   Pending(Observation(pendingStatus, pendingSeverity), pendingCount))
    }

    /** The debounce: false while a contested change is not confirmed yet. */
    method Confirm(n: int, x: Observation) returns (adopted: bool)
      modifies this`pendingSeverity, this`pendingStatus, this`pendingCount
      ensures var v := Judge(n, old(Memory()).confirmed, old(Memory()).pending, x);
              adopted == v.adopted && Memory() == old(Memory()).(pending := v.pending)
    {
      var changing := x.status != status || x.severity != severity;
      if n > 1 && changing && (Unreliable(x.status) || Unreliable(status)) {
        if pendingCount > 0 && pendingStatus == x.status && pendingSeverity == x.severity {
          pendingCount := pendingCount + 1;
        } else {
          pendingStatus, pendingSeverity, pendingCount := x.status, x.severity, 1;
        }
        if pendingCount < n {
          return false;
        }
        pendingCount := 0;
      } else {
        pendingCount := 0;
      }
      return true;
    }

    method Resume(candidate: Observation, count: nat)
      modifies this`pendingSeverity, this`pendingStatus, this`pendingCount
      ensures Memory() == old(Memory()).(pending := Pending(candidate, count))
    {
      pendingStatus, pendingSeverity, pendingCount := candidate.status, candidate.severity, count;
    }

    /** Debounce, then the decision on the real severity, then the update of this state. */
    method Observe(t: TargetConfig, x: Observation, now: Instant) returns (d: Decision)
      modifies this
      ensures d == Decide(t, old(Memory()), x, now) && Memory() == d.state
    {
      var previous := Observation(status, severity);
      var adopted := Confirm(Streak(t), x);
      if !adopted {
        var tentative := Pending(Observation(pendingStatus, pendingSeverity), pendingCount);
        return Decision(TargetMemory(previous, lastAlertAt, tentative), true, previous, false, false, false);
      }
      var bad := x.severity != SeverityOK;
      var wasBad := severity != SeverityOK;
      var shapeChange := bad && (!wasBad || x.status != status || x.severity != severity);
      var repeatDue := bad && Sub(now, lastAlertAt) >= For(t.repeat, x.severity);
      var fired := shapeChange || repeatDue;
      severity, status := x.severity, x.status;
      if fired {
        lastAlertAt := now;
      }
      var stateChanged := severity != previous.severity || status != previous.status || fired;
      var settled := Pending(Observation(pendingStatus, pendingSeverity), pendingCount);
      return Decision(TargetMemory(x, lastAlertAt, settled), false, previous, shapeChange, repeatDue, stateChanged);
    }
  }

  /** One configured target as Restore gets it. */
  datatype Target = Target(key: Key, config: TargetConfig)

  predicate KeyAmong(targets: seq<Target>, k: Key) {
    exists i :: 0 <= i < |targets| && targets[i].key == k
  }

  lemma KeyAmongSnoc(targets: seq<Target>, i: nat)
    requires i < |targets| && forall j :: 0 <= j < i ==> targets[j].key != targets[i].key
    ensures !KeyAmong(targets[..i], targets[i].key)
    ensures forall k :: KeyAmong(targets[..i + 1], k) <==> KeyAmong(targets[..i], k) || k == targets[i].key
  {
    var most, here := targets[..i], targets[..i + 1];
    assert here[i].key == targets[i].key;
    forall k | KeyAmong(most, k) ensures KeyAmong(here, k) {
      var j :| 0 <= j < |most| && most[j].key == k;
      assert here[j].key == k;
    }
    forall k | KeyAmong(here, k) ensures KeyAmong(most, k) || k == targets[i].key {
      var j :| 0 <= j < |here| && here[j].key == k;
      assert j < i ==> most[j].key == k;
    }
  }

  function NamesOf(ds: seq<Delivery>): (names: seq<Name>)
    ensures |names| == |ds| && forall i :: 0 <= i < |ds| ==> names[i] == ds[i].notifier
  {
    if ds == [] then [] else NamesOf(Init(ds)) + [Last(ds).notifier]
  }

  /** The statements that a decision takes. */
  function PublishLength(d: Decision, ds: seq<Delivery>): nat {
    if d.held then 0 else if ds != [] then EnqueueLength(ds) else if d.changed then 1 else 0
  }

  /** Whether Restore reads the target's probe log. */
  predicate Reads(t: Target) { Streak(t.config) > 1 }

  function ReadsOf(targets: seq<Target>): nat {
    if targets == [] then 0 else ReadsOf(Init(targets)) + if Reads(Last(targets)) then 1 else 0
  }

  /** The targets whose probe log cannot be read, where the reads begin with this statement. */
  function Unread(failing: nat -> bool, from: nat, targets: seq<Target>): set<Key> {
    if targets == [] then {}
    else
      Unread(failing, from, Init(targets))
      + if Reads(Last(targets)) && failing(from + ReadsOf(Init(targets))) then {Last(targets).key} else {}
  }

  lemma {:induction false} UnreadAmong(failing: nat -> bool, from: nat, targets: seq<Target>, k: Key)
    requires k in Unread(failing, from, targets)
    ensures KeyAmong(targets, k)
  {
    if k in Unread(failing, from, Init(targets)) {
      UnreadAmong(failing, from, Init(targets), k);
      var j :| 0 <= j < |targets| - 1 && Init(targets)[j].key == k;
      assert targets[j].key == k;
    } else {
      assert targets[|targets| - 1].key == k;
    }
  }

  lemma {:induction false} UnreadHasFailed(failing: nat -> bool, from: nat, targets: seq<Target>, i: nat)
    requires i < |targets| && forall j, k :: 0 <= j < k < |targets| ==> targets[j].key != targets[k].key
    ensures targets[i].key in Unread(failing, from, targets)
       <==> Streak(targets[i].config) > 1 && failing(from + ReadsOf(targets[..i]))
  {
    var before, k := Init(targets), targets[i].key;
    if i < |before| {
      UnreadHasFailed(failing, from, before, i);
      assert before[..i] == targets[..i] && before[i] == targets[i];
    } else {
      assert targets[..i] == before;
      if k in Unread(failing, from, before) {
        UnreadAmong(failing, from, before, k);
      }
    }
  }

  /** Unread are exactly the targets with a streak above 1 whose own read failed. */
  ghost predicate HaveFailed(failing: nat -> bool, from: nat, targets: seq<Target>, unread: set<Key>) {
    && (forall k :: k in unread ==> KeyAmong(targets, k))
    && (forall i :: 0 <= i < |targets| ==>
          (targets[i].key in unread <==> Streak(targets[i].config) > 1 && failing(from + ReadsOf(targets[..i]))))
  }

  lemma UnreadIsExact(failing: nat -> bool, from: nat, targets: seq<Target>)
    requires forall i, j :: 0 <= i < j < |targets| ==> targets[i].key != targets[j].key
    ensures HaveFailed(failing, from, targets, Unread(failing, from, targets))
  {
    forall k | k in Unread(failing, from, targets) ensures KeyAmong(targets, k) {
      UnreadAmong(failing, from, targets, k);
    }
    forall i | 0 <= i < |targets|
      ensures targets[i].key in Unread(failing, from, targets)
         <==> Streak(targets[i].config) > 1 && failing(from + ReadsOf(targets[..i]))
    {
      UnreadHasFailed(failing, from, targets, i);
    }
  }

  class Manager {
    const notifiers: map<Name, NotifierConfig>
    const store: Store?
    var states: map<Key, TargetState>
    // The calls made through the Notify hook, oldest first.
    var notified: seq<Name>
    // Every state object this manager owns.
    ghost var objects: set<TargetState>

    constructor (notifiers: map<Name, NotifierConfig>, store: Store?)
      ensures Valid() && states == map[] && notified == []
      ensures this.notifiers == notifiers && this.store == store
    {
      this.notifiers, this.store := notifiers, store;
      states, notified, objects := map[], [], {};
    }

    /** No two targets share a state object. */
    ghost predicate Valid()
      reads this`states, this`objects
    {
      && (forall k :: k in states ==> states[k] in objects)
      && (forall j, k :: j in states && k in states && j != k ==> states[j] != states[k])
    }

    /** The in-memory state of one target, None while it is unknown. */
    ghost function MemoryAt(k: Key): Option<TargetMemory>
      reads this`states, if k in states then {states[k]} else {}
    {
      if k in states then Some(states[k].Memory()) else None
    }

    /** The tables and the count of failed writes; without a store nothing is kept. */
    ghost function Db(): Database
      reads this, if store == null then {} else {store}
    {
      if store == null then Database(map[], [], [], []) else store.Db()
    }

    ghost function WriteErrors(): nat
      reads this, if store == null then {} else {store}
    {
      if store == null then 0 else store.writeErrors
    }

    ghost function Statements(): nat
      reads this, if store == null then {} else {store}
    {
      if store == null then 0 else store.statements
    }

    /** A decision is written and announced in full, or one of the statements that this takes
        failed: then a failed write was counted and nothing of the decision is visible outside
        this manager's memory. */
    ghost predicate Published(
      wasDb: Database, wasErrors: nat, wasNotified: seq<Name>, from: nat,
      key: Key, d: Decision, now: Instant, ds: seq<Delivery>)
      reads this, if store == null then {} else {store}
    {
      var ok := WriteErrors() == wasErrors;
      && (store == null ==> ok)
      && (store != null ==> Ran(store.failing, from, Statements(), PublishLength(d, ds), ok))
      && (ok ==> (store != null ==> Db() == Written(wasDb, key, d, now, ds)) && notified == wasNotified + NamesOf(ds))
      && (!ok ==> Db() == wasDb && notified == wasNotified && WriteErrors() == wasErrors + 1)
    }

    /** The part of Process that runs under the mutex: debounce, decision, in-memory update. */
    method Observe(key: Key, t: TargetConfig, x: Observation, now: Instant) returns (d: Decision)
      requires Valid()
      modifies this`states, this`objects, objects
      ensures Valid() && fresh(objects - old(objects))
      ensures d == Decide(t, MemoryOf(old(MemoryAt(key))), x, now)
      ensures MemoryAt(key) == Some(d.state)
      ensures forall k :: k != key ==> MemoryAt(k) == old(MemoryAt(k))
    {
      var st := Tracked(key);
      d := st.Observe(t, x, now);
    }

    /** The state object of a target, made on first sight. */
    method Tracked(key: Key) returns (st: TargetState)
      requires Valid()
      modifies this`states, this`objects
      ensures Valid() && fresh(objects - old(objects)) && old(objects) <= objects
      ensures key in states && states[key] == st
      ensures key in old(states) ==> states == old(states)
      ensures key !in old(states) ==> fresh(st)
      ensures st.Memory() == MemoryOf(old(MemoryAt(key)))
      ensures forall k :: k != key ==> MemoryAt(k) == old(MemoryAt(k))
    {
      if key !in states {
        var unknown := new TargetState(SeverityOK, StatusOK, ZERO_TIME);
        states, objects := states[key := unknown], objects + {unknown};
      }
      st := states[key];
    }

    /** The transition switch of one channel. Under a validated floor: a problem exactly when
        the target's problem fired and the floor is met, a recovery exactly when the view turned
        healthy and the channel opted in. */
    method Switch(c: NotifierConfig, d: Decision, x: Observation) returns (notice: Option<Notice>)
      ensures notice == ChannelNotice(c, d.previous, x, d.repeatDue)
      ensures ValidFloor(Floor(c)) && (d.repeatDue ==> Bad(x)) ==> Fires(c, d.previous, x, d.repeatDue, notice)
    {
      FloorsByName(x, Floor(c));
      FloorsByName(d.previous, Floor(c));
      var before := ClampView(d.previous, Floor(c));
      var after := ClampView(x, Floor(c));
      if Bad(after) && (!Bad(before) || after.status != before.status || after.severity != before.severity) {
        return Some(Notice(after, false));
      } else if Bad(after) && d.repeatDue {
        return Some(Notice(after, false));
      } else if !Bad(after) && Bad(before) && SendsRecovery(c) {
        return Some(Notice(after, true));
      }
      return None;
    }

    /** The fan-out loop of Process: the deliveries, and the notifiers to wake for them. */
    method Collect(t: TargetConfig, d: Decision, x: Observation, render: Renderer)
      returns (deliveries: seq<Delivery>, wake: seq<Name>)
      ensures deliveries == FanOut(notifiers, t.notifiers, render, d.previous, x, d.repeatDue)
      ensures wake == NamesOf(deliveries)
    {
      deliveries, wake := [], [];
      for i := 0 to |t.notifiers|
        invariant deliveries == FanOut(notifiers, t.notifiers[..i], render, d.previous, x, d.repeatDue)
        invariant wake == NamesOf(deliveries)
      {
        var name := t.notifiers[i];
        assert Init(t.notifiers[..i + 1]) == t.notifiers[..i];
        ghost var own := DeliveryFor(notifiers, name, render, d.previous, x, d.repeatDue);
        ghost var others := deliveries;
        if name in notifiers {
          var notice := Switch(notifiers[name], d, x);
          if notice.Some? {
            var body := render(name, notice.value);
            if body.Some? {
              deliveries := deliveries + [Delivery(name, notice.value.view, body.value)];
              wake := wake + [name];
            }
          }
        }
        assert deliveries == others + own;
      }
      assert t.notifiers[..|t.notifiers|] == t.notifiers;
    }

    /** The rest of Process: what the decision owes is written, all of it or, on a store
        failure, none of it, and only a committed delivery wakes its notifier. */
    method Publish(key: Key, t: TargetConfig, d: Decision, x: Observation, now: Instant, render: Renderer)
      modifies this`notified, if store == null then {} else {store}
      ensures Published(old(Db()), old(WriteErrors()), old(notified), old(Statements()),
                        key, d, now, Owed(notifiers, t, d, x, render))
    {
      if d.held {
        return;
      }
      var record := StateRecord(d.state.confirmed, d.state.lastAlertAt);
      var deliveries, wake := Collect(t, d, x, render);
      if deliveries == [] {
        if d.changed && store != null {
          var _ := store.SaveAlertState(key, record);
        }
        return;
      }
      if store != null {
        var ok := store.Enqueue(key, record, now, deliveries);
        if !ok {
          return;
        }
      }
      notified := notified + wake;
    }

    /** One probe result. In memory the target always takes the decided state, first, even
        when the write that follows fails. */
    method Process(key: Key, t: TargetConfig, x: Observation, now: Instant, render: Renderer)
      requires Valid()
      modifies this`states, this`notified, this`objects, objects, if store == null then {} else {store}
      ensures Valid() && fresh(objects - old(objects))
      ensures t.notifiers == [] ==>
                && (forall k :: MemoryAt(k) == old(MemoryAt(k))) && notified == old(notified)
                && Db() == old(Db()) && Statements() == old(Statements())
      ensures t.notifiers != [] ==>
                var d := Decide(t, MemoryOf(old(MemoryAt(key))), x, now);
                var ds := Owed(notifiers, t, d, x, render);
                && MemoryAt(key) == Some(d.state) && (forall k :: k != key ==> MemoryAt(k) == old(MemoryAt(k)))
                && Published(old(Db()), old(WriteErrors()), old(notified), old(Statements()), key, d, now, ds)
    {
      if t.notifiers == [] {
        return;
      }
      var d := Observe(key, t, x, now);
      assert Db() == old(Db()) && WriteErrors() == old(WriteErrors()) && Statements() == old(Statements());
      Publish(key, t, d, x, now, render);
    }

    /** The candidate that a target's probe log stands for; ok is false when it cannot be read. */
    method Replay(key: Key, n: int, confirmed: Observation)
      returns (ok: bool, found: bool, candidate: Observation, count: nat)
      requires store != null && n > 1
      modifies store`statements
      ensures store.statements == old(store.statements) + 1 && (!ok <==> store.failing(old(store.statements)))
      ensures ok ==> var p := PendingFor(n, confirmed, Reverse(Seen(Newest(ProbesOf(store.probes, key), n))));
                     (found <==> p.count > 0) && (found ==> p == Pending(candidate, count))
    {
      var seen := store.RecentProbeStatuses(key, n);
      if seen.None? {
        return false, false, HEALTHY, 0;
      }
      var run: int;
      found, candidate, run := ReconstructPending(confirmed, seen.value, n);
      return true, found, candidate, if found then run else 0;
    }

    /** Restore for one configured target. */
    method Rebuild(t: Target) returns (ok: bool)
      requires Valid() && store != null
      modifies this`states, this`objects, objects, store`statements
      ensures Valid() && fresh(objects - old(objects))
      ensures ok <==> !(Reads(t) && store.failing(old(store.statements)))
      ensures store.statements == old(store.statements) + if Reads(t) then 1 else 0
      ensures forall k :: k != t.key || !ok ==> MemoryAt(k) == old(MemoryAt(k))
      ensures ok ==> RebuiltFrom(store.probes, old(MemoryAt(t.key)), MemoryAt(t.key), t)
    {
      var key, n := t.key, Streak(t.config);
      if n <= 1 {
        return true;
      }
      var confirmed := HEALTHY;
      if key in states {
        confirmed := Observation(states[key].status, states[key].severity);
      }
      assert confirmed == MemoryOf(MemoryAt(key)).confirmed;
      var found, candidate, count;
      ok, found, candidate, count := Replay(key, n, confirmed);
      if ok && found {
        var st := Tracked(key);
        st.Resume(candidate, count);
      }
    }

    /** Called once, before the first Process. A target whose probe log cannot be read is
        reported and keeps what its state row says; every other one is rebuilt. The log of each
        target with a streak above 1 is read, in the order of the configuration. */
    method Restore(records: map<Key, StateRecord>, targets: seq<Target>) returns (unread: set<Key>)
      requires states == map[]
      requires forall i, j :: 0 <= i < j < |targets| ==> targets[i].key != targets[j].key
      modifies this`states, this`objects, if store == null then {} else {store}
      ensures Valid() && fresh(objects) && Db() == old(Db()) && WriteErrors() == old(WriteErrors())
      ensures if store == null then unread == {} else HaveFailed(store.failing, old(Statements()), targets, unread)
      ensures forall k :: !KeyAmong(targets, k) || k in unread || store == null ==>
                MemoryAt(k) == Loaded(Get(records, k))
      ensures store != null ==> forall i :: 0 <= i < |targets| && targets[i].key !in unread ==>
                RebuiltFrom(store.probes, Loaded(Get(records, targets[i].key)), MemoryAt(targets[i].key), targets[i])
    {
      unread := {};
      LoadRecords(records);
      if store != null {
        ghost var from := store.statements;
        unread := RebuildAll(targets);
        assert forall k :: MemoryAt(k) == Get(Snapshot(), k);
        UnreadIsExact(store.failing, from, targets);
      }
    }

    /** The in-memory states of all targets. */
    ghost function Snapshot(): (all: map<Key, TargetMemory>)
      requires Valid()
      reads this`states, this`objects, objects
      ensures forall k :: Get(all, k) == MemoryAt(k)
    {
      map k | k in states :: states[k].Memory()
    }

    /** The loop of Restore over the configured targets. */
    method RebuildAll(targets: seq<Target>) returns (unread: set<Key>)
      requires Valid() && store != null
      requires forall i, j :: 0 <= i < j < |targets| ==> targets[i].key != targets[j].key
      modifies this`states, this`objects, objects, store`statements
      ensures Valid() && fresh(objects - old(objects))
      ensures unread == Unread(store.failing, old(store.statements), targets)
      ensures AllRebuilt(store.probes, old(Snapshot()), Snapshot(), targets, unread)
    {
      unread := {};
      ghost var was, from := Snapshot(), store.statements;
      for i := 0 to |targets|
        invariant Valid() && fresh(objects - old(objects))
        invariant ReadSoFar(store.failing, from, store.statements, targets[..i], unread)
        invariant AllRebuilt(store.probes, was, Snapshot(), targets[..i], unread)
      {
        ghost var before, at := Snapshot(), store.statements;
        var ok := Rebuild(targets[i]);
        OneMoreRebuilt(store.probes, was, before, Snapshot(), targets, i, unread, ok);
        ReadOneMore(store.failing, from, at, store.statements, targets, i, unread, ok);
        if !ok {
          unread := unread + {targets[i].key};
        }
      }
      assert targets[..|targets|] == targets;
    }

    method LoadRecords(records: map<Key, StateRecord>)
      requires states == map[]
      modifies this`states, this`objects
      ensures Valid() && fresh(objects)
      ensures forall k :: MemoryAt(k) == Loaded(Get(records, k))
    {
      objects := {};
      var rest := records.Keys;
      while rest != {}
        invariant rest <= records.Keys
        invariant states.Keys == records.Keys - rest
        invariant Valid() && fresh(objects)
        invariant forall k :: k in states ==> MemoryAt(k) == Loaded(Some(records[k]))
        decreases |rest|
      {
        var k :| k in rest;
        var r := records[k];
        var st := new TargetState(r.view.severity, r.view.status, r.lastAlertAt);
        states, objects := states[k := st], objects + {st};
        rest := rest - {k};
      }
    }
  }

  /** The target's state is the loaded one resumed from its probe log. */
  ghost predicate RebuiltFrom(
    probes: seq<ProbeRow>, loaded: Option<TargetMemory>, now: Option<TargetMemory>, t: Target)
  {
    var n := Streak(t.config);
    SameMemory(now, Resumed(loaded, n, Seen(Newest(ProbesOf(probes, t.key), n))))
  }

  ghost predicate ReadSoFar(failing: nat -> bool, from: nat, to: nat, targets: seq<Target>, unread: set<Key>) {
    to == from + ReadsOf(targets) && unread == Unread(failing, from, targets)
  }

  lemma ReadOneMore(
    failing: nat -> bool, from: nat, at: nat, to: nat, targets: seq<Target>, i: nat, unread: set<Key>, ok: bool)
    requires i < |targets| && ReadSoFar(failing, from, at, targets[..i], unread)
    requires to == at + if Reads(targets[i]) then 1 else 0
    requires ok <==> !(Reads(targets[i]) && failing(at))
    ensures ReadSoFar(failing, from, to, targets[..i + 1], if ok then unread else unread + {targets[i].key})
  {
    assert Init(targets[..i + 1]) == targets[..i] && Last(targets[..i + 1]) == targets[i];
  }

  /** These targets are rebuilt, but for those whose log was unread; all other targets are as
      they were. */
  ghost predicate AllRebuilt(
    probes: seq<ProbeRow>, was: map<Key, TargetMemory>, now: map<Key, TargetMemory>,
    targets: seq<Target>, unread: set<Key>)
  {
    && (forall k :: k in unread ==> KeyAmong(targets, k))
    && (forall k :: !KeyAmong(targets, k) || k in unread ==> Get(now, k) == Get(was, k))
    && (forall t :: t in targets && t.key !in unread ==> RebuiltFrom(probes, Get(was, t.key), Get(now, t.key), t))
  }

  lemma OneMoreRebuilt(
    probes: seq<ProbeRow>, was: map<Key, TargetMemory>, before: map<Key, TargetMemory>, now: map<Key, TargetMemory>,
    targets: seq<Target>, i: nat, unread: set<Key>, ok: bool)
    requires i < |targets| && AllRebuilt(probes, was, before, targets[..i], unread)
    requires forall j, k :: 0 <= j < k < |targets| ==> targets[j].key != targets[k].key
    requires forall k :: k != targets[i].key || !ok ==> Get(now, k) == Get(before, k)
    requires ok ==> RebuiltFrom(probes, Get(before, targets[i].key), Get(now, targets[i].key), targets[i])
    ensures AllRebuilt(probes, was, now, targets[..i + 1], if ok then unread else unread + {targets[i].key})
  {
    var key := targets[i].key;
    KeyAmongSnoc(targets, i);
    assert targets[..i + 1] == targets[..i] + [targets[i]];
    forall t | t in targets[..i]
      ensures t.key != key
    {
      var j :| 0 <= j < i && targets[j] == t;
    }
  }

  /** Equal up to the candidate fields that mean nothing while the count is 0. */
  ghost predicate SameMemory(a: Option<TargetMemory>, b: Option<TargetMemory>) {
    (a.None? <==> b.None?)
    && (a.Some? ==> a.value.confirmed == b.value.confirmed && a.value.lastAlertAt == b.value.lastAlertAt
                    && SamePending(a.value.pending, b.value.pending))
  }
}
