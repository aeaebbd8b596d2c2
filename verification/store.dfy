/** internal/store: the SQLite-backed store. Every statement may fail; a failed one leaves the
    tables as they were, and a failed write is counted once. */
module Stores {
  import opened Domain
  import opened Decision
  import opened Tables

  /** The transaction's copies after the inserts for these deliveries. */
  ghost predicate HasInserted(
    db: Database, key: Key, at: int, ds: seq<Delivery>, txAlerts: seq<AlertLogRow>, txOutbox: seq<OutboxRow>)
  {
    txAlerts == InsertAlerts(db.alerts, key, at, ds) && txOutbox == InsertRows(db.outbox, key, at, ds)
  }

  lemma NoneInserted(db: Database, key: Key, at: int)
    ensures HasInserted(db, key, at, [], db.alerts, db.outbox)
  {
  }

  lemma OneMoreInserted(
    db: Database, key: Key, at: int, ds: seq<Delivery>, d: Delivery,
    txAlerts: seq<AlertLogRow>, txOutbox: seq<OutboxRow>)
    requires HasInserted(db, key, at, ds, txAlerts, txOutbox)
    ensures HasInserted(
              db, key, at, ds + [d],
              txAlerts + [AlertLogRow(Channel(d.notifier, key), d.view, at)],
              txOutbox + [OutboxRow(FreshId(txOutbox), Channel(d.notifier, key), d.body, at, 0, "")])
  {
    assert Init(ds + [d]) == ds;
  }

  lemma InsertedIsEnqueued(
    db: Database, key: Key, r: StateRecord, at: Instant, ds: seq<Delivery>,
    txAlerts: seq<AlertLogRow>, txOutbox: seq<OutboxRow>)
    requires HasInserted(db, key, Unix(at), ds, txAlerts, txOutbox)
    ensures Enqueued(db, key, r, at, ds) == Database(db.states[key := ToRow(r)], db.probes, txAlerts, txOutbox)
  {
  }

  /** The statements of a batch of the given length were made from one to the other, all of
      them, or up to and with the first that failed. */
  ghost predicate Ran(failing: nat -> bool, from: nat, to: nat, length: int, ok: bool) {
    && from <= to <= from + length
    && (forall i :: from <= i < (if ok then to else to - 1) ==> !failing(i))
    && (if ok then to == from + length else from < to && failing(to - 1))
  }

  /** The statements of the transaction that enqueues. */
  function EnqueueLength(ds: seq<Delivery>): nat { 2 * |ds| + 3 }

  /** So many statements of a batch went well, or one of them failed. */
  ghost predicate SoFar(failing: nat -> bool, from: nat, to: nat, done: int, length: int, ok: bool) {
    Ran(failing, from, to, if ok then done else length, ok)
  }

  lemma RanOneMore(failing: nat -> bool, from: nat, to: nat, done: int, length: int)
    requires SoFar(failing, from, to, done, length, true) && done < length
    ensures SoFar(failing, from, to + 1, done + 1, length, !failing(to))
  {
  }

  class Store {
    var states: map<Key, StateRow>
    var probes: seq<ProbeRow>
    var alerts: seq<AlertLogRow>
    var outbox: seq<OutboxRow>
    // The counter behind OnWriteError.
    var writeErrors: nat
    // The environment: whether the i-th read of the queue by a dispatcher fails, its i-th mark
    // or delete of a queued row, and the i-th of all other statements; and how many were made.
    const unreadable: nat -> bool
    const unwritable: nat -> bool
    const failing: nat -> bool
    var queueReads: nat
    var queueWrites: nat
    var statements: nat

    constructor (unreadable: nat -> bool, unwritable: nat -> bool, failing: nat -> bool)
      ensures Db() == Database(map[], [], [], [])
      ensures writeErrors == queueReads == queueWrites == statements == 0
      ensures this.unreadable == unreadable && this.unwritable == unwritable && this.failing == failing
    {
      states, probes, alerts, outbox := map[], [], [], [];
      this.unreadable, this.unwritable, this.failing := unreadable, unwritable, failing;
      writeErrors, queueReads, queueWrites, statements := 0, 0, 0, 0;
    }

    method Statement() returns (ok: bool)
      modifies this`statements
      ensures statements == old(statements) + 1 && ok == !failing(old(statements))
    {
      ok := !failing(statements);
      statements := statements + 1;
    }

    ghost function Db(): Database
      reads this
    {
      Database(states, probes, alerts, outbox)
    }

    /** LoadAlertStates: the loop decodes one row per key; None is a failed read. */
    method LoadAlertStates() returns (loaded: Option<map<Key, StateRecord>>)
      modifies this`statements
      ensures statements == old(statements) + 1 && (loaded.None? <==> failing(old(statements)))
      ensures loaded.Some? ==> loaded.value == map k | k in states :: FromRow(states[k])
    {
      var ok := Statement();
      if !ok {
        return None;
      }
      var records := map[];
      var rest := states.Keys;
      while rest != {}
        invariant rest <= states.Keys
        invariant records == map k | k in states && k !in rest :: FromRow(states[k])
        decreases |rest|
      {
        var k :| k in rest;
        records := records[k := FromRow(states[k])];
        rest := rest - {k};
      }
      return Some(records);
    }

    /** RecentProbeStatuses: newest first; None is a failed read. */
    method RecentProbeStatuses(key: Key, limit: int) returns (seen: Option<seq<Observation>>)
      modifies this`statements
      ensures statements == old(statements) + 1 && (seen.None? <==> failing(old(statements)))
      ensures seen.Some? ==> seen.value == Seen(Newest(ProbesOf(probes, key), limit))
    {
      var ok := Statement();
      if !ok {
        return None;
      }
      var rows := Newest(ProbesOf(probes, key), limit);
      var result: seq<Observation> := [];
      for i := 0 to |rows|
        invariant result == Seen(rows)[..i]
      {
        result := result + [rows[i].seen];
      }
      return Some(result);
    }

    method SaveAlertState(key: Key, r: StateRecord) returns (ok: bool)
      modifies this`states, this`writeErrors, this`statements
      ensures statements == old(statements) + 1 && (!ok <==> failing(old(statements)))
      ensures ok ==> Db() == SaveState(old(Db()), key, r) && writeErrors == old(writeErrors)
      ensures !ok ==> Db() == old(Db()) && writeErrors == old(writeErrors) + 1
    {
      ok := Statement();
      if ok {
        states := states[key := ToRow(r)];
      } else {
        writeErrors := writeErrors + 1;
      }
    }

    method RecordProbe(key: Key, checkedAt: Instant, seen: Observation) returns (ok: bool)
      modifies this`probes, this`writeErrors, this`statements
      ensures statements == old(statements) + 1 && (!ok <==> failing(old(statements)))
      ensures ok ==> Db() == Log(old(Db()), key, checkedAt, seen) && writeErrors == old(writeErrors)
      ensures !ok ==> Db() == old(Db()) && writeErrors == old(writeErrors) + 1
    {
      ok := Statement();
      if ok {
        probes := probes + [ProbeRow(MaxProbeId(probes) + 1, key, Unix(checkedAt), seen)];
      } else {
        writeErrors := writeErrors + 1;
      }
    }

    /** Enqueue: begin, the state row, two inserts per delivery, commit. Everything happens on
        the transaction's own copies, so a failure at any of these rolls the whole of it back. */
    method Enqueue(key: Key, r: StateRecord, at: Instant, ds: seq<Delivery>) returns (ok: bool)
      modifies this`states, this`alerts, this`outbox, this`writeErrors, this`statements
      ensures Ran(failing, old(statements), statements, EnqueueLength(ds), ok)
      ensures ok ==> Db() == Enqueued(old(Db()), key, r, at, ds) && writeErrors == old(writeErrors)
      ensures !ok ==> Db() == old(Db()) && writeErrors == old(writeErrors) + 1
    {
      ghost var before, from := Db(), statements;
      var txAlerts, txOutbox;
      ok, txAlerts, txOutbox := InsertAll(key, Unix(at), ds);
      if ok {
        RanOneMore(failing, from, statements, EnqueueLength(ds) - 1, EnqueueLength(ds));
        ok := Statement();
        InsertedIsEnqueued(before, key, r, at, ds, txAlerts, txOutbox);
      }
      if ok {
        states, alerts, outbox := states[key := ToRow(r)], txAlerts, txOutbox;
      } else {
        writeErrors := writeErrors + 1;
      }
    }

    /** The transaction up to its commit. */
    method InsertAll(key: Key, at: int, ds: seq<Delivery>)
      returns (ok: bool, txAlerts: seq<AlertLogRow>, txOutbox: seq<OutboxRow>)
      modifies this`statements
      ensures SoFar(failing, old(statements), statements, EnqueueLength(ds) - 1, EnqueueLength(ds), ok)
      ensures ok ==> HasInserted(Db(), key, at, ds, txAlerts, txOutbox)
    {
      ghost var db, from, done := Db(), statements, [];
      txAlerts, txOutbox := alerts, outbox;
      NoneInserted(db, key, at);
      ok := TwoStatements(from, 0, EnqueueLength(ds));
      var i := 0;
      while ok && i < |ds|
        invariant 0 <= i <= |ds| && done == ds[..i]
        invariant SoFar(failing, from, statements, 2 * |done| + 2, EnqueueLength(ds), ok)
        invariant HasInserted(db, key, at, done, txAlerts, txOutbox)
        decreases |ds| - i, ok
      {
        ok, txAlerts, txOutbox := InsertPair(db, key, at, done, ds[i], from, EnqueueLength(ds), txAlerts, txOutbox);
        if ok {
          i, done := i + 1, done + [ds[i]];
        }
      }
      assert ok ==> done == ds;
    }

    /** The two inserts of the next delivery. */
    method InsertPair(
      ghost db: Database, key: Key, at: int, ghost before: seq<Delivery>, d: Delivery,
      ghost from: nat, ghost length: nat, alerts: seq<AlertLogRow>, outbox: seq<OutboxRow>)
      returns (ok: bool, moreAlerts: seq<AlertLogRow>, moreOutbox: seq<OutboxRow>)
      requires HasInserted(db, key, at, before, alerts, outbox)
      requires SoFar(failing, from, statements, 2 * |before| + 2, length, true) && 2 * |before| + 4 <= length
      modifies this`statements
      ensures SoFar(failing, from, statements, 2 * |before| + 4, length, ok)
      ensures HasInserted(db, key, at, if ok then before + [d] else before, moreAlerts, moreOutbox)
    {
      moreAlerts, moreOutbox := alerts, outbox;
      ok := TwoStatements(from, 2 * |before| + 2, length);
      if ok {
        OneMoreInserted(db, key, at, before, d, alerts, outbox);
        moreAlerts := alerts + [AlertLogRow(Channel(d.notifier, key), d.view, at)];
        moreOutbox := outbox + [OutboxRow(FreshId(outbox), Channel(d.notifier, key), d.body, at, 0, "")];
      }
    }

    /** The next two of a batch that began at from. */
    method TwoStatements(ghost from: nat, ghost done: nat, ghost length: nat) returns (ok: bool)
      requires SoFar(failing, from, statements, done, length, true) && done + 2 <= length
      modifies this`statements
      ensures SoFar(failing, from, statements, done + 2, length, ok)
    {
      RanOneMore(failing, from, statements, done, length);
      ok := Statement();
      if ok {
        RanOneMore(failing, from, statements, done + 1, length);
        ok := Statement();
      }
    }

    /** PendingKeys: the distinct targets with a row queued on this notifier; None is a
        failed read. */
    method PendingKeys(notifier: Name) returns (pending: Option<seq<Key>>)
      modifies this`queueReads
      ensures queueReads == old(queueReads) + 1 && (pending.None? <==> unreadable(old(queueReads)))
      ensures pending.Some? ==> NoDuplicates(pending.value)
      ensures pending.Some? ==>
                forall k :: k in pending.value <==> exists r :: r in outbox && r.channel == Channel(notifier, k)
    {
      var failed := unreadable(queueReads);
      queueReads := queueReads + 1;
      if failed {
        return None;
      }
      var keys: seq<Key> := [];
      for i := 0 to |outbox|
        invariant NoDuplicates(keys)
        invariant forall k :: k in keys <==> exists r :: r in outbox[..i] && r.channel == Channel(notifier, k)
      {
        var c := outbox[i].channel;
        assert outbox[..i + 1] == outbox[..i] + [outbox[i]];
        if c.notifier == notifier && c.key !in keys {
          keys := keys + [c.key];
        }
      }
      assert outbox[..|outbox|] == outbox;
      return Some(keys);
    }

    /** NextPending: the oldest queued row of the channel, None when there is none; ok is
        false on a failed read. */
    method NextPending(c: Channel) returns (ok: bool, row: Option<OutboxRow>)
      modifies this`queueReads
      ensures queueReads == old(queueReads) + 1 && (!ok <==> unreadable(old(queueReads)))
      ensures ok ==> (row.None? <==> RowsOn(c, outbox) == [])
      ensures ok && row.Some? ==> IsOldest(row.value, c, outbox)
    {
      ok, row := !unreadable(queueReads), None;
      queueReads := queueReads + 1;
      if !ok {
        return;
      }
      for i := 0 to |outbox|
        invariant row.None? <==> RowsOn(c, outbox[..i]) == []
        invariant row.None? ==> forall r :: r in outbox[..i] ==> r.channel != c
        invariant row.Some? ==> IsOldest(row.value, c, outbox[..i])
      {
        assert outbox[..i + 1] == outbox[..i] + [outbox[i]];
        assert Init(outbox[..i + 1]) == outbox[..i];
        if outbox[i].channel == c && (row.None? || outbox[i].id < row.value.id) {
          row := Some(outbox[i]);
        }
      }
      assert outbox[..|outbox|] == outbox;
    }

    method DeleteOutbox(id: int) returns (ok: bool)
      modifies this`outbox, this`writeErrors, this`queueWrites
      ensures queueWrites == old(queueWrites) + 1 && (!ok <==> unwritable(old(queueWrites)))
      ensures ok ==> outbox == WithoutId(old(outbox), id) && writeErrors == old(writeErrors)
      ensures !ok ==> outbox == old(outbox) && writeErrors == old(writeErrors) + 1
    {
      ok := !unwritable(queueWrites);
      queueWrites := queueWrites + 1;
      if ok {
        outbox := WithoutId(outbox, id);
      } else {
        writeErrors := writeErrors + 1;
      }
    }

    method FailOutbox(id: int, error: string) returns (ok: bool)
      modifies this`outbox, this`writeErrors, this`queueWrites
      ensures queueWrites == old(queueWrites) + 1 && (!ok <==> unwritable(old(queueWrites)))
      ensures ok ==> outbox == FailedId(old(outbox), id, error) && writeErrors == old(writeErrors)
      ensures !ok ==> outbox == old(outbox) && writeErrors == old(writeErrors) + 1
    {
      ok := !unwritable(queueWrites);
      queueWrites := queueWrites + 1;
      if ok {
        outbox := FailedId(outbox, id, error);
      } else {
        writeErrors := writeErrors + 1;
      }
    }

    /** PruneLogs: two deletes; removed counts the rows they took together. */
    method PruneLogs(probeCutoff: int, alertCutoff: int) returns (removed: nat, ok: bool)
      modifies this`probes, this`alerts, this`writeErrors, this`statements
      ensures Ran(failing, old(statements), statements, 2, ok)
      ensures removed == |old(probes)| - |probes| + |old(alerts)| - |alerts|
      ensures ok ==> Db() == Prune(old(Db()), probeCutoff, alertCutoff) && writeErrors == old(writeErrors)
      ensures !ok ==> alerts == old(alerts) && writeErrors == old(writeErrors) + 1
      ensures !ok ==>
                probes == if statements == old(statements) + 1 then old(probes)
                          else KeepProbes(old(probes), probeCutoff)
    {
      removed := 0;
      ok := Statement();
      if ok {
        var kept := KeepProbes(probes, probeCutoff);
        removed, probes := |probes| - |kept|, kept;
        ok := Statement();
      }
      if ok {
        var kept := KeepAlerts(alerts, alertCutoff);
        removed, alerts := removed + |alerts| - |kept|, kept;
      } else {
        writeErrors := writeErrors + 1;
      }
    }

    /** DropOrphanedOutbox: the rows of notifiers that left the configuration, and only
        those, are deleted, one delete a notifier; a failed delete stops the pass. Reported is
        what was queued for each of them; None is a failed read, after which nothing is
        deleted. */
    method DropOrphanedOutbox(valid: set<Name>) returns (orphans: Option<map<Name, nat>>, ok: bool)
      modifies this`outbox, this`writeErrors, this`statements
      ensures orphans.None? <==> failing(old(statements))
      ensures orphans.None? ==> !ok && outbox == old(outbox) && statements == old(statements) + 1
      ensures orphans.Some? ==>
                orphans.value == map n | n in Orphans(old(outbox), valid) :: QueuedFor(n, old(outbox))
      ensures orphans.Some? ==>
                Ran(failing, old(statements) + 1, statements, |Orphans(old(outbox), valid)|, ok)
      ensures ok ==> outbox == WithoutNotifiers(old(outbox), valid)
      ensures writeErrors == old(writeErrors) + if orphans.Some? && !ok then 1 else 0
      ensures forall c: Channel :: c.notifier in valid ==> RowsOn(c, outbox) == RowsOn(c, old(outbox))
    {
      ok := Statement();
      if !ok {
        return None, false;
      }
      var names := Orphans(outbox, valid);
      orphans := Some(map n | n in names :: QueuedFor(n, outbox));
      ok := DropAll(names, valid);
    }

    method DropAll(names: set<Name>, ghost valid: set<Name>) returns (ok: bool)
      requires names == Orphans(outbox, valid)
      modifies this`outbox, this`writeErrors, this`statements
      ensures Ran(failing, old(statements), statements, |names|, ok)
      ensures ok ==> outbox == WithoutNotifiers(old(outbox), valid)
      ensures writeErrors == old(writeErrors) + if ok then 0 else 1
      ensures forall c: Channel :: c.notifier in valid ==> RowsOn(c, outbox) == RowsOn(c, old(outbox))
    {
      ghost var was, gone := outbox, {};
      ok, gone := DeleteEach(names);
      KeepingSparesOthers(was, gone, valid);
      if ok {
        KeepingIsWithoutNotifiers(was, gone, valid);
      }
    }

    /** One delete a notifier, until one fails. */
    method DeleteEach(names: set<Name>) returns (ok: bool, ghost gone: set<Name>)
      modifies this`outbox, this`writeErrors, this`statements
      ensures Ran(failing, old(statements), statements, |names|, ok)
      ensures gone <= names && (ok ==> gone == names) && outbox == Keeping(old(outbox), gone)
      ensures writeErrors == old(writeErrors) + if ok then 0 else 1
    {
      var rest := names;
      ghost var was, from := outbox, statements;
      ok, gone := true, {};
      KeepingAll(outbox, gone);
      while rest != {} && ok
        invariant rest <= names && gone == names - rest
        invariant outbox == Keeping(was, gone)
        invariant writeErrors == old(writeErrors) + if ok then 0 else 1
        invariant SoFar(failing, from, statements, |names| - |rest|, |names|, ok)
        decreases |rest|, ok
      {
        var n :| n in rest;
        RanOneMore(failing, from, statements, |names| - |rest|, |names|);
        ok := Statement();
        if ok {
          KeepingOneLess(was, gone, n);
          outbox := Keeping(outbox, {n});
          gone := gone + {n};
          rest := rest - {n};
        } else {
          writeErrors := writeErrors + 1;
        }
      }
    }
  }

  /** The notifiers that still have rows queued but left the configuration. */
  function Orphans(rows: seq<OutboxRow>, valid: set<Name>): (names: set<Name>)
    ensures names !! valid
    ensures forall r :: r in rows ==> r.channel.notifier in names || r.channel.notifier in valid
  {
    if rows == [] then {}
    else
      var n := Last(rows).channel.notifier;
      Orphans(Init(rows), valid) + (if n in valid then {} else {n})
  }

  lemma {:induction false} OrphansHaveRows(rows: seq<OutboxRow>, valid: set<Name>, n: Name)
    ensures n in Orphans(rows, valid) <==> n !in valid && QueuedFor(n, rows) > 0
  {
    if rows != [] {
      OrphansHaveRows(Init(rows), valid, n);
    }
  }

  function QueuedFor(n: Name, rows: seq<OutboxRow>): nat {
    if rows == [] then 0 else QueuedFor(n, Init(rows)) + (if Last(rows).channel.notifier == n then 1 else 0)
  }

  /** The count is what the delete of that notifier takes. */
  lemma {:induction false} CountedAreDropped(n: Name, rows: seq<OutboxRow>)
    ensures QueuedFor(n, rows) == |rows| - |Keeping(rows, {n})|
  {
    if rows != [] {
      CountedAreDropped(n, Init(rows));
    }
  }

  /** What is left are exactly the rows of the notifiers in the configuration. */
  lemma {:induction false} KeptByNotifier(rows: seq<OutboxRow>, valid: set<Name>)
    ensures forall r :: r in WithoutNotifiers(rows, valid) <==> r in rows && r.channel.notifier in valid
  {
    if rows != [] {
      KeptByNotifier(Init(rows), valid);
      assert rows == Init(rows) + [Last(rows)];
    }
  }

  /** The rows left after deleting those of the given notifiers. */
  function Keeping(rows: seq<OutboxRow>, gone: set<Name>): seq<OutboxRow> {
    if rows == [] then []
    else Keeping(Init(rows), gone) + (if Last(rows).channel.notifier in gone then [] else [Last(rows)])
  }

  lemma {:induction false} KeepingAll(rows: seq<OutboxRow>, gone: set<Name>)
    requires gone == {}
    ensures Keeping(rows, gone) == rows
  {
    if rows != [] {
      KeepingAll(Init(rows), gone);
      assert rows == Init(rows) + [Last(rows)];
    }
  }

  lemma {:induction false} KeepingConcat(a: seq<OutboxRow>, b: seq<OutboxRow>, gone: set<Name>)
    requires |b| <= 1
    ensures Keeping(a + b, gone) == Keeping(a, gone) + Keeping(b, gone)
  {
    if b == [] {
      assert a + b == a;
    } else {
      assert Init(a + b) == a && Init(b) == [];
    }
  }

  lemma {:induction false} KeepingOneLess(rows: seq<OutboxRow>, gone: set<Name>, n: Name)
    ensures Keeping(Keeping(rows, gone), {n}) == Keeping(rows, gone + {n})
  {
    if rows != [] {
      KeepingOneLess(Init(rows), gone, n);
      var last := if Last(rows).channel.notifier in gone then [] else [Last(rows)];
      KeepingConcat(Keeping(Init(rows), gone), last, {n});
      assert last != [] ==> Init(last) == [];
    }
  }

  lemma {:induction false} KeepingSparesOthers(rows: seq<OutboxRow>, gone: set<Name>, valid: set<Name>)
    requires gone !! valid
    ensures forall c: Channel :: c.notifier in valid ==> RowsOn(c, Keeping(rows, gone)) == RowsOn(c, rows)
  {
    if rows != [] {
      KeepingSparesOthers(Init(rows), gone, valid);
      var kept := Keeping(Init(rows), gone);
      assert kept + [] == kept;
      assert Init(kept + [Last(rows)]) == kept && Last(kept + [Last(rows)]) == Last(rows);
    }
  }

  lemma {:induction false} KeepingIsWithoutNotifiers(rows: seq<OutboxRow>, gone: set<Name>, valid: set<Name>)
    requires gone !! valid
    requires forall r :: r in rows ==> r.channel.notifier in gone || r.channel.notifier in valid
    ensures Keeping(rows, gone) == WithoutNotifiers(rows, valid)
  {
    if rows != [] {
      assert forall r :: r in Init(rows) ==> r in rows;
      assert Last(rows) in rows;
      KeepingIsWithoutNotifiers(Init(rows), gone, valid);
    }
  }
}
