/** internal/alert/dispatcher.go: one notifier's dispatcher draining its own queue. The methods
    run without interference; Outbox and Wakeups below take the interleavings. */
module Dispatchers {
  import opened Domain
  import opened Decision
  import opened Tables
  import opened Stores
  import Outbox

  /** The webhook end. Its environment says whether the i-th body is refused. */
  class Sender {
    const refuses: nat -> bool
    var accepted: seq<Value>
    var refused: seq<Value>

    constructor (refuses: nat -> bool)
      ensures this.refuses == refuses && accepted == refused == []
    {
      this.refuses, accepted, refused := refuses, [], [];
    }

    method Send(body: Value) returns (ok: bool)
      modifies this
      ensures ok == !refuses(|old(accepted)| + |old(refused)|)
      ensures accepted == if ok then old(accepted) + [body] else old(accepted)
      ensures refused == if ok then old(refused) else old(refused) + [body]
    {
      ok := !refuses(|accepted| + |refused|);
      if ok {
        accepted := accepted + [body];
      } else {
        refused := refused + [body];
      }
    }
  }

  /** The context. Its environment says from which look on it is cancelled, if ever. */
  class Context {
    const until: Option<nat>
    var looks: nat

    constructor (until: Option<nat>)
      ensures this.until == until && looks == 0
    {
      this.until, looks := until, 0;
    }

    method Done() returns (done: bool)
      modifies this
      ensures looks == old(looks) + 1 && done == CancelledAt(until, old(looks))
    {
      done := until.Some? && looks >= until.value;
      looks := looks + 1;
    }
  }

  predicate CancelledAt(until: Option<nat>, look: nat) { until.Some? && look >= until.value }

  function Bodies(rows: seq<OutboxRow>): (bs: seq<Value>)
    ensures |bs| == |rows| && forall i :: 0 <= i < |bs| ==> bs[i] == rows[i].body
  {
    seq(|rows|, i requires 0 <= i < |rows| => rows[i].body)
  }

  /** The queue of each channel, oldest row first. */
  type Queues = Channel -> seq<OutboxRow>

  function QueuesIn(rows: seq<OutboxRow>): Queues { (c: Channel) => RowsOn(c, rows) }

  /** Everything a dispatcher can change: the queues, what the receiver took and refused, and
      its reads and writes of the queue, with the failed ones of these. */
  datatype Ledger = Ledger(
    queues: Queues, accepted: seq<Value>, refused: seq<Value>, queueReads: nat, queueWrites: nat, writeErrors: nat)

  /** What it can only find out: which reads, sends and writes fail. */
  datatype World = World(unreadable: nat -> bool, refuses: nat -> bool, unwritable: nat -> bool)

  /** Why a drain ended. */
  datatype Stop = Drained | Refused | Undeleted | Unread | Cancelled

  datatype Turn = Advanced | Ended(stop: Stop)

  /** No channel but c has changed. */
  ghost predicate Untouched(c: Channel, was: Queues, now: Queues) {
    forall d: Channel :: d != c ==> now(d) == was(d)
  }

  function One(b: bool): nat { if b then 1 else 0 }

  /** What turn k of a drain comes to, where the drain began with this ledger and a queue of
      that length: it reads, sends and deletes the head. */
  function TurnAt(w: World, was: Ledger, length: nat, k: nat): Turn {
    if w.unreadable(was.queueReads + k) then Ended(Unread)
    else if k == length then Ended(Drained)
    else if w.refuses(|was.accepted| + |was.refused| + k) then Ended(Refused)
    else if w.unwritable(was.queueWrites + k) then Ended(Undeleted)
    else Advanced
  }

  function Sent(turn: Turn): bool { turn.Advanced? || turn.stop == Undeleted }

  /** One turn on channel c: what it must come to, and what that does. */
  ghost predicate TurnOf(w: World, c: Channel, was: Ledger, now: Ledger, turn: Turn) {
    var queue, wrote := Bodies(was.queues(c)), Sent(turn) || turn == Ended(Refused);
    && turn == TurnAt(w, was, |queue|, 0)
    && Untouched(c, was.queues, now.queues)
    && (wrote ==> queue != [])
    && now.queues(c) == RowsLeft(was.queues(c), One(turn.Advanced?),
                                 turn == Ended(Refused) && !w.unwritable(was.queueWrites))
    && now.accepted == was.accepted + (if Sent(turn) then [queue[0]] else [])
    && now.refused == was.refused + (if turn == Ended(Refused) then [queue[0]] else [])
    && now.queueReads == was.queueReads + 1 && now.queueWrites == was.queueWrites + One(wrote)
    && now.writeErrors == was.writeErrors + One(wrote && w.unwritable(was.queueWrites))
  }

  const SEND_FAILED := "send failed"

  function Marked(row: OutboxRow): OutboxRow { row.(attempts := row.attempts + 1, lastError := SEND_FAILED) }

  /** The rows left once so many are gone, the next one marked with a failed attempt or not. */
  function RowsLeft(rows: seq<OutboxRow>, gone: nat, marked: bool): seq<OutboxRow> {
    if gone >= |rows| then []
    else if marked then [Marked(rows[gone])] + rows[gone + 1..]
    else rows[gone..]
  }

  lemma RefusedTurn(w: World, c: Channel, was: Ledger, now: Ledger)
    requires Untouched(c, was.queues, now.queues) && was.queues(c) != []
    requires now.queues(c) == RowsLeft(was.queues(c), 0, !w.unwritable(was.queueWrites))
    requires !w.unreadable(was.queueReads) && w.refuses(|was.accepted| + |was.refused|)
    requires now.accepted == was.accepted && now.refused == was.refused + [was.queues(c)[0].body]
    requires now.queueReads == was.queueReads + 1 && now.queueWrites == was.queueWrites + 1
    requires now.writeErrors == was.writeErrors + One(w.unwritable(was.queueWrites))
    ensures TurnOf(w, c, was, now, Ended(Refused))
  {
  }

  lemma SameBodies(rows: seq<OutboxRow>, gone: nat, marked: bool)
    requires gone <= |rows|
    ensures Bodies(RowsLeft(rows, gone, marked)) == Bodies(rows)[gone..]
  {
  }

  lemma AcceptedTurn(w: World, c: Channel, was: Ledger, now: Ledger, deleted: bool)
    requires Untouched(c, was.queues, now.queues) && was.queues(c) != []
    requires now.queues(c) == if deleted then was.queues(c)[1..] else was.queues(c)
    requires !w.unreadable(was.queueReads) && !w.refuses(|was.accepted| + |was.refused|)
    requires deleted == !w.unwritable(was.queueWrites)
    requires now.accepted == was.accepted + [was.queues(c)[0].body] && now.refused == was.refused
    requires now.queueReads == was.queueReads + 1 && now.queueWrites == was.queueWrites + 1
    requires now.writeErrors == was.writeErrors + One(!deleted)
    ensures TurnOf(w, c, was, now, if deleted then Advanced else Ended(Undeleted))
  {
    assert Bodies(was.queues(c)[1..]) == Bodies(was.queues(c))[1..];
  }

  /** Nothing fails in the first n turns. */
  ghost predicate Smooth(w: World, was: Ledger, length: nat, n: nat) {
    n == 0 || (Smooth(w, was, length, n - 1) && TurnAt(w, was, length, n - 1).Advanced?)
  }

  /** The first n bodies were accepted and are gone, and nothing has failed. */
  ghost predicate Sends(w: World, c: Channel, was: Ledger, now: Ledger, n: nat) {
    var queue := Bodies(was.queues(c));
    && Untouched(c, was.queues, now.queues)
    && n <= |queue| && now.queues(c) == RowsLeft(was.queues(c), n, false) && now.accepted == was.accepted + queue[..n]
    && now.refused == was.refused && now.writeErrors == was.writeErrors
    && now.queueReads == was.queueReads + n && now.queueWrites == was.queueWrites + n
    && Smooth(w, was, |queue|, n)
  }

  /** What a drain that accepted n bodies leaves of its queue, by why it ended. */
  ghost predicate Leaves(stop: Stop, n: nat, was: seq<Value>, now: seq<Value>) {
    && n <= |was|
    && (if stop == Undeleted then n > 0 && now == was[n - 1..] else now == was[n..])
    && (stop == Drained ==> now == [])
    && (stop == Refused ==> now != [])
  }

  /** What it adds to the totals. */
  ghost predicate Adds(queue: seq<Value>, was: Ledger, now: Ledger, n: nat, stop: Stop) {
    && n <= |queue| && (stop == Refused ==> n < |queue|)
    && now.accepted == was.accepted + queue[..n]
    && now.refused == was.refused + (if stop == Refused then [queue[n]] else [])
    && One(stop == Undeleted) <= now.writeErrors - was.writeErrors <= One(stop == Undeleted) + One(stop == Refused)
  }

  /** The end is the first turn that does not go well, unless the context is cancelled before
      it; and so many reads and writes were made. */
  ghost predicate EndsAt(w: World, was: Ledger, now: Ledger, length: nat, turns: nat, stop: Stop) {
    var wrote := stop == Refused || stop == Undeleted;
    && Smooth(w, was, length, turns)
    && (stop != Cancelled ==> TurnAt(w, was, length, turns) == Ended(stop))
    && now.queueReads == was.queueReads + turns + One(stop != Cancelled)
    && now.queueWrites == was.queueWrites + turns + One(wrote)
    && now.writeErrors == was.writeErrors + One(wrote && w.unwritable(was.queueWrites + turns))
  }

  /** A whole drain: so many turns that went well, the bodies accepted in order, and an end. */
  ghost predicate DrainOf(w: World, c: Channel, was: Ledger, now: Ledger, turns: nat, stop: Stop) {
    var queue, n := Bodies(was.queues(c)), Accepted(turns, stop);
    && Untouched(c, was.queues, now.queues)
    && now.queues(c) == RowsLeft(was.queues(c), turns, stop == Refused && !w.unwritable(was.queueWrites + turns))
    && Leaves(stop, n, queue, Bodies(now.queues(c)))
    && Adds(queue, was, now, n, stop)
    && EndsAt(w, was, now, |queue|, turns, stop)
  }

  /** A body whose delete failed was accepted too. */
  function Accepted(turns: nat, stop: Stop): nat { turns + One(stop == Undeleted) }

  lemma SendsOneMore(w: World, c: Channel, was: Ledger, before: Ledger, now: Ledger, n: nat)
    requires Sends(w, c, was, before, n) && TurnOf(w, c, before, now, Advanced)
    ensures Sends(w, c, was, now, n + 1)
  {
    SameBodies(was.queues(c), n, false);
    TakeOne(was.accepted, Bodies(was.queues(c)), n);
    TurnFrom(w, c, was, before, n);
    LeftOfLeft(was.queues(c), n, 1, false);
  }

  lemma LeftOfLeft(rows: seq<OutboxRow>, n: nat, m: nat, marked: bool)
    requires n <= |rows|
    ensures RowsLeft(RowsLeft(rows, n, false), m, marked) == RowsLeft(rows, n + m, marked)
  {
  }

  /** A later turn of the drain, seen from its start. */
  lemma TurnFrom(w: World, c: Channel, was: Ledger, before: Ledger, n: nat)
    requires Sends(w, c, was, before, n)
    ensures TurnAt(w, before, |Bodies(before.queues(c))|, 0) == TurnAt(w, was, |Bodies(was.queues(c))|, n)
  {
  }

  lemma EndRows(w: World, c: Channel, was: Ledger, before: Ledger, now: Ledger, n: nat, stop: Stop)
    requires Sends(w, c, was, before, n) && TurnOf(w, c, before, now, Ended(stop))
    ensures now.queues(c) == RowsLeft(was.queues(c), n, stop == Refused && !w.unwritable(was.queueWrites + n))
  {
    LeftOfLeft(was.queues(c), n, 0, stop == Refused && !w.unwritable(was.queueWrites + n));
  }

  /** The same by the bodies, and what is empty at the end. */
  lemma EndLeaves(stop: Stop, n: nat, was: seq<OutboxRow>, marked: bool)
    requires n <= |was| && (stop == Drained ==> n == |was|)
    requires stop == Undeleted || stop == Refused ==> n < |was|
    ensures Leaves(stop, Accepted(n, stop), Bodies(was), Bodies(RowsLeft(was, n, marked)))
  {
    SameBodies(was, n, marked);
  }

  lemma EndAdds(w: World, c: Channel, was: Ledger, before: Ledger, now: Ledger, n: nat, stop: Stop)
    requires Sends(w, c, was, before, n) && TurnOf(w, c, before, now, Ended(stop))
    ensures Adds(Bodies(was.queues(c)), was, now, Accepted(n, stop), stop)
  {
    SameBodies(was.queues(c), n, false);
    if stop == Undeleted || stop == Refused {
      TakeOne(was.accepted, Bodies(was.queues(c)), n);
    }
  }

  lemma EndIs(w: World, c: Channel, was: Ledger, before: Ledger, now: Ledger, n: nat, stop: Stop)
    requires Sends(w, c, was, before, n) && TurnOf(w, c, before, now, Ended(stop))
    ensures EndsAt(w, was, now, |Bodies(was.queues(c))|, n, stop)
  {
    TurnFrom(w, c, was, before, n);
  }

  lemma DrainEnds(w: World, c: Channel, was: Ledger, before: Ledger, now: Ledger, n: nat, stop: Stop)
    requires Sends(w, c, was, before, n) && TurnOf(w, c, before, now, Ended(stop))
    ensures DrainOf(w, c, was, now, n, stop)
  {
    EndRows(w, c, was, before, now, n, stop);
    EndLeaves(stop, n, was.queues(c), stop == Refused && !w.unwritable(was.queueWrites + n));
    EndAdds(w, c, was, before, now, n, stop);
    EndIs(w, c, was, before, now, n, stop);
  }

  lemma DrainCancelled(w: World, c: Channel, was: Ledger, now: Ledger, n: nat)
    requires Sends(w, c, was, now, n)
    ensures DrainOf(w, c, was, now, n, Cancelled)
  {
    EndLeaves(Cancelled, n, was.queues(c), false);
  }

  class Dispatcher {
    const notifier: Name
    const sender: Sender
    const store: Store
    // The one-slot wake channel.
    var wake: bool

    constructor (notifier: Name, sender: Sender, store: Store)
      ensures this.notifier == notifier && this.sender == sender && this.store == store && !wake
    {
      this.notifier, this.sender, this.store, wake := notifier, sender, store, false;
    }

    /** A full slot is left as it is. */
    method Wake()
      modifies this`wake
      ensures wake
    {
      if !wake {
        wake := true;
      }
    }

    ghost function State(): Ledger
      reads store, sender
    {
      Ledger(QueuesIn(store.outbox), sender.accepted, sender.refused,
             store.queueReads, store.queueWrites, store.writeErrors)
    }

    ghost function Outside(): World { World(store.unreadable, sender.refuses, store.unwritable) }

    /** One turn of the drain loop: read the head, send it, delete it. */
    method SendHead(key: Key) returns (turn: Turn)
      requires AscendingIds(store.outbox)
      modifies store`outbox, store`writeErrors, store`queueReads, store`queueWrites, sender
      ensures AscendingIds(store.outbox)
      ensures TurnOf(Outside(), Channel(notifier, key), old(State()), State(), turn)
    {
      ghost var was := State();
      var c := Channel(notifier, key);
      var ok, row := store.NextPending(c);
      if !ok {
        return Ended(Unread);
      }
      if row.None? {
        return Ended(Drained);
      }
      HeadIs(store.outbox, c, row.value);
      turn := Deliver(c, row.value, was);
    }

    /** The rest of a turn that has read a row. */
    method Deliver(c: Channel, row: OutboxRow, ghost was: Ledger) returns (turn: Turn)
      requires AscendingIds(store.outbox) && RowsOn(c, store.outbox) != [] && RowsOn(c, store.outbox)[0] == row
      requires State() == was.(queueReads := was.queueReads + 1) && !store.unreadable(was.queueReads)
      modifies store`outbox, store`writeErrors, store`queueWrites, sender
      ensures AscendingIds(store.outbox)
      ensures TurnOf(Outside(), c, was, State(), turn)
    {
      ghost var before := store.outbox;
      var sent := sender.Send(row.body);
      if !sent {
        var marked := store.FailOutbox(row.id, SEND_FAILED);
        FailMarksHead(before, c, row, store.outbox, marked);
        RefusedTurn(Outside(), c, was, State());
        return Ended(Refused);
      }
      var deleted := store.DeleteOutbox(row.id);
      if deleted {
        DeleteTakesHead(before, c, row);
      }
      AcceptedTurn(Outside(), c, was, State(), deleted);
      return if deleted then Advanced else Ended(Undeleted);
    }

    /** Sends a target's queue in order and goes on until the queue is empty, its own send,
        delete or read fails, or a look at the context finds it cancelled, whichever is first.
        The receiver accepted a body each turn, and they are gone from the queue, but for the
        last one when its delete failed. No other channel is touched. */
    method DrainTarget(key: Key, ctx: Context) returns (ghost turns: nat, ghost stop: Stop)
      requires AscendingIds(store.outbox)
      modifies store`outbox, store`writeErrors, store`queueReads, store`queueWrites, sender, ctx
      ensures AscendingIds(store.outbox)
      ensures DrainOf(Outside(), Channel(notifier, key), old(State()), State(), turns, stop)
      ensures Looked(ctx.until, old(ctx.looks), turns, stop) && ctx.looks == old(ctx.looks) + turns + 1
    {
      turns := 0;
      ghost var looks := ctx.looks;
      ghost var c, was := Channel(notifier, key), State();
      ghost var length := |was.queues(c)|;
      while true
        invariant AscendingIds(store.outbox) && turns <= length && Sends(Outside(), c, was, State(), turns)
        invariant ctx.looks == looks + turns && NotCancelled(ctx.until, looks, turns)
        decreases length - turns
      {
        var cancelled := ctx.Done();
        if cancelled {
          stop := Cancelled;
          DrainCancelled(Outside(), c, was, State(), turns);
          return;
        }
        var turn := SendNext(key, was, turns);
        if turn.Ended? {
          stop := turn.stop;
          return;
        }
        turns := turns + 1;
      }
    }

    /** A turn, seen from the start of its drain. */
    method SendNext(key: Key, ghost was: Ledger, ghost n: nat) returns (turn: Turn)
      requires AscendingIds(store.outbox) && Sends(Outside(), Channel(notifier, key), was, State(), n)
      modifies store`outbox, store`writeErrors, store`queueReads, store`queueWrites, sender
      ensures AscendingIds(store.outbox) && turn != Ended(Cancelled)
      ensures turn.Advanced? ==> Sends(Outside(), Channel(notifier, key), was, State(), n + 1)
      ensures turn.Advanced? ==> n < |was.queues(Channel(notifier, key))|
      ensures turn.Ended? ==> DrainOf(Outside(), Channel(notifier, key), was, State(), n, turn.stop)
    {
      ghost var before := State();
      turn := SendHead(key);
      if turn.Ended? {
        DrainEnds(Outside(), Channel(notifier, key), was, before, State(), n, turn.stop);
      } else {
        SendsOneMore(Outside(), Channel(notifier, key), was, before, State(), n);
      }
    }

    /** One pass. When the scan succeeds every target that had something queued is drained,
        once, unless a look at the context between two targets finds it cancelled. Each drain
        ends for a reason of its own: an empty queue, its own failed send, delete or read, or
        a cancellation. So a failing target holds up no other. What was accepted, refused and
        failed is what these drains did, and no other queue is touched. */
    method DispatchOnce(ctx: Context) returns (ghost scanned: bool, ghost left: bool, ghost pass: Pass)
      requires AscendingIds(store.outbox)
      modifies store`outbox, store`writeErrors, store`queueReads, store`queueWrites, sender, ctx
      ensures AscendingIds(store.outbox) && NoDuplicates(Visited(pass))
      ensures scanned <==> !store.unreadable(old(store.queueReads))
      ensures !scanned ==> pass.Begun? && !left && State() == ReadOnce(old(State())) && ctx.looks == old(ctx.looks)
      ensures scanned ==> PassOf(Outside(), notifier, ReadOnce(old(State())), State(), pass)
      ensures scanned ==> AddsUp(notifier, ReadOnce(old(State())), State(), pass)
      ensures scanned ==> LooksOf(ctx.until, old(ctx.looks), ctx.looks, left, pass)
      ensures scanned && !left ==>
                forall k :: HasQueued(notifier, old(store.outbox), k) ==> k in Visited(pass)
    {
      scanned, left := true, false;
      ghost var was := State();
      var pending := Scan();
      pass := Begun(State());
      if pending.None? {
        scanned := false;
        return;
      }
      left, pass := DrainAll(pending.value, ctx);
      PassAddsUp(Outside(), notifier, ReadOnce(was), pass);
    }

    /** The scan that a pass starts with. */
    method Scan() returns (pending: Option<seq<Key>>)
      modifies store`queueReads
      ensures State() == ReadOnce(old(State())) && (pending.None? <==> store.unreadable(old(store.queueReads)))
      ensures pending.Some? ==> NoDuplicates(pending.value)
      ensures pending.Some? ==> forall k :: HasQueued(notifier, store.outbox, k) ==> k in pending.value
    {
      pending := store.PendingKeys(notifier);
      if pending.Some? {
        QueuedArePending(notifier, store.outbox, pending.value);
      }
    }

    /** The loop over the targets. */
    method DrainAll(keys: seq<Key>, ctx: Context) returns (ghost left: bool, ghost pass: Pass)
      requires AscendingIds(store.outbox) && NoDuplicates(keys)
      modifies store`outbox, store`writeErrors, store`queueReads, store`queueWrites, sender, ctx
      ensures AscendingIds(store.outbox) && Visited(pass) <= keys && (!left ==> Visited(pass) == keys)
      ensures PassOf(Outside(), notifier, old(State()), State(), pass)
      ensures LooksOf(ctx.until, old(ctx.looks), ctx.looks, left, pass)
    {
      left, pass := false, Begun(State());
      ghost var was, looks := State(), ctx.looks;
      for i := 0 to |keys|
        invariant AscendingIds(store.outbox) && !left && Visited(pass) == keys[..i]
        invariant PassOf(Outside(), notifier, was, State(), pass)
        invariant LooksOf(ctx.until, looks, ctx.looks, false, pass)
      {
        var leave: bool;
        leave, pass := Visit(keys[i], ctx, was, looks, pass);
        if leave {
          left := true;
          return;
        }
        assert keys[..i + 1] == keys[..i] + [keys[i]];
      }
      assert keys[..|keys|] == keys;
    }

    /** One turn of it: a look at the context, and the drain unless that ends the pass. */
    method Visit(key: Key, ctx: Context, ghost was: Ledger, ghost looks: nat, ghost pass: Pass)
      returns (leave: bool, ghost more: Pass)
      requires AscendingIds(store.outbox) && PassOf(Outside(), notifier, was, State(), pass)
      requires LooksOf(ctx.until, looks, ctx.looks, false, pass)
      modifies store`outbox, store`writeErrors, store`queueReads, store`queueWrites, sender, ctx
      ensures AscendingIds(store.outbox) && Visited(more) == Visited(pass) + if leave then [] else [key]
      ensures PassOf(Outside(), notifier, was, State(), more)
      ensures LooksOf(ctx.until, looks, ctx.looks, leave, more)
    {
      ghost var seen := ctx.looks;
      more := pass;
      var cancelled := ctx.Done();
      leave := *;
      // With a slot free and the context cancelled, either may be taken.
      leave := leave && cancelled;
      if leave {
        LastLook(ctx.until, looks, seen, pass);
        return;
      }
      ghost var turns, stop := DrainTarget(key, ctx);
      ghost var drain := Drain(key, turns, stop);
      PassSnoc(Outside(), notifier, was, State(), pass, drain);
      LooksSnoc(ctx.until, looks, seen, pass, drain, State());
      more := More(pass, drain, State());
    }
  }

  /** The looks at the context of one drain: the end is a cancellation if and only if the last
      of them says so, and none before it does. */
  ghost predicate Looked(until: Option<nat>, before: nat, turns: nat, stop: Stop) {
    && (stop == Cancelled <==> CancelledAt(until, before + turns))
    && NotCancelled(until, before, turns)
  }

  ghost predicate NotCancelled(until: Option<nat>, before: nat, turns: nat) {
    turns > 0 ==> !CancelledAt(until, before + turns - 1)
  }

  lemma {:induction false} SmoothAt(w: World, was: Ledger, length: nat, n: nat, k: nat)
    requires Smooth(w, was, length, n) && k < n
    ensures TurnAt(w, was, length, k).Advanced?
  {
    if k < n - 1 {
      SmoothAt(w, was, length, n - 1, k);
    }
  }

  /** A drain has no choice: its environment determines where it ends, and why. */
  lemma DrainIsDetermined(
    w: World, was: Ledger, length: nat, until: Option<nat>, looks: nat,
    one: Ledger, turns: nat, stop: Stop, other: Ledger, otherTurns: nat, otherStop: Stop)
    requires EndsAt(w, was, one, length, turns, stop) && Looked(until, looks, turns, stop)
    requires EndsAt(w, was, other, length, otherTurns, otherStop) && Looked(until, looks, otherTurns, otherStop)
    ensures turns == otherTurns && stop == otherStop
  {
    if turns < otherTurns {
      SmoothAt(w, was, length, otherTurns, turns);
    } else if otherTurns < turns {
      SmoothAt(w, was, length, turns, otherTurns);
    }
  }

  function ReadOnce(l: Ledger): Ledger { l.(queueReads := l.queueReads + 1) }

  /** History of one drain of a pass, and of a pass: its drains, and the ledger after each. */
  datatype Drain = Drain(key: Key, turns: nat, stop: Stop)

  datatype Pass = Begun(now: Ledger) | More(before: Pass, drain: Drain, now: Ledger)

  function Visited(pass: Pass): seq<Key> {
    match pass
    case Begun(_) => []
    case More(before, d, _) => Visited(before) + [d.key]
  }

  /** The looks at the context of a pass: one before each drain, and its own. */
  function Looks(pass: Pass): nat {
    match pass
    case Begun(_) => 0
    case More(before, d, _) => Looks(before) + 1 + d.turns + 1
  }

  ghost predicate DrainsLooked(until: Option<nat>, looks: nat, pass: Pass) {
    match pass
    case Begun(_) => true
    case More(before, d, _) =>
      DrainsLooked(until, looks, before) && Looked(until, looks + Looks(before) + 1, d.turns, d.stop)
  }

  /** A pass that was left early had one more look, which found the context cancelled. */
  ghost predicate LooksOf(until: Option<nat>, before: nat, now: nat, left: bool, pass: Pass) {
    && DrainsLooked(until, before, pass)
    && now == before + Looks(pass) + One(left)
    && (left ==> CancelledAt(until, before + Looks(pass)))
  }

  lemma LastLook(until: Option<nat>, before: nat, looks: nat, pass: Pass)
    requires LooksOf(until, before, looks, false, pass) && CancelledAt(until, looks)
    ensures LooksOf(until, before, looks + 1, true, pass)
  {
  }

  lemma LooksSnoc(until: Option<nat>, before: nat, looks: nat, pass: Pass, d: Drain, now: Ledger)
    requires LooksOf(until, before, looks, false, pass) && Looked(until, looks + 1, d.turns, d.stop)
    ensures LooksOf(until, before, looks + d.turns + 2, false, More(pass, d, now))
  {
  }

  ghost predicate DrainsOf(w: World, notifier: Name, was: Ledger, pass: Pass) {
    match pass
    case Begun(now) => now == was
    case More(before, d, now) =>
      DrainsOf(w, notifier, was, before) && DrainOf(w, Channel(notifier, d.key), before.now, now, d.turns, d.stop)
  }

  /** A pass is its drains, one after the other. */
  ghost predicate PassOf(w: World, notifier: Name, was: Ledger, now: Ledger, pass: Pass) {
    DrainsOf(w, notifier, was, pass) && pass.now == now
  }

  lemma PassSnoc(w: World, notifier: Name, was: Ledger, now: Ledger, pass: Pass, d: Drain)
    requires DrainsOf(w, notifier, was, pass)
    requires DrainOf(w, Channel(notifier, d.key), pass.now, now, d.turns, d.stop)
    ensures PassOf(w, notifier, was, now, More(pass, d, now))
  {
  }

  function SentBy(d: Drain): nat { Accepted(d.turns, d.stop) }

  ghost predicate AllLeave(notifier: Name, was: Queues, now: Queues, pass: Pass) {
    match pass
    case Begun(_) => true
    case More(before, d, _) =>
      var c := Channel(notifier, d.key);
      AllLeave(notifier, was, now, before) && Leaves(d.stop, SentBy(d), Bodies(was(c)), Bodies(now(c)))
  }

  /** Each visited queue went as its drain says, and no other queue changed. */
  ghost predicate Accounts(notifier: Name, was: Queues, now: Queues, pass: Pass) {
    && (forall c: Channel :: c.notifier != notifier || c.key !in Visited(pass) ==> now(c) == was(c))
    && AllLeave(notifier, was, now, pass)
  }

  lemma {:induction false} LeavesStay(notifier: Name, was: Queues, before: Queues, now: Queues, pass: Pass)
    requires AllLeave(notifier, was, before, pass)
    requires forall k :: k in Visited(pass) ==> now(Channel(notifier, k)) == before(Channel(notifier, k))
    ensures AllLeave(notifier, was, now, pass)
  {
    if pass.More? {
      assert pass.drain.key in Visited(pass);
      LeavesStay(notifier, was, before, now, pass.before);
    }
  }

  lemma AccountsSnoc(notifier: Name, was: Queues, before: Queues, now: Queues, pass: Pass, d: Drain, after: Ledger)
    requires Accounts(notifier, was, before, pass) && d.key !in Visited(pass)
    requires var c := Channel(notifier, d.key);
             Untouched(c, before, now) && Leaves(d.stop, SentBy(d), Bodies(before(c)), Bodies(now(c)))
    ensures before(Channel(notifier, d.key)) == was(Channel(notifier, d.key))
    ensures Accounts(notifier, was, now, More(pass, d, after))
  {
    var drained := Channel(notifier, d.key);
    forall c: Channel | c.notifier != notifier || c.key !in Visited(pass) + [d.key]
      ensures now(c) == was(c)
    {
      assert c != drained && before(c) == was(c);
    }
    LeavesStay(notifier, was, before, now, pass);
  }

  function Count(stop: Stop, pass: Pass): nat {
    match pass
    case Begun(_) => 0
    case More(before, d, _) => Count(stop, before) + One(d.stop == stop)
  }

  /** The bodies accepted in a pass: of each drained queue the part that was sent. */
  function AcceptedIn(notifier: Name, was: Queues, pass: Pass): seq<Value> {
    match pass
    case Begun(_) => []
    case More(before, d, _) =>
      var queue := Bodies(was(Channel(notifier, d.key)));
      AcceptedIn(notifier, was, before) + if SentBy(d) <= |queue| then queue[..SentBy(d)] else []
  }

  /** The bodies refused in a pass: the next one of each queue whose send failed. */
  function RefusedIn(notifier: Name, was: Queues, pass: Pass): seq<Value> {
    match pass
    case Begun(_) => []
    case More(before, d, _) =>
      var queue := Bodies(was(Channel(notifier, d.key)));
      RefusedIn(notifier, was, before)
      + if d.stop == Refused && SentBy(d) < |queue| then [queue[SentBy(d)]] else []
  }

  ghost predicate AddsUp(notifier: Name, was: Ledger, now: Ledger, pass: Pass) {
    Accounts(notifier, was.queues, now.queues, pass) && Totals(notifier, was, now, pass)
  }

  ghost predicate Totals(notifier: Name, was: Ledger, now: Ledger, pass: Pass) {
    && now.accepted == was.accepted + AcceptedIn(notifier, was.queues, pass)
    && now.refused == was.refused + RefusedIn(notifier, was.queues, pass)
    && Count(Undeleted, pass) <= now.writeErrors - was.writeErrors <= Count(Undeleted, pass) + Count(Refused, pass)
  }

  lemma Associative(a: seq<Value>, b: seq<Value>, c: seq<Value>)
    ensures (a + b) + c == a + (b + c)
  {
  }

  lemma TotalsSnoc(notifier: Name, was: Ledger, before: Ledger, now: Ledger, pass: Pass, d: Drain)
    requires Totals(notifier, was, before, pass)
    requires Adds(Bodies(was.queues(Channel(notifier, d.key))), before, now, SentBy(d), d.stop)
    ensures Totals(notifier, was, now, More(pass, d, now))
  {
    var queue := Bodies(was.queues(Channel(notifier, d.key)));
    Associative(was.accepted, AcceptedIn(notifier, was.queues, pass), queue[..SentBy(d)]);
    Associative(was.refused, RefusedIn(notifier, was.queues, pass),
                if d.stop == Refused then [queue[SentBy(d)]] else []);
  }

  lemma VisitedOnce(keys: seq<Key>, k: Key)
    requires NoDuplicates(keys + [k])
    ensures NoDuplicates(keys) && k !in keys
  {
    assert forall i :: 0 <= i < |keys| ==> (keys + [k])[i] == keys[i];
    assert (keys + [k])[|keys|] == k;
  }

  /** What the drains of a pass, each of another target, come to. */
  lemma {:induction false} PassAddsUp(w: World, notifier: Name, was: Ledger, pass: Pass)
    requires DrainsOf(w, notifier, was, pass) && NoDuplicates(Visited(pass))
    ensures AddsUp(notifier, was, pass.now, pass)
  {
    match pass
    case Begun(_) =>
    case More(before, d, now) =>
      VisitedOnce(Visited(before), d.key);
      PassAddsUp(w, notifier, was, before);
      AccountsSnoc(notifier, was.queues, before.now.queues, now.queues, before, d, now);
      TotalsSnoc(notifier, was, before.now, now, before, d);
  }

  /** A target with something queued. */
  predicate HasQueued(notifier: Name, rows: seq<OutboxRow>, k: Key) { RowsOn(Channel(notifier, k), rows) != [] }

  lemma QueuedArePending(notifier: Name, rows: seq<OutboxRow>, keys: seq<Key>)
    requires forall k :: k in keys <==> exists r :: r in rows && r.channel == Channel(notifier, k)
    ensures forall k :: HasQueued(notifier, rows, k) ==> k in keys
  {
    forall k | HasQueued(notifier, rows, k) ensures k in keys {
      QueuedHasRow(Channel(notifier, k), rows);
    }
  }

  lemma QueuedHasRow(c: Channel, rows: seq<OutboxRow>)
    requires RowsOn(c, rows) != []
    ensures exists r :: r in rows && r.channel == c
  {
    Outbox.RowsOnMembers(c, rows);
    assert RowsOn(c, rows)[0] in RowsOn(c, rows);
  }

  lemma TakeOne(accepted: seq<Value>, was: seq<Value>, n: nat)
    requires n < |was|
    ensures was[n..][0] == was[n] && was[n..][1..] == was[n + 1..]
    ensures accepted + was[..n] + [was[n]] == accepted + was[..n + 1]
  {
  }

  lemma HeadIs(rows: seq<OutboxRow>, c: Channel, row: OutboxRow)
    requires AscendingIds(rows) && IsOldest(row, c, rows)
    ensures RowsOn(c, rows) != [] && RowsOn(c, rows)[0] == row
  {
    Outbox.OldestIsHead(Outbox.EMPTY.(rows := rows), c, row);
  }

  lemma DeleteTakesHead(rows: seq<OutboxRow>, c: Channel, row: OutboxRow)
    requires AscendingIds(rows) && RowsOn(c, rows) != [] && RowsOn(c, rows)[0] == row
    ensures AscendingIds(WithoutId(rows, row.id))
    ensures RowsOn(c, WithoutId(rows, row.id)) == RowsOn(c, rows)[1..]
    ensures Untouched(c, QueuesIn(rows), QueuesIn(WithoutId(rows, row.id)))
  {
    var p := Outbox.HeadPosition(c, rows);
    Outbox.WithoutIdRemovesOne(rows, p);
    Outbox.RowsOnConcat(c, rows[..p], rows[p + 1..]);
    forall d: Channel | d != c ensures RowsOn(d, WithoutId(rows, row.id)) == RowsOn(d, rows) {
      Outbox.RowsOnOther(d, rows, p);
    }
  }

  lemma FailMarksHead(rows: seq<OutboxRow>, c: Channel, row: OutboxRow, after: seq<OutboxRow>, marked: bool)
    requires AscendingIds(rows) && RowsOn(c, rows) != [] && RowsOn(c, rows)[0] == row
    requires after == if marked then FailedId(rows, row.id, SEND_FAILED) else rows
    ensures AscendingIds(after)
    ensures RowsOn(c, after) == RowsLeft(RowsOn(c, rows), 0, marked)
    ensures Untouched(c, QueuesIn(rows), QueuesIn(after))
  {
    if marked {
      Outbox.FailedIdSameQueue(rows, row.id, SEND_FAILED);
      var p := Outbox.HeadPosition(c, rows);
      FailedIdChangesOne(rows, p, SEND_FAILED);
      MarkedHead(rows, c, p);
      forall d: Channel | d != c ensures RowsOn(d, after) == RowsOn(d, rows) {
        FailKeepsOther(d, rows, p, after);
      }
    }
  }

  lemma RowsOnOne(c: Channel, row: OutboxRow)
    requires row.channel == c
    ensures RowsOn(c, [row]) == [row]
  {
    assert Init([row]) == [];
  }

  lemma RowsOnAround(c: Channel, before: seq<OutboxRow>, row: OutboxRow, after: seq<OutboxRow>)
    requires row.channel == c && RowsOn(c, before) == []
    ensures RowsOn(c, before + ([row] + after)) == [row] + RowsOn(c, after)
  {
    Outbox.RowsOnConcat(c, before, [row] + after);
    Outbox.RowsOnConcat(c, [row], after);
    RowsOnOne(c, row);
  }

  lemma MarkedHead(rows: seq<OutboxRow>, c: Channel, p: nat)
    requires p < |rows| && rows[p].channel == c && RowsOn(c, rows) != [] && rows[p] == RowsOn(c, rows)[0]
    requires RowsOn(c, rows[..p]) == [] && RowsOn(c, rows[p + 1..]) == RowsOn(c, rows)[1..]
    ensures RowsOn(c, rows[p := Marked(rows[p])]) == RowsLeft(RowsOn(c, rows), 0, true)
  {
    var row := Marked(rows[p]);
    assert rows[p := row] == rows[..p] + ([row] + rows[p + 1..]);
    RowsOnAround(c, rows[..p], row, rows[p + 1..]);
  }

  /** In the interleavings too: a failed send whose mark went through counts one more attempt on
      the row it read, which stays at the head of its channel. */
  lemma FailedSendIsCounted(s: Outbox.OutboxSys, c: Channel, marked: bool)
    requires Outbox.Inv(s) && Outbox.Enabled(s, Outbox.SendFail(c, SEND_FAILED, marked))
    ensures var after := Outbox.Apply(s, Outbox.SendFail(c, SEND_FAILED, marked));
            && RowsOn(c, s.rows) != [] && RowsOn(c, after.rows) == RowsLeft(RowsOn(c, s.rows), 0, marked)
            && Outbox.HandOf(after, c).Free? && after.receipts == s.receipts
  {
    assert Outbox.LaneOk(c, Outbox.LaneOf(s, c));
    var row := RowsOn(c, s.rows)[0];
    FailMarksHead(s.rows, c, row, if marked then FailedId(s.rows, row.id, SEND_FAILED) else s.rows, marked);
  }

  /** FailOutbox on a live id: that row counts one more attempt and carries the error. */
  lemma FailedIdChangesOne(rows: seq<OutboxRow>, p: nat, error: string)
    requires AscendingIds(rows) && p < |rows|
    ensures FailedId(rows, rows[p].id, error)
         == rows[p := rows[p].(attempts := rows[p].attempts + 1, lastError := error)]
  {
    FailedIdAt(rows, rows[p].id, error);
  }

  lemma {:induction false} FailedIdAt(rows: seq<OutboxRow>, id: int, error: string)
    ensures var after := FailedId(rows, id, error);
            |after| == |rows|
            && forall i :: 0 <= i < |rows| ==>
                 after[i]
                 == if rows[i].id == id then rows[i].(attempts := rows[i].attempts + 1, lastError := error) else rows[i]
  {
    if rows != [] {
      FailedIdAt(Init(rows), id, error);
    }
  }

  lemma FailKeepsOther(d: Channel, rows: seq<OutboxRow>, p: nat, after: seq<OutboxRow>)
    requires p < |rows| == |after| && rows[p].channel != d && after[p].channel != d
    requires forall i :: 0 <= i < |rows| && i != p ==> after[i] == rows[i]
    ensures RowsOn(d, after) == RowsOn(d, rows)
  {
    Outbox.RowsOnOther(d, rows, p);
    Outbox.RowsOnOther(d, after, p);
    assert rows[..p] + rows[p + 1..] == after[..p] + after[p + 1..];
  }
}

/** The loop of Dispatcher.Run against concurrent enqueues. A commit is followed, later, by its
    own Wake; a token waits in a one-slot channel; a pass starts with one scan of the queue,
    and a scan that fails ends it. */
module Wakeups {
  import opened Domain

  datatype LoopState = ReadyToScan | InPass | Waiting

  datatype WakeSys = WakeSys(
    committed: nat,         // enqueues committed so far, numbered from 0
    announced: set<nat>,    // those whose Wake has been called
    token: bool,            // the slot is full
    loop: LoopState,
    scanned: nat,           // the latest successful scan saw the commits below this number
    lost: set<nat>)         // if the latest scan failed, the announced commits it was to see

  const START := WakeSys(0, {}, false, ReadyToScan, 0, {})

  datatype Event = Commit | Wake(i: nat) | Scan | ScanFails | EndPass | TakeToken | Tick | Crash

  predicate Enabled(s: WakeSys, e: Event) {
    match e
    case Wake(i) => i < s.committed
    case Scan => s.loop == ReadyToScan
    case ScanFails => s.loop == ReadyToScan
    case EndPass => s.loop == InPass
    case TakeToken => s.loop == Waiting && s.token
    case Tick => s.loop == Waiting
    case _ => true
  }

  function Apply(s: WakeSys, e: Event): WakeSys {
    match e
    case Commit => s.(committed := s.committed + 1)
    case Wake(i) => s.(announced := s.announced + {i}, token := true)
    case Scan => s.(loop := InPass, scanned := s.committed, lost := {})
    case ScanFails => s.(loop := Waiting, lost := set i | i in s.announced && i >= s.scanned)
    case EndPass => s.(loop := Waiting)
    case TakeToken => s.(token := false, loop := ReadyToScan)
    case Tick => s.(loop := ReadyToScan)
    // A restart begins with a pass; rows committed but not announced need it.
    case Crash => s.(token := false, loop := ReadyToScan, lost := {})
  }

  function Run(events: seq<Event>): Option<WakeSys> {
    if events == [] then Some(START)
    else
      var s := Run(Init(events));
      if s.Some? && Enabled(s.value, Last(events)) then Some(Apply(s.value, Last(events))) else None
  }

  /** In every interleaving an announced commit that no scan has seen waits for nothing but the
      next scan or the token, with one exact exception: it was announced before the latest
      scan, that scan failed, and neither the timer nor another commit's Wake has come since. */
  lemma {:induction false} NoLostWakeup(events: seq<Event>)
    requires Run(events).Some?
    ensures var s := Run(events).value;
            && (forall i :: i in s.announced ==> i < s.committed)
            && s.scanned <= s.committed
            && (forall i :: i in s.announced && i >= s.scanned ==>
                  (!s.token && s.loop != ReadyToScan <==> i in s.lost && !s.token && s.loop == Waiting))
  {
    if events != [] {
      NoLostWakeup(Init(events));
    }
  }

  lemma RunSnoc(events: seq<Event>, e: Event)
    requires Run(events).Some? && Enabled(Run(events).value, e)
    ensures Run(events + [e]) == Some(Apply(Run(events).value, e))
  {
    assert Init(events + [e]) == events;
  }

  /** A failed scan has used up its token: here a commit waits for the timer, and is seen when
      the timer fires and the next scan succeeds. */
  lemma FailedScanLosesTheToken()
    ensures var run := Run([Scan, EndPass] + [Commit] + [Wake(0)] + [TakeToken] + [ScanFails]);
            && run.Some? && var s := run.value;
               0 in s.announced && s.scanned == 0 && !s.token && s.loop == Waiting && s.lost == {0}
               && Enabled(s, Tick) && Enabled(Apply(s, Tick), Scan) && Apply(Apply(s, Tick), Scan).scanned == 1
  {
    RunSnoc([], Scan);
    RunSnoc([Scan], EndPass);
    assert [] + [Scan] == [Scan] && [Scan] + [EndPass] == [Scan, EndPass];
    RunSnoc([Scan, EndPass], Commit);
    RunSnoc([Scan, EndPass] + [Commit], Wake(0));
    RunSnoc([Scan, EndPass] + [Commit] + [Wake(0)], TakeToken);
    RunSnoc([Scan, EndPass] + [Commit] + [Wake(0)] + [TakeToken], ScanFails);
  }
}
