/** Whole runs of the delivery queue: enqueues, reads, sends, failed sends, deletes, failed
    deletes and crashes in every order. One drain goroutine per channel holds at most one row,
    because a dispatcher's passes never overlap and visit each target once. Row ids are the
    largest live id plus one, so they come back once the highest rows are gone. A failed read
    changes nothing here and needs no step. */
module Outbox {
  import opened Domain
  import opened Decision
  import opened Tables

  datatype Hand = Free | Holding(row: OutboxRow) | Sent(row: OutboxRow)

  /** History of the enqueued deliveries. */
  datatype Queued = Queued(channel: Channel, view: Observation, body: Value)

  /** A body that the receiver took; position counts the rows deleted on the channel before it. */
  datatype Receipt = Receipt(channel: Channel, position: nat, body: Value)

  datatype OutboxSys = OutboxSys(
    // durable
    rows: seq<OutboxRow>,
    // volatile
    hands: map<Channel, Hand>,
    // history
    queued: seq<Queued>,
    deleted: seq<OutboxRow>,
    receipts: seq<Receipt>)

  const EMPTY := OutboxSys([], map[], [], [], [])

  datatype Event =
    | Insert(key: Key, at: int, ds: seq<Delivery>)
    | Take(c: Channel, row: OutboxRow)
    | SendOk(c: Channel)  // the receiver takes the held body
    | SendFail(c: Channel, error: string, marked: bool)  // right after SendOk: its answer was lost
    | Delete(c: Channel)
    | DeleteFail(c: Channel)
    | Crash

  function HandOf(s: OutboxSys, c: Channel): Hand {
    if c in s.hands then s.hands[c] else Free
  }

  ghost predicate Enabled(s: OutboxSys, e: Event) {
    match e
    case Take(c, row) => HandOf(s, c).Free? && IsOldest(row, c, s.rows)
    case SendOk(c) => HandOf(s, c).Holding?
    case SendFail(c, _, _) => !HandOf(s, c).Free?
    case Delete(c) => HandOf(s, c).Sent?
    case DeleteFail(c) => HandOf(s, c).Sent?
    case _ => true
  }

  function Tagged(key: Key, ds: seq<Delivery>): seq<Queued> {
    if ds == [] then []
    else Tagged(key, Init(ds)) + [Queued(Channel(Last(ds).notifier, key), Last(ds).view, Last(ds).body)]
  }

  function WithId(rows: seq<OutboxRow>, id: int): seq<OutboxRow> {
    if rows == [] then [] else WithId(Init(rows), id) + (if Last(rows).id == id then [Last(rows)] else [])
  }

  function Inserted(s: OutboxSys, key: Key, at: int, ds: seq<Delivery>): OutboxSys {
    s.(rows := InsertRows(s.rows, key, at, ds), queued := s.queued + Tagged(key, ds))
  }

  function Apply(s: OutboxSys, e: Event): OutboxSys {
    match e
    case Insert(key, at, ds) => Inserted(s, key, at, ds)
    case Take(c, row) => s.(hands := s.hands[c := Holding(row)])
    case SendOk(c) =>
      if !HandOf(s, c).Holding? then s
      else
        var row := HandOf(s, c).row;
        s.(hands := s.hands[c := Sent(row)],
           receipts := s.receipts + [Receipt(c, |RowsOn(c, s.deleted)|, row.body)])
    case SendFail(c, error, marked) =>
      if HandOf(s, c).Free? then s
      else
        s.(hands := s.hands[c := Free],
           rows := if marked then FailedId(s.rows, HandOf(s, c).row.id, error) else s.rows)
    case Delete(c) =>
      if !HandOf(s, c).Sent? then s
      else
        var id := HandOf(s, c).row.id;
        s.(hands := s.hands[c := Free],
           rows := WithoutId(s.rows, id),
           deleted := s.deleted + WithId(s.rows, id))
    case DeleteFail(c) => s.(hands := s.hands[c := Free])
    case Crash => s.(hands := map[])
  }

  ghost function Run(events: seq<Event>): Option<OutboxSys> {
    if events == [] then Some(EMPTY)
    else
      var s := Run(Init(events));
      if s.Some? && Enabled(s.value, Last(events)) then Some(Apply(s.value, Last(events))) else None
  }

  // ----- what one channel sees ----------------------------------------------------------

  function QueuedOn(c: Channel, qs: seq<Queued>): seq<Queued> {
    if qs == [] then [] else QueuedOn(c, Init(qs)) + (if Last(qs).channel == c then [Last(qs)] else [])
  }

  function ReceiptsOn(c: Channel, rs: seq<Receipt>): seq<Receipt> {
    if rs == [] then [] else ReceiptsOn(c, Init(rs)) + (if Last(rs).channel == c then [Last(rs)] else [])
  }

  /** A sequence without its adjacent repeats. */
  function Collapse(rs: seq<Receipt>): seq<nat> {
    if rs == [] then []
    else
      var before := Collapse(Init(rs));
      if before != [] && Last(before) == Last(rs).position then before else before + [Last(rs).position]
  }

  function UpTo(m: nat): (r: seq<nat>)
    ensures |r| == m && forall i :: 0 <= i < m ==> r[i] == i
  {
    seq(m, i => i)
  }

  lemma {:induction false} RowsOnConcat(c: Channel, a: seq<OutboxRow>, b: seq<OutboxRow>)
    ensures RowsOn(c, a + b) == RowsOn(c, a) + RowsOn(c, b)
  {
    if b == [] {
      assert a + b == a;
    } else {
      assert Init(a + b) == a + Init(b);
      RowsOnConcat(c, a, Init(b));
    }
  }

  lemma {:induction false} RowsOnMembers(c: Channel, rows: seq<OutboxRow>)
    ensures forall r :: r in RowsOn(c, rows) <==> r in rows && r.channel == c
  {
    if rows != [] {
      RowsOnMembers(c, Init(rows));
      assert rows == Init(rows) + [Last(rows)];
    }
  }

  // ----- the invariant ------------------------------------------------------------------

  /** Everything about one channel: its queue, the rows deleted from it, the deliveries
      enqueued on it, what its receiver took, and its drain goroutine. */
  datatype Lane = Lane(
    queue: seq<OutboxRow>, gone: seq<OutboxRow>, queued: seq<Queued>, receipts: seq<Receipt>, hand: Hand)

  function LaneOf(s: OutboxSys, c: Channel): Lane {
    Lane(RowsOn(c, s.rows), RowsOn(c, s.deleted), QueuedOn(c, s.queued), ReceiptsOn(c, s.receipts), HandOf(s, c))
  }

  /** The row a drain goroutine holds is still queued, under the same id, as the oldest of its
      channel. */
  ghost predicate HeldIsHead(c: Channel, l: Lane) {
    !l.hand.Free? ==>
      var held := l.hand.row;
      l.queue != [] && l.queue[0].id == held.id && l.queue[0].body == held.body && held.channel == c
  }

  /** What was enqueued is what was deleted followed by what is queued. */
  ghost predicate Conserved(l: Lane) {
    && |l.queued| == |l.gone| + |l.queue|
    && (forall i :: 0 <= i < |l.gone| ==> l.gone[i].body == l.queued[i].body)
    && (forall i :: 0 <= i < |l.queue| ==> l.queue[i].body == l.queued[|l.gone| + i].body)
  }

  /** The bodies the receiver took, adjacent repeats collapsed, count up from 0 to the last deleted row
      or to the current head. */
  ghost predicate SentInOrder(l: Lane) {
    var m := |Collapse(l.receipts)|;
    && Collapse(l.receipts) == UpTo(m)
    && |l.gone| <= m <= |l.gone| + 1
    && (m == |l.gone| + 1 ==> l.queue != [])
    && (l.hand.Sent? ==> m == |l.gone| + 1)
  }

  ghost predicate FaithfulBodies(l: Lane) {
    forall i :: 0 <= i < |l.receipts| ==>
      l.receipts[i].position < |l.queued| && l.receipts[i].body == l.queued[l.receipts[i].position].body
  }

  ghost predicate LaneOk(c: Channel, l: Lane) {
    HeldIsHead(c, l) && Conserved(l) && SentInOrder(l) && FaithfulBodies(l)
  }

  ghost predicate Inv(s: OutboxSys) {
    AscendingIds(s.rows) && forall c :: LaneOk(c, LaneOf(s, c))
  }

  // ----- what each event does to a lane ---------------------------------------------------

  lemma RowsOnSnoc(c: Channel, rows: seq<OutboxRow>, row: OutboxRow)
    ensures RowsOn(c, rows + [row]) == RowsOn(c, rows) + (if row.channel == c then [row] else [])
  {
  }

  lemma QueuedOnSnoc(c: Channel, qs: seq<Queued>, q: Queued)
    ensures QueuedOn(c, qs + [q]) == QueuedOn(c, qs) + (if q.channel == c then [q] else [])
  {
  }

  lemma InsertSingle(s: OutboxSys, key: Key, at: int, d: Delivery)
    ensures var target := Channel(d.notifier, key);
            Inserted(s, key, at, [d])
            == s.(rows := s.rows + [OutboxRow(FreshId(s.rows), target, d.body, at, 0, "")],
                  queued := s.queued + [Queued(target, d.view, d.body)])
  {
    assert Init([d]) == [];
    assert InsertRows(s.rows, key, at, []) == s.rows && Tagged(key, []) == [];
    assert Tagged(key, [d]) == [Queued(Channel(d.notifier, key), d.view, d.body)];
  }

  lemma InsertOnLane(s: OutboxSys, key: Key, at: int, d: Delivery, c: Channel)
    ensures var l := LaneOf(s, c);
            var after := Inserted(s, key, at, [d]);
            LaneOf(after, c)
            == if c == Channel(d.notifier, key)
               then l.(queue := l.queue + [OutboxRow(FreshId(s.rows), c, d.body, at, 0, "")],
                       queued := l.queued + [Queued(c, d.view, d.body)])
               else l
  {
    var target := Channel(d.notifier, key);
    InsertSingle(s, key, at, d);
    RowsOnSnoc(c, s.rows, OutboxRow(FreshId(s.rows), target, d.body, at, 0, ""));
    QueuedOnSnoc(c, s.queued, Queued(target, d.view, d.body));
  }

  lemma InsertKeepsLane(c: Channel, l: Lane, row: OutboxRow, q: Queued)
    requires LaneOk(c, l) && row.body == q.body
    ensures LaneOk(c, l.(queue := l.queue + [row], queued := l.queued + [q]))
  {
  }

  lemma InsertOne(s: OutboxSys, key: Key, at: int, d: Delivery)
    requires Inv(s)
    ensures Inv(Inserted(s, key, at, [d]))
  {
    var after := Inserted(s, key, at, [d]);
    forall c ensures LaneOk(c, LaneOf(after, c)) {
      assert LaneOk(c, LaneOf(s, c));
      InsertOnLane(s, key, at, d, c);
      InsertKeepsLane(c, LaneOf(s, c), OutboxRow(FreshId(s.rows), c, d.body, at, 0, ""), Queued(c, d.view, d.body));
    }
    InsertSingle(s, key, at, d);
  }

  lemma {:induction false} InsertKeepsInv(s: OutboxSys, key: Key, at: int, ds: seq<Delivery>)
    requires Inv(s)
    ensures Inv(Inserted(s, key, at, ds))
  {
    if ds == [] {
      assert Inserted(s, key, at, ds) == s;
    } else {
      var before := Inserted(s, key, at, Init(ds));
      InsertKeepsInv(s, key, at, Init(ds));
      InsertOne(before, key, at, Last(ds));
      InsertSingle(before, key, at, Last(ds));
      assert s.queued + Tagged(key, ds)
          == s.queued + Tagged(key, Init(ds)) + [Queued(Channel(Last(ds).notifier, key), Last(ds).view, Last(ds).body)];
      assert Inserted(s, key, at, ds) == Inserted(before, key, at, [Last(ds)]);
    }
  }

  lemma {:induction false} RowsOnAscend(c: Channel, rows: seq<OutboxRow>)
    requires AscendingIds(rows)
    ensures AscendingIds(RowsOn(c, rows))
  {
    if rows != [] {
      RowsOnAscend(c, Init(rows));
      RowsOnMembers(c, Init(rows));
    }
  }

  /** Under ascending ids the oldest row of a channel is the head of its queue. */
  lemma OldestIsHead(s: OutboxSys, c: Channel, row: OutboxRow)
    requires AscendingIds(s.rows) && IsOldest(row, c, s.rows)
    ensures RowsOn(c, s.rows) != [] && RowsOn(c, s.rows)[0] == row
  {
    RowsOnMembers(c, s.rows);
    RowsOnAscend(c, s.rows);
    var queue := RowsOn(c, s.rows);
    assert row in queue && queue[0] in queue;
  }

  lemma HeadIsOldest(c: Channel, rows: seq<OutboxRow>)
    requires AscendingIds(rows) && RowsOn(c, rows) != []
    ensures IsOldest(RowsOn(c, rows)[0], c, rows)
  {
    RowsOnMembers(c, rows);
    RowsOnAscend(c, rows);
    assert RowsOn(c, rows)[0] in RowsOn(c, rows);
  }

  lemma TakeKeepsInv(s: OutboxSys, c: Channel, row: OutboxRow)
    requires Inv(s) && Enabled(s, Take(c, row))
    ensures Inv(Apply(s, Take(c, row)))
  {
    var after := Apply(s, Take(c, row));
    OldestIsHead(s, c, row);
    forall d ensures LaneOk(d, LaneOf(after, d)) {
      assert LaneOk(d, LaneOf(s, d));
      assert LaneOf(after, d) == if d == c then LaneOf(s, d).(hand := Holding(row)) else LaneOf(s, d);
    }
  }

  lemma SendOnLane(s: OutboxSys, c: Channel, d: Channel)
    requires Enabled(s, SendOk(c))
    ensures var l := LaneOf(s, d);
            LaneOf(Apply(s, SendOk(c)), d)
            == if d == c
               then l.(hand := Sent(l.hand.row), receipts := l.receipts + [Receipt(c, |l.gone|, l.hand.row.body)])
               else l
  {
  }

  /** A success on the head either repeats the last receipt or is the next one. */
  lemma SendKeepsLane(c: Channel, l: Lane)
    requires LaneOk(c, l) && l.hand.Holding?
    ensures LaneOk(c, l.(hand := Sent(l.hand.row), receipts := l.receipts + [Receipt(c, |l.gone|, l.hand.row.body)]))
  {
  }

  lemma SendKeepsInv(s: OutboxSys, c: Channel)
    requires Inv(s) && Enabled(s, SendOk(c))
    ensures Inv(Apply(s, SendOk(c)))
  {
    forall d ensures LaneOk(d, LaneOf(Apply(s, SendOk(c)), d)) {
      assert LaneOk(d, LaneOf(s, d));
      SendOnLane(s, c, d);
      if d == c {
        SendKeepsLane(c, LaneOf(s, c));
      }
    }
  }

  /** Same ids, channels and bodies: what FailOutbox leaves alone. */
  ghost predicate SameQueue(a: seq<OutboxRow>, b: seq<OutboxRow>) {
    |a| == |b| && forall i :: 0 <= i < |a| ==>
      a[i].id == b[i].id && a[i].channel == b[i].channel && a[i].body == b[i].body
  }

  lemma {:induction false} FailedIdSameQueue(rows: seq<OutboxRow>, id: int, error: string)
    ensures SameQueue(rows, FailedId(rows, id, error))
  {
    if rows != [] { FailedIdSameQueue(Init(rows), id, error); }
  }

  lemma {:induction false} SameQueueOn(c: Channel, a: seq<OutboxRow>, b: seq<OutboxRow>)
    requires SameQueue(a, b)
    ensures SameQueue(RowsOn(c, a), RowsOn(c, b))
  {
    if a != [] { SameQueueOn(c, Init(a), Init(b)); }
  }

  lemma SameQueueKeepsLane(c: Channel, l: Lane, queue: seq<OutboxRow>, hand: Hand)
    requires LaneOk(c, l) && SameQueue(l.queue, queue) && (hand == l.hand || hand.Free?)
    ensures LaneOk(c, l.(queue := queue, hand := hand))
  {
  }

  lemma SendFailKeepsInv(s: OutboxSys, c: Channel, error: string, marked: bool)
    requires Inv(s) && Enabled(s, SendFail(c, error, marked))
    ensures Inv(Apply(s, SendFail(c, error, marked)))
  {
    var after := Apply(s, SendFail(c, error, marked));
    FailedIdSameQueue(s.rows, HandOf(s, c).row.id, error);
    forall d ensures LaneOk(d, LaneOf(after, d)) {
      assert LaneOk(d, LaneOf(s, d));
      SameQueueOn(d, s.rows, after.rows);
      SameQueueKeepsLane(d, LaneOf(s, d), RowsOn(d, after.rows), HandOf(after, d));
    }
  }

  // ----- delete -------------------------------------------------------------------------

  predicate Lacks(rows: seq<OutboxRow>, id: int) {
    rows == [] || (Last(rows).id != id && Lacks(Init(rows), id))
  }

  lemma {:induction false} LacksFresh(rows: seq<OutboxRow>, id: int)
    requires forall i :: 0 <= i < |rows| ==> rows[i].id != id
    ensures Lacks(rows, id)
  {
    if rows != [] { LacksFresh(Init(rows), id); }
  }

  lemma {:induction false} LackingIsUntouched(rows: seq<OutboxRow>, id: int)
    requires Lacks(rows, id)
    ensures WithId(rows, id) == [] && WithoutId(rows, id) == rows
  {
    if rows != [] {
      LackingIsUntouched(Init(rows), id);
      assert rows == Init(rows) + [Last(rows)];
    }
  }

  /** Under unique ids, deleting by id removes the one row at a known place. */
  lemma {:induction false} WithoutIdRemovesOne(rows: seq<OutboxRow>, p: nat)
    requires AscendingIds(rows) && p < |rows|
    ensures WithoutId(rows, rows[p].id) == rows[..p] + rows[p + 1..]
    ensures WithId(rows, rows[p].id) == [rows[p]]
  {
    var id := rows[p].id;
    if p == |rows| - 1 {
      LacksFresh(Init(rows), id);
      LackingIsUntouched(Init(rows), id);
      assert rows[..p] + rows[p + 1..] == Init(rows);
    } else {
      WithoutIdRemovesOne(Init(rows), p);
      assert rows[..p] + rows[p + 1..] == (Init(rows)[..p] + Init(rows)[p + 1..]) + [Last(rows)];
    }
  }

  /** The head of a channel's queue splits the table. */
  lemma {:induction false} HeadPosition(c: Channel, rows: seq<OutboxRow>) returns (p: nat)
    requires RowsOn(c, rows) != []
    ensures p < |rows| && rows[p] == RowsOn(c, rows)[0] && rows[p].channel == c
    ensures RowsOn(c, rows[..p]) == [] && RowsOn(c, rows[p + 1..]) == RowsOn(c, rows)[1..]
  {
    var rest, last := Init(rows), Last(rows);
    if RowsOn(c, rest) == [] {
      p := |rows| - 1;
      assert rows[p + 1..] == [];
    } else {
      p := HeadPosition(c, rest);
      assert rows[..p] == rest[..p];
      assert rows[p + 1..] == rest[p + 1..] + [last];
      RowsOnSnoc(c, rest[p + 1..], last);
    }
  }

  lemma RowsOnOther(d: Channel, rows: seq<OutboxRow>, p: nat)
    requires p < |rows| && rows[p].channel != d
    ensures RowsOn(d, rows[..p] + rows[p + 1..]) == RowsOn(d, rows)
  {
    var before, row, after := rows[..p], rows[p], rows[p + 1..];
    RowsOnSnoc(d, before, row);
    assert RowsOn(d, before + [row]) == RowsOn(d, before);
    RowsOnConcat(d, before, after);
    RowsOnConcat(d, before + [row], after);
    assert rows == (before + [row]) + after;
  }

  /** Deleting what the goroutine holds takes the head of its channel. */
  lemma DeletedAt(s: OutboxSys, c: Channel) returns (p: nat)
    requires AscendingIds(s.rows) && HeldIsHead(c, LaneOf(s, c)) && Enabled(s, Delete(c))
    ensures p < |s.rows| && s.rows[p].channel == c && s.rows[p] == RowsOn(c, s.rows)[0]
    ensures RowsOn(c, s.rows[..p]) == [] && RowsOn(c, s.rows[p + 1..]) == RowsOn(c, s.rows)[1..]
    ensures var after := Apply(s, Delete(c));
            && after == s.(rows := s.rows[..p] + s.rows[p + 1..], deleted := s.deleted + [s.rows[p]],
                           hands := s.hands[c := Free])
            && AscendingIds(after.rows)
  {
    p := HeadPosition(c, s.rows);
    WithoutIdRemovesOne(s.rows, p);
  }

  lemma DeleteOnOwnLane(s: OutboxSys, c: Channel)
    requires AscendingIds(s.rows) && HeldIsHead(c, LaneOf(s, c)) && Enabled(s, Delete(c))
    ensures var l := LaneOf(s, c);
            && l.queue != [] && AscendingIds(Apply(s, Delete(c)).rows)
            && LaneOf(Apply(s, Delete(c)), c) == l.(queue := l.queue[1..], gone := l.gone + [l.queue[0]], hand := Free)
  {
    var p := DeletedAt(s, c);
    RowsOnConcat(c, s.rows[..p], s.rows[p + 1..]);
    RowsOnSnoc(c, s.deleted, s.rows[p]);
  }

  lemma DeleteOnOtherLane(s: OutboxSys, c: Channel, d: Channel)
    requires AscendingIds(s.rows) && HeldIsHead(c, LaneOf(s, c)) && Enabled(s, Delete(c)) && d != c
    ensures LaneOf(Apply(s, Delete(c)), d) == LaneOf(s, d)
  {
    var p := DeletedAt(s, c);
    RowsOnOther(d, s.rows, p);
    RowsOnSnoc(d, s.deleted, s.rows[p]);
    assert RowsOn(d, s.deleted + [s.rows[p]]) == RowsOn(d, s.deleted);
  }

  lemma DeleteKeepsLane(c: Channel, l: Lane)
    requires LaneOk(c, l) && l.hand.Sent?
    ensures l.queue != []
    ensures LaneOk(c, l.(queue := l.queue[1..], gone := l.gone + [l.queue[0]], hand := Free))
  {
  }

  lemma DeleteKeepsInv(s: OutboxSys, c: Channel)
    requires Inv(s) && Enabled(s, Delete(c))
    ensures Inv(Apply(s, Delete(c)))
  {
    assert LaneOk(c, LaneOf(s, c));
    forall d ensures LaneOk(d, LaneOf(Apply(s, Delete(c)), d)) {
      assert LaneOk(d, LaneOf(s, d));
      if d == c {
        DeleteOnOwnLane(s, c);
        DeleteKeepsLane(c, LaneOf(s, c));
      } else {
        DeleteOnOtherLane(s, c, d);
      }
    }
    DeleteOnOwnLane(s, c);
  }

  lemma ReleaseKeepsInv(s: OutboxSys, hands: map<Channel, Hand>)
    requires Inv(s)
    requires forall c :: c in hands ==> hands[c] == HandOf(s, c) || hands[c].Free?
    ensures Inv(s.(hands := hands))
  {
    forall d ensures LaneOk(d, LaneOf(s.(hands := hands), d)) {
      assert LaneOk(d, LaneOf(s, d));
      SameQueueKeepsLane(d, LaneOf(s, d), RowsOn(d, s.rows), HandOf(s.(hands := hands), d));
    }
  }

  lemma StepKeepsInv(s: OutboxSys, e: Event)
    requires Inv(s) && Enabled(s, e)
    ensures Inv(Apply(s, e))
  {
    match e
    case Insert(key, at, ds) => InsertKeepsInv(s, key, at, ds);
    case Take(c, row) => TakeKeepsInv(s, c, row);
    case SendOk(c) => SendKeepsInv(s, c);
    case SendFail(c, error, marked) => SendFailKeepsInv(s, c, error, marked);
    case Delete(c) => DeleteKeepsInv(s, c);
    case DeleteFail(c) => ReleaseKeepsInv(s, s.hands[c := Free]);
    case Crash => ReleaseKeepsInv(s, map[]);
  }

  lemma EmptyOk()
    ensures Inv(EMPTY)
  {
  }

  lemma {:induction false} RunKeepsInv(events: seq<Event>)
    requires Run(events).Some?
    ensures Inv(Run(events).value)
  {
    if events == [] {
      EmptyOk();
    } else {
      RunKeepsInv(Init(events));
      StepKeepsInv(Run(Init(events)).value, Last(events));
    }
  }

  // ----- the results --------------------------------------------------------------------

  /** Conservation and order on every run. Per channel, what was enqueued is what was deleted
      followed by what is queued; the successful sends, adjacent repeats collapsed, are the
      first m enqueued deliveries in order, each with the body that was enqueued; and m covers
      every deleted row and, at most, the current head. */
  lemma NothingLostOrReordered(events: seq<Event>, c: Channel)
    requires Run(events).Some?
    ensures var l := LaneOf(Run(events).value, c);
            var m := |Collapse(l.receipts)|;
            && Conserved(l) && FaithfulBodies(l)
            && Collapse(l.receipts) == UpTo(m)
            && |l.gone| <= m <= |l.gone| + 1 && m <= |l.queued|
  {
    RunKeepsInv(events);
    assert LaneOk(c, LaneOf(Run(events).value, c));
  }

  /** A drain is never stuck: a free hand can take the head of a queue, the receiver can take it
      from the hand, and the delete moves the queue on. */
  lemma HeadGoes(s: OutboxSys, c: Channel)
    requires Inv(s) && HandOf(s, c).Free? && RowsOn(c, s.rows) != []
    ensures var row := RowsOn(c, s.rows)[0];
            var taken := Apply(s, Take(c, row));
            var sent := Apply(taken, SendOk(c));
            var gone := Apply(sent, Delete(c));
            && Enabled(s, Take(c, row)) && Enabled(taken, SendOk(c)) && Enabled(sent, Delete(c))
            && RowsOn(c, gone.rows) == RowsOn(c, s.rows)[1..] && HandOf(gone, c).Free?
  {
    var row := RowsOn(c, s.rows)[0];
    HeadIsOldest(c, s.rows);
    var taken := Apply(s, Take(c, row));
    TakeKeepsInv(s, c, row);
    var sent := Apply(taken, SendOk(c));
    SendKeepsInv(taken, c);
    assert LaneOk(c, LaneOf(sent, c));
    DeleteOnOwnLane(sent, c);
    assert RowsOn(c, Apply(sent, Delete(c)).rows) == LaneOf(Apply(sent, Delete(c)), c).queue;
  }

  /** Reused ids do no harm: live ids are unique and ascend in enqueue order, and the id that
      a goroutine carries from its read to its delete names the row it read, still the oldest
      of its channel. */
  lemma HeldIdNamesTheSameRow(events: seq<Event>, c: Channel)
    requires Run(events).Some? && !HandOf(Run(events).value, c).Free?
    ensures var s := Run(events).value;
            var held := HandOf(s, c).row;
            && AscendingIds(s.rows)
            && |WithId(s.rows, held.id)| == 1
            && var live := WithId(s.rows, held.id)[0];
               live.channel == c && live.body == held.body && IsOldest(live, c, s.rows)
  {
    RunKeepsInv(events);
    var s := Run(events).value;
    assert LaneOk(c, LaneOf(s, c));
    var p := HeadPosition(c, s.rows);
    WithoutIdRemovesOne(s.rows, p);
    RowsOnMembers(c, s.rows);
    RowsOnAscend(c, s.rows);
  }

  /** Ids do come back: after the only row is sent and deleted, the next one has its id. */
  lemma IdsAreReused(key: Key, a: Delivery, b: Delivery)
    ensures var first := InsertRows([], key, 0, [a]);
            InsertRows(WithoutId(first, first[0].id), key, 0, [b])[0].id == first[0].id
  {
  }
}
