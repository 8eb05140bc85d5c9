/**
 Several pollers at work on one lease table (outbox/poller.go and popularity/projection_poller.go runOnce), as steps:
 claim a batch, send its head, drop the row or put it back, die anywhere in between.
*/
module Pollers {
  import opened Wrappers
  import opened LeaseTable

  // The rest of a claimed batch; `done` says that its head was sent and the row is about to be deleted.
  datatype Poller = Poller(batch: seq<nat>, done: bool)

  datatype Desk = Desk(rows: map<nat, Row>, pollers: map<nat, Poller>)

  // A send that is reported as failed may have landed all the same; the row goes back to pending unless that update
  // fails too. A delete may fail.
  datatype Op =
    | Claim(candidates: seq<nat>, now: int, timeout: int)
    | Send
    | SendFails(landed: bool, retryAt: Option<int>)
    | Drop(ok: bool)
    | Die

  predicate Busy(d: Desk, p: nat, done: bool) {
    p in d.pollers && d.pollers[p].batch != [] && d.pollers[p].done == done
  }

  // Candidates may come from an old snapshot of the table: the claim takes those that are still due.
  predicate Can(d: Desk, p: nat, op: Op) {
    match op
    case Claim(_, _, _) => p !in d.pollers
    case Send => Busy(d, p, false)
    case SendFails(_, _) => Busy(d, p, false)
    case Drop(_) => Busy(d, p, true)
    case Die => p in d.pollers
  }

  function Next(p: Poller): Poller
    requires p.batch != []
  {
    Poller(p.batch[1..], false)
  }

  function Work(d: Desk, p: nat, op: Op): Desk
    requires Can(d, p, op)
  {
    match op
    case Claim(candidates, now, timeout) =>
      var claimed := StillDue(d.rows, candidates, now, timeout);
      Desk(Leases(d.rows, claimed, now), d.pollers[p := Poller(claimed, false)])
    case Send => d.(pollers := d.pollers[p := d.pollers[p].(done := true)])
    case SendFails(_, retryAt) =>
      var id := d.pollers[p].batch[0];
      Desk(if retryAt.Some? then Requeued(d.rows, id, retryAt.value) else d.rows, d.pollers[p := Next(d.pollers[p])])
    case Drop(ok) =>
      Desk(if ok then d.rows - {d.pollers[p].batch[0]} else d.rows, d.pollers[p := Next(d.pollers[p])])
    case Die => d.(pollers := d.pollers - {p})
  }

  // What the other side received.
  function Sent(d: Desk, p: nat, op: Op): Option<nat>
    requires Can(d, p, op)
  {
    match op
    case Send => Some(d.pollers[p].batch[0])
    case SendFails(landed, _) => if landed then Some(d.pollers[p].batch[0]) else None
    case _ => None
  }

  function SentIds(d: Desk, p: nat, op: Op): set<nat>
    requires Can(d, p, op)
  {
    if Sent(d, p, op).Some? then {Sent(d, p, op).value} else {}
  }

  // ---------------------------------------------------------------- what the steps keep

  // A lease has a time at which it was taken.
  predicate RowOk(row: Row) {
    row.status == Leased ==> row.lockedAt.Some?
  }

  ghost predicate PollerOk(p: Poller, ids: set<nat>, gone: set<nat>) {
    && (p.done ==> p.batch != [] && p.batch[0] in gone)
    && forall id :: id in p.batch ==> id in ids
  }

  // `ids` are the ids that ever had a row, `gone` those that reached the other side.
  ghost predicate DeskOk(d: Desk, ids: set<nat>, gone: set<nat>) {
    && (forall id :: id in d.rows ==> id in ids && RowOk(d.rows[id]))
    && (forall p :: p in d.pollers ==> PollerOk(d.pollers[p], ids, gone))
  }

  lemma MoreGone(d: Desk, ids: set<nat>, gone: set<nat>, ids': set<nat>, gone': set<nat>)
    requires DeskOk(d, ids, gone) && ids <= ids' && gone <= gone'
    ensures DeskOk(d, ids', gone')
  {
    forall p | p in d.pollers ensures PollerOk(d.pollers[p], ids', gone') {
      assert PollerOk(d.pollers[p], ids, gone);
    }
  }

  lemma SentIsKnown(d: Desk, p: nat, op: Op, ids: set<nat>, gone: set<nat>)
    requires DeskOk(d, ids, gone) && Can(d, p, op)
    ensures Sent(d, p, op).Some? ==> Sent(d, p, op).value in ids
  {
    if p in d.pollers && d.pollers[p].batch != [] {
      assert PollerOk(d.pollers[p], ids, gone);
      assert d.pollers[p].batch[0] in d.pollers[p].batch;
    }
  }

  // No row is created, and one disappears only after it reached the other side.
  lemma RowsGoWhenSent(d: Desk, p: nat, op: Op, ids: set<nat>, gone: set<nat>)
    requires DeskOk(d, ids, gone) && Can(d, p, op)
    ensures Work(d, p, op).rows.Keys <= d.rows.Keys
    ensures forall id :: id in d.rows ==> id in Work(d, p, op).rows || id in gone
  {
    if p in d.pollers {
      assert PollerOk(d.pollers[p], ids, gone);
    }
  }

  lemma RowsStayOk(d: Desk, p: nat, op: Op, ids: set<nat>, gone: set<nat>)
    requires DeskOk(d, ids, gone) && Can(d, p, op)
    ensures forall id :: id in Work(d, p, op).rows ==> id in ids && RowOk(Work(d, p, op).rows[id])
  {}

  lemma WorkerStaysOk(d: Desk, p: nat, op: Op, ids: set<nat>, gone: set<nat>)
    requires DeskOk(d, ids, gone) && Can(d, p, op) && p in Work(d, p, op).pollers
    ensures PollerOk(Work(d, p, op).pollers[p], ids, gone + SentIds(d, p, op))
  {
    if p in d.pollers {
      var batch := d.pollers[p].batch;
      assert PollerOk(d.pollers[p], ids, gone);
      assert forall id :: id in batch[1..] ==> id in batch;
    }
  }

  lemma DeskStaysOk(d: Desk, p: nat, op: Op, ids: set<nat>, gone: set<nat>)
    requires DeskOk(d, ids, gone) && Can(d, p, op)
    ensures DeskOk(Work(d, p, op), ids, gone + SentIds(d, p, op))
  {
    var d' := Work(d, p, op);
    RowsStayOk(d, p, op, ids, gone);
    MoreGone(d, ids, gone, ids, gone + SentIds(d, p, op));
    if p in d'.pollers {
      WorkerStaysOk(d, p, op, ids, gone);
    }
    forall q | q in d'.pollers ensures PollerOk(d'.pollers[q], ids, gone + SentIds(d, p, op)) {
      if q != p {
        assert d'.pollers[q] == d.pollers[q];
      }
    }
  }

  // ---------------------------------------------------------------- what may still be sent

  // The part of a claimed batch that was not sent yet.
  function Unsent(p: Poller): seq<nat> {
    if p.done && p.batch != [] then p.batch[1..] else p.batch
  }

  predicate MaySend(d: Desk, id: nat) {
    id in d.rows || exists p :: p in d.pollers && id in Unsent(d.pollers[p])
  }

  lemma SentMayBeSent(d: Desk, p: nat, op: Op)
    requires Can(d, p, op) && Sent(d, p, op).Some?
    ensures MaySend(d, Sent(d, p, op).value)
  {
    assert d.pollers[p].batch[0] in Unsent(d.pollers[p]);
  }

  // A row that is gone and in nobody's unsent batch never comes back.
  lemma NoSendStays(d: Desk, p: nat, op: Op, id: nat)
    requires Can(d, p, op) && !MaySend(d, id)
    ensures !MaySend(Work(d, p, op), id)
  {
    var d' := Work(d, p, op);
    forall q | q in d'.pollers ensures id !in Unsent(d'.pollers[q]) {
      if q != p {
        assert d'.pollers[q] == d.pollers[q];
      } else if q in d.pollers {
        var batch := d.pollers[p].batch;
        assert id !in Unsent(d.pollers[p]);
        assert batch != [] ==> forall x :: x in batch <==> x == batch[0] || x in batch[1..];
      }
    }
  }
}
