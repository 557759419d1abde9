/** The batch a dispatcher of the protocol reads is the batch the dispatcher class selects. */
module Dispatch {
  import opened Common
  import opened Schema
  import opened Protocol
  import opened Custody
  import opened Outbox

  /** The rows of the outbox table, in some order. */
  ghost predicate ListsOutbox(db: Db, rows: seq<OutboxRow>) {
    forall row :: row in rows <==> exists id :: id in db.outbox && db.outbox[id] == row
  }

  ghost predicate Keyed(db: Db) {
    forall id | id in db.outbox :: db.outbox[id].envelope.messageId == id
  }

  /** Each item of the batch is a row of the table. */
  ghost predicate Drawn(db: Db, batch: seq<Item>) {
    forall k | 0 <= k < |batch| :: batch[k].id in db.outbox && batch[k].envelope == db.outbox[batch[k].id].envelope
  }

  ghost function RowsOf(db: Db, batch: seq<Item>): (rows: seq<OutboxRow>)
    requires Drawn(db, batch)
    ensures |rows| == |batch| && forall k | 0 <= k < |batch| :: rows[k] == db.outbox[batch[k].id]
  {
    seq(|batch|, k requires 0 <= k < |batch| => db.outbox[batch[k].id])
  }

  lemma {:induction false} ItemOf(db: Db, batch: seq<Item>, id: nat)
    requires Keyed(db) && Drawn(db, batch) && id in db.outbox
    ensures db.outbox[id] in RowsOf(db, batch) <==> exists k :: 0 <= k < |batch| && batch[k].id == id
  {
    var selected := RowsOf(db, batch);
    if db.outbox[id] in selected {
      var k :| 0 <= k < |selected| && selected[k] == db.outbox[id];
      assert batch[k].id == id;
    }
    if k :| 0 <= k < |batch| && batch[k].id == id {
      assert selected[k] == db.outbox[id];
    }
  }

  lemma {:induction false} BatchOfRows(db: Db, rows: seq<OutboxRow>, batch: seq<Item>, limit: nat)
    requires Keyed(db) && ListsOutbox(db, rows) && Drawn(db, batch) && OldestPending(rows, RowsOf(db, batch), limit)
    ensures IsPendingBatch(db, batch, limit)
  {
    var selected := RowsOf(db, batch);
    forall k | 0 <= k < |batch| ensures Protocol.Pending(db, batch[k].id) {
      assert Unpublished(selected[k]);
    }
    forall j, k | 0 <= j < k < |batch|
      ensures batch[j].id != batch[k].id && db.outbox[batch[j].id].createdAt <= db.outbox[batch[k].id].createdAt
    {
      assert Outbox.IdOf(selected[j]) != Outbox.IdOf(selected[k]) && selected[j].createdAt <= selected[k].createdAt;
    }
    forall id | Protocol.Pending(db, id) && (forall k | 0 <= k < |batch| :: batch[k].id != id)
      ensures |batch| == limit && forall k | 0 <= k < |batch| :: db.outbox[batch[k].id].createdAt <= db.outbox[id].createdAt
    {
      ItemOf(db, batch, id);
      assert db.outbox[id] in rows && Unpublished(db.outbox[id]);
      forall k | 0 <= k < |batch| ensures db.outbox[batch[k].id].createdAt <= db.outbox[id].createdAt {
        assert selected[k].createdAt <= db.outbox[id].createdAt;
      }
    }
  }

  lemma {:induction false} RowsOfBatch(db: Db, rows: seq<OutboxRow>, batch: seq<Item>, limit: nat)
    requires Keyed(db) && ListsOutbox(db, rows) && Drawn(db, batch) && IsPendingBatch(db, batch, limit)
    ensures OldestPending(rows, RowsOf(db, batch), limit)
  {
    var selected := RowsOf(db, batch);
    forall k | 0 <= k < |selected| ensures selected[k] in rows && Unpublished(selected[k]) {
      assert Protocol.Pending(db, batch[k].id);
    }
    forall row | row in rows && Unpublished(row) && row !in selected
      ensures |selected| == limit && forall k | 0 <= k < |selected| :: selected[k].createdAt <= row.createdAt
    {
      var id :| id in db.outbox && db.outbox[id] == row;
      ItemOf(db, batch, id);
      assert Protocol.Pending(db, id);
    }
  }

  /** In any reachable state, a dispatcher reads a batch of rows exactly when they are the 25 oldest unpublished ones. */
  lemma {:induction false} ReadsOldest(env: Env, run: seq<State>, steps: seq<Step>, i: nat, x: Dispatcher, x': Dispatcher,
                                       batch: seq<Item>, rows: seq<OutboxRow>)
    requires env.CollisionFree() && IsRun(env, run, steps) && i < |run|
    requires ListsOutbox(run[i].sh.db, rows) && Drawn(run[i].sh.db, batch)
    ensures DispatcherMoves(run[i].sh, run[i].sh, x, x', ReadBatch(batch))
       <==> x == Idle && x' == Sending(batch) && OldestPending(rows, RowsOf(run[i].sh.db, batch), 25)
  {
    var db := run[i].sh.db;
    RunInv(env, run, steps, i);
    assert Keyed(db);
    hide Inv, OldestPending, IsPendingBatch, ListsOutbox, Drawn;
    if OldestPending(rows, RowsOf(db, batch), 25) {
      BatchOfRows(db, rows, batch, 25);
    }
    if IsPendingBatch(db, batch, 25) {
      RowsOfBatch(db, rows, batch, 25);
    }
  }
}
