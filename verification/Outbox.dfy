/**
 One outbox dispatcher on its own: what `pending_outbox` selects, what each call of
 `publish_pending` does to the rows, and how the loop of calls drains the table.
 */
module Outbox {
  import opened Common
  import opened Schema

  predicate Unpublished(row: OutboxRow) {
    row.publishedAt.None?
  }

  function PendingRows(rows: seq<OutboxRow>): seq<OutboxRow> {
    Filter(Unpublished, rows)
  }

  function IdOf(row: OutboxRow): nat {
    row.envelope.messageId
  }

  ghost predicate IdsDistinct(rows: seq<OutboxRow>) {
    forall i, j | 0 <= i < j < |rows| :: IdOf(rows[i]) != IdOf(rows[j])
  }

  ghost predicate Ordered(rows: seq<OutboxRow>) {
    forall i, j | 0 <= i < j < |rows| :: rows[i].createdAt <= rows[j].createdAt
  }

  /** The oldest unpublished rows, oldest first, up to the limit: a row is left out only by a full batch of no younger ones. */
  ghost predicate OldestPending(rows: seq<OutboxRow>, batch: seq<OutboxRow>, limit: nat) {
    && |batch| <= limit && IdsDistinct(batch) && Ordered(batch)
    && (forall k | 0 <= k < |batch| :: batch[k] in rows && Unpublished(batch[k]))
    && (forall row | row in rows && Unpublished(row) && row !in batch ::
          |batch| == limit && forall k | 0 <= k < |batch| :: batch[k].createdAt <= row.createdAt)
  }

  predicate OnStream(stream: seq<Envelope>, row: OutboxRow) {
    row.envelope in stream
  }

  lemma {:induction false} PendingAround(rows: seq<OutboxRow>, i: nat)
    requires i < |rows|
    ensures PendingRows(rows)
         == PendingRows(rows[..i]) + (if Unpublished(rows[i]) then [rows[i]] else []) + PendingRows(rows[i + 1..])
  {
    FilterAppend(Unpublished, rows[..i], rows[i]);
    FilterConcat(Unpublished, rows[..i] + [rows[i]], rows[i + 1..]);
    assert rows == rows[..i] + [rows[i]] + rows[i + 1..];
  }

  /** Replacing one pending row. */
  lemma {:induction false} PendingAfter(rows: seq<OutboxRow>, i: nat, row: OutboxRow)
    requires i < |rows| && Unpublished(rows[i])
    ensures PendingRows(rows[i := row])
         == PendingRows(rows[..i]) + (if Unpublished(row) then [row] else []) + PendingRows(rows[i + 1..])
    ensures |PendingRows(rows[i := row])| == |PendingRows(rows)| - (if Unpublished(row) then 0 else 1)
  {
    PendingAround(rows, i);
    PendingAround(rows[i := row], i);
    assert rows[i := row][..i] == rows[..i] && rows[i := row][i + 1..] == rows[i + 1..];
  }

  /** The first pending row is preceded by published ones only; without it the others are left. */
  lemma {:induction false} FirstPending(rows: seq<OutboxRow>, i: nat, row: OutboxRow)
    requires IdsDistinct(rows) && i < |rows| && PendingRows(rows) != []
    requires IdOf(rows[i]) == IdOf(PendingRows(rows)[0]) && !Unpublished(row)
    ensures PendingRows(rows[i := row]) == PendingRows(rows)[1..]
  {
    var first := PendingRows(rows)[0];
    assert first in PendingRows(rows);
    var k :| 0 <= k < |rows| && rows[k] == first;
    assert k == i;
    PendingAround(rows, i);
    assert PendingRows(rows[..i]) == [];
    PendingAfter(rows, i, row);
  }

  /** Rows of the same table later on: published rows as they were, every envelope as it was. */
  ghost predicate RowsKept(was: seq<OutboxRow>, rows: seq<OutboxRow>) {
    && |rows| == |was|
    && forall i | 0 <= i < |rows| ::
         && rows[i].envelope == was[i].envelope && rows[i].createdAt == was[i].createdAt
         && (!Unpublished(was[i]) ==> rows[i] == was[i])
  }

  ghost predicate AllOnStream(stream: seq<Envelope>, rows: seq<OutboxRow>) {
    forall i | 0 <= i < |rows| && !Unpublished(rows[i]) :: OnStream(stream, rows[i])
  }

  /** What happens to the k-th row of a batch: whether its publish, its mark and, failing those, its note succeed. */
  datatype Outcome = Outcome(stores: bool, publishes: bool, marks: bool, notes: bool)

  const SMOOTH := Outcome(true, true, true, true)

  predicate Sends(outcome: Outcome) {
    outcome.publishes && outcome.marks
  }

  /** Neither sent nor noted: the exception leaves the loop over the batch. */
  predicate Breaks(outcome: Outcome) {
    !Sends(outcome) && !outcome.notes
  }

  /** How many of the first n rows are sent. */
  function SentOf(plan: nat -> Outcome, n: nat): nat {
    if n == 0 then 0 else SentOf(plan, n - 1) + (if Sends(plan(n - 1)) then 1 else 0)
  }

  /** What happens to one call: whether it connects, whether its connection drains, and its rows. */
  datatype Call = Call(connects: bool, drains: bool, plan: nat -> Outcome)

  ghost predicate Undisturbed(call: Call) {
    call.connects && call.drains && forall k :: call.plan(k) == SMOOTH
  }

  /** The rows `batch[..k]` after their outcomes; every other row as it was. */
  ghost predicate Applied(was: seq<OutboxRow>, rows: seq<OutboxRow>, batch: seq<OutboxRow>, k: nat, plan: nat -> Outcome, now: int)
  {
    && k <= |batch| && |rows| == |was|
    && (forall i, j | 0 <= i < |was| && 0 <= j < k && was[i] == batch[j] :: Became(was[i], rows[i], plan(j), now))
    && Untouched(was, rows, batch, k)
  }

  /** What its outcome makes of a row: marked when sent, noted when not, or left alone when even that fails. */
  predicate Became(before: OutboxRow, after: OutboxRow, outcome: Outcome, now: int) {
    if outcome.publishes && outcome.marks then IsMarked(before, after, now)
    else if outcome.notes then IsNoted(before, after, "failed")
    else after == before
  }

  function RowAfter(row: OutboxRow, outcome: Outcome, now: int): OutboxRow {
    if Sends(outcome) then MarkRowPublished(row, now)
    else if outcome.notes then MarkRowFailed(row, "failed")
    else row
  }

  /** Rows outside the handled part of the batch are as they were. */
  ghost predicate Untouched(was: seq<OutboxRow>, rows: seq<OutboxRow>, batch: seq<OutboxRow>, k: nat) {
    && k <= |batch|
    && |rows| == |was|
    && forall i | 0 <= i < |rows| && (forall j | 0 <= j < k :: IdOf(batch[j]) != IdOf(was[i])) :: rows[i] == was[i]
  }

  class Table {
    /** The outbox in `created_at` order, ties as the database returns them. */
    var rows: seq<OutboxRow>
    /** The envelopes on the stream. */
    var stream: seq<Envelope>

    ghost predicate Valid()
      reads this
    {
      IdsDistinct(rows) && Ordered(rows) && AllOnStream(stream, rows)
    }

    twostate predicate Kept()
      reads this
    {
      RowsKept(old(rows), rows) && old(stream) <= stream
    }

    constructor (rows: seq<OutboxRow>)
      requires IdsDistinct(rows) && Ordered(rows) && forall i | 0 <= i < |rows| :: Unpublished(rows[i])
      ensures Valid() && this.rows == rows && stream == []
    {
      this.rows := rows;
      this.stream := [];
    }

    /** `pending_outbox` */
    method PendingOutbox(limit: nat) returns (batch: seq<OutboxRow>)
      requires IdsDistinct(rows) && Ordered(rows)
      ensures OldestPending(rows, batch, limit)
      ensures batch == PendingRows(rows)[..Min(limit, |PendingRows(rows)|)]
    {
      var pending := PendingRows(rows);
      batch := pending[..Min(limit, |pending|)];
      PrefixIsOldest(rows, limit);
    }

    static lemma {:induction false} PrefixIsOldest(rows: seq<OutboxRow>, limit: nat)
      requires IdsDistinct(rows) && Ordered(rows)
      ensures OldestPending(rows, PendingRows(rows)[..Min(limit, |PendingRows(rows)|)], limit)
    {
      var pending, n := PendingRows(rows), Min(limit, |PendingRows(rows)|);
      BatchIds(rows, n);
      PendingOrdered(rows);
      forall k | 0 <= k < n ensures pending[k] in rows && Unpublished(pending[k]) {
        assert pending[k] in pending;
      }
      forall row | row in rows && Unpublished(row) && row !in pending[..n]
        ensures n == limit && forall k | 0 <= k < n :: pending[..n][k].createdAt <= row.createdAt
      {
        assert row in pending;
        var i :| 0 <= i < |pending| && pending[i] == row;
        assert forall k | 0 <= k < n :: pending[k] in pending[..n];
        assert i >= n;
      }
    }

    static lemma {:induction false} PendingOrdered(table: seq<OutboxRow>)
      requires Ordered(table)
      ensures Ordered(PendingRows(table))
    {
      if table != [] {
        var n := |table| - 1;
        PendingOrdered(table[..n]);
        var earlier := PendingRows(table[..n]);
        forall j | 0 <= j < |earlier| ensures earlier[j].createdAt <= table[n].createdAt {
          assert earlier[j] in earlier;
        }
      }
    }

    /** `mark_published` */
    method MarkPublished(id: nat, now: int)
      requires IdsDistinct(rows)
      modifies this`rows
      ensures |rows| == |old(rows)|
      ensures forall i | 0 <= i < |rows| ::
                rows[i] == if IdOf(old(rows)[i]) == id then MarkRowPublished(old(rows)[i], now) else old(rows)[i]
    {
      if i: int :| 0 <= i < |rows| && IdOf(rows[i]) == id {
        rows := rows[i := MarkRowPublished(rows[i], now)];
      }
    }

    /** `mark_failed` */
    method MarkFailed(id: nat, error: string)
      requires IdsDistinct(rows)
      modifies this`rows
      ensures |rows| == |old(rows)|
      ensures forall i | 0 <= i < |rows| ::
                rows[i] == if IdOf(old(rows)[i]) == id then MarkRowFailed(old(rows)[i], error) else old(rows)[i]
    {
      if i: int :| 0 <= i < |rows| && IdOf(rows[i]) == id {
        rows := rows[i := MarkRowFailed(rows[i], error)];
      }
    }

    /**
     `publish_pending`. Without pending rows nothing is connected; a failed connect changes
     nothing; otherwise exactly the rows of the batch up to the first one that can be neither
     sent nor noted get their outcome, and `published` counts those sent, also in a call that
     raises. Whatever fails, rows stay, marks stay, and a marked row's message is on the stream.
     */
    method PublishPending(limit: nat, now: int, call: Call) returns (published: nat, raised: bool, ghost handled: nat)
      requires Valid()
      modifies this
      ensures Valid() && Kept()
      ensures var n := Min(limit, |PendingRows(old(rows))|);
              && handled <= n && (handled == n || !call.connects || (handled > 0 && Breaks(call.plan(handled - 1))))
              && (forall k | 0 <= k < handled - 1 :: !Breaks(call.plan(k)))
              && (!call.connects ==> handled == 0)
              && Applied(old(rows), rows, PendingRows(old(rows))[..n], handled, call.plan, now)
              && published == SentOf(call.plan, handled)
              && (raised <==> n > 0 && (!call.connects || !call.drains || Breaks(call.plan(handled - 1))))
      ensures handled == 0 ==> rows == old(rows) && stream == old(stream)
      ensures |PendingRows(rows)| + published == |PendingRows(old(rows))|
      ensures Undisturbed(call) ==>
                && !raised && published == Min(limit, |PendingRows(old(rows))|)
                && PendingRows(rows) == PendingRows(old(rows))[published..]
    {
      hide PendingRows, RowsKept, AllOnStream, IdsDistinct, Ordered, OldestPending, Applied, SentOf;
      published, raised, handled := 0, false, 0;
      var batch := PendingOutbox(limit);
      ghost var was, smooth := rows, Undisturbed(call);
      ProgressStart(rows, stream, batch, call.plan, now, smooth);
      if batch == [] {
        return;
      }
      if !call.connects {
        raised := true;
        return;
      }
      var k := 0;
      while k < |batch| && !raised
        invariant old(stream) <= stream && (k == 0 ==> stream == old(stream))
        invariant raised <==> k > 0 && Breaks(call.plan(k - 1))
        invariant forall j | 0 <= j < k - 1 :: !Breaks(call.plan(j))
        invariant Progress(was, rows, stream, batch, k, published, call.plan, now, smooth)
      {
        ghost var before, streamed := rows, stream;
        var sent := SendRow(batch[k], now, call.plan(k));
        ProgressStep(was, before, rows, streamed, stream, batch, k, published, call.plan, now, smooth);
        published := if sent then published + 1 else published;
        raised := Breaks(call.plan(k));
        k := k + 1;
      }
      handled := k;
      OrderKept(was, rows);
      raised := raised || !call.drains;
    }

    /** The body of the loop: publish and mark one row, or note its failure. */
    method SendRow(row: OutboxRow, now: int, outcome: Outcome) returns (sent: bool)
      requires IdsDistinct(rows)
      modifies this
      ensures sent == Sends(outcome)
      ensures stream == if outcome.stores || outcome.publishes then old(stream) + [row.envelope] else old(stream)
      ensures Handled(old(rows), rows, IdOf(row), outcome, now)
    {
      sent := false;
      if outcome.stores || outcome.publishes {
        stream := stream + [row.envelope];
      }
      if outcome.publishes && outcome.marks {
        MarkPublished(IdOf(row), now);
        sent := true;
      } else if outcome.notes {
        MarkFailed(IdOf(row), "failed");
      }
    }

    static ghost predicate Handled(before: seq<OutboxRow>, rows: seq<OutboxRow>, id: nat, outcome: Outcome, now: int) {
      && |rows| == |before|
      && forall j | 0 <= j < |rows| :: rows[j] == if IdOf(before[j]) == id then RowAfter(before[j], outcome, now) else before[j]
    }

    /** Where `publish_pending` stands after `k` rows of its batch. */
    static ghost predicate Progress(was: seq<OutboxRow>, rows: seq<OutboxRow>, stream: seq<Envelope>, batch: seq<OutboxRow>,
                                    k: nat, published: nat, plan: nat -> Outcome, now: int, smooth: bool)
    {
      && k <= |batch| <= |PendingRows(was)| && published == SentOf(plan, k) && IdsDistinct(rows) && AllOnStream(stream, rows)
      && RowsKept(was, rows) && Applied(was, rows, batch, k, plan, now) && (k == 0 ==> rows == was)
      && |PendingRows(rows)| + published == |PendingRows(was)|
      && (smooth ==> published == k && PendingRows(rows) == PendingRows(was)[k..])
    }

    static lemma {:induction false} OrderKept(was: seq<OutboxRow>, rows: seq<OutboxRow>)
      requires Ordered(was) && RowsKept(was, rows)
      ensures Ordered(rows)
    {
      forall i, j | 0 <= i < j < |rows| ensures rows[i].createdAt <= rows[j].createdAt {
        assert was[i].createdAt <= was[j].createdAt;
      }
    }

    static lemma {:induction false} IdsKept(was: seq<OutboxRow>, rows: seq<OutboxRow>)
      requires IdsDistinct(was) && |rows| == |was| && forall i | 0 <= i < |rows| :: rows[i].envelope == was[i].envelope
      ensures IdsDistinct(rows)
    {
      forall i, j | 0 <= i < j < |rows| ensures IdOf(rows[i]) != IdOf(rows[j]) {
        assert IdOf(was[i]) != IdOf(was[j]);
      }
    }

    static lemma {:induction false} ProgressStart(rows: seq<OutboxRow>, stream: seq<Envelope>, batch: seq<OutboxRow>,
                                                  plan: nat -> Outcome, now: int, smooth: bool)
      requires IdsDistinct(rows) && AllOnStream(stream, rows) && |batch| <= |PendingRows(rows)|
      ensures Progress(rows, rows, stream, batch, 0, 0, plan, now, smooth)
    {
    }

    static lemma {:induction false} ProgressStep(was: seq<OutboxRow>, before: seq<OutboxRow>, rows: seq<OutboxRow>,
        streamed: seq<Envelope>, stream: seq<Envelope>, batch: seq<OutboxRow>, k: nat, published: nat,
        plan: nat -> Outcome, now: int, smooth: bool)
      requires k < |batch| && Progress(was, before, streamed, batch, k, published, plan, now, smooth)
      requires IdsDistinct(was) && batch == PendingRows(was)[..|batch|]
      requires Handled(before, rows, IdOf(batch[k]), plan(k), now) && (smooth ==> plan(k) == SMOOTH)
      requires stream == if plan(k).stores || plan(k).publishes then streamed + [batch[k].envelope] else streamed
      ensures Progress(was, rows, stream, batch, k + 1, if Sends(plan(k)) then published + 1 else published, plan, now, smooth)
    {
      hide PendingRows, AllOnStream;
      BatchIds(was, |batch|);
      var i := NextRow(was, before, batch, k);
      var row := RowAfter(before[i], plan(k), now);
      OnlyRow(before, rows, i, row);
      PendingAfter(before, i, row);
      IdsKept(before, rows);
      AppliedStep(was, before, rows, batch, k, i, plan, now);
      StreamedStep(before, rows, streamed, stream, i, row);
      if smooth {
        assert PendingRows(before)[0] == batch[k];
        FirstPending(before, i, row);
      }
    }

    static lemma {:induction false} AppliedStep(was: seq<OutboxRow>, before: seq<OutboxRow>, rows: seq<OutboxRow>,
        batch: seq<OutboxRow>, k: nat, i: nat, plan: nat -> Outcome, now: int)
      requires k < |batch| && IdsDistinct(was) && IdsDistinct(batch) && Applied(was, before, batch, k, plan, now)
      requires i < |before| && before[i] == was[i] == batch[k] && rows == before[i := RowAfter(before[i], plan(k), now)]
      ensures Applied(was, rows, batch, k + 1, plan, now)
    {
      StillUntouched(was, before, rows, batch, k, i);
      forall m, j | 0 <= m < |was| && 0 <= j < k + 1 && was[m] == batch[j] ensures Became(was[m], rows[m], plan(j), now) {
        if j < k {
          assert IdOf(batch[j]) != IdOf(batch[k]);
        } else {
          assert m == i;
        }
      }
    }

    static lemma {:induction false} StreamedStep(before: seq<OutboxRow>, rows: seq<OutboxRow>, streamed: seq<Envelope>,
                                                 stream: seq<Envelope>, i: nat, row: OutboxRow)
      requires AllOnStream(streamed, before) && i < |before| && rows == before[i := row] && streamed <= stream
      requires !Unpublished(row) ==> row.envelope in stream
      ensures AllOnStream(stream, rows)
    {
      forall j | 0 <= j < |rows| && !Unpublished(rows[j]) ensures OnStream(stream, rows[j]) {
        if j != i {
          assert OnStream(streamed, before[j]);
        }
      }
    }

    static lemma {:induction false} OnlyRow(before: seq<OutboxRow>, rows: seq<OutboxRow>, i: nat, row: OutboxRow)
      requires IdsDistinct(before) && i < |before| && |rows| == |before| && rows[i] == row
      requires forall j | 0 <= j < |rows| && IdOf(before[j]) != IdOf(before[i]) :: rows[j] == before[j]
      ensures rows == before[i := row]
    {
    }

    /** Where the next row of the batch is; nothing has touched it yet. */
    static lemma {:induction false} NextRow(was: seq<OutboxRow>, rows: seq<OutboxRow>, batch: seq<OutboxRow>, k: nat)
      returns (i: nat)
      requires k < |batch| <= |PendingRows(was)| && batch == PendingRows(was)[..|batch|] && IdsDistinct(batch)
      requires Untouched(was, rows, batch, k)
      ensures i < |rows| && rows[i] == was[i] == batch[k] && Unpublished(rows[i])
    {
      i := BatchRow(was, batch, k);
      assert forall j | 0 <= j < k :: IdOf(batch[j]) != IdOf(was[i]);
    }

    static lemma {:induction false} StillUntouched(was: seq<OutboxRow>, before: seq<OutboxRow>, rows: seq<OutboxRow>,
                                                   batch: seq<OutboxRow>, k: nat, i: nat)
      requires k < |batch| && Untouched(was, before, batch, k) && i < |before| && was[i] == batch[k]
      requires |rows| == |before| && forall j | 0 <= j < |rows| && j != i :: rows[j] == before[j]
      ensures Untouched(was, rows, batch, k + 1)
    {
    }

    /** Position in the table of the k-th row of a batch. */
    static lemma {:induction false} BatchRow(table: seq<OutboxRow>, batch: seq<OutboxRow>, k: nat) returns (i: nat)
      requires k < |batch| <= |PendingRows(table)| && batch == PendingRows(table)[..|batch|]
      ensures i < |table| && table[i] == batch[k] && Unpublished(table[i])
    {
      assert batch[k] in PendingRows(table);
      i :| 0 <= i < |table| && table[i] == batch[k];
    }

    /** The rows of a batch have distinct ids. */
    static lemma {:induction false} BatchIds(table: seq<OutboxRow>, n: nat)
      requires IdsDistinct(table) && n <= |PendingRows(table)|
      ensures IdsDistinct(PendingRows(table)[..n])
    {
      PendingIds(table);
    }

    static lemma {:induction false} PendingIds(table: seq<OutboxRow>)
      requires IdsDistinct(table)
      ensures IdsDistinct(PendingRows(table))
    {
      if table != [] {
        var n := |table| - 1;
        PendingIds(table[..n]);
        var earlier := PendingRows(table[..n]);
        forall j | 0 <= j < |earlier| ensures IdOf(earlier[j]) != IdOf(table[n]) {
          assert earlier[j] in earlier;
        }
      }
    }

    /**
     `outbox_loop`, which carries on after a call that raised. Rows, marks and the stream are
     kept whatever happens; once the calls are undisturbed, each moves up to `limit` rows.
     */
    method OutboxLoop(limit: nat, now: int, calls: seq<Call>, ghost disturbed: nat)
      requires Valid() && disturbed <= |calls| && forall r | disturbed <= r < |calls| :: Undisturbed(calls[r])
      modifies this
      ensures Valid() && Kept()
      ensures |PendingRows(rows)| <= |PendingRows(old(rows))|
      ensures (|calls| - disturbed) * limit >= |PendingRows(old(rows))| ==> PendingRows(rows) == []
      ensures disturbed == 0 ==> PendingRows(rows) == PendingRows(old(rows))[Min(|calls| * limit, |PendingRows(old(rows))|)..]
    {
      hide PendingRows, RowsKept, AllOnStream, IdsDistinct, Ordered, Applied, SentOf, Breaks, Undisturbed, Drained, Min;
      ghost var was, start := rows, PendingRows(rows);
      KeptReflexive(rows);
      DrainStart(start, 0 - disturbed, limit);
      var r := 0;
      while r < |calls|
        invariant r <= |calls| && Valid() && RowsKept(was, rows) && old(stream) <= stream
        invariant |start| <= |PendingRows(was)| && (disturbed == 0 ==> start == PendingRows(was))
        invariant Drained(start, PendingRows(rows), r - disturbed, limit)
      {
        ghost var before := rows;
        var published, raised, handled := PublishPending(limit, now, calls[r]);
        KeptTransitive(was, before, rows);
        if r < disturbed {
          DrainedAtMost(start, PendingRows(before), r - disturbed, limit);
          start := PendingRows(rows);
          DrainStart(start, r + 1 - disturbed, limit);
        } else {
          Rounds(start, r - disturbed, limit, PendingRows(before), PendingRows(rows));
        }
        r := r + 1;
      }
      DrainedAtMost(start, PendingRows(rows), |calls| - disturbed, limit);
    }

    /** `now` is what `rounds` undisturbed calls leave of `start`; nothing is gone before the first. */
    static ghost predicate Drained<T>(start: seq<T>, now: seq<T>, rounds: int, limit: nat) {
      now == if rounds <= 0 then start else start[Min(rounds * limit, |start|)..]
    }

    static lemma {:induction false} DrainStart<T>(start: seq<T>, rounds: int, limit: nat)
      requires rounds <= 0
      ensures Drained(start, start, rounds, limit)
    {
    }

    static lemma {:induction false} DrainedAtMost<T>(start: seq<T>, now: seq<T>, rounds: int, limit: nat)
      requires Drained(start, now, rounds, limit)
      ensures |now| <= |start|
      ensures rounds <= 0 ==> now == start
      ensures 0 <= rounds ==> now == start[Min(rounds * limit, |start|)..]
      ensures 0 <= rounds && rounds * limit >= |start| ==> now == []
    {
    }

    static lemma {:induction false} KeptReflexive(rows: seq<OutboxRow>)
      ensures RowsKept(rows, rows)
    {
    }

    static lemma {:induction false} KeptTransitive(was: seq<OutboxRow>, before: seq<OutboxRow>, rows: seq<OutboxRow>)
      requires RowsKept(was, before) && RowsKept(before, rows)
      ensures RowsKept(was, rows)
    {
    }

    static lemma {:induction false} Rounds<T>(start: seq<T>, round: nat, limit: nat, before: seq<T>, now: seq<T>)
      requires Drained(start, before, round, limit) && now == before[Min(limit, |before|)..]
      ensures Drained(start, now, round + 1, limit)
    {
      assert (round + 1) * limit == round * limit + limit;
      DropMore(start, before, round * limit, limit);
    }

    static lemma {:induction false} DropMore<T>(start: seq<T>, now: seq<T>, gone: nat, limit: nat)
      requires now == start[Min(gone, |start|)..]
      ensures now[Min(limit, |now|)..] == start[Min(gone + limit, |start|)..]
    {
    }
  }

  /** ceil(n / limit) calls are enough to drain n rows, and one fewer is not. */
  lemma {:induction false} DrainCalls(n: nat, limit: nat, calls: nat)
    requires limit > 0 && calls == (n + limit - 1) / limit
    ensures calls * limit >= n
    ensures calls > 0 ==> (calls - 1) * limit < n
  {
    var r := (n + limit - 1) % limit;
    assert n + limit - 1 == calls * limit + r;
    if calls > 0 {
      assert (calls - 1) * limit == calls * limit - limit;
    }
  }
}
