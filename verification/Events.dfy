/** The event API serving one request after another, against what a client can tell from the answers alone. */
module Events {
  import opened Common
  import opened Schema
  import opened Protocol
  import opened Idempotency

  /** Accepted means: the first to use its event id and its key. */
  ghost predicate FirstUse(history: seq<NewEvent>, replies: seq<Reply>, i: nat)
    requires i < |history| && i <= |replies|
  {
    forall j | 0 <= j < i && replies[j] == Accepted202 ::
      history[j].eventId != history[i].eventId && history[j].key != history[i].key
  }

  ghost predicate UsesId(history: seq<NewEvent>, replies: seq<Reply>, i: nat, j: nat)
    requires j < i < |history| && i <= |replies|
  {
    replies[j] == Accepted202 && history[j].eventId == history[i].eventId
  }

  ghost predicate UsesKey(history: seq<NewEvent>, replies: seq<Reply>, i: nat, j: nat)
    requires j < i < |history| && i <= |replies|
  {
    replies[j] == Accepted202 && history[j].key == history[i].key
  }

  /** Submission i repeats accepted submission j in id, key and payload. */
  ghost predicate Repeats(history: seq<NewEvent>, replies: seq<Reply>, i: nat, j: nat)
    requires j < i < |history| && i <= |replies|
  {
    UsesId(history, replies, i, j) && UsesKey(history, replies, i, j) && history[j].payloadHash == history[i].payloadHash
  }

  /** The answer to submission i as a function of the earlier submissions and their answers. */
  ghost predicate AnswerFits(history: seq<NewEvent>, replies: seq<Reply>, i: nat)
    requires i < |history| && i < |replies|
  {
    && (replies[i] == Accepted202 <==> FirstUse(history, replies, i))
    && (replies[i] == Replayed200 <==> exists j | 0 <= j < i :: Repeats(history, replies, i, j))
    && (replies[i] == KeyConflict409 <==> exists j | 0 <= j < i :: UsesKey(history, replies, i, j) && !Repeats(history, replies, i, j))
    && (replies[i] == IdConflict409 <==>
          && (exists j | 0 <= j < i :: UsesId(history, replies, i, j))
          && forall j | 0 <= j < i :: !UsesKey(history, replies, i, j))
  }

  /** The database holds exactly the accepted submissions among the first n. */
  ghost predicate Holds(db: Db, history: seq<NewEvent>, replies: seq<Reply>, n: nat)
    requires n <= |history| && n <= |replies|
  {
    && (forall j | 0 <= j < n && replies[j] == Accepted202 :: RecordOf(db, history[j]))
    && (forall id | id in db.events :: exists j | 0 <= j < n :: replies[j] == Accepted202 && history[j].eventId == id)
  }

  ghost predicate RecordOf(db: Db, e: NewEvent) {
    e.eventId in db.events
    && db.events[e.eventId] == Event(e.key, e.payloadHash, e.observedAt, e.location, db.events[e.eventId].status)
  }

  class EventApi {
    var db: Db

    constructor ()
      ensures db == EMPTY_DB
    {
      db := EMPTY_DB;
    }

    /** `_existing_events`: the record with this id, and the record with this key. */
    method ExistingEvents(eventId: string, key: string) returns (byId: Option<string>, byKey: Option<string>)
      ensures byId == if eventId in db.events then Some(eventId) else None
      ensures byKey.Some? <==> KeyTaken(db, key)
      ensures byKey.Some? ==> byKey.value in db.events && db.events[byKey.value].key == key
    {
      byId := if eventId in db.events then Some(eventId) else None;
      byKey := None;
      if id :| id in db.events && db.events[id].key == key {
        byKey := Some(id);
      }
    }

    /** `_persist_event` in its session: both rows are committed, or the session rolls back. */
    method Persist(e: NewEvent, messageId: nat, now: int, reachable: bool) returns (committed: bool)
      modifies this
      ensures committed ==> PersistEvent(old(db), e, messageId, now) == Some(db) && EventAdded(old(db), db, e, messageId, now)
      ensures !committed ==> db == old(db)
      ensures committed <==> reachable && PersistEvent(old(db), e, messageId, now).Some?
    {
      var session := db;
      session := session.(events :=
        session.events[e.eventId := Event(e.key, e.payloadHash, e.observedAt, e.location, Received)]);
      session := session.(outbox :=
        session.outbox[messageId := FreshRow(Envelope(messageId, Telemetry, e.eventId, now, e.payloadHash))]);
      var violates := e.eventId in db.events || KeyTaken(db, e.key) || messageId in db.outbox;
      committed := reachable && !violates;
      if committed {
        EventPersisted(db, e, messageId, now);
        db := session;
      }
    }

    /** `ingest_event`, from the lookup on; `reachable` says whether a transaction can commit at all. */
    method IngestEvent(e: NewEvent, messageId: nat, now: int, reachable: bool) returns (reply: Reply)
      requires KeysUnique(db)
      modifies this
      ensures KeysUnique(db)
      ensures reply == Replayed200 <==> RecordedAs(old(db), e)
      ensures reply == KeyConflict409 <==> KeyTaken(old(db), e.key) && !RecordedAs(old(db), e)
      ensures reply == IdConflict409 <==> e.eventId in old(db).events && !KeyTaken(old(db), e.key)
      ensures reply == Accepted202 ==> PersistEvent(old(db), e, messageId, now) == Some(db) && EventAdded(old(db), db, e, messageId, now)
      ensures reply != Accepted202 ==> db == old(db)
      ensures reply in {Replayed200, KeyConflict409, IdConflict409, Accepted202, Failed500}
      ensures reply == Failed500 ==> !reachable || messageId in old(db).outbox
    {
      var byId, byKey := ExistingEvents(e.eventId, e.key);
      var exact := byId.Some? && byKey.Some? && byId.value == byKey.value
                   && db.events[byId.value].payloadHash == e.payloadHash;
      if exact {
        return Replayed200;
      }
      if byKey.Some? {
        return KeyConflict409;
      }
      if byId.Some? {
        return IdConflict409;
      }
      var committed := Persist(e, messageId, now, reachable);
      reply := if committed then Accepted202 else Failed500;
    }

    /** Requests one after another on a fresh database: each answer is fixed by the earlier ones. */
    method Serve(history: seq<NewEvent>, now: int) returns (replies: seq<Reply>)
      requires db == EMPTY_DB
      modifies this
      ensures |replies| == |history|
      ensures forall i | 0 <= i < |history| :: AnswerFits(history, replies, i)
      ensures Holds(db, history, replies, |history|)
    {
      hide AnswerFits, Holds, KeysUnique, RecordedAs;
      replies := [];
      var n := 0;
      NothingServed(history);
      while n < |history|
        invariant 0 <= n <= |history| && |replies| == n && KeysUnique(db)
        invariant forall id | id in db.outbox :: id < n
        invariant Holds(db, history, replies, n)
        invariant forall i | 0 <= i < n :: AnswerFits(history, replies, i)
      {
        ghost var before := db;
        var reply := IngestEvent(history[n], n, now, true);
        AnswerNext(before, db, history, replies, n, reply, now);
        forall i | 0 <= i < n ensures AnswerFits(history, replies + [reply], i) {
          AnswerSettled(history, replies, i, reply);
        }
        replies := replies + [reply];
        n := n + 1;
      }
    }

    static lemma {:induction false} NothingServed(history: seq<NewEvent>)
      ensures KeysUnique(EMPTY_DB) && Holds(EMPTY_DB, history, [], 0)
    {
    }

    /** An answer never depends on later ones. */
    static lemma {:induction false} AnswerSettled(history: seq<NewEvent>, replies: seq<Reply>, i: nat, reply: Reply)
      requires i < |history| && i < |replies| && AnswerFits(history, replies, i)
      ensures AnswerFits(history, replies + [reply], i)
    {
      var more := replies + [reply];
      assert forall j | 0 <= j < i :: UsesId(history, more, i, j) == UsesId(history, replies, i, j);
      assert forall j | 0 <= j < i :: UsesKey(history, more, i, j) == UsesKey(history, replies, i, j);
      assert forall j | 0 <= j < i :: Repeats(history, more, i, j) == Repeats(history, replies, i, j);
      assert FirstUse(history, more, i) == FirstUse(history, replies, i);
    }

    /** What the database says about a submission is what the history says. */
    static lemma {:induction false} HistoryTells(db: Db, history: seq<NewEvent>, replies: seq<Reply>, n: nat)
      requires n < |history| && |replies| == n && KeysUnique(db) && Holds(db, history, replies, n)
      ensures history[n].eventId in db.events <==> exists j | 0 <= j < n :: UsesId(history, replies, n, j)
      ensures KeyTaken(db, history[n].key) <==> exists j | 0 <= j < n :: UsesKey(history, replies, n, j)
      ensures RecordedAs(db, history[n]) <==> exists j | 0 <= j < n :: Repeats(history, replies, n, j)
    {
      var e := history[n];
      if j :| 0 <= j < n && UsesKey(history, replies, n, j) {
        assert RecordOf(db, history[j]);
        assert history[j].eventId in db.events && db.events[history[j].eventId].key == e.key;
      }
      if KeyTaken(db, e.key) {
        var id :| id in db.events && db.events[id].key == e.key;
        var j :| 0 <= j < n && replies[j] == Accepted202 && history[j].eventId == id;
        assert RecordOf(db, history[j]) && UsesKey(history, replies, n, j);
      }
      if e.eventId in db.events {
        var j :| 0 <= j < n && replies[j] == Accepted202 && history[j].eventId == e.eventId;
        assert RecordOf(db, history[j]) && UsesId(history, replies, n, j);
        if RecordedAs(db, e) {
          assert Repeats(history, replies, n, j);
        }
      }
      if j :| 0 <= j < n && UsesId(history, replies, n, j) {
        assert RecordOf(db, history[j]);
      }
      if j :| 0 <= j < n && Repeats(history, replies, n, j) {
        assert RecordOf(db, history[j]);
      }
    }

    /** With one record per key, a conflicting key means an accepted submission that this one does not repeat. */
    static lemma {:induction false} ConflictTells(db: Db, history: seq<NewEvent>, replies: seq<Reply>, n: nat)
      requires n < |history| && |replies| == n && KeysUnique(db) && Holds(db, history, replies, n)
      ensures KeyTaken(db, history[n].key) && !RecordedAs(db, history[n])
         <==> exists j | 0 <= j < n :: UsesKey(history, replies, n, j) && !Repeats(history, replies, n, j)
    {
      HistoryTells(db, history, replies, n);
      if j :| 0 <= j < n && UsesKey(history, replies, n, j) && !Repeats(history, replies, n, j) {
        assert RecordOf(db, history[j]);
      }
    }

    static lemma {:induction false} AnswerNext(before: Db, db: Db, history: seq<NewEvent>, replies: seq<Reply>, n: nat,
                                               reply: Reply, now: int)
      requires n < |history| && |replies| == n && KeysUnique(before) && Holds(before, history, replies, n)
      requires reply == Replayed200 <==> RecordedAs(before, history[n])
      requires reply == KeyConflict409 <==> KeyTaken(before, history[n].key) && !RecordedAs(before, history[n])
      requires reply == IdConflict409 <==> history[n].eventId in before.events && !KeyTaken(before, history[n].key)
      requires reply == Accepted202 ==> PersistEvent(before, history[n], n, now) == Some(db)
      requires reply != Accepted202 ==> db == before
      requires reply in {Replayed200, KeyConflict409, IdConflict409, Accepted202}
      ensures AnswerFits(history, replies + [reply], n)
      ensures Holds(db, history, replies + [reply], n + 1)
    {
      HistoryTells(before, history, replies, n);
      ConflictTells(before, history, replies, n);
      var more := replies + [reply];
      assert forall j | 0 <= j < n :: UsesId(history, more, n, j) == UsesId(history, replies, n, j);
      assert forall j | 0 <= j < n :: UsesKey(history, more, n, j) == UsesKey(history, replies, n, j);
      assert forall j | 0 <= j < n :: Repeats(history, more, n, j) == Repeats(history, replies, n, j);
      AnswerCases(before, history, replies, n, reply);
      HoldsNext(before, db, history, replies, n, reply, now);
    }

    static lemma {:induction false} AnswerCases(before: Db, history: seq<NewEvent>, replies: seq<Reply>, n: nat, reply: Reply)
      requires n < |history| && |replies| == n && KeysUnique(before) && Holds(before, history, replies, n)
      requires reply == Replayed200 <==> RecordedAs(before, history[n])
      requires reply == KeyConflict409 <==> KeyTaken(before, history[n].key) && !RecordedAs(before, history[n])
      requires reply == IdConflict409 <==> history[n].eventId in before.events && !KeyTaken(before, history[n].key)
      requires reply in {Replayed200, KeyConflict409, IdConflict409, Accepted202}
      ensures reply == Accepted202 <==> FirstUse(history, replies + [reply], n)
    {
      HistoryTells(before, history, replies, n);
      var more := replies + [reply];
      if FirstUse(history, more, n) {
        assert forall j | 0 <= j < n :: !UsesId(history, replies, n, j) && !UsesKey(history, replies, n, j);
      } else {
        var j :| 0 <= j < n && more[j] == Accepted202
                 && (history[j].eventId == history[n].eventId || history[j].key == history[n].key);
        assert UsesId(history, replies, n, j) || UsesKey(history, replies, n, j);
      }
    }

    static lemma {:induction false} HoldsNext(before: Db, db: Db, history: seq<NewEvent>, replies: seq<Reply>, n: nat,
                                              reply: Reply, now: int)
      requires n < |history| && |replies| == n && Holds(before, history, replies, n)
      requires reply == Accepted202 ==> PersistEvent(before, history[n], n, now) == Some(db)
      requires reply != Accepted202 ==> db == before
      ensures Holds(db, history, replies + [reply], n + 1)
    {
      var more := replies + [reply];
      forall j | 0 <= j < n + 1 && more[j] == Accepted202 ensures RecordOf(db, history[j]) {
        if j < n {
          assert replies[j] == Accepted202 && RecordOf(before, history[j]);
        }
      }
      forall id | id in db.events ensures exists j | 0 <= j < n + 1 :: more[j] == Accepted202 && history[j].eventId == id {
        if id in before.events {
          var j :| 0 <= j < n && replies[j] == Accepted202 && history[j].eventId == id;
          assert more[j] == Accepted202;
        } else {
          assert more[n] == Accepted202;
        }
      }
    }
  }
}
