/** One durable consumer handling one message, delivery after delivery, until it is settled. */
module Workers {
  import opened Common
  import opened Schema
  import opened Retry
  import opened Evaluation
  import opened Protocol

  /** How the surroundings behave during one delivery, and the sample its jitter draws. */
  datatype Weather = Weather(works: bool, recordsPassed: bool, acks: bool, recordsFailure: bool, copies: bool,
                             buries: bool, closes: bool, rows: seq<string>, error: string, sample: real)
  {
    predicate Smooth() {
      works && recordsPassed && acks
    }

    /** The broker takes the dead-letter copy and the final ack. */
    predicate BrokerAnswers() {
      copies && closes
    }
  }

  /** The stored bytes of a catalogued scene hash to its digest and inspect cleanly. */
  predicate Readable(env: Env, db: Db, objects: map<string, Bytes>, sceneId: string) {
    sceneId in db.scenes &&
    var scene := db.scenes[sceneId];
    scene.sha256 in objects && env.hash(objects[scene.sha256]) == scene.sha256
    && env.inspect(objects[scene.sha256], Some(DeclaredOf(sceneId, scene))).Some?
  }

  /** Accepted, with every column a function of its own row and its stored bytes. */
  predicate Completed(env: Env, db: Db, objects: map<string, Bytes>, sceneId: string) {
    Readable(env, db, objects, sceneId) &&
    var scene := db.scenes[sceneId];
    var raster := env.inspect(objects[scene.sha256], Some(DeclaredOf(sceneId, scene))).value;
    scene.status == Accepted && scene.error == None && scene.columns == ColumnsOf(sceneId, scene, raster)
  }

  /** A database that agrees on everything an evaluation reads or writes. */
  predicate SameResults(db: Db, db': Db) {
    db'.scenes == db.scenes && db'.events == db.events && db'.correlations == db.correlations && db'.analyses == db.analyses
  }

  lemma {:induction false} ListingKept(db: Db, db': Db, rows: seq<string>)
    requires IsListing(db, rows) && db'.scenes == db.scenes
    ensures IsListing(db', rows)
  {
  }

  lemma {:induction false} EvaluatedKept(env: Env, db: Db, db': Db, eventId: string, rows: seq<string>)
    requires Evaluated(env, db, eventId, rows) && SameResults(db, db')
    ensures Evaluated(env, db', eventId, rows)
  {
    FreshReordered(env, db', db, eventId, rows, rows);
    SameUpToOrderTransitive(Fresh(env, db', eventId, rows), Fresh(env, db, eventId, rows), db.analyses[eventId]);
  }

  /** Not evaluated yet, or left as some evaluation over `listing` leaves it. */
  ghost predicate Evaluable(env: Env, db: Db, eventId: string, listing: Option<seq<string>>) {
    WellNamed(env, db.correlations)
    && match listing
       case None => eventId !in db.analyses
       case Some(rows) => Evaluated(env, db, eventId, rows)
  }

  lemma {:induction false} EvaluableKept(env: Env, db: Db, db': Db, eventId: string, listing: Option<seq<string>>)
    requires Evaluable(env, db, eventId, listing) && SameResults(db, db')
    ensures Evaluable(env, db', eventId, listing)
  {
    if listing.Some? {
      EvaluatedKept(env, db, db', eventId, listing.value);
    }
  }

  /** Evaluating always commits, whatever earlier evaluation it follows. */
  lemma {:induction false} EvaluationCommits(env: Env, db: Db, eventId: string, listing: Option<seq<string>>, rows: seq<string>)
    requires Evaluable(env, db, eventId, listing) && eventId in db.events && IsListing(db, rows)
    ensures var after := CommitEvaluation(db, Evaluate(env, db, eventId, rows));
      after.Some? && Evaluable(env, after.value, eventId, Some(rows))
  {
    match listing
    case None => FirstEvaluation(env, db, eventId, rows);
    case Some(earlier) =>
      EvaluationIdempotent(env, db, eventId, earlier, rows);
      EvaluatedOver(env, CommitEvaluation(db, Evaluate(env, db, eventId, rows)).value, eventId, earlier, rows);
  }

  /** Any listing of the accepted scenes will do. */
  lemma {:induction false} EvaluatedOver(env: Env, db: Db, eventId: string, earlier: seq<string>, rows: seq<string>)
    requires Evaluated(env, db, eventId, earlier) && IsListing(db, rows)
    ensures Evaluated(env, db, eventId, rows)
  {
    FreshReordered(env, db, db, eventId, rows, earlier);
    SameUpToOrderTransitive(Fresh(env, db, eventId, rows), Fresh(env, db, eventId, earlier), db.analyses[eventId]);
  }

  /** `evaluate_event` and the commit of its session, which may fail. */
  method EvaluateSession(env: Env, db: Db, eventId: string, ghost listing: Option<seq<string>>, rows: seq<string>, commits: bool)
    returns (committed: Option<Db>)
    requires Evaluable(env, db, eventId, listing) && IsListing(db, rows)
    ensures committed.Some? <==> commits && eventId in db.events
    ensures committed.Some? ==> Evaluable(env, committed.value, eventId, Some(rows))
    ensures committed.Some? ==> KeepsOthers(db, committed.value)
  {
    var writes := EvaluateEvent(env, db, eventId, rows);
    if writes.None? || !commits {
      return None;
    }
    EvaluationCommits(env, db, eventId, listing, rows);
    CommitKeepsOthers(db, writes.value);
    committed := CommitEvaluation(db, writes.value);
  }

  /** An evaluation touches no scene, attempt or dead letter, and no event's presence. */
  predicate KeepsOthers(db: Db, db': Db) {
    db'.scenes == db.scenes && db'.attempts == db.attempts && db'.deadLetters == db.deadLetters && db'.events.Keys == db.events.Keys
  }

  lemma {:induction false} CommitKeepsOthers(db: Db, w: Writes)
    requires CommitEvaluation(db, w).Some?
    ensures KeepsOthers(db, CommitEvaluation(db, w).value)
  {
  }

  ghost predicate LettersOnce(letters: seq<DeadLetter>) {
    forall i, j | 0 <= i < j < |letters| :: letters[i].messageId != letters[j].messageId || letters[i].service != letters[j].service
  }

  /** At most one row per message and service, and none of this message without its copy. */
  ghost predicate LettersSound(letters: seq<DeadLetter>, dlq: seq<Copy>, messageId: nat) {
    LettersOnce(letters) && ((exists row :: row in letters && row.messageId == messageId) ==> InDlq(dlq, messageId))
  }

  lemma {:induction false} OneMoreCopy(letters: seq<DeadLetter>, dlq: seq<Copy>, copy: Copy)
    requires LettersSound(letters, dlq, copy.envelope.messageId)
    ensures LettersSound(letters, dlq + [copy], copy.envelope.messageId)
    ensures InDlq(dlq + [copy], copy.envelope.messageId) && copy in dlq + [copy]
  {
    assert (dlq + [copy])[|dlq|] == copy;
  }

  /** What `_record_dead_letter` writes. */
  lemma {:induction false} Burial(db: Db, row: DeadLetter, sawNone: bool, sceneId: Option<string>)
    requires LettersOnce(db.deadLetters) && (sawNone <==> !DeadLettered(db, row.messageId, row.service))
    ensures var after := RecordDeadLetter(db, row, sawNone, sceneId);
      && after.Some? && LettersOnce(after.value.deadLetters) && DeadLettered(after.value, row.messageId, row.service)
      && (sceneId.None? ==> SameResults(db, after.value))
      && (sceneId.Some? && sceneId.value in db.scenes ==>
            after.value.scenes == db.scenes[sceneId.value := db.scenes[sceneId.value].(status := Rejected, error := Some(row.error))])
      && (sceneId.Some? && sceneId.value !in db.scenes ==> after.value.scenes == db.scenes)
  {
    if sawNone {
      forall i | 0 <= i < |db.deadLetters|
        ensures db.deadLetters[i].messageId != row.messageId || db.deadLetters[i].service != row.service
      {
        assert db.deadLetters[i] in db.deadLetters;
      }
      assert (db.deadLetters + [row])[|db.deadLetters|] == row;
    }
  }

  /** One more nak, with the backoff of its attempt. */
  lemma {:induction false} OneMoreDelay(delays: seq<real>, more: seq<real>, samples: seq<real>, sample: real, policy: Policy)
    requires AreDelays(delays, samples, policy) && 0.0 <= sample <= 1.0
    requires |more| == |delays| + 1 && more[..|delays|] == delays
    requires Some(more[|delays|]) == BackoffSeconds(|delays| + 1, policy, sample)
    ensures AreDelays(more, samples + [sample], policy)
  {
    assert (samples + [sample])[..|samples|] == samples;
  }

  lemma {:induction false} NoDelays(policy: Policy)
    ensures AreDelays([], [], policy)
  {
  }

  class Consumer {
    const env: Env
    const policy: Policy
    const envelope: Envelope
    const objects: map<string, Bytes>
    var db: Db
    var dlq: seq<Copy>
    var delivered: nat
    var acked: bool
    /** The delays asked for by naks. */
    var delays: seq<real>
    /** The rows of the last committed evaluation. */
    ghost var listing: Option<seq<string>>

    ghost predicate Valid()
      reads this
    {
      && env.maxAttempts >= 1 && policy.Valid()
      && LettersSound(db.deadLetters, dlq, envelope.messageId)
      && (envelope.lane == Telemetry ==> Evaluable(env, db, envelope.aggregateId, listing))
    }

    /** The work itself can be done. */
    predicate Workable()
      reads this
    {
      match envelope.lane
      case Telemetry => envelope.aggregateId in db.events
      case Imagery => Readable(env, db, objects, envelope.aggregateId)
    }

    /** The work is committed and this attempt recorded as passed. */
    ghost predicate Passed()
      reads this
    {
      && Attempt(envelope.messageId, envelope.lane, delivered, true, None) in db.attempts
      && match envelope.lane
         case Telemetry => listing.Some?
         case Imagery => Completed(env, db, objects, envelope.aggregateId)
    }

    ghost predicate Copied()
      reads this
    {
      delivered >= env.maxAttempts && Copy(envelope, delivered) in dlq
    }

    /** How an acknowledged message was settled. */
    ghost predicate SettledBy(passing: bool)
      reads this
    {
      if passing then Passed() else Copied()
    }

    constructor (env: Env, policy: Policy, envelope: Envelope, db: Db, objects: map<string, Bytes>)
      requires env.maxAttempts >= 1 && policy.Valid() && db.deadLetters == []
      requires WellNamed(env, db.correlations) && envelope.aggregateId !in db.analyses
      ensures Valid() && this.env == env && this.policy == policy && this.envelope == envelope && this.objects == objects
      ensures this.db == db && delivered == 0 && !acked && delays == [] && dlq == []
    {
      this.env, this.policy, this.envelope, this.objects, this.db := env, policy, envelope, objects, db;
      dlq, delivered, acked, delays, listing := [], 0, false, [], None;
    }

    /** `evaluate_event` in its session. */
    method Evaluating(w: Weather) returns (done: bool)
      requires Valid() && envelope.lane == Telemetry && IsListing(db, w.rows)
      modifies this`db, this`listing
      ensures Valid() && Workable() == old(Workable())
      ensures done <==> w.works && Workable()
      ensures done ==> listing == Some(w.rows)
      ensures !done ==> db == old(db) && listing == old(listing)
      ensures db.scenes == old(db).scenes && db.attempts == old(db).attempts && db.deadLetters == old(db).deadLetters
    {
      hide Evaluable, LettersSound;
      var committed := EvaluateSession(env, db, envelope.aggregateId, listing, w.rows, w.works);
      done := committed.Some?;
      if done {
        db, listing := committed.value, Some(w.rows);
      }
    }

    /** The imagery worker's read, fetch, digest check, inspection and `_complete_scene`. */
    method Completing(w: Weather) returns (done: bool)
      requires Valid() && envelope.lane == Imagery
      modifies this`db
      ensures Valid() && Workable() == old(Workable())
      ensures done <==> w.works && Workable()
      ensures done ==> Completed(env, db, objects, envelope.aggregateId)
      ensures !done ==> db == old(db)
      ensures db.attempts == old(db).attempts && db.deadLetters == old(db).deadLetters
    {
      var sceneId := envelope.aggregateId;
      if sceneId !in db.scenes {
        return false;
      }
      var declared, expected := DeclaredOf(sceneId, db.scenes[sceneId]), db.scenes[sceneId].sha256;
      if expected !in objects || env.hash(objects[expected]) != expected {
        return false;
      }
      var raster := env.inspect(objects[expected], Some(declared));
      if raster.None? || !w.works {
        return false;
      }
      db := CompleteScene(db, sceneId, raster.value).value;
      done := true;
    }

    method RecordAttempt(passed: bool, error: Option<string>)
      requires Valid()
      modifies this`db
      ensures Valid() && Workable() == old(Workable())
      ensures db == old(db).(attempts := old(db).attempts + [Attempt(envelope.messageId, envelope.lane, delivered, passed, error)])
    {
      hide Evaluable, LettersSound;
      if envelope.lane == Telemetry {
        EvaluableKept(env, db, Schema.RecordAttempt(db, Attempt(envelope.messageId, envelope.lane, delivered, passed, error)),
                      envelope.aggregateId, listing);
      }
      db := Schema.RecordAttempt(db, Attempt(envelope.messageId, envelope.lane, delivered, passed, error));
    }

    /** The attempt row of this delivery. */
    function AttemptRow(passed: bool, error: Option<string>): Attempt
      reads this
    {
      Attempt(envelope.messageId, envelope.lane, delivered, passed, error)
    }

    /** The `try` of `_process_message`: the work, its attempt row, the ack. */
    method Try(w: Weather) returns (done: bool)
      requires Valid() && !acked && (envelope.lane == Telemetry ==> IsListing(db, w.rows))
      modifies this`db, this`listing, this`acked
      ensures Valid() && Workable() == old(Workable())
      ensures done <==> w.Smooth() && Workable()
      ensures done ==> acked && Passed()
      ensures !done ==> !acked
      ensures db.attempts == if w.works && w.recordsPassed && Workable() then old(db).attempts + [AttemptRow(true, None)] else old(db).attempts
      ensures envelope.lane == Telemetry ==> db.scenes == old(db).scenes
    {
      hide Readable, Evaluable, LettersSound, IsListing;
      var worked := false;
      if envelope.lane == Telemetry {
        worked := Evaluating(w);
      } else {
        worked := Completing(w);
      }
      if !worked || !w.recordsPassed {
        return false;
      }
      RecordAttempt(true, None);
      acked := w.acks;
      done := acked;
    }

    /** `_record_dead_letter`: one row per message and service, and the scene rejected. */
    method Bury(error: string)
      requires Valid() && InDlq(dlq, envelope.messageId)
      modifies this`db
      ensures Valid() && Workable() == old(Workable())
      ensures DeadLettered(db, envelope.messageId, envelope.lane)
      ensures envelope.lane == Telemetry ==> db.scenes == old(db).scenes
      ensures envelope.lane == Imagery && envelope.aggregateId in db.scenes ==>
                db.scenes[envelope.aggregateId].status == Rejected && db.scenes[envelope.aggregateId].error == Some(error)
      ensures db.attempts == old(db).attempts
      ensures db.deadLetters == if DeadLettered(old(db), envelope.messageId, envelope.lane) then old(db).deadLetters
                                else old(db).deadLetters + [DeadLetter(envelope.messageId, envelope.lane, error, delivered)]
    {
      hide Evaluable, LettersOnce;
      var existing := DeadLettered(db, envelope.messageId, envelope.lane);
      var row := DeadLetter(envelope.messageId, envelope.lane, error, delivered);
      var sceneId := if envelope.lane == Imagery then Some(envelope.aggregateId) else None;
      Burial(db, row, !existing, sceneId);
      if envelope.lane == Telemetry {
        EvaluableKept(env, db, RecordDeadLetter(db, row, !existing, sceneId).value, envelope.aggregateId, listing);
      }
      db := RecordDeadLetter(db, row, !existing, sceneId).value;
    }

    /** The `except` of `_process_message`; false when an exception leaves it. */
    method HandleFailure(w: Weather) returns (alive: bool)
      requires Valid() && !acked && delivered >= 1 && 0.0 <= w.sample <= 1.0
      modifies this`db, this`dlq, this`acked, this`delays
      ensures Valid() && Workable() == old(Workable())
      ensures acked <==> delivered >= env.maxAttempts && w.copies && w.closes
      ensures acked ==> Copied()
      ensures delivered >= env.maxAttempts && w.copies && w.buries ==> Buried(w.error)
      ensures delivered >= env.maxAttempts ==> delays == old(delays) && (alive <==> w.copies && w.buries && w.closes)
      ensures delivered < env.maxAttempts ==> alive && Waits(old(delays), w.sample) && dlq == old(dlq)
      ensures delivered >= env.maxAttempts ==> dlq == if w.copies then old(dlq) + [Copy(envelope, delivered)] else old(dlq)
      ensures db.attempts == if w.recordsFailure then old(db).attempts + [AttemptRow(false, Some(w.error))] else old(db).attempts
      ensures envelope.lane == Telemetry ==> db.scenes == old(db).scenes
    {
      hide Evaluable, Readable, LettersSound, Completed, IsListing;
      if w.recordsFailure {
        RecordAttempt(false, Some(w.error));
      }
      var exhausted := RetryExhausted(delivered, env.maxAttempts);
      if exhausted.value {
        if !w.copies {
          return false;
        }
        OneMoreCopy(db.deadLetters, dlq, Copy(envelope, delivered));
        dlq := dlq + [Copy(envelope, delivered)];
        if w.buries {
          Bury(w.error);
        }
        acked := w.closes;
        return w.buries && w.closes;
      }
      delays := delays + [BackoffSeconds(delivered, policy, w.sample).value];
      alive := true;
    }

    ghost predicate Buried(error: string)
      reads this
    {
      && DeadLettered(db, envelope.messageId, envelope.lane)
      && (envelope.lane == Imagery && envelope.aggregateId in db.scenes ==>
            db.scenes[envelope.aggregateId].status == Rejected && db.scenes[envelope.aggregateId].error == Some(error))
    }

    /** The delivery ended in a nak with the backoff of its own attempt. */
    ghost predicate Waits(earlier: seq<real>, sample: real)
      reads this
    {
      && |delays| == |earlier| + 1 && delays[..|earlier|] == earlier
      && Some(delays[|earlier|]) == BackoffSeconds(delivered, policy, sample)
    }

    /**
     `_process_message`. It acknowledges a message only when the work is committed and
     recorded, or when the attempts are used up and a copy is on the dead-letter stream.
     */
    method ProcessMessage(w: Weather) returns (passed: bool, alive: bool)
      requires Valid() && !acked && 0.0 <= w.sample <= 1.0
      requires envelope.lane == Telemetry ==> IsListing(db, w.rows)
      modifies this
      ensures Valid() && Workable() == old(Workable()) && delivered == old(delivered) + 1
      ensures passed <==> w.Smooth() && Workable()
      ensures acked ==> SettledBy(passed)
      ensures acked <==> passed || (delivered >= env.maxAttempts && w.copies && w.closes)
      ensures !passed && delivered >= env.maxAttempts && w.copies && w.buries ==> Buried(w.error)
      ensures !acked && delivered < env.maxAttempts ==> alive && Waits(old(delays), w.sample)
      ensures (acked || delivered >= env.maxAttempts) ==> delays == old(delays)
      ensures db.attempts == old(db).attempts
        + (if w.works && w.recordsPassed && Workable() then [AttemptRow(true, None)] else [])
        + (if !passed && w.recordsFailure then [AttemptRow(false, Some(w.error))] else [])
      ensures envelope.lane == Telemetry ==> db.scenes == old(db).scenes
    {
      hide Readable, Evaluable, LettersSound, IsListing, Buried, Waits;
      delivered := delivered + 1;
      passed := Try(w);
      alive := true;
      if !passed {
        alive := HandleFailure(w);
      }
    }

    /** So far: nothing that could have passed was passed over, and every unsettled delivery waited its turn. */
    ghost predicate Progress(was: Db, workable: bool, weather: nat -> Weather, passed: bool, samples: seq<real>)
      reads this
    {
      && Workable() == workable && (envelope.lane == Telemetry ==> db.scenes == was.scenes)
      && |delays| == (if acked then delivered - 1 else delivered) && AreDelays(delays, samples, policy)
      && (workable ==> NoneSmooth(weather, if acked then delivered - 1 else delivered))
      && if acked then 1 <= delivered <= env.maxAttempts && SettledBy(passed) && (passed <==> workable && weather(delivered).Smooth())
         else delivered < env.maxAttempts
    }

    ghost predicate Listed(was: Db, weather: nat -> Weather) {
      envelope.lane == Telemetry ==> forall k :: IsListing(was, weather(k).rows)
    }

    /** One more delivery. */
    method Redeliver(weather: nat -> Weather, ghost was: Db, ghost workable: bool, ghost samples: seq<real>)
      returns (passed: bool, ghost more: seq<real>)
      requires Valid() && !acked && Progress(was, workable, weather, false, samples) && Listed(was, weather)
      requires weather(delivered + 1).BrokerAnswers() && 0.0 <= weather(delivered + 1).sample <= 1.0
      modifies this
      ensures Valid() && Progress(was, workable, weather, passed, more) && delivered == old(delivered) + 1
      ensures !acked ==> !passed
    {
      hide Valid, IsListing, BackoffSeconds, AreDelays, Workable, SettledBy, Buried, AttemptRow;
      ghost var w, earlier := weather(delivered + 1), delays;
      if envelope.lane == Telemetry {
        ListingKept(was, db, w.rows);
      }
      var alive;
      passed, alive := ProcessMessage(weather(delivered + 1));
      more := samples;
      if !acked {
        OneMoreDelay(earlier, delays, samples, w.sample, policy);
        more := samples + [w.sample];
      }
    }

    /**
     Redelivery until the message is settled, while the worker lives and the broker answers.
     It takes at most `maxAttempts` deliveries, the first smooth one if the work can be done,
     and the waits in between keep within both budgets.
     */
    method Settle(weather: nat -> Weather) returns (passed: bool, ghost samples: seq<real>)
      requires Valid() && delivered == 0 && !acked && delays == []
      requires forall k :: weather(k).BrokerAnswers() && 0.0 <= weather(k).sample <= 1.0
      requires Listed(db, weather)
      modifies this
      ensures Valid() && acked && 1 <= delivered <= env.maxAttempts && |delays| == delivered - 1
      ensures old(Workable()) ==> NoneSmooth(weather, delivered - 1)
      ensures SettledBy(passed) && (passed <==> old(Workable()) && weather(delivered).Smooth())
      ensures AreDelays(delays, samples, policy) && WithinBudgets(policy, delays)
    {
      assert env.maxAttempts >= 1 && policy.Valid();
      hide Valid, Listed, WithinBudgets, Workable, SettledBy, AreDelays, BackoffSeconds;
      NoDelays(policy);
      passed, samples := false, [];
      ghost var was, workable := db, Workable();
      while !acked
        invariant Valid() && Progress(was, workable, weather, passed, samples) && (!acked ==> !passed)
        decreases env.maxAttempts - delivered, !acked
      {
        passed, samples := Redeliver(weather, was, workable, samples);
      }
      Budgets(policy, samples, delays);
    }
  }

  ghost predicate NoneSmooth(weather: nat -> Weather, n: int) {
    n <= 0 || (!weather(n).Smooth() && NoneSmooth(weather, n - 1))
  }

  /** The waits together stay within the budget of the cap and that of the jittered doublings. */
  ghost predicate WithinBudgets(policy: Policy, delays: seq<real>) {
    && Sum(delays) <= |delays| as real * policy.cap
    && AtMostScaled(Sum(delays), 1.0 + policy.jitterRatio, Doubled(policy.base, |delays|) - policy.base)
  }

  lemma {:induction false} Budgets(policy: Policy, samples: seq<real>, delays: seq<real>)
    requires policy.Valid() && AreDelays(delays, samples, policy)
    ensures WithinBudgets(policy, delays)
  {
    RetryBudgetCapped(policy, samples, delays);
    RetryBudgetExponential(policy, samples, delays, 1.0 + policy.jitterRatio);
  }
}
