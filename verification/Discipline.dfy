/** Bounded retries: how often a message is declined, delivered and dead-lettered. */
module Discipline {
  import opened Common
  import opened Schema
  import opened Evaluation
  import opened Protocol
  import opened Custody

  // ------------------------------------------------------------- declining

  /** Each decline used up a different delivery, none of them the last one allowed. */
  ghost predicate NaksOk(env: Env, entry: Entry) {
    Distinct(entry.naks) && forall a | a in entry.naks :: 1 <= a < env.maxAttempts && a <= entry.delivered
  }

  ghost predicate Undeclined(stream: seq<Entry>, x: Worker) {
    !x.pc.Polling? && x.pc.delivery.index < |stream| ==> x.pc.delivery.attempt !in stream[x.pc.delivery.index].naks
  }

  ghost predicate Apart(x: Worker, y: Worker) {
    !x.pc.Polling? && !y.pc.Polling? ==> x.pc.delivery != y.pc.delivery
  }

  ghost predicate DeliveriesApart(workers: map<nat, Worker>) {
    forall p, q | p in workers && q in workers && p != q :: Apart(workers[p], workers[q])
  }

  ghost predicate AllNaksOk(env: Env, stream: seq<Entry>) {
    forall i | 0 <= i < |stream| :: NaksOk(env, stream[i])
  }

  ghost predicate NakInv(env: Env, s: State) {
    && AllNaksOk(env, s.sh.stream)
    && (forall p | p in s.workers :: Undeclined(s.sh.stream, s.workers[p]))
    && DeliveriesApart(s.workers)
  }

  /** Steps of everyone but the workers leave the consumer state alone. */
  ghost predicate OnlyAppends(q: seq<Entry>, q': seq<Entry>) {
    q <= q' && forall i | |q| <= i < |q'| :: q'[i].delivered == 0 && !q'[i].acked && q'[i].naks == []
  }

  lemma {:induction false} OthersOnlyAppend(env: Env, s: State, s': State, step: Step)
    requires Next(env, s, s', step) && !step.ByWorker?
    ensures OnlyAppends(s.sh.stream, s'.sh.stream)
    ensures forall p | p in s'.workers && p !in s.workers :: s'.workers[p].pc.Polling?
    ensures forall p | p in s.workers :: p in s'.workers && s'.workers[p] == s.workers[p]
  {
    hide CommitEvaluation, CommitCompletion, CommitBurial, Evaluate, IsListing, IsPendingBatch, DecideEvent, DecideScene, PersistEvent, PersistScene;
  }

  lemma {:induction false} NakInvOthers(env: Env, s: State, s': State, step: Step)
    requires env.CollisionFree() && Inv(env, s) && NakInv(env, s) && Next(env, s, s', step) && !step.ByWorker?
    ensures NakInv(env, s')
  {
    hide CommitEvaluation, CommitCompletion, CommitBurial, Evaluate, IsListing, IsPendingBatch, DecideEvent, DecideScene, PersistEvent, PersistScene, SharedInv, DispatcherOk;
    OthersOnlyAppend(env, s, s', step);
    forall p | p in s'.workers ensures Undeclined(s'.sh.stream, s'.workers[p]) {
      if p in s.workers {
        assert Undeclined(s.sh.stream, s.workers[p]) && WorkerOk(env, s.sh, s.workers[p]);
      }
    }
  }

  /** The stream after a worker's move: one entry delivered, acknowledged or declined, or none. */
  lemma {:induction false} WorkerStream(env: Env, sh: Shared, sh': Shared, x: Worker, x': Worker, m: WorkerMove)
    requires WorkerMoves(env, sh, sh', x, x', m)
    ensures |sh'.stream| == |sh.stream|
    ensures !m.Deliver? && !m.Decline? ==> forall i | 0 <= i < |sh.stream| ::
              sh'.stream[i].naks == sh.stream[i].naks && sh'.stream[i].delivered == sh.stream[i].delivered
    ensures !m.Deliver? && !x'.pc.Polling? ==> !x.pc.Polling? && x'.pc.delivery == x.pc.delivery
  {
  }

  lemma {:induction false} NaksAfter(env: Env, sh: Shared, sh': Shared, x: Worker, x': Worker, m: WorkerMove)
    requires WorkerMoves(env, sh, sh', x, x', m) && WorkerOk(env, sh, x)
    requires AllNaksOk(env, sh.stream) && Undeclined(sh.stream, x)
    ensures AllNaksOk(env, sh'.stream) && Undeclined(sh'.stream, x')
  {
    WorkerStream(env, sh, sh', x, x', m);
    if m.Deliver? {
      assert NaksOk(env, sh.stream[m.index]);
    } else if m.Decline? {
      assert NaksOk(env, sh.stream[x.pc.delivery.index]);
    } else {
      forall i | 0 <= i < |sh.stream| ensures NaksOk(env, sh'.stream[i]) {
        assert NaksOk(env, sh.stream[i]);
      }
    }
  }

  lemma {:induction false} OthersAfter(env: Env, sh: Shared, sh': Shared, x: Worker, x': Worker, m: WorkerMove, y: Worker)
    requires WorkerMoves(env, sh, sh', x, x', m) && WorkerOk(env, sh, x) && WorkerOk(env, sh, y)
    requires Undeclined(sh.stream, y) && Apart(x, y)
    ensures Undeclined(sh'.stream, y) && Apart(x', y)
  {
    WorkerStream(env, sh, sh', x, x', m);
  }

  lemma {:induction false} ApartSymmetric(x: Worker, y: Worker)
    requires Apart(x, y)
    ensures Apart(y, x)
  {
  }

  lemma {:induction false} NakInvWorker(env: Env, s: State, s': State, step: Step)
    requires env.CollisionFree() && Inv(env, s) && NakInv(env, s) && Next(env, s, s', step) && step.ByWorker?
    ensures NakInv(env, s')
  {
    var p, m := step.p, step.workerMove;
    var x, x' := s.workers[p], s'.workers[p];
    NaksAfter(env, s.sh, s'.sh, x, x', m);
    forall q | q in s'.workers && q != p ensures Undeclined(s'.sh.stream, s'.workers[q]) && Apart(x', s'.workers[q]) {
      OthersAfter(env, s.sh, s'.sh, x, x', m, s.workers[q]);
    }
    forall q, r | q in s'.workers && r in s'.workers && q != r ensures Apart(s'.workers[q], s'.workers[r]) {
      if r == p {
        ApartSymmetric(x', s'.workers[q]);
      } else if q != p {
        assert Apart(s.workers[q], s.workers[r]);
      }
    }
  }

  lemma {:induction false} RunNakInv(env: Env, run: seq<State>, steps: seq<Step>, i: nat)
    requires env.CollisionFree() && IsRun(env, run, steps) && i < |run|
    ensures NakInv(env, run[i])
  {
    if i > 0 {
      RunNakInv(env, run, steps, i - 1);
      RunInv(env, run, steps, i - 1);
      assert StepAt(env, run, steps, i - 1);
      if steps[i - 1].ByWorker? {
        NakInvWorker(env, run[i - 1], run[i], steps[i - 1]);
      } else {
        NakInvOthers(env, run[i - 1], run[i], steps[i - 1]);
      }
    }
  }

  /** In every run, crashes and redeliveries included, a message is declined at most max_attempts - 1 times. */
  lemma {:induction false} DeclinedAtMost(env: Env, run: seq<State>, steps: seq<Step>, i: nat, k: nat)
    requires env.CollisionFree() && env.maxAttempts >= 1 && IsRun(env, run, steps) && i < |run|
    requires k < |run[i].sh.stream|
    ensures |run[i].sh.stream[k].naks| <= env.maxAttempts - 1
    ensures Distinct(run[i].sh.stream[k].naks)
  {
    RunNakInv(env, run, steps, i);
    assert NaksOk(env, run[i].sh.stream[k]);
    DistinctBounded(run[i].sh.stream[k].naks, env.maxAttempts - 1);
  }

  // ---------------------------------------------------------- dead letters

  ghost predicate SameLetter(a: DeadLetter, b: DeadLetter) {
    a.messageId == b.messageId && a.service == b.service
  }

  ghost predicate LettersApart(letters: seq<DeadLetter>) {
    forall i, j | 0 <= i < j < |letters| :: !SameLetter(letters[i], letters[j])
  }

  ghost predicate LettersOk(sh: Shared) {
    && LettersApart(sh.db.deadLetters)
    && (forall row | row in sh.db.deadLetters :: InDlq(sh.dlq, row.messageId))
  }

  /** Whoever is about to write a letter has put the copy on the stream. */
  ghost predicate BurialsCopied(sh: Shared) {
    forall t | t in sh.threads && sh.threads[t].job.BuryJob? :: InDlq(sh.dlq, sh.threads[t].job.letter.messageId)
  }

  lemma {:induction false} LettersFrame(sh: Shared, sh': Shared)
    requires LettersOk(sh) && sh'.db.deadLetters == sh.db.deadLetters && sh.dlq <= sh'.dlq
    ensures LettersOk(sh')
  {
    forall row | row in sh'.db.deadLetters ensures InDlq(sh'.dlq, row.messageId) {
      InDlqStable(sh.dlq, sh'.dlq, row.messageId);
    }
  }

  /** Burials under way are the ones there were, and any new one has its copy. */
  ghost predicate BurialsKept(sh: Shared, sh': Shared) {
    forall t | t in sh'.threads && sh'.threads[t].job.BuryJob? ::
      (t in sh.threads && sh.threads[t].job == sh'.threads[t].job) || InDlq(sh'.dlq, sh'.threads[t].job.letter.messageId)
  }

  lemma {:induction false} BurialsFrame(sh: Shared, sh': Shared)
    requires BurialsCopied(sh) && BurialsKept(sh, sh') && sh.dlq <= sh'.dlq
    ensures BurialsCopied(sh')
  {
    forall t | t in sh'.threads && sh'.threads[t].job.BuryJob? ensures InDlq(sh'.dlq, sh'.threads[t].job.letter.messageId) {
      if t in sh.threads && sh.threads[t].job == sh'.threads[t].job {
        InDlqStable(sh.dlq, sh'.dlq, sh.threads[t].job.letter.messageId);
      }
    }
  }

  /** The unique constraint lets one letter through. */
  lemma {:induction false} LetterCommitted(env: Env, sh: Shared, sh': Shared, t: nat, m: ThreadMove)
    requires ThreadMoves(env, sh, sh', t, m) && m.CommitLetter? && LettersOk(sh) && BurialsCopied(sh)
    ensures LettersOk(sh')
  {
    hide MergeScene, RejectedScene;
    var row := sh.threads[t].job.letter;
    if sh'.db.deadLetters != sh.db.deadLetters {
      assert sh'.db.deadLetters == sh.db.deadLetters + [row];
      forall i | 0 <= i < |sh.db.deadLetters| ensures !SameLetter(sh.db.deadLetters[i], row) {
        assert sh.db.deadLetters[i] in sh.db.deadLetters;
      }
    }
  }

  lemma {:induction false} ThreadLetters(env: Env, sh: Shared, sh': Shared, t: nat, m: ThreadMove)
    requires ThreadMoves(env, sh, sh', t, m) && LettersOk(sh) && BurialsCopied(sh)
    ensures LettersOk(sh') && sh.dlq <= sh'.dlq && BurialsKept(sh, sh')
  {
    hide CommitBurial, MergeScene, Evaluate, IsListing, LettersApart;
    if m.CommitLetter? {
      LetterCommitted(env, sh, sh', t, m);
    } else {
      assert sh'.db.deadLetters == sh.db.deadLetters;
    }
  }

  lemma {:induction false} WorkerLetters(env: Env, sh: Shared, sh': Shared, x: Worker, x': Worker, m: WorkerMove)
    requires WorkerMoves(env, sh, sh', x, x', m) && WorkerOk(env, sh, x)
    ensures sh'.db.deadLetters == sh.db.deadLetters && sh.dlq <= sh'.dlq && BurialsKept(sh, sh')
  {
  }

  lemma {:induction false} SubmissionLetters(sh: Shared, sh': Shared, x: Submission, x': Submission, m: SubmissionMove)
    requires SubmissionMoves(sh, sh', x, x', m)
    ensures sh'.db.deadLetters == sh.db.deadLetters && sh'.dlq == sh.dlq && sh'.threads == sh.threads
  {
    hide DecideEvent;
  }

  lemma {:induction false} UploadLetters(env: Env, sh: Shared, sh': Shared, x: Upload, x': Upload, m: UploadMove)
    requires UploadMoves(env, sh, sh', x, x', m)
    ensures sh'.db.deadLetters == sh.db.deadLetters && sh'.dlq == sh.dlq && sh'.threads == sh.threads
  {
    hide DecideScene;
  }

  lemma {:induction false} DispatcherLetters(sh: Shared, sh': Shared, x: Dispatcher, x': Dispatcher, m: DispatcherMove)
    requires DispatcherMoves(sh, sh', x, x', m)
    ensures sh'.db.deadLetters == sh.db.deadLetters && sh'.dlq == sh.dlq && sh'.threads == sh.threads
  {
    hide IsPendingBatch;
  }

  lemma {:induction false} OtherLetters(env: Env, s: State, s': State, step: Step)
    requires Next(env, s, s', step) && !step.ByWorker? && !step.ByThread?
    ensures s'.sh.db.deadLetters == s.sh.db.deadLetters && s.sh.dlq <= s'.sh.dlq && s'.sh.threads == s.sh.threads
  {
    hide SubmissionMoves, UploadMoves, DispatcherMoves;
    match step
    case BySubmission(p, m) => SubmissionLetters(s.sh, s'.sh, s.submissions[p], s'.submissions[p], m);
    case ByUpload(p, m) => UploadLetters(env, s.sh, s'.sh, s.uploads[p], s'.uploads[p], m);
    case ByDispatcher(p, m) => DispatcherLetters(s.sh, s'.sh, s.dispatchers[p], s'.dispatchers[p], m);
    case _ =>
  }

  lemma {:induction false} LettersKept(env: Env, s: State, s': State, step: Step)
    requires Inv(env, s) && LettersOk(s.sh) && BurialsCopied(s.sh) && Next(env, s, s', step)
    ensures LettersOk(s'.sh) && BurialsCopied(s'.sh)
  {
    hide WorkerMoves, ThreadMoves, LettersOk, BurialsCopied, SharedInv, WorkerOk, SubmissionMoves, UploadMoves, DispatcherMoves;
    match step
    case ByThread(t, m) =>
      ThreadLetters(env, s.sh, s'.sh, t, m);
      BurialsFrame(s.sh, s'.sh);
    case ByWorker(p, m) =>
      WorkerLetters(env, s.sh, s'.sh, s.workers[p], s'.workers[p], m);
      LettersFrame(s.sh, s'.sh);
      BurialsFrame(s.sh, s'.sh);
    case _ =>
      OtherLetters(env, s, s', step);
      LettersFrame(s.sh, s'.sh);
      BurialsFrame(s.sh, s'.sh);
  }

  lemma {:induction false} RunLetters(env: Env, run: seq<State>, steps: seq<Step>, i: nat)
    requires env.CollisionFree() && IsRun(env, run, steps) && i < |run|
    ensures LettersOk(run[i].sh) && BurialsCopied(run[i].sh)
  {
    if i > 0 {
      RunLetters(env, run, steps, i - 1);
      RunInv(env, run, steps, i - 1);
      assert StepAt(env, run, steps, i - 1);
      LettersKept(env, run[i - 1], run[i], steps[i - 1]);
    }
  }

  /** At most one dead-letter row per message and service, and never one without its stream copy. */
  lemma {:induction false} DeadLetterOnce(env: Env, run: seq<State>, steps: seq<Step>, i: nat)
    requires env.CollisionFree() && IsRun(env, run, steps) && i < |run|
    ensures LettersOk(run[i].sh)
  {
    RunLetters(env, run, steps, i);
  }

  // ------------------------------------------------------- calm runs settle

  ghost predicate Holds(x: Worker, index: nat) {
    !x.pc.Polling? && x.pc.delivery.index == index
  }

  ghost predicate Held(workers: map<nat, Worker>, index: nat) {
    exists p :: p in workers && Holds(workers[p], index)
  }

  /** Workers survive, the broker answers, and it does not redeliver what a worker still holds. */
  ghost predicate CalmStep(s: State, step: Step) {
    step.ByWorker? ==>
      match step.workerMove
      case Deliver(index) => !Held(s.workers, index)
      case Acknowledge(effective, ok) => effective && ok
      case CopyToDlq(_, ok) => ok
      case Close(effective) => effective
      case LoseWorker => false
      case _ => true
  }

  ghost predicate HolderOk(stream: seq<Entry>, x: Worker) {
    !x.pc.Polling? && x.pc.delivery.index < |stream| ==>
      var entry := stream[x.pc.delivery.index];
      !entry.acked && x.pc.delivery.attempt == entry.delivered == |entry.naks| + 1
  }

  ghost predicate Quiet(stream: seq<Entry>, workers: map<nat, Worker>, i: nat)
    requires i < |stream|
  {
    Held(workers, i) || stream[i].acked || stream[i].delivered == |stream[i].naks|
  }

  ghost predicate OneHolder(x: Worker, y: Worker) {
    !x.pc.Polling? && !y.pc.Polling? ==> x.pc.delivery.index != y.pc.delivery.index
  }

  /** Every delivery so far is over and was declined, or is the one a single worker now holds. */
  ghost predicate CalmInv(s: State) {
    && (forall p | p in s.workers :: HolderOk(s.sh.stream, s.workers[p]))
    && (forall p, q | p in s.workers && q in s.workers && p != q :: OneHolder(s.workers[p], s.workers[q]))
    && (forall i | 0 <= i < |s.sh.stream| :: Quiet(s.sh.stream, s.workers, i))
  }

  /** What the other processes do to stream and workers: entries appended, workers that poll added. */
  ghost predicate OnlyAdds(q: seq<Entry>, q': seq<Entry>, workers: map<nat, Worker>, workers': map<nat, Worker>) {
    && OnlyAppends(q, q')
    && (forall p | p in workers' && p !in workers :: workers'[p].pc.Polling?)
    && (forall p | p in workers :: p in workers' && workers'[p] == workers[p])
    && (forall p | p in workers :: workers[p].pc.Polling? || workers[p].pc.delivery.index < |q|)
  }

  lemma {:induction false} HoldersKept(q: seq<Entry>, q': seq<Entry>, workers: map<nat, Worker>, workers': map<nat, Worker>)
    requires OnlyAdds(q, q', workers, workers') && forall p | p in workers :: HolderOk(q, workers[p])
    ensures forall p | p in workers' :: HolderOk(q', workers'[p])
  {
    forall p | p in workers' ensures HolderOk(q', workers'[p]) {
      if p in workers {
        assert HolderOk(q, workers[p]);
      }
    }
  }

  lemma {:induction false} QuietKept(q: seq<Entry>, q': seq<Entry>, workers: map<nat, Worker>, workers': map<nat, Worker>)
    requires OnlyAdds(q, q', workers, workers') && forall i | 0 <= i < |q| :: Quiet(q, workers, i)
    ensures forall i | 0 <= i < |q'| :: Quiet(q', workers', i)
  {
    forall i | 0 <= i < |q'| ensures Quiet(q', workers', i) {
      if i < |q| {
        assert Quiet(q, workers, i);
        if Held(workers, i) {
          var p :| p in workers && Holds(workers[p], i);
          assert Holds(workers'[p], i);
        }
      }
    }
  }

  lemma {:induction false} CalmOthers(env: Env, s: State, s': State, step: Step)
    requires env.CollisionFree() && Inv(env, s) && CalmInv(s) && Next(env, s, s', step) && !step.ByWorker?
    ensures CalmInv(s')
  {
    OthersOnlyAppend(env, s, s', step);
    assert forall p | p in s.workers :: WorkerOk(env, s.sh, s.workers[p]);
    hide Next, Inv, Quiet, HolderOk;
    HoldersKept(s.sh.stream, s'.sh.stream, s.workers, s'.workers);
    QuietKept(s.sh.stream, s'.sh.stream, s.workers, s'.workers);
    forall p, q | p in s'.workers && q in s'.workers && p != q ensures OneHolder(s'.workers[p], s'.workers[q]) {
      if p in s.workers && q in s.workers {
        assert OneHolder(s.workers[p], s.workers[q]);
      }
    }
  }

  /** The stream position a move is about. */
  function Touched(x: Worker, m: WorkerMove): nat {
    if m.Deliver? then m.index else if x.pc.Polling? then 0 else x.pc.delivery.index
  }

  /** What one calm move does to the entry it concerns. */
  lemma {:induction false} CalmMove(env: Env, sh: Shared, sh': Shared, x: Worker, x': Worker, m: WorkerMove)
    requires WorkerMoves(env, sh, sh', x, x', m) && WorkerOk(env, sh, x) && HolderOk(sh.stream, x)
    requires m.Acknowledge? ==> m.effective && m.ok
    requires m.CopyToDlq? ==> m.ok
    requires m.Close? ==> m.effective
    requires !m.LoseWorker?
    requires m.Deliver? && m.index < |sh.stream| ==> sh.stream[m.index].acked || sh.stream[m.index].delivered == |sh.stream[m.index].naks|
    ensures |sh'.stream| == |sh.stream| && HolderOk(sh'.stream, x')
    ensures var k := Touched(x, m);
      && (forall i | 0 <= i < |sh.stream| && i != k :: sh'.stream[i] == sh.stream[i])
      && (!x'.pc.Polling? ==> x'.pc.delivery.index == k)
      && (!x.pc.Polling? ==> k == x.pc.delivery.index)
      && (x'.pc.Polling? ==> k < |sh.stream| && (sh'.stream[k].acked || sh'.stream[k].delivered == |sh'.stream[k].naks|))
  {
  }

  /** A message is delivered only when no worker holds it, so every earlier delivery of it was declined. */
  lemma {:induction false} CalmDelivery(env: Env, s: State, s': State, step: Step)
    requires env.CollisionFree() && CalmInv(s) && Next(env, s, s', step) && CalmStep(s, step) && step.ByWorker?
    ensures step.workerMove.Deliver? ==>
      var index := step.workerMove.index;
      index < |s.sh.stream| && !Held(s.workers, index)
      && (s.sh.stream[index].acked || s.sh.stream[index].delivered == |s.sh.stream[index].naks|)
    ensures step.p in s.workers && (s.workers[step.p].pc.Polling? <==> step.workerMove.Deliver?)
  {
    if step.workerMove.Deliver? {
      assert Quiet(s.sh.stream, s.workers, step.workerMove.index);
    }
  }

  lemma {:induction false} CalmWorker(env: Env, s: State, s': State, step: Step)
    requires env.CollisionFree() && Inv(env, s) && CalmInv(s) && Next(env, s, s', step) && CalmStep(s, step) && step.ByWorker?
    ensures CalmInv(s')
  {
    hide WorkerMoves, SharedInv, DispatcherOk;
    var p, m := step.p, step.workerMove;
    var x, x' := s.workers[p], s'.workers[p];
    assert WorkerOk(env, s.sh, x) && HolderOk(s.sh.stream, x);
    CalmDelivery(env, s, s', step);
    CalmMove(env, s.sh, s'.sh, x, x', m);
    var k := Touched(x, m);
    forall q | q in s'.workers && q != p
      ensures HolderOk(s'.sh.stream, s'.workers[q]) && OneHolder(x', s'.workers[q])
    {
      var y := s.workers[q];
      assert OneHolder(x, y) && WorkerOk(env, s.sh, y) && HolderOk(s.sh.stream, y);
      assert Holds(s.workers[q], k) ==> Held(s.workers, k);
      CalmBystander(s.sh.stream, s'.sh.stream, x, x', y, k);
    }
    forall q, r | q in s'.workers && r in s'.workers && q != r ensures OneHolder(s'.workers[q], s'.workers[r]) {
      if q != p && r != p {
        assert OneHolder(s.workers[q], s.workers[r]);
      }
    }
    CalmEntries(s, s', p, k);
  }

  lemma {:induction false} CalmBystander(q: seq<Entry>, q': seq<Entry>, x: Worker, x': Worker, y: Worker, k: nat)
    requires HolderOk(q, y) && OneHolder(x, y) && !Holds(y, k) && |q'| == |q|
    requires !y.pc.Polling? ==> y.pc.delivery.index < |q|
    requires forall i | 0 <= i < |q| && i != k :: q'[i] == q[i]
    requires !x'.pc.Polling? ==> x'.pc.delivery.index == k
    ensures HolderOk(q', y) && OneHolder(x', y)
  {
  }

  lemma {:induction false} CalmEntries(s: State, s': State, p: nat, k: nat)
    requires CalmInv(s) && p in s.workers && p in s'.workers
    requires s'.workers == s.workers[p := s'.workers[p]] && |s'.sh.stream| == |s.sh.stream|
    requires forall i | 0 <= i < |s.sh.stream| && i != k :: s'.sh.stream[i] == s.sh.stream[i]
    requires !s'.workers[p].pc.Polling? ==> s'.workers[p].pc.delivery.index == k
    requires !s.workers[p].pc.Polling? ==> s.workers[p].pc.delivery.index == k
    requires s'.workers[p].pc.Polling? && k < |s.sh.stream| ==>
               s'.sh.stream[k].acked || s'.sh.stream[k].delivered == |s'.sh.stream[k].naks|
    ensures forall i | 0 <= i < |s'.sh.stream| :: Quiet(s'.sh.stream, s'.workers, i)
  {
    forall i | 0 <= i < |s'.sh.stream| ensures Quiet(s'.sh.stream, s'.workers, i) {
      if i == k {
        if !s'.workers[p].pc.Polling? {
          assert Holds(s'.workers[p], i);
        }
      } else {
        assert Quiet(s.sh.stream, s.workers, i);
        if Held(s.workers, i) {
          var q :| q in s.workers && Holds(s.workers[q], i);
          assert q != p && Holds(s'.workers[q], i);
        }
      }
    }
  }

  ghost predicate CalmAt(run: seq<State>, steps: seq<Step>, i: nat)
    requires i < |steps| < |run|
  {
    CalmStep(run[i], steps[i])
  }

  lemma {:induction false} RunCalmInv(env: Env, run: seq<State>, steps: seq<Step>, i: nat)
    requires env.CollisionFree() && IsRun(env, run, steps) && i < |run|
    requires forall k | 0 <= k < |steps| :: CalmAt(run, steps, k)
    ensures CalmInv(run[i])
  {
    if i > 0 {
      RunCalmInv(env, run, steps, i - 1);
      RunInv(env, run, steps, i - 1);
      assert StepAt(env, run, steps, i - 1) && CalmAt(run, steps, i - 1);
      if steps[i - 1].ByWorker? {
        CalmWorker(env, run[i - 1], run[i], steps[i - 1]);
      } else {
        CalmOthers(env, run[i - 1], run[i], steps[i - 1]);
      }
    }
  }

  /**
   While workers survive and the broker answers, max_attempts minus the delivery count never
   goes below zero, and when it reaches zero with no delivery in hand the message is settled.
   */
  lemma {:induction false} RetriesTerminate(env: Env, run: seq<State>, steps: seq<Step>, i: nat, k: nat)
    requires env.CollisionFree() && env.maxAttempts >= 1 && IsRun(env, run, steps) && i < |run|
    requires forall j | 0 <= j < |steps| :: CalmAt(run, steps, j)
    requires k < |run[i].sh.stream|
    requires !run[i].sh.stream[k].acked
    ensures run[i].sh.stream[k].delivered <= env.maxAttempts
    ensures run[i].sh.stream[k].delivered == env.maxAttempts ==> Held(run[i].workers, k)
  {
    RunCalmInv(env, run, steps, i);
    DeclinedAtMost(env, run, steps, i, k);
    var s := run[i];
    assert Quiet(s.sh.stream, s.workers, k);
    if Held(s.workers, k) {
      var p :| p in s.workers && Holds(s.workers[p], k);
      assert HolderOk(s.sh.stream, s.workers[p]);
    }
  }
}
