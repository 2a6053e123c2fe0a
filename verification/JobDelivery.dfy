/**
 No job is lost: in every run of the delivery protocol each entry is unread, pending or acknowledged,
 and acknowledgements are earned.
 */
module JobDelivery {
  import opened Awaiting
  import opened JobQueue

  /** Every appended entry is in exactly one of unread, pending, acked. */
  ghost predicate Partitioned(db: Redis) {
    && db.appended.Keys == db.unread + db.pending + db.acked
    && db.unread !! db.pending !! db.acked
  }

  /** Before index i, task t stored the result of r. */
  ghost predicate StoredBefore(log: seq<Event>, i: nat, t: TaskId, r: Ref)
    requires i <= |log|
  {
    exists k :: 0 <= k < i && log[k] == Stored(t, r)
  }

  /** Before index i, task t posted the callback of r or queued it for retry, and had stored the result before that. */
  ghost predicate NotifiedBefore(log: seq<Event>, i: nat, t: TaskId, r: Ref)
    requires i <= |log|
  {
    exists n ::
      0 <= n < i && (log[n] == Posted(t, r, true) || log[n] == RetryQueued(t, r)) && StoredBefore(log, n, t, r)
  }

  ghost predicate CopiedBefore(log: seq<Event>, i: nat, t: TaskId, r: Ref)
    requires i <= |log|
  {
    exists k :: 0 <= k < i && log[k] == DlqCopied(t, r)
  }

  /** Task t may acknowledge r at index i. */
  ghost predicate Earned(log: seq<Event>, i: nat, t: TaskId, r: Ref, callback: bool)
    requires i <= |log|
  {
    || CopiedBefore(log, i, t, r)
    || (if callback then NotifiedBefore(log, i, t, r) else StoredBefore(log, i, t, r))
  }

  /** Every acknowledgement in the log was earned by the task that made it. */
  ghost predicate AcksEarned(s: State) {
    forall i, t, r :: 0 <= i < |s.log| && s.log[i] == Acked(t, r) ==>
      r in s.db.appended && Earned(s.log, i, t, r, s.db.appended[r].callback)
  }

  ghost predicate AckedIsLogged(s: State) {
    forall r :: r in s.db.acked ==> exists t :: Acked(t, r) in s.log
  }

  /** What the log must show for task t to stand at its program counter. */
  ghost predicate Evidence(log: seq<Event>, t: TaskId, task: Task) {
    var Task(r, job, pc) := task;
    && (pc.AckDlq? ==> CopiedBefore(log, |log|, t, r))
    && (pc.PublishResult? || pc.PostCallback? || pc.QueueRetry? ==> StoredBefore(log, |log|, t, r))
    && (pc.AckDone? ==> Earned(log, |log|, t, r, job.callback))
  }

  ghost predicate InHand(db: Redis, task: Task) {
    task.ref in db.appended && db.appended[task.ref] == task.job && task.ref in db.pending + db.acked
  }

  ghost predicate Delivery(s: State) {
    && Partitioned(s.db)
    && AcksEarned(s)
    && AckedIsLogged(s)
    && (forall t :: t in s.tasks ==> t < s.nextTask && InHand(s.db, s.tasks[t]) && Evidence(s.log, t, s.tasks[t]))
  }

  /** What was earned stays earned as the log grows. */
  lemma EarnedGrows(log: seq<Event>, i: nat, log': seq<Event>, i': nat, t: TaskId, r: Ref)
    requires log <= log' && i <= |log| && i <= i' <= |log'|
    ensures StoredBefore(log, i, t, r) ==> StoredBefore(log', i', t, r)
    ensures CopiedBefore(log, i, t, r) ==> CopiedBefore(log', i', t, r)
    ensures NotifiedBefore(log, i, t, r) ==> NotifiedBefore(log', i', t, r)
  {
    if StoredBefore(log, i, t, r) {
      var k :| 0 <= k < i && log[k] == Stored(t, r);
      assert log'[k] == Stored(t, r);
    }
    if CopiedBefore(log, i, t, r) {
      var k :| 0 <= k < i && log[k] == DlqCopied(t, r);
      assert log'[k] == DlqCopied(t, r);
    }
    if NotifiedBefore(log, i, t, r) {
      var n :|
        0 <= n < i && (log[n] == Posted(t, r, true) || log[n] == RetryQueued(t, r)) && StoredBefore(log, n, t, r);
      var k :| 0 <= k < n && log[k] == Stored(t, r);
      assert log'[k] == Stored(t, r) && log'[n] == log[n];
      assert StoredBefore(log', n, t, r);
    }
  }

  lemma EvidenceGrows(log: seq<Event>, log': seq<Event>, t: TaskId, task: Task)
    requires log <= log' && Evidence(log, t, task)
    ensures Evidence(log', t, task)
  {
    EarnedGrows(log, |log|, log', |log'|, t, task.ref);
  }

  /** What a call may do to the streams: nothing, or acknowledge the task's own entry at an ack point. */
  ghost predicate StreamsKept(db: Redis, t: TaskId, task: Task, m: Move) {
    && m.db.appended == db.appended && m.db.unread == db.unread
    && if m.says.Some? && m.says.value.Acked?
       then (task.pc.AckDlq? || task.pc.AckDone?) && m.says.value == Acked(t, task.ref)
            && task.ref in db.pending
            && m.db.pending == db.pending - {task.ref} && m.db.acked == db.acked + {task.ref}
       else m.db.pending == db.pending && m.db.acked == db.acked
  }

  lemma MoveKeepsStreams(cfg: Config, db: Redis, t: TaskId, task: Task, o: Outcome)
    ensures StreamsKept(db, t, task, MoveOf(cfg, db, t, task, o))
  {
    hide AsU32;
    var m := MoveOf(cfg, db, t, task, o);
    if task.job.id.Some? && (task.pc.AckDlq? || task.pc.AckDone?) {
      assert m == AckMove(db, t, task.ref, o, if task.pc.AckDlq? then ReleaseLease else ClearAttempts);
    } else {
      assert m.db.pending == db.pending && m.db.acked == db.acked;
    }
  }

  /** The log after a call. */
  function LogAfter(log: seq<Event>, m: Move): seq<Event> {
    if m.says.Some? then log + [m.says.value] else log
  }

  /** A call leaves the evidence that the program counter it leads to asks for. */
  lemma MoveKeepsEvidence(cfg: Config, db: Redis, t: TaskId, task: Task, o: Outcome, log: seq<Event>)
    requires Evidence(log, t, task)
    ensures var m := MoveOf(cfg, db, t, task, o);
      m.next.Some? ==> Evidence(LogAfter(log, m), t, task.(pc := m.next.value))
  {
    var m := MoveOf(cfg, db, t, task, o);
    var log' := LogAfter(log, m);
    EarnedGrows(log, |log|, log', |log'|, t, task.ref);
    if m.says.Some? { assert log'[|log|] == m.says.value; }
    if task.pc.PostCallback? || task.pc.QueueRetry? { EarnedGrows(log, |log|, log', |log|, t, task.ref); }
  }

  /** A call may land: it keeps the streams and leaves its own evidence. */
  ghost predicate Lands(s: State, t: TaskId, m: Move) {
    && Delivery(s) && t in s.tasks
    && StreamsKept(s.db, t, s.tasks[t], m)
    && (m.next.Some? ==> Evidence(LogAfter(s.log, m), t, s.tasks[t].(pc := m.next.value)))
  }

  lemma LandKeepsHands(s: State, t: TaskId, m: Move, u: TaskId)
    requires Lands(s, t, m) && u in Land(s, t, m).tasks
    ensures var s' := Land(s, t, m);
      u < s'.nextTask && InHand(s'.db, s'.tasks[u]) && Evidence(s'.log, u, s'.tasks[u])
  {
    if u != t { EvidenceGrows(s.log, LogAfter(s.log, m), u, s.tasks[u]); }
  }

  lemma LandKeepsAcksEarned(s: State, t: TaskId, m: Move)
    requires Lands(s, t, m)
    ensures AcksEarned(Land(s, t, m))
  {
    var log' := LogAfter(s.log, m);
    forall i: nat, u, q | i < |log'| && log'[i] == Acked(u, q)
      ensures q in s.db.appended && Earned(log', i, u, q, s.db.appended[q].callback)
    {
      EarnedGrows(s.log, i, log', i, u, q);
      if i < |s.log| { assert s.log[i] == Acked(u, q); }
    }
  }

  lemma LandKeepsAckedLogged(s: State, t: TaskId, m: Move)
    requires Lands(s, t, m)
    ensures AckedIsLogged(Land(s, t, m))
  {
    var log' := LogAfter(s.log, m);
    forall q | q in m.db.acked ensures exists u :: Acked(u, q) in log' {
      if q in s.db.acked {
        var u :| Acked(u, q) in s.log;
        assert Acked(u, q) in log';
      } else {
        assert log'[|s.log|] == Acked(t, q);
      }
    }
  }

  lemma LandKeepsDelivery(s: State, t: TaskId, m: Move)
    requires Lands(s, t, m)
    ensures Delivery(Land(s, t, m))
  {
    LandKeepsAcksEarned(s, t, m);
    LandKeepsAckedLogged(s, t, m);
    forall u | u in Land(s, t, m).tasks { LandKeepsHands(s, t, m, u); }
  }

  /** Steps other than calls: they add entries, deliveries and resets, or remove tasks and leases. */
  lemma EnvironmentKeepsDelivery(cfg: Config, s: State, l: Label)
    requires Delivery(s) && !l.Act? && Next(cfg, s, l).Some?
    ensures Delivery(Next(cfg, s, l).value)
  {
    var s' := Next(cfg, s, l).value;
    forall u | u in s'.tasks
      ensures u < s'.nextTask && InHand(s'.db, s'.tasks[u]) && Evidence(s'.log, u, s'.tasks[u])
    {
      if u in s.tasks { EvidenceGrows(s.log, s'.log, u, s.tasks[u]); }
    }
    forall i: nat, u, q | i < |s'.log| && s'.log[i] == Acked(u, q)
      ensures q in s'.db.appended && Earned(s'.log, i, u, q, s'.db.appended[q].callback)
    {
      assert s.log[i] == Acked(u, q);
      EarnedGrows(s.log, i, s'.log, i, u, q);
    }
    forall q | q in s'.db.acked ensures exists u :: Acked(u, q) in s'.log {
      var u :| Acked(u, q) in s.log;
      assert Acked(u, q) in s'.log;
    }
  }

  /**
   In every run, with any interleaving, crashes, reclaims, expiries and lost replies: no entry is ever
   lost (it is unread, pending or acked, and only one of these), and whoever acknowledged an entry had
   already stored its result and posted or queued its callback, or had copied it to the dead-letter queue.
   */
  lemma {:induction false} NoJobIsLost(cfg: Config, ls: seq<Label>)
    requires Run(cfg, ls).Some?
    ensures Delivery(Run(cfg, ls).value)
  {
    if ls != [] {
      var l := ls[|ls| - 1];
      var s := Run(cfg, ls[..|ls| - 1]).value;
      NoJobIsLost(cfg, ls[..|ls| - 1]);
      if l.Act? {
        MoveKeepsStreams(cfg, s.db, l.task, s.tasks[l.task], l.outcome);
        MoveKeepsEvidence(cfg, s.db, l.task, s.tasks[l.task], l.outcome, s.log);
        LandKeepsDelivery(s, l.task, MoveOf(cfg, s.db, l.task, s.tasks[l.task], l.outcome));
      } else {
        EnvironmentKeepsDelivery(cfg, s, l);
      }
    }
  }
}
