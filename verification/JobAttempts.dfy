/**
 The delivery counter: how many times process_job can start for a job, whatever the interleaving.

 A life of a counter (an epoch) ends when its key is removed, by a clear or by its TTL.
 */
module JobAttempts {
  import opened Awaiting
  import opened Options
  import opened JobQueue
  import opened Counting
  import opened JobLeases
  import JobDelivery

  /** No task has drawn a ticket that the counter has not reached. */
  ghost predicate InRange(db: Redis, k: Ticket) {
    && 1 <= k.attempt
    && k.epoch <= Epoch(db, k.job)
    && (k.epoch == Epoch(db, k.job) ==> k.attempt <= Count(db, k.job))
  }

  predicate BeforeStart(pc: Pc) {
    pc.AcquireLease? || pc.CountAttempt? || pc.ExpireAttempt?
  }

  /** The ticket a task holds, as its program counter knows it. */
  ghost predicate TicketOf(s: State, t: TaskId)
    requires t in s.tasks
  {
    var task := s.tasks[t];
    && (task.pc.AcquireLease? || task.pc.CountAttempt? ==> t !in s.issued)
    && (task.pc.ExpireAttempt? ==> t in s.issued && s.issued[t] == task.pc.ticket)
    && (t in s.issued ==> Some(s.issued[t].job) == task.job.id)
  }

  /** Tickets are drawn at most once: by one task, with one (epoch, attempt) pair per job. */
  ghost predicate TicketsDistinct(s: State) {
    && (forall t :: t in s.issued ==> t < s.nextTask && InRange(s.db, s.issued[t]))
    && (forall t, u :: t in s.issued && u in s.issued && t != u ==> s.issued[t] != s.issued[u])
    && (forall t :: t in s.tasks ==> t < s.nextTask && TicketOf(s, t))
  }

  lemma MoveDraws(cfg: Config, db: Redis, t: TaskId, task: Task, o: Outcome)
    ensures var m := MoveOf(cfg, db, t, task, o);
      && (m.draws.Some? <==> task.job.id.Some? && task.pc.CountAttempt? && o.Done?)
      && (m.draws.Some? ==> var j := task.job.id.value;
            && m.draws.value == Ticket(j, Epoch(db, j), Count(db, j) + 1)
            && m.next == Some(ExpireAttempt(m.draws.value)) && m.db == Incr(db, j))
      && (m.next.Some? && !m.draws.Some? ==>
            && !m.next.value.ExpireAttempt?
            && (m.next.value.AcquireLease? || m.next.value.CountAttempt? ==> task.pc.AcquireLease?))
  {
  }

  /** Counters only move up, and a removed counter starts a new epoch. */
  ghost predicate CountersForward(db: Redis, db': Redis) {
    forall j :: Epoch(db, j) <= Epoch(db', j) && (Epoch(db, j) == Epoch(db', j) ==> Count(db, j) <= Count(db', j))
  }

  lemma CommandsKeepCounters(db: Redis, j: JobId)
    ensures CountersForward(db, Incr(db, j)) && CountersForward(db, DelCounter(db, j))
  {
  }

  lemma MoveKeepsCounters(cfg: Config, db: Redis, t: TaskId, task: Task, o: Outcome)
    ensures CountersForward(db, MoveOf(cfg, db, t, task, o).db)
  {
    var m := MoveOf(cfg, db, t, task, o);
    if task.job.id.Some? && (task.pc.CountAttempt? || task.pc.ClearAttempts?) {
      CommandsKeepCounters(db, task.job.id.value);
      assert m.db in [db, Incr(db, task.job.id.value), DelCounter(db, task.job.id.value)];
    } else {
      assert m.db.counters == db.counters && m.db.epochs == db.epochs;
    }
  }

  lemma LandKeepsTickets(cfg: Config, s: State, t: TaskId, o: Outcome, m: Move)
    requires TicketsDistinct(s) && t in s.tasks && m == MoveOf(cfg, s.db, t, s.tasks[t], o)
    ensures TicketsDistinct(Land(s, t, m))
  {
    MoveDraws(cfg, s.db, t, s.tasks[t], o);
    MoveKeepsCounters(cfg, s.db, t, s.tasks[t], o);
    LandTickets(s, t, m);
  }

  lemma LandTickets(s: State, t: TaskId, m: Move)
    requires TicketsDistinct(s) && t in s.tasks
    requires CountersForward(s.db, m.db)
    requires m.draws.Some? ==>
      s.tasks[t].job.id.Some? && s.tasks[t].pc.CountAttempt? && m.next == Some(ExpireAttempt(m.draws.value))
    requires m.draws.Some? ==> var j := s.tasks[t].job.id.value;
               m.draws.value == Ticket(j, Epoch(s.db, j), Count(s.db, j) + 1) && m.db == Incr(s.db, j)
    requires m.next.Some? && m.draws.None? ==>
               && !m.next.value.ExpireAttempt?
               && (m.next.value.AcquireLease? || m.next.value.CountAttempt? ==> s.tasks[t].pc.AcquireLease?)
    ensures TicketsDistinct(Land(s, t, m))
  {
    var s' := Land(s, t, m);
    forall u | u in s'.issued ensures u < s'.nextTask && InRange(s'.db, s'.issued[u]) {
      if u in s.issued { assert InRange(s.db, s.issued[u]); }
    }
    forall u | u in s'.tasks ensures u < s'.nextTask && TicketOf(s', u) {
      assert TicketOf(s, u);
    }
    forall u, v | u in s'.issued && v in s'.issued && u != v ensures s'.issued[u] != s'.issued[v] {
      if m.draws.Some? {
        if u == t { assert InRange(s.db, s.issued[v]); }
        if v == t { assert InRange(s.db, s.issued[u]); }
      }
    }
  }

  lemma EnvironmentKeepsTickets(s: State, s': State)
    requires TicketsDistinct(s) && EnvironmentStep(s, s') && CountersForward(s.db, s'.db)
    ensures TicketsDistinct(s')
  {
    forall u | u in s'.issued ensures u < s'.nextTask && InRange(s'.db, s'.issued[u]) {
      assert InRange(s.db, s.issued[u]);
    }
    forall u | u in s'.tasks ensures u < s'.nextTask && TicketOf(s', u) {
      if u in s.tasks { assert TicketOf(s, u); }
    }
  }

  lemma EnvironmentKeepsCounters(cfg: Config, s: State, l: Label)
    requires !l.Act? && Next(cfg, s, l).Some?
    ensures CountersForward(s.db, Next(cfg, s, l).value.db)
  {
  }

  // ---------------------------------------------------------------- starts

  /** Task t started processing, with an attempt the configuration allows. */
  ghost predicate StartLogged(log: seq<Event>, t: TaskId) {
    exists k :: Started(t, k) in log
  }

  /** Inside process_job, or past its success. */
  predicate PastStart(pc: Pc) {
    Processing(pc) || pc.AckDone? || pc.ClearAttempts?
  }

  /** What only process_job does. */
  predicate IsWork(e: Event) {
    e.Upstream? || e.Stored? || e.Posted? || e.RetryQueued?
  }

  /** Every start in the log was made once by the task that drew its ticket, and within the limit. */
  ghost predicate StartsAllowed(cfg: Config, s: State) {
    && (forall i :: 0 <= i < |s.log| && s.log[i].Started? ==>
          s.log[i].task in s.issued && s.issued[s.log[i].task] == s.log[i].ticket
          && AsU32(s.log[i].ticket.attempt) <= cfg.maxDeliveryAttempts)
    && (forall i, k :: 0 <= i < k < |s.log| && s.log[i].Started? && s.log[k].Started? ==>
           s.log[i].task != s.log[k].task)
    && (forall t :: t in s.tasks && BeforeStart(s.tasks[t].pc) ==> !StartLogged(s.log, t))
    && (forall t :: t in s.tasks && PastStart(s.tasks[t].pc) ==> StartLogged(s.log, t))
    && (forall i :: 0 <= i < |s.log| && IsWork(s.log[i]) ==> StartLogged(s.log, s.log[i].task))
  }

  lemma MoveStarts(cfg: Config, db: Redis, t: TaskId, task: Task, o: Outcome)
    ensures var m := MoveOf(cfg, db, t, task, o);
      && (m.says.Some? && m.says.value.Started? ==>
            task.pc.ExpireAttempt? && m.says.value == Started(t, task.pc.ticket)
            && AsU32(task.pc.ticket.attempt) <= cfg.maxDeliveryAttempts)
      && (m.next.Some? && PastStart(m.next.value) ==>
            PastStart(task.pc) || (m.says.Some? && m.says.value.Started?))
      && (m.next.Some? && BeforeStart(m.next.value) ==> BeforeStart(task.pc) && m.says.None?)
      && (m.says.Some? && IsWork(m.says.value) ==> m.says.value.task == t && PastStart(task.pc))
      && (m.says.Some? && m.says.value.Started? ==> m.next == Some(CallUpstream))
  {
  }

  lemma LandKeepsStarts(cfg: Config, s: State, t: TaskId, m: Move)
    requires TicketsDistinct(s) && StartsAllowed(cfg, s) && t in s.tasks
    requires m.says.Some? && m.says.value.Started? ==>
               && s.tasks[t].pc.ExpireAttempt? && m.says.value == Started(t, s.tasks[t].pc.ticket)
               && AsU32(s.tasks[t].pc.ticket.attempt) <= cfg.maxDeliveryAttempts
               && m.next == Some(CallUpstream)
    requires m.next.Some? && PastStart(m.next.value) ==>
      PastStart(s.tasks[t].pc) || (m.says.Some? && m.says.value.Started?)
    requires m.next.Some? && BeforeStart(m.next.value) ==> BeforeStart(s.tasks[t].pc) && m.says.None?
    requires m.says.Some? && IsWork(m.says.value) ==> m.says.value.task == t && PastStart(s.tasks[t].pc)
    requires m.draws.Some? ==> s.tasks[t].pc.CountAttempt?
    ensures StartsAllowed(cfg, Land(s, t, m))
  {
    var s' := Land(s, t, m);
    forall u | StartLogged(s.log, u) ensures StartLogged(s'.log, u) {
      var k :| Started(u, k) in s.log;
      assert Started(u, k) in s'.log;
    }
    assert TicketOf(s, t);
    forall i | 0 <= i < |s'.log| && s'.log[i].Started?
      ensures s'.log[i].task in s'.issued && s'.issued[s'.log[i].task] == s'.log[i].ticket
              && AsU32(s'.log[i].ticket.attempt) <= cfg.maxDeliveryAttempts
    {
      if i < |s.log| { assert s.log[i].Started?; }
    }
    forall i, k | 0 <= i < k < |s'.log| && s'.log[i].Started? && s'.log[k].Started?
      ensures s'.log[i].task != s'.log[k].task
    {
      if k == |s.log| { assert Started(s.log[i].task, s.log[i].ticket) in s.log; }
    }
    forall u | u in s'.tasks && BeforeStart(s'.tasks[u].pc) ensures !StartLogged(s'.log, u) {
      assert u in s.tasks && BeforeStart(s.tasks[u].pc);
    }
    forall u | u in s'.tasks && PastStart(s'.tasks[u].pc) ensures StartLogged(s'.log, u) {
      if u == t && !PastStart(s.tasks[t].pc) { assert s'.log[|s.log|] == m.says.value; }
    }
    forall i | 0 <= i < |s'.log| && IsWork(s'.log[i]) ensures StartLogged(s'.log, s'.log[i].task) {
      if i < |s.log| { assert IsWork(s.log[i]); }
    }
  }

  lemma EnvironmentKeepsStarts(cfg: Config, s: State, s': State)
    requires TicketsDistinct(s) && StartsAllowed(cfg, s) && EnvironmentStep(s, s')
    ensures StartsAllowed(cfg, s')
  {
    forall u: TaskId ensures StartLogged(s.log, u) <==> StartLogged(s'.log, u) {
      forall k ensures Started(u, k) in s.log <==> Started(u, k) in s'.log {
        if s'.log != s.log { assert s'.log == s.log + [s'.log[|s.log|]]; }
      }
    }
    forall i | 0 <= i < |s'.log| && (s'.log[i].Started? || IsWork(s'.log[i]))
      ensures i < |s.log| && s'.log[i] == s.log[i]
    {
    }
  }

  lemma {:induction false} StartsStayAllowed(cfg: Config, ls: seq<Label>)
    requires Run(cfg, ls).Some?
    ensures TicketsDistinct(Run(cfg, ls).value) && StartsAllowed(cfg, Run(cfg, ls).value)
  {
    if ls != [] {
      var l := ls[|ls| - 1];
      var s := Run(cfg, ls[..|ls| - 1]).value;
      StartsStayAllowed(cfg, ls[..|ls| - 1]);
      if l.Act? {
        var m := MoveOf(cfg, s.db, l.task, s.tasks[l.task], l.outcome);
        MoveDraws(cfg, s.db, l.task, s.tasks[l.task], l.outcome);
        MoveStarts(cfg, s.db, l.task, s.tasks[l.task], l.outcome);
        LandKeepsTickets(cfg, s, l.task, l.outcome, m);
        LandKeepsStarts(cfg, s, l.task, m);
      } else {
        EnvironmentSteps(cfg, s, l);
        EnvironmentKeepsCounters(cfg, s, l);
        EnvironmentKeepsTickets(s, Run(cfg, ls).value);
        EnvironmentKeepsStarts(cfg, s, Run(cfg, ls).value);
      }
    }
  }

  // ---------------------------------------------------------------- the dead-letter path

  /** A task about to acknowledge after a copy made it; one about to release the lease started or made it. */
  ghost predicate OnDlqPath(log: seq<Event>, t: TaskId, task: Task) {
    && (task.pc.AckDlq? ==> DlqCopied(t, task.ref) in log)
    && (task.pc.ReleaseLease? ==> StartLogged(log, t) || DlqCopied(t, task.ref) in log)
  }

  ghost predicate DlqPaths(s: State) {
    forall t :: t in s.tasks ==> OnDlqPath(s.log, t, s.tasks[t])
  }

  lemma MoveOnDlqPath(cfg: Config, db: Redis, t: TaskId, task: Task, o: Outcome)
    ensures var m := MoveOf(cfg, db, t, task, o);
      && (m.next == Some(AckDlq) ==> m.says == Some(DlqCopied(t, task.ref)))
      && (m.next == Some(ReleaseLease) ==> task.pc.AckDlq? || PastStart(task.pc))
  {
  }

  lemma PathGrows(log: seq<Event>, log': seq<Event>, t: TaskId, task: Task)
    requires log <= log' && OnDlqPath(log, t, task)
    ensures OnDlqPath(log', t, task)
  {
    forall e | e in log ensures e in log' {}
    if StartLogged(log, t) {
      var k :| Started(t, k) in log;
      assert Started(t, k) in log';
    }
  }

  lemma LandKeepsDlqPaths(cfg: Config, s: State, t: TaskId, o: Outcome)
    requires DlqPaths(s) && StartsAllowed(cfg, s) && t in s.tasks
    ensures DlqPaths(Land(s, t, MoveOf(cfg, s.db, t, s.tasks[t], o)))
  {
    var m := MoveOf(cfg, s.db, t, s.tasks[t], o);
    var s' := Land(s, t, m);
    MoveOnDlqPath(cfg, s.db, t, s.tasks[t], o);
    hide MoveOf;
    forall u | u in s'.tasks ensures OnDlqPath(s'.log, u, s'.tasks[u]) {
      if u == t {
        assert OnDlqPath(s.log, t, s.tasks[t]);
        if m.says.Some? { assert s'.log[|s.log|] == m.says.value; }
        if s'.tasks[t].pc.ReleaseLease? {
          PathGrows(s.log, s'.log, t, s.tasks[t].(pc := ReleaseLease));
        }
      } else {
        PathGrows(s.log, s'.log, u, s.tasks[u]);
      }
    }
  }

  lemma {:induction false} DlqPathsHold(cfg: Config, ls: seq<Label>)
    requires Run(cfg, ls).Some?
    ensures DlqPaths(Run(cfg, ls).value)
  {
    if ls != [] {
      var l, s, s' := ls[|ls| - 1], Run(cfg, ls[..|ls| - 1]).value, Run(cfg, ls).value;
      DlqPathsHold(cfg, ls[..|ls| - 1]);
      StartsStayAllowed(cfg, ls[..|ls| - 1]);
      if l.Act? {
        LandKeepsDlqPaths(cfg, s, l.task, l.outcome);
      } else {
        EnvironmentSteps(cfg, s, l);
        hide Next, Run;
        forall u | u in s'.tasks ensures OnDlqPath(s'.log, u, s'.tasks[u]) {
          if u in s.tasks { PathGrows(s.log, s'.log, u, s.tasks[u]); }
        }
      }
    }
  }

  /**
   A delivery whose attempt exceeds the maximum takes the dead-letter path: it never starts and does none of
   the work of process_job, every acknowledgement it makes follows a copy of the entry it made, and it comes
   to release the lease only after that copy.
   */
  lemma ExcessDeliveryNeverRuns(cfg: Config, ls: seq<Label>, t: TaskId)
    requires Run(cfg, ls).Some?
    requires t in Run(cfg, ls).value.issued && AsU32(Run(cfg, ls).value.issued[t].attempt) > cfg.maxDeliveryAttempts
    ensures var s := Run(cfg, ls).value;
      && (forall i :: 0 <= i < |s.log| && (s.log[i].Started? || IsWork(s.log[i])) ==> s.log[i].task != t)
      && (forall i, r :: 0 <= i < |s.log| && s.log[i] == Acked(t, r) ==> JobDelivery.CopiedBefore(s.log, i, t, r))
      && (t in s.tasks ==> var pc := s.tasks[t].pc;
            && (pc.ExpireAttempt? || pc.CopyToDlq? || pc.AckDlq? || pc.ReleaseLease?)
            && (pc.AckDlq? || pc.ReleaseLease? ==> DlqCopied(t, s.tasks[t].ref) in s.log))
  {
    hide Run;
    StartsStayAllowed(cfg, ls);
    DlqPathsHold(cfg, ls);
    JobDelivery.NoJobIsLost(cfg, ls);
    var s := Run(cfg, ls).value;
    assert !StartLogged(s.log, t);
    forall i | 0 <= i < |s.log| && (s.log[i].Started? || IsWork(s.log[i])) ensures s.log[i].task != t {
      assert s.log[i].Started? ==> Started(s.log[i].task, s.log[i].ticket) in s.log;
    }
    forall i, r | 0 <= i < |s.log| && s.log[i] == Acked(t, r) ensures JobDelivery.CopiedBefore(s.log, i, t, r) {
      NeverStored(s.log, i, t, r);
    }
    if t in s.tasks { assert TicketOf(s, t) && OnDlqPath(s.log, t, s.tasks[t]); }
  }

  /** What a task never stored it cannot have notified either. */
  lemma NeverStored(log: seq<Event>, i: nat, t: TaskId, r: Ref)
    requires i <= |log| && forall k :: 0 <= k < |log| && IsWork(log[k]) ==> log[k].task != t
    ensures !JobDelivery.StoredBefore(log, i, t, r) && !JobDelivery.NotifiedBefore(log, i, t, r)
  {
  }

  // ---------------------------------------------------------------- how many

  /** The place of an attempt among those the truncated comparison lets through: 1 .. max in the first turn of u32. */
  function Slot(cfg: Config, attempt: nat): nat {
    attempt / U32_SIZE * (cfg.maxDeliveryAttempts + 1) + AsU32(attempt)
  }

  /** The number of starts a counter that stays below (w + 1) * 2^32 allows: the maximum itself if w is 0. */
  function Allowed(cfg: Config, w: nat): nat {
    w * (cfg.maxDeliveryAttempts + 1) + cfg.maxDeliveryAttempts
  }

  lemma TimesGrows(a: nat, b: nat, d: nat)
    requires a <= b
    ensures a * d <= b * d
  {
  }

  lemma SlotInRange(cfg: Config, attempt: nat, w: nat)
    requires 1 <= attempt < (w + 1) * U32_SIZE && AsU32(attempt) <= cfg.maxDeliveryAttempts
    ensures 1 <= Slot(cfg, attempt) <= Allowed(cfg, w)
  {
    var q, d := attempt / U32_SIZE, cfg.maxDeliveryAttempts + 1;
    assert attempt == q * U32_SIZE + AsU32(attempt);
    assert q <= w;
    TimesGrows(q, w, d);
    if q > 0 { TimesGrows(1, q, d); }
  }

  lemma SlotsDiffer(cfg: Config, a: nat, b: nat)
    requires AsU32(a) <= cfg.maxDeliveryAttempts && AsU32(b) <= cfg.maxDeliveryAttempts && Slot(cfg, a) == Slot(cfg, b)
    ensures a == b
  {
    var d := cfg.maxDeliveryAttempts + 1;
    var q, p := a / U32_SIZE, b / U32_SIZE;
    if q < p { TimesGrows(q + 1, p, d); }
    if p < q { TimesGrows(p + 1, q, d); }
    assert a == q * U32_SIZE + AsU32(a) && b == p * U32_SIZE + AsU32(b);
  }

  /** Where the log starts processing of job j under life e of its counter, at attempts below (w + 1) * 2^32. */
  ghost function StartsOf(log: seq<Event>, j: JobId, e: nat, w: nat): set<int> {
    set i | 0 <= i < |log| && log[i].Started? && log[i].ticket.job == j && log[i].ticket.epoch == e
            && log[i].ticket.attempt < (w + 1) * U32_SIZE
  }

  /**
   In every run, between two removals of a job's counter, process_job starts at most
   `job_max_delivery_attempts` times, each with its own attempt number; and that many plus one again for every
   multiple of 2^32 the counter passes, where the comparison starts over. No assumption on leases is needed:
   the numbers come from INCR alone.
   */
  lemma StartsAreBounded(cfg: Config, ls: seq<Label>, j: JobId, e: nat, w: nat)
    requires Run(cfg, ls).Some?
    ensures var log := Run(cfg, ls).value.log; var starts := StartsOf(log, j, e, w);
      && (forall i :: i in starts ==>
             1 <= log[i].ticket.attempt && AsU32(log[i].ticket.attempt) <= cfg.maxDeliveryAttempts)
      && (forall i, k :: i in starts && k in starts && i != k ==> log[i].ticket.attempt != log[k].ticket.attempt)
      && |starts| <= Allowed(cfg, w) && Allowed(cfg, 0) == cfg.maxDeliveryAttempts
  {
    hide Run;
    StartsStayAllowed(cfg, ls);
    var s := Run(cfg, ls).value;
    var log := s.log;
    var starts := StartsOf(log, j, e, w);
    hide Slot, Allowed, AsU32;
    forall i | i in starts
      ensures 1 <= log[i].ticket.attempt && AsU32(log[i].ticket.attempt) <= cfg.maxDeliveryAttempts
    {
      assert InRange(s.db, s.issued[log[i].task]);
    }
    forall i, k | i in starts && k in starts && i != k ensures log[i].ticket.attempt != log[k].ticket.attempt {
      assert log[i].task != log[k].task;
    }
    CountSlots(cfg, log, starts, w);
    OneTurn(cfg);
  }

  lemma OneTurn(cfg: Config)
    ensures Allowed(cfg, 0) == cfg.maxDeliveryAttempts
  {
  }

  lemma CountSlots(cfg: Config, log: seq<Event>, starts: set<int>, w: nat)
    requires forall i :: i in starts ==>
      0 <= i < |log| && log[i].Started? && 1 <= log[i].ticket.attempt < (w + 1) * U32_SIZE
    requires forall i :: i in starts ==> AsU32(log[i].ticket.attempt) <= cfg.maxDeliveryAttempts
    requires forall i, k :: i in starts && k in starts && i != k ==> log[i].ticket.attempt != log[k].ticket.attempt
    ensures |starts| <= Allowed(cfg, w)
  {
    hide Slot, Allowed, AsU32;
    var f := map i | i in starts :: Slot(cfg, log[i].ticket.attempt);
    forall i | i in starts ensures 1 <= f[i] <= Allowed(cfg, w) { SlotInRange(cfg, log[i].ticket.attempt, w); }
    forall i, k | i in starts && k in starts && i != k ensures f[i] != f[k] {
      if f[i] == f[k] { SlotsDiffer(cfg, log[i].ticket.attempt, log[k].ticket.attempt); }
    }
    InjectionBound(starts, f, Allowed(cfg, w));
  }

  /** A task that has drawn its attempt starts exactly when the attempt, cut to 32 bits, is within the maximum. */
  lemma StartsIff(cfg: Config, s: State, t: TaskId)
    requires t in s.tasks && s.tasks[t].job.id.Some? && s.tasks[t].pc.ExpireAttempt?
    ensures var k := s.tasks[t].pc.ticket; var s' := Next(cfg, s, Act(t, Done)).value;
      && (s'.log == s.log + [Started(t, k)] <==> k.attempt % U32_SIZE <= cfg.maxDeliveryAttempts)
      && (s'.tasks[t].pc == CopyToDlq <==> k.attempt % U32_SIZE > cfg.maxDeliveryAttempts)
  {
    var s' := Next(cfg, s, Act(t, Done)).value;
    assert |s'.log| == |s.log| || |s'.log| == |s.log| + 1;
  }

  // ---------------------------------------------------------------- stretches of the history

  /** The counter of j was not removed between s0 and s. */
  ghost predicate NoReset(s0: State, s: State, j: JobId) {
    forall i :: |s0.log| <= i < |s.log| ==> s.log[i] != Reset(j)
  }

  /** A ticket of the counter's life at s0, or one that its task already held there, waiting to start. */
  ghost predicate Accounted(s0: State, t: TaskId, k: Ticket) {
    k.epoch == Epoch(s0.db, k.job) || (t in s0.tasks && s0.tasks[t].pc == ExpireAttempt(k))
  }

  ghost predicate Since(s0: State, s: State, j: JobId) {
    && s0.log <= s.log
    && (NoReset(s0, s, j) ==>
          && Epoch(s.db, j) == Epoch(s0.db, j)
          && (forall t :: t in s.tasks && s.tasks[t].pc.ExpireAttempt? && s.tasks[t].pc.ticket.job == j ==>
                Accounted(s0, t, s.tasks[t].pc.ticket))
          && (forall i :: |s0.log| <= i < |s.log| && s.log[i].Started? && s.log[i].ticket.job == j ==>
                Accounted(s0, s.log[i].task, s.log[i].ticket)))
  }

  lemma MoveResets(cfg: Config, db: Redis, t: TaskId, task: Task, o: Outcome)
    ensures var m := MoveOf(cfg, db, t, task, o);
      && (m.says.Some? && m.says.value.Reset? ==> task.pc.ClearAttempts? && Some(m.says.value.job) == task.job.id)
      && (forall j :: Epoch(m.db, j) == Epoch(db, j) + if m.says == Some(Reset(j)) then 1 else 0)
  {
    var m := MoveOf(cfg, db, t, task, o);
    if task.job.id.None? || !task.pc.ClearAttempts? {
      assert m.db.epochs == db.epochs;
    }
  }

  /** A step that appends at most one event to the log. */
  lemma NoResetBefore(s0: State, s: State, s': State, j: JobId)
    requires s0.log <= s.log <= s'.log && NoReset(s0, s', j)
    ensures NoReset(s0, s, j)
  {
  }

  lemma LandSince(s0: State, s: State, t: TaskId, m: Move, j: JobId)
    requires Since(s0, s, j) && t in s.tasks
    requires m.says.Some? && m.says.value.Started? ==>
      s.tasks[t].pc.ExpireAttempt? && m.says.value == Started(t, s.tasks[t].pc.ticket)
    requires forall i :: Epoch(m.db, i) == Epoch(s.db, i) + if m.says == Some(Reset(i)) then 1 else 0
    requires m.next.Some? && m.next.value.ExpireAttempt? ==>
               m.says.None? && m.next.value.ticket.epoch == Epoch(s.db, m.next.value.ticket.job)
    ensures Since(s0, Land(s, t, m), j)
  {
    var s' := Land(s, t, m);
    assert s.log <= s'.log;
    if NoReset(s0, s', j) {
      NoResetBefore(s0, s, s', j);
      if m.says.Some? { assert s'.log[|s.log|] == m.says.value; }
      hide Epoch;
      forall i | |s0.log| <= i < |s'.log| && s'.log[i].Started? && s'.log[i].ticket.job == j
        ensures Accounted(s0, s'.log[i].task, s'.log[i].ticket)
      {
        if i < |s.log| { assert s'.log[i] == s.log[i]; }
      }
    }
  }

  lemma EnvironmentSince(cfg: Config, s0: State, s: State, l: Label, j: JobId)
    requires Since(s0, s, j) && !l.Act? && Next(cfg, s, l).Some? && s.nextTask !in s.tasks
    ensures Since(s0, Next(cfg, s, l).value, j)
  {
    var s' := Next(cfg, s, l).value;
    EnvironmentSteps(cfg, s, l);
    assert s.log <= s'.log;
    if NoReset(s0, s', j) {
      NoResetBefore(s0, s, s', j);
      assert Epoch(s'.db, j) == Epoch(s.db, j) by {
        if l.ExpireCounter? { assert s'.log[|s.log|] == Reset(l.key); }
      }
      hide Next, Epoch;
      forall i | |s0.log| <= i < |s'.log| && s'.log[i].Started? && s'.log[i].ticket.job == j
        ensures Accounted(s0, s'.log[i].task, s'.log[i].ticket)
      {
        assert i < |s.log| && s'.log[i] == s.log[i];
      }
    }
  }

  lemma {:induction false} SinceHolds(cfg: Config, ls: seq<Label>, n: nat, j: JobId)
    requires Run(cfg, ls).Some? && n <= |ls|
    ensures Run(cfg, ls[..n]).Some? && Since(Run(cfg, ls[..n]).value, Run(cfg, ls).value, j)
    decreases |ls|
  {
    if n == |ls| {
      assert ls[..n] == ls;
    } else {
      var l, front := ls[|ls| - 1], ls[..|ls| - 1];
      assert front[..n] == ls[..n];
      SinceHolds(cfg, front, n, j);
      StartsStayAllowed(cfg, front);
      var s0, s := Run(cfg, ls[..n]).value, Run(cfg, front).value;
      assert Run(cfg, ls) == Next(cfg, s, l);
      hide Run, Since, StartsAllowed;
      if l.Act? { ActSince(cfg, s0, s, l.task, l.outcome, j); } else { EnvironmentSince(cfg, s0, s, l, j); }
    }
  }

  lemma ActSince(cfg: Config, s0: State, s: State, t: TaskId, o: Outcome, j: JobId)
    requires Since(s0, s, j) && t in s.tasks
    ensures Since(s0, Land(s, t, MoveOf(cfg, s.db, t, s.tasks[t], o)), j)
  {
    MoveDraws(cfg, s.db, t, s.tasks[t], o);
    MoveStarts(cfg, s.db, t, s.tasks[t], o);
    MoveResets(cfg, s.db, t, s.tasks[t], o);
    hide MoveOf, Since;
    LandSince(s0, s, t, MoveOf(cfg, s.db, t, s.tasks[t], o), j);
  }

  /** Tasks that drew their attempt in an earlier life of the counter and have not started yet. */
  ghost function StaleTasks(s: State, j: JobId): set<TaskId> {
    set t | t in s.tasks && s.tasks[t].pc.ExpireAttempt? && s.tasks[t].pc.ticket.job == j
            && s.tasks[t].pc.ticket.epoch < Epoch(s.db, j)
  }

  /** The starts of j after s0. */
  ghost function StartsAfter(s0: State, s: State, j: JobId, w: nat): set<int> {
    set i | |s0.log| <= i < |s.log| && s.log[i].Started? && s.log[i].ticket.job == j
            && s.log[i].ticket.attempt < (w + 1) * U32_SIZE
  }

  /**
   Over any stretch of any run in which the counter is not removed, the starts of a job are at most the
   maximum plus the tasks that held a ticket of an earlier life of the counter when the stretch began.
   Nothing is assumed about leases or about the expiry of keys.
   */
  lemma StartsSince(cfg: Config, ls: seq<Label>, n: nat, j: JobId, w: nat)
    requires Run(cfg, ls).Some? && n <= |ls| && Run(cfg, ls[..n]).Some?
    requires NoReset(Run(cfg, ls[..n]).value, Run(cfg, ls).value, j)
    ensures var s0, s := Run(cfg, ls[..n]).value, Run(cfg, ls).value;
      |StartsAfter(s0, s, j, w)| <= Allowed(cfg, w) + |StaleTasks(s0, j)|
  {
    SinceHolds(cfg, ls, n, j);
    StartsStayAllowed(cfg, ls[..n]);
    StartsStayAllowed(cfg, ls);
    var s0, s := Run(cfg, ls[..n]).value, Run(cfg, ls).value;
    var e := Epoch(s0.db, j);
    StartsAreBounded(cfg, ls, j, e, w);
    hide Run, Allowed, AsU32;
    var all, own := StartsAfter(s0, s, j, w), StartsOf(s.log, j, e, w);
    var late := all - own;
    forall i | i in late ensures s.log[i].task in StaleTasks(s0, j) {
      assert Accounted(s0, s.log[i].task, s.log[i].ticket);
      assert TicketOf(s0, s.log[i].task) && InRange(s0.db, s.log[i].ticket);
    }
    forall i, k | i in late && k in late && i != k ensures s.log[i].task != s.log[k].task {
      assert i < k || k < i;
    }
    InjectionSize(late, StaleTasks(s0, j), map i | i in late :: s.log[i].task);
    SplitSize(all, own);
  }

  /** Every task that waits to start drew its attempt in the present life of the counter. */
  ghost predicate TicketsCurrent(s: State) {
    forall t :: t in s.tasks && s.tasks[t].pc.ExpireAttempt? ==>
      s.tasks[t].pc.ticket.epoch == Epoch(s.db, s.tasks[t].pc.ticket.job)
  }

  lemma LandKeepsCurrent(s: State, t: TaskId, m: Move)
    requires LeasesHeld(s) && TicketsDistinct(s) && TicketsCurrent(s) && t in s.tasks
    requires m.says.Some? && m.says.value.Reset? ==>
      s.tasks[t].pc.ClearAttempts? && Some(m.says.value.job) == s.tasks[t].job.id
    requires forall j :: Epoch(m.db, j) == Epoch(s.db, j) + if m.says == Some(Reset(j)) then 1 else 0
    requires m.next.Some? && m.next.value.ExpireAttempt? ==>
               m.says.None? && m.next.value.ticket.epoch == Epoch(s.db, m.next.value.ticket.job)
    ensures TicketsCurrent(Land(s, t, m))
  {
    hide Epoch;
    var s' := Land(s, t, m);
    forall u | u in s'.tasks && s'.tasks[u].pc.ExpireAttempt?
      ensures s'.tasks[u].pc.ticket.epoch == Epoch(s'.db, s'.tasks[u].pc.ticket.job)
    {
      if u != t {
        assert TicketOf(s, u);
        // only the owner of the lease can remove the counter, and that is u
        assert Owns(s.db, u, s.tasks[u]);
        if m.says.Some? && m.says.value.Reset? { assert Owns(s.db, t, s.tasks[t]); }
      }
    }
  }

  lemma {:induction false} TicketsStayCurrent(cfg: Config, ls: seq<Label>)
    requires Run(cfg, ls).Some? && NoLiveExpiry(cfg, ls)
    requires forall l :: l in ls ==> !l.ExpireCounter?
    ensures TicketsCurrent(Run(cfg, ls).value)
  {
    if ls != [] {
      var l := ls[|ls| - 1];
      var ls0 := ls[..|ls| - 1];
      var s := Run(cfg, ls0).value;
      TicketsStayCurrent(cfg, ls0);
      LeasesStayHeld(cfg, ls0);
      StartsStayAllowed(cfg, ls0);
      if l.Act? { ActKeepsCurrent(cfg, s, l.task, l.outcome); } else { EnvironmentKeepsCurrent(cfg, s, l); }
    }
  }

  lemma EnvironmentKeepsCurrent(cfg: Config, s: State, l: Label)
    requires TicketsCurrent(s) && !l.Act? && !l.ExpireCounter? && Next(cfg, s, l).Some?
    ensures TicketsCurrent(Next(cfg, s, l).value)
  {
    var s' := Next(cfg, s, l).value;
    assert s'.db.epochs == s.db.epochs;
    assert forall j :: Epoch(s'.db, j) == Epoch(s.db, j);
  }

  lemma ActKeepsCurrent(cfg: Config, s: State, t: TaskId, o: Outcome)
    requires LeasesHeld(s) && TicketsDistinct(s) && TicketsCurrent(s) && t in s.tasks
    ensures TicketsCurrent(Land(s, t, MoveOf(cfg, s.db, t, s.tasks[t], o)))
  {
    MoveDraws(cfg, s.db, t, s.tasks[t], o);
    MoveStarts(cfg, s.db, t, s.tasks[t], o);
    MoveResets(cfg, s.db, t, s.tasks[t], o);
    hide MoveOf;
    LandKeepsCurrent(s, t, MoveOf(cfg, s.db, t, s.tasks[t], o));
  }

  /**
   With leases that do not expire under their holder and counters that do not time out there are no such
   tasks, and the maximum holds for every stretch in which the counter is not removed.
   */
  lemma StartsBetweenClears(cfg: Config, ls: seq<Label>, n: nat, j: JobId, w: nat)
    requires Run(cfg, ls).Some? && n <= |ls| && Run(cfg, ls[..n]).Some?
    requires NoLiveExpiry(cfg, ls[..n]) && forall l :: l in ls[..n] ==> !l.ExpireCounter?
    requires NoReset(Run(cfg, ls[..n]).value, Run(cfg, ls).value, j)
    ensures StaleTasks(Run(cfg, ls[..n]).value, j) == {}
    ensures |StartsAfter(Run(cfg, ls[..n]).value, Run(cfg, ls).value, j, w)| <= Allowed(cfg, w)
  {
    TicketsStayCurrent(cfg, ls[..n]);
    StartsSince(cfg, ls, n, j, w);
    hide Run;
    assert StaleTasks(Run(cfg, ls[..n]).value, j) == {};
  }
}
