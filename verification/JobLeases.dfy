/**
 Mutual exclusion of the delivery protocol: what the lease guarantees as long as it does not expire
 under the task that took it, and that such an expiry does break it.
 */
module JobLeases {
  import opened Awaiting
  import opened Options
  import opened JobQueue

  /** Past acquire_job_lease: the task believes it owns the lease. */
  predicate Holding(pc: Pc) {
    !pc.AcquireLease?
  }

  /** Inside process_job. */
  predicate Processing(pc: Pc) {
    pc.CallUpstream? || pc.StoreResult? || pc.PublishResult? || pc.PostCallback? || pc.QueueRetry?
  }

  predicate Owns(db: Redis, t: TaskId, task: Task) {
    task.job.id.Some? && task.job.id.value in db.leases && db.leases[task.job.id.value] == t
  }

  /** Every task past the lease step owns the lease key of its job. */
  ghost predicate LeasesHeld(s: State) {
    forall t :: t in s.tasks ==> t < s.nextTask && (Holding(s.tasks[t].pc) ==> Owns(s.db, t, s.tasks[t]))
  }

  /** The lease key expires although the task that set it is still alive. */
  predicate LiveExpiry(s: State, l: Label) {
    l.ExpireLease? && l.key in s.db.leases && s.db.leases[l.key] in s.tasks
  }

  ghost predicate NoLiveExpiry(cfg: Config, ls: seq<Label>)
    requires Run(cfg, ls).Some?
  {
    ls == [] || (NoLiveExpiry(cfg, ls[..|ls| - 1]) && !LiveExpiry(Run(cfg, ls[..|ls| - 1]).value, ls[|ls| - 1]))
  }

  predicate SameLease(db: Redis, db': Redis, j: JobId) {
    if j in db.leases then j in db'.leases && db'.leases[j] == db.leases[j] else j !in db'.leases
  }

  /** A call changes no lease but that of its own job, and then only as its program counter says. */
  ghost predicate LeasesKept(db: Redis, t: TaskId, task: Task, m: Move) {
    && (forall j :: Some(j) != task.job.id ==> SameLease(db, m.db, j))
    && (task.pc.AcquireLease? && task.job.id.Some? && task.job.id.value in db.leases ==>
          m.db.leases == db.leases && m.next.None?)
    && (m.next.Some? && Holding(m.next.value) && task.pc.AcquireLease? ==> Owns(m.db, t, task))
    && (m.next.Some? && !task.pc.AcquireLease? ==> m.db.leases == db.leases)
    && (m.next.Some? ==> task.job.id.Some? && Holding(m.next.value))
  }

  lemma MoveKeepsLeases(cfg: Config, db: Redis, t: TaskId, task: Task, o: Outcome)
    ensures LeasesKept(db, t, task, MoveOf(cfg, db, t, task, o))
  {
    var m := MoveOf(cfg, db, t, task, o);
    if task.job.id.Some? && !task.pc.AcquireLease? && !task.pc.ReleaseLease? {
      assert m.db.leases == db.leases;
    }
  }

  lemma LandKeepsLeases(s: State, t: TaskId, m: Move)
    requires LeasesHeld(s) && t in s.tasks && LeasesKept(s.db, t, s.tasks[t], m)
    ensures LeasesHeld(Land(s, t, m))
  {
    var s' := Land(s, t, m);
    forall u | u in s'.tasks
      ensures u < s'.nextTask && (Holding(s'.tasks[u].pc) ==> Owns(s'.db, u, s'.tasks[u]))
    {
      if u != t && Holding(s.tasks[u].pc) && s.tasks[t].job.id == s.tasks[u].job.id {
        // u owns the lease of this job, so t is only trying to acquire it
        assert s.tasks[t].pc.AcquireLease?;
      }
    }
  }

  lemma {:induction false} LeasesStayHeld(cfg: Config, ls: seq<Label>)
    requires Run(cfg, ls).Some? && NoLiveExpiry(cfg, ls)
    ensures LeasesHeld(Run(cfg, ls).value)
  {
    if ls != [] {
      var l := ls[|ls| - 1];
      var s := Run(cfg, ls[..|ls| - 1]).value;
      LeasesStayHeld(cfg, ls[..|ls| - 1]);
      if l.Act? {
        var m := MoveOf(cfg, s.db, l.task, s.tasks[l.task], l.outcome);
        MoveKeepsLeases(cfg, s.db, l.task, s.tasks[l.task], l.outcome);
        LandKeepsLeases(s, l.task, m);
      }
    }
  }

  /**
   If no lease expires under a live holder, then at any moment at most one task is inside process_job
   for a job id, and the key a task is about to delete is the one it set itself, although the code
   deletes without comparing owners and several error exits leave their lease behind.
   */
  lemma OneProcessorPerJob(cfg: Config, ls: seq<Label>)
    requires Run(cfg, ls).Some? && NoLiveExpiry(cfg, ls)
    ensures var s := Run(cfg, ls).value;
      && (forall t, u | t in s.tasks && u in s.tasks ::
            Processing(s.tasks[t].pc) && Processing(s.tasks[u].pc) && s.tasks[t].job.id == s.tasks[u].job.id ==> t == u)
      && (forall t :: t in s.tasks && s.tasks[t].pc.ReleaseLease? ==> Owns(s.db, t, s.tasks[t]))
  {
    LeasesStayHeld(cfg, ls);
  }

  /** The state after further labels. */
  function RunFrom(cfg: Config, s: State, ls: seq<Label>): Option<State>
    decreases |ls|
  {
    if ls == [] then Some(s)
    else
      var s' := Next(cfg, s, ls[0]);
      if s'.None? then None else RunFrom(cfg, s'.value, ls[1..])
  }

  /** A reclaimer delivers r again as task u, which takes the free lease and draws the next attempt. */
  function Takeover(r: Ref, u: TaskId): seq<Label> {
    [Claim(r)] + ([Act(u, Done)] + ([Act(u, Done)] + ([Act(u, Done)] + [])))
  }

  /**
   The condition is needed everywhere, not for one input: whenever the lease of a job expires while a
   task is processing it, its entry is unacknowledged and attempts are left, a reclaim puts a second
   task into process_job beside the first.
   */
  lemma LiveExpiryBreaksExclusion(cfg: Config, s: State, t: TaskId)
    requires t in s.tasks && t < s.nextTask && Processing(s.tasks[t].pc) && Owns(s.db, t, s.tasks[t])
    requires s.tasks[t].ref in s.db.pending && s.tasks[t].ref in s.db.appended
    requires s.db.appended[s.tasks[t].ref] == s.tasks[t].job
    requires AsU32(Count(s.db, s.tasks[t].job.id.value) + 1) <= cfg.maxDeliveryAttempts
    ensures var u := s.nextTask; var r := s.tasks[t].ref; var j := s.tasks[t].job.id.value;
      && LiveExpiry(s, ExpireLease(j))
      && var end := RunFrom(cfg, s, [ExpireLease(j)] + Takeover(r, u));
      && end.Some? && u != t
      && t in end.value.tasks && end.value.tasks[t] == s.tasks[t]
      && u in end.value.tasks && Processing(end.value.tasks[u].pc)
      && end.value.tasks[u].job.id == s.tasks[t].job.id
  {
    var u := s.nextTask;
    var r := s.tasks[t].ref;
    var j := s.tasks[t].job.id.value;
    var s1 := Next(cfg, s, ExpireLease(j)).value;
    var s2 := Next(cfg, s1, Claim(r)).value;
    var s3 := Next(cfg, s2, Act(u, Done)).value;
    assert s3.tasks[u] == Task(r, s.tasks[t].job, CountAttempt);
    var s4 := Next(cfg, s3, Act(u, Done)).value;
    assert s4.tasks[u].pc.ExpireAttempt?;
    var s5 := Next(cfg, s4, Act(u, Done)).value;
    assert s5.tasks[u].pc == CallUpstream;
    RunFromStep(cfg, s4, Act(u, Done), []);
    RunFromStep(cfg, s3, Act(u, Done), [Act(u, Done)] + []);
    RunFromStep(cfg, s2, Act(u, Done), [Act(u, Done)] + ([Act(u, Done)] + []));
    RunFromStep(cfg, s1, Claim(r), [Act(u, Done)] + ([Act(u, Done)] + ([Act(u, Done)] + [])));
    RunFromStep(cfg, s, ExpireLease(j), Takeover(r, u));
  }

  lemma RunFromStep(cfg: Config, s: State, l: Label, ls: seq<Label>)
    requires Next(cfg, s, l).Some?
    ensures RunFrom(cfg, s, [l] + ls) == RunFrom(cfg, Next(cfg, s, l).value, ls)
  {
    assert ([l] + ls)[1..] == ls;
  }
}
