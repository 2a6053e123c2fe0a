/**
 A run in which a job starts more often than the maximum between two clears of its counter, because its
 lease expires under tasks that are still alive.
 */
module JobOverrun {
  import opened Awaiting
  import opened Options
  import opened JobQueue
  import opened JobLeases
  import opened JobAttempts

  const TWICE := Config(2)
  const ENTRY := Ref("jobs", 0)
  const JOB := Job(Some("j"), false)

  // ---------------------------------------------------------------- running on

  lemma {:induction false} RunFromConcat(cfg: Config, s: State, a: seq<Label>, b: seq<Label>)
    requires RunFrom(cfg, s, a).Some?
    ensures RunFrom(cfg, s, a + b) == RunFrom(cfg, RunFrom(cfg, s, a).value, b)
    decreases |a|
  {
    if a == [] {
      assert a + b == b;
    } else {
      assert (a + b)[0] == a[0] && (a + b)[1..] == a[1..] + b;
      hide Next;
      RunFromConcat(cfg, Next(cfg, s, a[0]).value, a[1..], b);
    }
  }

  lemma {:induction false} RunIsRunFrom(cfg: Config, ls: seq<Label>)
    requires RunFrom(cfg, INIT, ls).Some?
    ensures Run(cfg, ls) == RunFrom(cfg, INIT, ls)
    decreases |ls|
  {
    if ls != [] {
      var front, l := ls[..|ls| - 1], ls[|ls| - 1];
      assert ls == front + [l];
      RunFromPrefix(cfg, INIT, front, [l]);
      RunFromConcat(cfg, INIT, front, [l]);
      RunIsRunFrom(cfg, front);
      OneStep(cfg, Run(cfg, front).value, l);
    }
  }

  lemma {:induction false} RunFromPrefix(cfg: Config, s: State, a: seq<Label>, b: seq<Label>)
    requires RunFrom(cfg, s, a + b).Some?
    ensures RunFrom(cfg, s, a).Some?
    decreases |a|
  {
    if a != [] {
      assert (a + b)[0] == a[0] && (a + b)[1..] == a[1..] + b;
      hide Next;
      RunFromPrefix(cfg, Next(cfg, s, a[0]).value, a[1..], b);
    }
  }

  lemma OneStep(cfg: Config, s: State, l: Label)
    ensures RunFrom(cfg, s, [l]) == Next(cfg, s, l)
  {
    assert [l][1..] == [];
    hide Next;
  }

  /** s' follows from s by the labels. */
  ghost predicate Leads(s: State, ls: seq<Label>, s': State) {
    RunFrom(TWICE, s, ls) == Some(s')
  }

  lemma Then(s: State, a: seq<Label>, s1: State, l: Label, s2: State)
    requires Leads(s, a, s1) && Next(TWICE, s1, l) == Some(s2)
    ensures Leads(s, a + [l], s2)
  {
    hide Next;
    RunFromConcat(TWICE, s, a, [l]);
    OneStep(TWICE, s1, l);
  }

  // ---------------------------------------------------------------- pieces

  /** Task t has been handed the entry. */
  ghost predicate Waiting(s: State, t: TaskId) {
    t in s.tasks && s.tasks[t] == Task(ENTRY, JOB, AcquireLease)
  }

  function Enter(t: TaskId): seq<Label> {
    [] + [Act(t, Done)] + [Act(t, Done)] + [Act(t, Done)]
  }

  /** The state after t took the lease, drew the next attempt and started. */
  function Entered(s: State, t: TaskId): State
    requires t in s.tasks
  {
    var k := Ticket("j", Epoch(s.db, "j"), Count(s.db, "j") + 1);
    State(s.db.(leases := s.db.leases["j" := t], counters := s.db.counters["j" := k.attempt]),
          s.tasks[t := Task(ENTRY, JOB, CallUpstream)], s.nextTask, s.issued[t := k], s.log + [Started(t, k)])
  }

  lemma EnterLeads(s: State, t: TaskId)
    requires Waiting(s, t) && "j" !in s.db.leases && Count(s.db, "j") < 2
    ensures Leads(s, Enter(t), Entered(s, t))
  {
    var a := Act(t, Done);
    var k := Ticket("j", Epoch(s.db, "j"), Count(s.db, "j") + 1);
    var s1 := s.(db := s.db.(leases := s.db.leases["j" := t]), tasks := s.tasks[t := Task(ENTRY, JOB, CountAttempt)]);
    var s2 := s1.(db := s1.db.(counters := s1.db.counters["j" := k.attempt]),
                  tasks := s.tasks[t := Task(ENTRY, JOB, ExpireAttempt(k))], issued := s.issued[t := k]);
    assert Next(TWICE, s, a) == Some(s1);
    assert s1.tasks[t := Task(ENTRY, JOB, ExpireAttempt(k))] == s2.tasks;
    assert Next(TWICE, s1, a) == Some(s2);
    assert s2.tasks[t := Task(ENTRY, JOB, CallUpstream)] == Entered(s, t).tasks;
    assert Next(TWICE, s2, a) == Some(Entered(s, t));
    hide Next;
    assert Leads(s, [], s);
    Then(s, [], s, a, s1);
    Then(s, [] + [a], s1, a, s2);
    Then(s, [] + [a] + [a], s2, a, Entered(s, t));
  }

  /** The task at another program counter, with more in the log. */
  function Moved(s: State, t: TaskId, pc: Pc, says: seq<Event>): State
    requires t in s.tasks
  {
    s.(tasks := s.tasks[t := Task(ENTRY, JOB, pc)], log := s.log + says)
  }

  lemma MovedTwice(s: State, t: TaskId, pc: Pc, says: seq<Event>, pc': Pc, more: seq<Event>)
    requires t in s.tasks
    ensures Moved(Moved(s, t, pc, says), t, pc', more) == Moved(s, t, pc', says + more)
  {
    assert s.tasks[t := Task(ENTRY, JOB, pc)][t := Task(ENTRY, JOB, pc')] == s.tasks[t := Task(ENTRY, JOB, pc')];
    assert s.log + says + more == s.log + (says + more);
  }

  /** The calls of process_job. */
  lemma WorkLeads(s: State, t: TaskId)
    requires t in s.tasks && s.tasks[t] == Task(ENTRY, JOB, CallUpstream)
    ensures Leads(s, [] + [Act(t, Done)] + [Act(t, Done)] + [Act(t, Done)],
                  Moved(s, t, AckDone, [Upstream(t, ENTRY), Stored(t, ENTRY)]))
  {
    var a := Act(t, Done);
    var up, st := Upstream(t, ENTRY), Stored(t, ENTRY);
    var s1 := Moved(s, t, StoreResult, [up]);
    var s2 := Moved(s1, t, PublishResult, [st]);
    var s3 := Moved(s2, t, AckDone, []);
    assert Next(TWICE, s, a) == Some(s1);
    assert Next(TWICE, s1, a) == Some(s2);
    assert s2.log + [] == s2.log;
    assert Next(TWICE, s2, a) == Some(s3);
    MovedTwice(s, t, StoreResult, [up], PublishResult, [st]);
    MovedTwice(s, t, PublishResult, [up, st], AckDone, []);
    assert [up] + [st] == [up, st] && [up, st] + [] == [up, st];
    hide Next, Moved;
    assert Leads(s, [], s);
    Then(s, [], s, a, s1);
    Then(s, [] + [a], s1, a, s2);
    Then(s, [] + [a] + [a], s2, a, s3);
  }

  /** The state after t acknowledged, cleared the counter and released the lease. */
  function Closed(s: State, t: TaskId): State {
    State(s.db.(pending := s.db.pending - {ENTRY}, acked := s.db.acked + {ENTRY}, counters := s.db.counters - {"j"},
                epochs := s.db.epochs["j" := Epoch(s.db, "j") + 1], leases := s.db.leases - {"j"}),
          s.tasks - {t}, s.nextTask, s.issued, s.log + [Acked(t, ENTRY)] + [Reset("j")])
  }

  lemma CloseLeads(s: State, t: TaskId)
    requires t in s.tasks && s.tasks[t] == Task(ENTRY, JOB, AckDone) && ENTRY in s.db.pending && "j" in s.db.counters
    ensures Leads(s, [] + [Act(t, Done)] + [Act(t, Done)] + [Act(t, Done)], Closed(s, t))
  {
    var a := Act(t, Done);
    var s1 := s.(db := s.db.(pending := s.db.pending - {ENTRY}, acked := s.db.acked + {ENTRY}),
                 tasks := s.tasks[t := Task(ENTRY, JOB, ClearAttempts)], log := s.log + [Acked(t, ENTRY)]);
    var epochs := s1.db.epochs["j" := Epoch(s1.db, "j") + 1];
    var s2 := s1.(db := s1.db.(counters := s1.db.counters - {"j"}, epochs := epochs),
                  tasks := s1.tasks[t := Task(ENTRY, JOB, ReleaseLease)], log := s1.log + [Reset("j")]);
    assert Next(TWICE, s, a) == Some(s1);
    assert Next(TWICE, s1, a) == Some(s2);
    assert s2.tasks - {t} == s.tasks - {t};
    assert Next(TWICE, s2, a) == Some(Closed(s, t));
    hide Next;
    assert Leads(s, [], s);
    Then(s, [], s, a, s1);
    Then(s, [] + [a], s1, a, s2);
    Then(s, [] + [a] + [a], s2, a, Closed(s, t));
  }

  lemma Joined(s: State, a: seq<Label>, s1: State, b: seq<Label>, s2: State)
    requires Leads(s, a, s1) && Leads(s1, b, s2)
    ensures Leads(s, a + b, s2)
  {
    RunFromConcat(TWICE, s, a, b);
  }

  // ---------------------------------------------------------------- the run

  /** Task 0 drew attempt 1 and lost its lease; three more copies of the entry are in hand. */
  ghost predicate Ready(s: State) {
    && 0 in s.tasks && s.tasks[0] == Task(ENTRY, JOB, ExpireAttempt(Ticket("j", 0, 1)))
    && Waiting(s, 1) && Waiting(s, 2) && Waiting(s, 3)
    && "j" !in s.db.leases && Count(s.db, "j") == 1 && Epoch(s.db, "j") == 0 && ENTRY in s.db.pending
  }

  function Prologue(): seq<Label> {
    [] + [Append(ENTRY, JOB)] + [Read(ENTRY)] + [Act(0, Done)] + [Act(0, Done)] + [ExpireLease("j")]
       + [Claim(ENTRY)] + [Claim(ENTRY)] + [Claim(ENTRY)]
  }

  /** Task 1 takes over, succeeds and clears the counter. */
  function Takeover(): seq<Label> {
    var three := [] + [Act(1, Done)] + [Act(1, Done)] + [Act(1, Done)];
    Enter(1) + three + three
  }

  /** Tasks 2 and 3 start under the new counter, and task 0 under the old one. */
  function Overrun(): seq<Label> {
    Enter(2) + [ExpireLease("j")] + Enter(3) + [Act(0, Done)]
  }

  ghost predicate Cleared(s: State) {
    && 0 in s.tasks && s.tasks[0] == Task(ENTRY, JOB, ExpireAttempt(Ticket("j", 0, 1)))
    && Waiting(s, 2) && Waiting(s, 3)
    && "j" !in s.db.leases && Count(s.db, "j") == 0 && Epoch(s.db, "j") == 1
  }

  lemma TakeoverLeads(s: State) returns (s': State)
    requires Ready(s)
    ensures Leads(s, Takeover(), s') && Cleared(s')
  {
    EnterLeads(s, 1);
    var s1 := Entered(s, 1);
    WorkLeads(s1, 1);
    var s2 := Moved(s1, 1, AckDone, [Upstream(1, ENTRY), Stored(1, ENTRY)]);
    CloseLeads(s2, 1);
    s' := Closed(s2, 1);
    hide Leads;
    var b := [] + [Act(1, Done)] + [Act(1, Done)] + [Act(1, Done)];
    Joined(s, Enter(1), s1, b, s2);
    Joined(s, Enter(1) + b, s2, b, s');
  }

  /** Tasks 2 and 3 are both inside process_job, for the same job. */
  ghost predicate BothInside(s: State) {
    2 in s.tasks && 3 in s.tasks && s.tasks[2] == s.tasks[3] == Task(ENTRY, JOB, CallUpstream)
  }

  /** Two tasks enter one after the other, as the lease expires in between. */
  lemma TwoEnter(s: State) returns (s': State)
    requires Cleared(s)
    ensures Leads(s, Enter(2) + [ExpireLease("j")] + Enter(3), s')
    ensures 0 in s'.tasks && s'.tasks[0] == s.tasks[0] && BothInside(s')
    ensures s'.log == s.log + [Started(2, Ticket("j", 1, 1))] + [Started(3, Ticket("j", 1, 2))]
  {
    EnterLeads(s, 2);
    var s1 := Entered(s, 2);
    var s2 := s1.(db := s1.db.(leases := s1.db.leases - {"j"}));
    assert Next(TWICE, s1, ExpireLease("j")) == Some(s2);
    hide Next, Leads;
    EnterLeads(s2, 3);
    s' := Entered(s2, 3);
    Then(s, Enter(2), s1, ExpireLease("j"), s2);
    Joined(s, Enter(2) + [ExpireLease("j")], s2, Enter(3), s');
  }

  lemma LateStart(s: State)
    requires 0 in s.tasks && s.tasks[0] == Task(ENTRY, JOB, ExpireAttempt(Ticket("j", 0, 1)))
    ensures Next(TWICE, s, Act(0, Done)) == Some(Moved(s, 0, CallUpstream, [Started(0, Ticket("j", 0, 1))]))
  {
  }

  lemma OverrunLeads(s: State) returns (s': State)
    requires Cleared(s)
    ensures Leads(s, Overrun(), s') && BothInside(s')
    ensures s'.log == s.log + [Started(2, Ticket("j", 1, 1))] + [Started(3, Ticket("j", 1, 2))]
                            + [Started(0, Ticket("j", 0, 1))]
  {
    var s1 := TwoEnter(s);
    LateStart(s1);
    s' := Moved(s1, 0, CallUpstream, [Started(0, Ticket("j", 0, 1))]);
    hide Next, Leads;
    Then(s, Enter(2) + [ExpireLease("j")] + Enter(3), s1, Act(0, Done), s');
  }

  /** Task 0 reads the entry, takes the lease and draws attempt 1; then its lease expires. */
  lemma FirstLoses() returns (s: State)
    ensures Leads(INIT, [] + [Append(ENTRY, JOB)] + [Read(ENTRY)] + [Act(0, Done)] + [Act(0, Done)]
                           + [ExpireLease("j")], s)
    ensures 0 in s.tasks && s.tasks[0] == Task(ENTRY, JOB, ExpireAttempt(Ticket("j", 0, 1))) && s.nextTask == 1
    ensures "j" !in s.db.leases && Count(s.db, "j") == 1 && Epoch(s.db, "j") == 0
    ensures ENTRY in s.db.pending && ENTRY in s.db.appended && s.db.appended[ENTRY] == JOB
  {
    var s1 := Next(TWICE, INIT, Append(ENTRY, JOB)).value;
    var s2 := Next(TWICE, s1, Read(ENTRY)).value;
    assert s2.tasks[0] == Task(ENTRY, JOB, AcquireLease) && s2.db.leases == map[];
    var s3 := Next(TWICE, s2, Act(0, Done)).value;
    assert s3.tasks[0] == Task(ENTRY, JOB, CountAttempt) && "j" in s3.db.leases;
    var s4 := Next(TWICE, s3, Act(0, Done)).value;
    assert s4.tasks[0] == Task(ENTRY, JOB, ExpireAttempt(Ticket("j", 0, 1))) && "j" in s4.db.leases;
    s := Next(TWICE, s4, ExpireLease("j")).value;
    hide Next;
    assert Leads(INIT, [], INIT);
    Then(INIT, [], INIT, Append(ENTRY, JOB), s1);
    Then(INIT, [] + [Append(ENTRY, JOB)], s1, Read(ENTRY), s2);
    Then(INIT, [] + [Append(ENTRY, JOB)] + [Read(ENTRY)], s2, Act(0, Done), s3);
    Then(INIT, [] + [Append(ENTRY, JOB)] + [Read(ENTRY)] + [Act(0, Done)], s3, Act(0, Done), s4);
    Then(INIT, [] + [Append(ENTRY, JOB)] + [Read(ENTRY)] + [Act(0, Done)] + [Act(0, Done)], s4, ExpireLease("j"), s);
  }

  lemma PrologueLeads() returns (s: State)
    ensures Leads(INIT, Prologue(), s) && Ready(s)
  {
    var s5 := FirstLoses();
    var ls := [] + [Append(ENTRY, JOB)] + [Read(ENTRY)] + [Act(0, Done)] + [Act(0, Done)] + [ExpireLease("j")];
    s := Claimed(Claimed(Claimed(s5)));
    hide Next;
    ClaimLeads(s5);
    Then(INIT, ls, s5, Claim(ENTRY), Claimed(s5));
    ClaimLeads(Claimed(s5));
    Then(INIT, ls + [Claim(ENTRY)], Claimed(s5), Claim(ENTRY), Claimed(Claimed(s5)));
    ClaimLeads(Claimed(Claimed(s5)));
    Then(INIT, ls + [Claim(ENTRY)] + [Claim(ENTRY)], Claimed(Claimed(s5)), Claim(ENTRY), s);
  }

  function Claimed(s: State): State {
    s.(tasks := s.tasks[s.nextTask := Task(ENTRY, JOB, AcquireLease)], nextTask := s.nextTask + 1)
  }

  lemma ClaimLeads(s: State)
    requires ENTRY in s.db.pending && ENTRY in s.db.appended && s.db.appended[ENTRY] == JOB
    ensures Next(TWICE, s, Claim(ENTRY)) == Some(Claimed(s))
  {
  }

  /**
   With a maximum of two, a job starts three times in a stretch in which its counter is not removed: leases
   expired under live holders, and one task still held a ticket from before the stretch. So the bound without
   the term for such tasks is wrong, and the condition of StartsBetweenClears is needed. The run ends with two
   tasks inside process_job for this job.
   */
  lemma ExpiredLeaseOverruns()
    ensures var n := |Prologue() + Takeover()|; var ls := Prologue() + Takeover() + Overrun();
      && Run(TWICE, ls).Some? && Run(TWICE, ls[..n]).Some?
      && var s0, s := Run(TWICE, ls[..n]).value, Run(TWICE, ls).value;
      && NoReset(s0, s, "j") && |StartsAfter(s0, s, "j", 0)| == 3 && 0 in StaleTasks(s0, "j")
      && Allowed(TWICE, 0) == 2 && BothInside(s)
  {
    var a := PrologueLeads();
    var b := TakeoverLeads(a);
    var c := OverrunLeads(b);
    var pre, ls := Prologue() + Takeover(), Prologue() + Takeover() + Overrun();
    hide Prologue, Takeover, Overrun, RunFrom, Run;
    Joined(INIT, Prologue(), a, Takeover(), b);
    Joined(INIT, pre, b, Overrun(), c);
    RunIsRunFrom(TWICE, pre);
    RunIsRunFrom(TWICE, ls);
    assert ls[..|pre|] == pre;
    ThreeStarts(b, c);
  }

  lemma ThreeStarts(b: State, c: State)
    requires c.log == b.log + [Started(2, Ticket("j", 1, 1))] + [Started(3, Ticket("j", 1, 2))]
                            + [Started(0, Ticket("j", 0, 1))]
    ensures NoReset(b, c, "j") && |StartsAfter(b, c, "j", 0)| == 3
  {
    var n := |b.log|;
    assert c.log[n] == Started(2, Ticket("j", 1, 1)) && c.log[n + 1] == Started(3, Ticket("j", 1, 2));
    assert c.log[n + 2] == Started(0, Ticket("j", 0, 1));
    assert StartsAfter(b, c, "j", 0) == {n, n + 1, n + 2};
  }
}
