/**
 The job delivery protocol of the queue service: stream append, group read, reclaim,
 a lease taken with SET NX, a delivery counter, processing, acknowledgement and the
 dead-letter queue.

 Every delivered copy of an entry is a task with its own program counter.  A task moves
 by one Redis or HTTP call at a time, so any number of workers and reclaimers interleave
 between awaits.  Each call either succeeds, fails without effect, or fails after it took
 effect (the reply is lost).
 */
module JobQueue {
  import opened Awaiting
  import opened Options

  type TaskId = nat
  type JobId = string

  const U32_SIZE: nat := 0x1_0000_0000

  /** An entry of one of the job streams. */
  datatype Ref = Ref(stream: string, id: nat)

  /** The fields of an entry that steer delivery: its job id, if present, and whether a callback URL is set. */
  datatype Job = Job(id: Option<JobId>, callback: bool)

  datatype Config = Config(maxDeliveryAttempts: nat)

  /** A delivery attempt handed out by INCR: which life of the counter, and its value there. */
  datatype Ticket = Ticket(job: JobId, epoch: nat, attempt: nat)

  /** The next await of a task inside process_stream_entry and process_job. */
  datatype Pc =
    | AcquireLease
    | CountAttempt
    | ExpireAttempt(ticket: Ticket)
    | CopyToDlq
    | AckDlq
    | CallUpstream
    | StoreResult
    | PublishResult
    | PostCallback
    | QueueRetry
    | AckDone
    | ClearAttempts
    | ReleaseLease

  datatype Task = Task(ref: Ref, job: Job, pc: Pc)

  /** History of the run, in order. */
  datatype Event =
    | Started(task: TaskId, ticket: Ticket)
    | Upstream(task: TaskId, ref: Ref)
    | Stored(task: TaskId, ref: Ref)
    | Posted(task: TaskId, ref: Ref, answered: bool)
    | RetryQueued(task: TaskId, ref: Ref)
    | DlqCopied(task: TaskId, ref: Ref)
    | Acked(task: TaskId, ref: Ref)
    | Reset(job: JobId)

  /**
   The Redis keys the protocol shares: the streams and their consumer group, the leases and the counters.
   `leases` records which task set the key; the code stores an owner string and never compares it.
   `epochs` counts how often a job's counter key was removed.
   */
  datatype Redis = Redis(
    appended: map<Ref, Job>,
    unread: set<Ref>,
    pending: set<Ref>,
    acked: set<Ref>,
    leases: map<JobId, TaskId>,
    counters: map<JobId, nat>,
    epochs: map<JobId, nat>)

  /** Redis, the live tasks, the ticket every task drew, and the history. */
  datatype State = State(
    db: Redis,
    tasks: map<TaskId, Task>,
    nextTask: TaskId,
    issued: map<TaskId, Ticket>,
    log: seq<Event>)

  const INIT := State(Redis(map[], {}, {}, {}, map[], map[], map[]), map[], 0, map[], [])

  datatype Label =
    | Append(ref: Ref, job: Job)
    | Read(ref: Ref)
    | Claim(ref: Ref)
    | Act(task: TaskId, outcome: Outcome)
    | Crash(task: TaskId)
    | ExpireLease(key: JobId)
    | ExpireCounter(key: JobId)

  // ---------------------------------------------------------------- Redis commands

  function Incr(db: Redis, j: JobId): Redis {
    db.(counters := db.counters[j := Count(db, j) + 1])
  }

  function Count(db: Redis, j: JobId): nat {
    if j in db.counters then db.counters[j] else 0
  }

  function Epoch(db: Redis, j: JobId): nat {
    if j in db.epochs then db.epochs[j] else 0
  }

  function DelCounter(db: Redis, j: JobId): Redis {
    if j in db.counters
    then db.(counters := db.counters - {j}, epochs := db.epochs[j := Epoch(db, j) + 1])
    else db
  }

  function SetLeaseNx(db: Redis, j: JobId, t: TaskId): Redis {
    if j in db.leases then db else db.(leases := db.leases[j := t])
  }

  function DelLease(db: Redis, j: JobId): Redis {
    db.(leases := db.leases - {j})
  }

  function XAck(db: Redis, r: Ref): Redis {
    if r in db.pending then db.(pending := db.pending - {r}, acked := db.acked + {r}) else db
  }

  // ---------------------------------------------------------------- one awaited call

  /**
   The effect of one awaited call: the new Redis contents, the event it leaves in the history, the
   ticket it draws, and where the task goes next (None: process_stream_entry returns).
   */
  datatype Move = Move(db: Redis, says: Option<Event>, draws: Option<Ticket>, next: Option<Pc>)

  /** `attempt.max(0) as u32`, as compared with the configured maximum. */
  function AsU32(attempt: nat): nat {
    attempt % U32_SIZE
  }

  function Admit(cfg: Config, db: Redis, t: TaskId, j: JobId, pc: Pc, o: Outcome): Move
    requires pc.AcquireLease? || pc.CountAttempt? || pc.ExpireAttempt?
  {
    match pc
    case AcquireLease =>
      Move(if o.Lost? then db else SetLeaseNx(db, j, t), None, None,
           if o.Done? && j !in db.leases then Some(CountAttempt) else None)
    case CountAttempt =>
      var k := Ticket(j, Epoch(db, j), Count(db, j) + 1);
      if o.Done? then Move(Incr(db, j), None, Some(k), Some(ExpireAttempt(k)))
      else Move(if o.Lost? then db else Incr(db, j), None, None, None)
    case ExpireAttempt(k) =>
      if !o.Done? then Move(db, None, None, None)
      else if AsU32(k.attempt) > cfg.maxDeliveryAttempts then Move(db, None, None, Some(CopyToDlq))
      else Move(db, Some(Started(t, k)), None, Some(CallUpstream))
  }

  function DeadLetter(db: Redis, t: TaskId, r: Ref, pc: Pc, o: Outcome): Move
    requires pc.CopyToDlq? || pc.AckDlq?
  {
    match pc
    case CopyToDlq =>
      Move(db, if o.Lost? then None else Some(DlqCopied(t, r)), None, if o.Done? then Some(AckDlq) else None)
    case AckDlq =>
      AckMove(db, t, r, o, ReleaseLease)
  }

  /** XACK, then on to `pc`; a failed ack returns at once and leaves the lease behind. */
  function AckMove(db: Redis, t: TaskId, r: Ref, o: Outcome, pc: Pc): Move {
    Move(if o.Lost? then db else XAck(db, r),
         if o.Lost? || r !in db.pending then None else Some(Acked(t, r)),
         None,
         if o.Done? then Some(pc) else None)
  }

  /** process_job; an upstream error still yields a result, so only an unusable configuration or body is Lost. */
  function Process(db: Redis, t: TaskId, r: Ref, callback: bool, pc: Pc, o: Outcome): Move
    requires pc.CallUpstream? || pc.StoreResult? || pc.PublishResult? || pc.PostCallback? || pc.QueueRetry?
  {
    match pc
    case CallUpstream =>
      Move(db, if o.Lost? then None else Some(Upstream(t, r)), None,
           Some(if o.Lost? then ReleaseLease else StoreResult))
    case StoreResult =>
      Move(db, if o.Lost? then None else Some(Stored(t, r)), None,
           Some(if o.Done? then PublishResult else ReleaseLease))
    case PublishResult =>
      Move(db, None, None, Some(if !o.Done? then ReleaseLease else if callback then PostCallback else AckDone))
    case PostCallback =>
      Move(db, if o.Lost? then None else Some(Posted(t, r, o.Done?)), None,
           Some(if o.Done? then AckDone else QueueRetry))
    case QueueRetry =>
      Move(db, if o.Lost? then None else Some(RetryQueued(t, r)), None, Some(if o.Done? then AckDone else ReleaseLease))
  }

  function Finish(db: Redis, t: TaskId, j: JobId, r: Ref, pc: Pc, o: Outcome): Move
    requires pc.AckDone? || pc.ClearAttempts? || pc.ReleaseLease?
  {
    match pc
    case AckDone =>
      AckMove(db, t, r, o, ClearAttempts)
    case ClearAttempts =>
      Move(if o.Lost? then db else DelCounter(db, j),
           if o.Lost? || j !in db.counters then None else Some(Reset(j)),
           None,
           Some(ReleaseLease))
    case ReleaseLease =>
      // the key is deleted whoever set it
      Move(if o.Lost? then db else DelLease(db, j), None, None, None)
  }

  function MoveOf(cfg: Config, db: Redis, t: TaskId, task: Task, o: Outcome): Move {
    var Task(r, job, pc) := task;
    match job.id
    case None =>
      // no job_id field: the delivery fails before any Redis call
      Move(db, None, None, None)
    case Some(j) =>
      if pc.AcquireLease? || pc.CountAttempt? || pc.ExpireAttempt? then Admit(cfg, db, t, j, pc, o)
      else if pc.CopyToDlq? || pc.AckDlq? then DeadLetter(db, t, r, pc, o)
      else if pc.AckDone? || pc.ClearAttempts? || pc.ReleaseLease? then Finish(db, t, j, r, pc, o)
      else Process(db, t, r, job.callback, pc, o)
  }

  // ---------------------------------------------------------------- steps and runs

  function Land(s: State, t: TaskId, m: Move): State
    requires t in s.tasks
  {
    State(m.db,
          if m.next.Some? then s.tasks[t := s.tasks[t].(pc := m.next.value)] else s.tasks - {t},
          s.nextTask,
          if m.draws.Some? then s.issued[t := m.draws.value] else s.issued,
          if m.says.Some? then s.log + [m.says.value] else s.log)
  }

  function Spawn(s: State, r: Ref): State
    requires r in s.db.appended
  {
    s.(tasks := s.tasks[s.nextTask := Task(r, s.db.appended[r], AcquireLease)], nextTask := s.nextTask + 1)
  }

  function Next(cfg: Config, s: State, l: Label): Option<State> {
    var db := s.db;
    match l
    case Append(r, job) =>
      if r in db.appended then None
      else Some(s.(db := db.(appended := db.appended[r := job], unread := db.unread + {r})))
    case Read(r) =>
      if r in db.unread && r in db.appended
      then Some(Spawn(s.(db := db.(unread := db.unread - {r}, pending := db.pending + {r})), r)) else None
    case Claim(r) =>
      if r in db.pending && r in db.appended then Some(Spawn(s, r)) else None
    case Act(t, o) =>
      if t in s.tasks then Some(Land(s, t, MoveOf(cfg, db, t, s.tasks[t], o))) else None
    case Crash(t) =>
      if t in s.tasks then Some(s.(tasks := s.tasks - {t})) else None
    case ExpireLease(j) =>
      if j in db.leases then Some(s.(db := DelLease(db, j))) else None
    case ExpireCounter(j) =>
      if j in db.counters then Some(s.(db := DelCounter(db, j), log := s.log + [Reset(j)])) else None
  }

  /** The state after performing all labels in order, if each is enabled in turn. */
  function Run(cfg: Config, ls: seq<Label>): Option<State> {
    if ls == [] then Some(INIT)
    else
      var s := Run(cfg, ls[..|ls| - 1]);
      if s.None? then None else Next(cfg, s.value, ls[|ls| - 1])
  }

  /** What a step of the environment can do to tasks and history: start or stop a task, remove a counter. */
  ghost predicate EnvironmentStep(s: State, s': State) {
    && s'.issued == s.issued && s.nextTask <= s'.nextTask
    && (s'.log == s.log || (|s'.log| == |s.log| + 1 && s'.log[..|s.log|] == s.log && s'.log[|s.log|].Reset?))
    && (forall t :: t in s'.tasks && t in s.tasks ==> s'.tasks[t] == s.tasks[t])
    && (forall t :: t in s'.tasks && t !in s.tasks ==>
          t == s.nextTask && s'.nextTask == s.nextTask + 1 && s'.tasks[t].pc.AcquireLease?)
  }

  lemma EnvironmentSteps(cfg: Config, s: State, l: Label)
    requires !l.Act? && Next(cfg, s, l).Some?
    requires s.nextTask !in s.tasks
    ensures EnvironmentStep(s, Next(cfg, s, l).value)
  {
  }
}
