/** Ownership of local jobs: the work queue, the job table and the waiters for
    remote results, with the executor and the work-stealing hand-off around them. */
module JobManagement {
  import opened Wrappers
  import opened Identity

  type JobId = string

  datatype JobStatus = Queued | Running | Transferred | Completed | Failed

  datatype LocalJob = LocalJob(id: JobId, command: string, status: JobStatus, startedAt: Option<Time>,
                               finishedAt: Option<Time>, output: Option<string>, creator: SisterId,
                               creatorAddr: Option<string>, authorization: Option<CommandAuthorization>)

  datatype JobResult = JobResult(jobId: JobId, creator: SisterId, executor: SisterId, output: string,
                                 exitCode: int, success: bool, startedAt: Time, finishedAt: Time)

  function NewJob(id: JobId, command: string): LocalJob {
    LocalJob(id, command, Queued, None, None, None, 0, None, None)
  }

  /** Whether `requester` may take the job over. */
  predicate Transferable(job: LocalJob, requester: SisterId, allowUnauthenticated: bool) {
    match job.authorization
    case Some(a) => a.target == Some(Sister(requester))
    case None => allowUnauthenticated
  }

  /** The manager's value: queue, job table and pending waiters (by token). */
  datatype Manager = Manager(queue: seq<LocalJob>, jobs: map<JobId, LocalJob>, pending: map<JobId, nat>)

  const EmptyManager := Manager([], map[], map[])

  function Enqueued(m: Manager, job: LocalJob): Manager {
    m.(queue := m.queue + [job], jobs := m.jobs[job.id := job])
  }

  function InlineStarted(m: Manager, job: LocalJob, now: Time): Manager {
    m.(jobs := m.jobs[job.id := job.(status := Running, startedAt := Some(now))])
  }

  function Without<T>(s: seq<T>, k: nat): seq<T>
    requires k < |s|
  {
    s[..k] + s[k + 1..]
  }

  /** The first transferable position, or the queue's length when there is none. */
  function FirstTransferable(queue: seq<LocalJob>, requester: SisterId, allow: bool): (k: nat)
    ensures k <= |queue|
    ensures k < |queue| ==> Transferable(queue[k], requester, allow)
    ensures forall i | 0 <= i < k :: !Transferable(queue[i], requester, allow)
  {
    if queue == [] then 0
    else if Transferable(queue[0], requester, allow) then 0
    else
      var k := FirstTransferable(queue[1..], requester, allow);
      assert forall i | 1 <= i < k + 1 :: queue[i] == queue[1..][i - 1];
      k + 1
  }

  function WithJob(m: Manager, id: JobId, f: LocalJob -> LocalJob): Manager {
    if id in m.jobs then m.(jobs := m.jobs[id := f(m.jobs[id])]) else m
  }

  function MarkedRunning(m: Manager, id: JobId, now: Time): Manager {
    WithJob(m, id, (j: LocalJob) => j.(status := Running, startedAt := Some(now)))
  }

  function MarkedTransferred(m: Manager, id: JobId): Manager {
    WithJob(m, id, (j: LocalJob) => j.(status := Transferred))
  }

  function MarkedFinished(m: Manager, id: JobId, r: JobResult): Manager {
    WithJob(m, id, (j: LocalJob) =>
      j.(status := if r.success then Completed else Failed, finishedAt := Some(r.finishedAt), output := Some(r.output)))
  }

  /** What the marks write in a known job's row, and that they leave all else. */
  lemma MarksAreRecorded(m: Manager, id: JobId, now: Time, r: JobResult)
    requires id in m.jobs
    ensures var ran, gone, done := MarkedRunning(m, id, now), MarkedTransferred(m, id), MarkedFinished(m, id, r);
            var row := m.jobs[id];
            && ran == m.(jobs := ran.jobs) && gone == m.(jobs := gone.jobs) && done == m.(jobs := done.jobs)
            && (forall other | other != id && other in m.jobs ::
                  ran.jobs[other] == gone.jobs[other] == done.jobs[other] == m.jobs[other])
            && ran.jobs.Keys == gone.jobs.Keys == done.jobs.Keys == m.jobs.Keys
            && ran.jobs[id] == LocalJob(row.id, row.command, Running, Some(now), row.finishedAt, row.output, row.creator,
                                        row.creatorAddr, row.authorization)
            && gone.jobs[id] == LocalJob(row.id, row.command, Transferred, row.startedAt, row.finishedAt, row.output,
                                         row.creator, row.creatorAddr, row.authorization)
            && done.jobs[id] == LocalJob(row.id, row.command, if r.success then Completed else Failed, row.startedAt,
                                         Some(r.finishedAt), Some(r.output), row.creator, row.creatorAddr, row.authorization)
  {
  }

  /** An inline job enters the table running and not the queue. */
  lemma InlineIsRecorded(m: Manager, job: LocalJob, now: Time)
    ensures InlineStarted(m, job, now) ==
            Manager(m.queue,
                    m.jobs[job.id := LocalJob(job.id, job.command, Running, Some(now), job.finishedAt, job.output,
                                              job.creator, job.creatorAddr, job.authorization)],
                    m.pending)
  {
  }

  ghost predicate Busy(m: Manager) {
    m.queue != [] || exists id | id in m.jobs :: m.jobs[id].status in {Queued, Running}
  }

  // ----- The manager object -----

  class JobManager {
    var queue: seq<LocalJob>
    var jobs: map<JobId, LocalJob>
    var pending: map<JobId, nat>

    constructor ()
      ensures View() == EmptyManager
    {
      queue, jobs, pending := [], map[], map[];
    }

    function View(): Manager
      reads this
    {
      Manager(queue, jobs, pending)
    }

    method Enqueue(job: LocalJob)
      modifies this
      ensures View() == Enqueued(old(View()), job)
    {
      jobs := jobs[job.id := job];
      queue := queue + [job];
    }

    method StartInline(job: LocalJob, now: Time)
      modifies this
      ensures View() == InlineStarted(old(View()), job, now)
    {
      var started := job.(status := Running);
      started := started.(startedAt := Some(now));
      jobs := jobs[started.id := started];
    }

    method Pop() returns (r: Option<LocalJob>)
      modifies this
      ensures old(queue) == [] ==> r == None && View() == old(View())
      ensures old(queue) != [] ==> r == Some(old(queue)[0]) && View() == old(View()).(queue := old(queue)[1..])
    {
      if queue == [] {
        return None;
      }
      r := Some(queue[0]);
      queue := queue[1..];
    }

    /** Takes the first job the requester may have; all others keep their order. */
    method PopTransferable(requester: SisterId, allow: bool) returns (r: Option<LocalJob>)
      modifies this
      ensures r == None ==> View() == old(View()) && forall j | j in queue :: !Transferable(j, requester, allow)
      ensures r != None ==>
                var k := FirstTransferable(old(queue), requester, allow);
                k < |old(queue)| && r == Some(old(queue)[k]) && View() == old(View()).(queue := Without(old(queue), k))
    {
      var k := 0;
      while k < |queue|
        invariant 0 <= k <= |queue|
        invariant forall i | 0 <= i < k :: !Transferable(queue[i], requester, allow)
      {
        if Transferable(queue[k], requester, allow) {
          r := Some(queue[k]);
          assert k == FirstTransferable(queue, requester, allow);
          queue := queue[..k] + queue[k + 1..];
          return;
        }
        k := k + 1;
      }
      r := None;
    }

    method PushBack(job: LocalJob)
      modifies this`queue
      ensures View() == old(View()).(queue := old(queue) + [job])
    {
      queue := queue + [job];
    }

    method IsBusy() returns (busy: bool)
      ensures busy <==> Busy(View())
    {
      busy := queue != [] || exists id | id in jobs :: jobs[id].status in {Queued, Running};
    }

    method MarkRunning(id: JobId, now: Time)
      modifies this`jobs
      ensures View() == MarkedRunning(old(View()), id, now)
    {
      if id in jobs {
        jobs := jobs[id := jobs[id].(status := Running, startedAt := Some(now))];
      }
    }

    method MarkTransferred(id: JobId)
      modifies this`jobs
      ensures View() == MarkedTransferred(old(View()), id)
    {
      if id in jobs {
        jobs := jobs[id := jobs[id].(status := Transferred)];
      }
    }

    method MarkFinished(id: JobId, result: JobResult)
      modifies this`jobs
      ensures View() == MarkedFinished(old(View()), id, result)
    {
      if id in jobs {
        var job := jobs[id];
        job := job.(status := if result.success then Completed else Failed);
        job := job.(finishedAt := Some(result.finishedAt));
        job := job.(output := Some(result.output));
        jobs := jobs[id := job];
      }
    }

    method ReservePending(id: JobId, waiter: nat)
      modifies this`pending
      ensures View() == old(View()).(pending := old(pending)[id := waiter])
    {
      pending := pending[id := waiter];
    }

    method ResolvePending(id: JobId) returns (r: Option<nat>)
      modifies this`pending
      ensures r == if id in old(pending) then Some(old(pending)[id]) else None
      ensures View() == old(View()).(pending := old(pending) - {id})
    {
      r := if id in pending then Some(pending[id]) else None;
      pending := pending - {id};
    }
  }

  // ----- Conservation -----

  /** The manager together with the jobs that tasks hold in hand: jobs offered
      to a stealing peer, the job the executor popped, and the running jobs. */
  datatype Shop = Shop(manager: Manager, offered: seq<LocalJob>, popped: Option<LocalJob>, running: seq<JobId>)

  datatype Event =
    | Enqueue(job: LocalJob)
    | StartInline(job: LocalJob, now: Time)
    | ExecutorPops
    | ExecutorStarts(now: Time)
    | Finish(k: nat, result: JobResult)
    | StealTakes(requester: SisterId, allow: bool)
    | StealSent(k: nat)
    | StealReturns(k: nat)

  /** New jobs come with an id the table does not know. */
  predicate Enabled(s: Shop, e: Event) {
    match e
    case Enqueue(job) => job.id !in s.manager.jobs && job.status == Queued
    case StartInline(job, _) => job.id !in s.manager.jobs
    case ExecutorPops => s.popped == None
    case ExecutorStarts(_) => s.popped != None
    case Finish(k, _) => k < |s.running|
    case StealTakes(_, _) => true
    case StealSent(k) => k < |s.offered|
    case StealReturns(k) => k < |s.offered|
  }

  function Next(s: Shop, e: Event): Shop
    requires Enabled(s, e)
  {
    var m := s.manager;
    match e
    case Enqueue(job) => s.(manager := Enqueued(m, job))
    case StartInline(job, now) => s.(manager := InlineStarted(m, job, now), running := s.running + [job.id])
    case ExecutorPops =>
      if m.queue == [] then s else s.(manager := m.(queue := m.queue[1..]), popped := Some(m.queue[0]))
    case ExecutorStarts(now) =>
      s.(manager := MarkedRunning(m, s.popped.value.id, now), popped := None, running := s.running + [s.popped.value.id])
    case Finish(k, result) =>
      s.(manager := MarkedFinished(m, s.running[k], result), running := s.running[..k] + s.running[k + 1..])
    case StealTakes(requester, allow) =>
      var k := FirstTransferable(m.queue, requester, allow);
      if k == |m.queue| then s
      else s.(manager := m.(queue := Without(m.queue, k)), offered := s.offered + [m.queue[k]])
    case StealSent(k) =>
      s.(manager := MarkedTransferred(m, s.offered[k].id), offered := Without(s.offered, k))
    case StealReturns(k) =>
      s.(manager := m.(queue := m.queue + [s.offered[k]]), offered := Without(s.offered, k))
  }

  function Times<T(==)>(s: seq<T>, x: T): nat {
    multiset(s)[x]
  }

  function Ids(jobs: seq<LocalJob>): (r: seq<JobId>)
    ensures |r| == |jobs| && forall i | 0 <= i < |r| :: r[i] == jobs[i].id
  {
    seq(|jobs|, i requires 0 <= i < |jobs| => jobs[i].id)
  }

  /** How often the job waits: in the queue, offered to a peer, or popped by the executor. */
  function Waiting(s: Shop, id: JobId): nat {
    Times(Ids(s.manager.queue), id) + Times(Ids(s.offered), id)
    + (if s.popped.Some? && s.popped.value.id == id then 1 else 0)
  }

  function StatusOf(s: Shop, id: JobId): Option<JobStatus> {
    if id in s.manager.jobs then Some(s.manager.jobs[id].status) else None
  }

  ghost predicate SameJob(a: LocalJob, b: LocalJob) {
    && a.id == b.id && a.command == b.command && a.creator == b.creator
    && a.creatorAddr == b.creatorAddr && a.authorization == b.authorization
  }

  ghost predicate OnTable(m: Manager, job: LocalJob) {
    job.id in m.jobs && SameJob(job, m.jobs[job.id])
  }

  /** A job is in one place, once, and the table's status says which: waiting
      jobs are Queued, running jobs are Running, all others left or ended. */
  ghost predicate Balanced(s: Shop, id: JobId) {
    && Waiting(s, id) == (if StatusOf(s, id) == Some(Queued) then 1 else 0)
    && Times(s.running, id) == (if StatusOf(s, id) == Some(Running) then 1 else 0)
  }

  /** The copy of a job that waits is the job the table knows. */
  ghost predicate Faithful(s: Shop) {
    && (forall j | j in s.manager.queue :: OnTable(s.manager, j))
    && (forall j | j in s.offered :: OnTable(s.manager, j))
    && (s.popped.Some? ==> OnTable(s.manager, s.popped.value))
    && (forall id | id in s.manager.jobs :: s.manager.jobs[id].id == id)
  }

  ghost predicate Conserved(s: Shop) {
    Faithful(s) && forall id :: Balanced(s, id)
  }

  lemma TimesAppend<T>(s: seq<T>, y: T, x: T)
    ensures Times(s + [y], x) == Times(s, x) + if x == y then 1 else 0
  {
  }

  lemma TimesDrop<T>(s: seq<T>, k: nat, x: T)
    requires k < |s|
    ensures Times(s, x) == Times(s[..k] + s[k + 1..], x) + if x == s[k] then 1 else 0
  {
    assert s == s[..k] + [s[k]] + s[k + 1..];
  }

  lemma IdsAppend(jobs: seq<LocalJob>, job: LocalJob, id: JobId)
    ensures Times(Ids(jobs + [job]), id) == Times(Ids(jobs), id) + if id == job.id then 1 else 0
  {
    assert Ids(jobs + [job]) == Ids(jobs) + [job.id];
    TimesAppend(Ids(jobs), job.id, id);
  }

  lemma IdsWithout(jobs: seq<LocalJob>, k: nat, id: JobId)
    requires k < |jobs|
    ensures Times(Ids(jobs), id) == Times(Ids(Without(jobs, k)), id) + if id == jobs[k].id then 1 else 0
  {
    var ids := Ids(jobs);
    TimesDrop(ids, k, id);
    assert Ids(Without(jobs, k)) == ids[..k] + ids[k + 1..];
  }

  function JobOf(s: Shop, e: Event): JobId
    requires Enabled(s, e)
  {
    match e
    case Enqueue(job) => job.id
    case StartInline(job, _) => job.id
    case ExecutorStarts(_) => s.popped.value.id
    case Finish(k, _) => s.running[k]
    case StealSent(k) => s.offered[k].id
    case _ => ""
  }

  lemma WaitingAfter(s: Shop, e: Event, id: JobId)
    requires Enabled(s, e)
    ensures e.Enqueue? ==> Waiting(Next(s, e), id) == Waiting(s, id) + if id == JobOf(s, e) then 1 else 0
    ensures e.ExecutorStarts? || e.StealSent? ==>
              Waiting(Next(s, e), id) == Waiting(s, id) - if id == JobOf(s, e) then 1 else 0
    ensures !e.Enqueue? && !e.ExecutorStarts? && !e.StealSent? ==> Waiting(Next(s, e), id) == Waiting(s, id)
  {
    hide Times, Ids;
    var queue := s.manager.queue;
    match e
    case Enqueue(job) => IdsAppend(queue, job, id);
    case ExecutorPops =>
      if queue != [] {
        IdsWithout(queue, 0, id);
        assert Without(queue, 0) == queue[1..];
      }
    case StealTakes(requester, allow) =>
      var k := FirstTransferable(queue, requester, allow);
      if k < |queue| {
        IdsWithout(queue, k, id);
        IdsAppend(s.offered, queue[k], id);
      }
    case StealSent(k) => IdsWithout(s.offered, k, id);
    case StealReturns(k) =>
      IdsWithout(s.offered, k, id);
      IdsAppend(queue, s.offered[k], id);
    case _ =>
  }

  lemma RunningAfter(s: Shop, e: Event, id: JobId)
    requires Enabled(s, e)
    ensures Times(Next(s, e).running, id) == Times(s.running, id)
            + (if id != JobOf(s, e) then 0 else if e.StartInline? || e.ExecutorStarts? then 1 else if e.Finish? then -1 else 0)
  {
    if e.Finish? {
      TimesDrop(s.running, e.k, id);
    } else if e.StartInline? || e.ExecutorStarts? {
      TimesAppend(s.running, JobOf(s, e), id);
    }
  }

  lemma StatusAfter(s: Shop, e: Event, id: JobId)
    requires Enabled(s, e)
    ensures StatusOf(Next(s, e), id) ==
            if id != JobOf(s, e) then StatusOf(s, id)
            else if e.Enqueue? then Some(Queued)
            else if e.StartInline? then Some(Running)
            else if id !in s.manager.jobs then None
            else if e.ExecutorStarts? then Some(Running)
            else if e.Finish? then Some(if e.result.success then Completed else Failed)
            else if e.StealSent? then Some(Transferred)
            else StatusOf(s, id)
  {
  }

  lemma BalancedAfter(s: Shop, e: Event, id: JobId)
    requires Enabled(s, e) && Balanced(s, id)
    ensures Balanced(Next(s, e), id)
  {
    WaitingAfter(s, e, id);
    RunningAfter(s, e, id);
    StatusAfter(s, e, id);
  }

  lemma FaithfulAfter(s: Shop, e: Event)
    requires Enabled(s, e) && Conserved(s)
    ensures Faithful(Next(s, e))
  {
    var s' := Next(s, e);
    forall j | OnTable(s.manager, j) && (e.Enqueue? ==> j.id != e.job.id) ensures OnTable(s'.manager, j) {
      StatusAfter(s, e, j.id);
    }
  }

  /** Every event keeps the books straight. */
  lemma NextConserves(s: Shop, e: Event)
    requires Enabled(s, e) && Conserved(s)
    ensures Conserved(Next(s, e))
  {
    FaithfulAfter(s, e);
    forall id ensures Balanced(Next(s, e), id) {
      BalancedAfter(s, e, id);
    }
  }

  function Run(s: Shop, events: seq<Event>): Option<Shop>
    decreases |events|
  {
    if events == [] then Some(s)
    else match Run(s, events[..|events| - 1])
      case None => None
      case Some(t) =>
        if Enabled(t, events[|events| - 1]) then Some(Next(t, events[|events| - 1])) else None
  }

  const OPEN_SHOP := Shop(EmptyManager, [], None, [])

  lemma {:induction false} RunConserves(events: seq<Event>)
    requires Run(OPEN_SHOP, events).Some?
    ensures Conserved(Run(OPEN_SHOP, events).value)
  {
    if events != [] {
      RunConserves(events[..|events| - 1]);
      NextConserves(Run(OPEN_SHOP, events[..|events| - 1]).value, events[|events| - 1]);
    }
  }

  /** Over every run with fresh ids: an id on the table waits once, or runs
      once, or was transferred, or has ended, and never two of these; an id off
      the table is nowhere. */
  lemma {:induction false} EveryJobInOnePlace(events: seq<Event>, id: JobId)
    requires Run(OPEN_SHOP, events).Some?
    ensures var s := Run(OPEN_SHOP, events).value;
            var status := StatusOf(s, id);
            Waiting(s, id) + Times(s.running, id)
            + (if status == Some(Transferred) then 1 else 0)
            + (if status == Some(Completed) || status == Some(Failed) then 1 else 0)
            == if status.Some? then 1 else 0
  {
    RunConserves(events);
    var s := Run(OPEN_SHOP, events).value;
    assert Balanced(s, id);
    if id in s.manager.jobs {
      StatusCases(s.manager.jobs[id].status);
    }
  }

  lemma StatusCases(status: JobStatus)
    ensures status in {Queued, Running} <==> status !in {Transferred, Completed, Failed}
    ensures status == Queued || status == Running || status == Transferred || status == Completed || status == Failed
  {
  }

  /** A job once enqueued or started stays on the table, with its command,
      creator and authorization; and once transferred or ended it stays so. */
  lemma {:induction false} TableKeepsJobs(s: Shop, events: seq<Event>, id: JobId)
    requires Conserved(s) && Run(s, events).Some? && id in s.manager.jobs
    ensures var t := Run(s, events).value;
            && id in t.manager.jobs && SameJob(s.manager.jobs[id], t.manager.jobs[id])
            && (s.manager.jobs[id].status in {Transferred, Completed, Failed} ==>
                  t.manager.jobs[id].status == s.manager.jobs[id].status)
            && Conserved(t)
    decreases |events|
  {
    if events != [] {
      var before, e := events[..|events| - 1], events[|events| - 1];
      TableKeepsJobs(s, before, id);
      var t := Run(s, before).value;
      NextConserves(t, e);
      StatusAfter(t, e, id);
      StepTouchesLiveJob(t, e);
      FaithfulRow(t, e, id);
    }
  }

  lemma StepTouchesLiveJob(s: Shop, e: Event)
    requires Conserved(s) && Enabled(s, e)
    ensures e.ExecutorStarts? || e.StealSent? ==> StatusOf(s, JobOf(s, e)) == Some(Queued)
    ensures e.Finish? ==> StatusOf(s, JobOf(s, e)) == Some(Running)
  {
    if e.ExecutorStarts? || e.StealSent? || e.Finish? {
      var id := JobOf(s, e);
      assert Balanced(s, id);
      if e.StealSent? {
        assert Ids(s.offered)[e.k] in multiset(Ids(s.offered));
      } else if e.Finish? {
        assert s.running[e.k] in multiset(s.running);
      }
    }
  }

  lemma FaithfulRow(s: Shop, e: Event, id: JobId)
    requires Enabled(s, e) && id in s.manager.jobs
    ensures id in Next(s, e).manager.jobs && SameJob(s.manager.jobs[id], Next(s, e).manager.jobs[id])
  {
  }

  /** The manager reports idle exactly when every known job was handed over or has ended. */
  lemma IdleMeansAllDone(s: Shop)
    requires Conserved(s)
    ensures !Busy(s.manager) <==>
            forall id | id in s.manager.jobs :: s.manager.jobs[id].status in {Transferred, Completed, Failed}
  {
    forall id | id in s.manager.jobs
      ensures s.manager.jobs[id].status in {Queued, Running} <==> s.manager.jobs[id].status !in {Transferred, Completed, Failed}
    {
      StatusCases(s.manager.jobs[id].status);
    }
    if s.manager.queue != [] {
      var j := s.manager.queue[0];
      assert Balanced(s, j.id);
      assert Ids(s.manager.queue)[0] in multiset(Ids(s.manager.queue));
      assert StatusOf(s, j.id) == Some(Queued);
    }
  }

  /** A steal that finds nothing changes nothing; one that is called off puts
      the same job back, and the table never noticed. */
  lemma FailedStealLosesNothing(s: Shop, requester: SisterId, allow: bool)
    ensures var taken := Next(s, StealTakes(requester, allow));
            if forall j | j in s.manager.queue :: !Transferable(j, requester, allow) then taken == s
            else |taken.offered| == |s.offered| + 1 && Transferable(taken.offered[|s.offered|], requester, allow)
                 && var back := Next(taken, StealReturns(|s.offered|));
                    && back.offered == s.offered && back.manager.jobs == s.manager.jobs
                    && multiset(back.manager.queue) == multiset(s.manager.queue)
  {
    var queue := s.manager.queue;
    var k := FirstTransferable(queue, requester, allow);
    if k < |queue| {
      assert queue[k] in queue;
      var taken := s.(manager := s.manager.(queue := Without(queue, k)), offered := s.offered + [queue[k]]);
      assert taken == Next(s, StealTakes(requester, allow));
      assert Without(taken.offered, |s.offered|) == s.offered;
      TakeAndPutBack(queue, k);
    }
  }

  lemma TakeAndPutBack(queue: seq<LocalJob>, k: nat)
    requires k < |queue|
    ensures multiset(Without(queue, k) + [queue[k]]) == multiset(queue)
  {
    assert queue == queue[..k] + [queue[k]] + queue[k + 1..];
  }

  // ----- Waiters -----

  /** Waiters for remote results: the pending table, the waiters resolved so
      far, and the number of tokens handed out. */
  datatype Desk = Desk(pending: map<JobId, nat>, resolved: seq<nat>, tokens: nat)

  datatype DeskEvent = Reserve(id: JobId) | Resolve(id: JobId) | Cancel(id: JobId)

  function DeskNext(d: Desk, e: DeskEvent): Desk {
    match e
    case Reserve(id) => d.(pending := d.pending[id := d.tokens], tokens := d.tokens + 1)
    case Resolve(id) =>
      if id in d.pending then d.(pending := d.pending - {id}, resolved := d.resolved + [d.pending[id]]) else d
    case Cancel(id) => d.(pending := d.pending - {id})
  }

  function DeskRun(events: seq<DeskEvent>): Desk {
    if events == [] then Desk(map[], [], 0) else DeskNext(DeskRun(events[..|events| - 1]), events[|events| - 1])
  }

  ghost predicate DeskSound(d: Desk) {
    && (forall id | id in d.pending :: d.pending[id] < d.tokens && d.pending[id] !in d.resolved)
    && (forall id, id' | id in d.pending && id' in d.pending && id != id' :: d.pending[id] != d.pending[id'])
    && (forall i | 0 <= i < |d.resolved| :: d.resolved[i] < d.tokens)
    && (forall i, j | 0 <= i < j < |d.resolved| :: d.resolved[i] != d.resolved[j])
  }

  /** Whatever results arrive, duplicate or late, no waiter is resolved twice,
      and none is resolved while still pending. */
  lemma {:induction false} WaitersResolveOnce(events: seq<DeskEvent>)
    ensures DeskSound(DeskRun(events))
  {
    if events != [] {
      WaitersResolveOnce(events[..|events| - 1]);
    }
  }

  function Reserves(events: seq<DeskEvent>): nat {
    if events == [] then 0
    else Reserves(events[..|events| - 1]) + if events[|events| - 1].Reserve? then 1 else 0
  }

  /** Reservation `k` is the last thing that happened to its job before event `m`. */
  ghost predicate Stands(events: seq<DeskEvent>, k: nat, m: nat)
    requires m <= |events|
  {
    k < m && events[k].Reserve? && forall j | k < j < m :: events[j].id != events[k].id
  }

  /** The waiter of reservation `k` gets its result: the next thing that happens
      to the job is a result, not a cancellation or another reservation. */
  ghost predicate Answered(events: seq<DeskEvent>, k: nat) {
    exists m | 0 <= m < |events| :: Stands(events, k, m) && events[m] == Resolve(events[k].id)
  }

  ghost predicate PendingRight(events: seq<DeskEvent>) {
    var d := DeskRun(events);
    && d.tokens == Reserves(events)
    && (forall id | id in d.pending :: exists k | 0 <= k < |events| ::
          Stands(events, k, |events|) && events[k].id == id && d.pending[id] == Reserves(events[..k]))
    && (forall k | 0 <= k < |events| && Stands(events, k, |events|) :: events[k].id in d.pending)
  }

  lemma StandsLater(events: seq<DeskEvent>, e: DeskEvent, k: nat)
    requires k < |events|
    ensures (events + [e])[k] == events[k] && (events + [e])[..k] == events[..k]
    ensures Stands(events + [e], k, |events| + 1) <==> Stands(events, k, |events|) && events[k].id != e.id
    ensures forall m | 0 <= m <= |events| :: Stands(events + [e], k, m) <==> Stands(events, k, m)
  {
    var more := events + [e];
    assert more[|events|] == e && forall j | 0 <= j < |events| :: more[j] == events[j];
  }

  /** The desk holds, for each job, the waiter of the reservation that stands,
      numbered by the reservations before it. */
  lemma {:induction false} PendingExactly(events: seq<DeskEvent>)
    ensures PendingRight(events)
  {
    if events != [] {
      var before, e := events[..|events| - 1], events[|events| - 1];
      PendingExactly(before);
      assert events == before + [e];
      var d, t := DeskRun(before), DeskRun(events);
      forall k | 0 <= k < |before|
        ensures events[k] == before[k] && events[..k] == before[..k]
        ensures Stands(events, k, |events|) <==> Stands(before, k, |before|) && before[k].id != e.id
      {
        StandsLater(before, e, k);
      }
      forall id | id in t.pending
        ensures exists k | 0 <= k < |events| ::
                  Stands(events, k, |events|) && events[k].id == id && t.pending[id] == Reserves(events[..k])
      {
        if e.Reserve? && e.id == id {
          assert events[..|before|] == before;
          assert Stands(events, |before|, |events|);
        } else {
          assert id in d.pending;
          var k :| 0 <= k < |before| && Stands(before, k, |before|) && before[k].id == id && d.pending[id] == Reserves(before[..k]);
          assert Stands(events, k, |events|);
        }
      }
    }
  }

  lemma AnsweredStep(events: seq<DeskEvent>, e: DeskEvent, k: nat)
    requires k < |events|
    ensures Answered(events + [e], k) <==>
            Answered(events, k) || (Stands(events, k, |events|) && e == Resolve(events[k].id))
  {
    var more := events + [e];
    StandsLater(events, e, k);
    if m :| 0 <= m < |more| && Stands(more, k, m) && more[m] == Resolve(more[k].id) {
      assert m < |events| ==> more[m] == events[m];
    }
    if m :| 0 <= m < |events| && Stands(events, k, m) && events[m] == Resolve(events[k].id) {
      assert more[m] == events[m] && Stands(more, k, m);
    }
    if Stands(events, k, |events|) && e == Resolve(events[k].id) {
      assert more[|events|] == e && Stands(more, k, |events|);
    }
  }

  /** The waiter that a result resolves is the one of the reservation that stands. */
  lemma StandingWaiter(events: seq<DeskEvent>, k: nat, id: JobId)
    requires PendingRight(events) && k < |events| && Stands(events, k, |events|) && events[k].id == id
    ensures id in DeskRun(events).pending && DeskRun(events).pending[id] == Reserves(events[..k])
  {
    var j :| 0 <= j < |events| && Stands(events, j, |events|) && events[j].id == id
             && DeskRun(events).pending[id] == Reserves(events[..j]);
    assert j == k;
  }

  /** Some answered reservation has this number. */
  ghost predicate AnsweredAs(events: seq<DeskEvent>, w: nat) {
    exists k | 0 <= k < |events| :: Answered(events, k) && w == Reserves(events[..k])
  }

  lemma AnsweredAsStep(events: seq<DeskEvent>, e: DeskEvent, w: nat)
    requires PendingRight(events)
    ensures AnsweredAs(events + [e], w) <==>
            || AnsweredAs(events, w)
            || (e.Resolve? && e.id in DeskRun(events).pending && w == DeskRun(events).pending[e.id])
  {
    hide DeskRun;
    var more := events + [e];
    if k :| 0 <= k < |more| && Answered(more, k) && w == Reserves(more[..k]) {
      assert k < |events|;
      AnsweredStep(events, e, k);
      StandsLater(events, e, k);
      if !Answered(events, k) {
        StandingWaiter(events, k, e.id);
      }
    }
    if k :| 0 <= k < |events| && Answered(events, k) && w == Reserves(events[..k]) {
      AnsweredStep(events, e, k);
      StandsLater(events, e, k);
    }
    if e.Resolve? && e.id in DeskRun(events).pending && w == DeskRun(events).pending[e.id] {
      var k :| 0 <= k < |events| && Stands(events, k, |events|) && events[k].id == e.id && w == Reserves(events[..k]);
      AnsweredStep(events, e, k);
      StandsLater(events, e, k);
    }
  }

  /** Exactly the waiters whose reservation stood when its result came are
      resolved, each by its own number. */
  lemma {:induction false} ResolvedExactly(events: seq<DeskEvent>)
    ensures forall w: nat :: w in DeskRun(events).resolved <==> AnsweredAs(events, w)
  {
    if events != [] {
      var before, e := events[..|events| - 1], events[|events| - 1];
      ResolvedExactly(before);
      PendingExactly(before);
      assert events == before + [e];
      hide AnsweredAs;
      forall w: nat
        ensures w in DeskRun(events).resolved <==> AnsweredAs(events, w)
      {
        AnsweredAsStep(before, e, w);
      }
    }
  }
}
