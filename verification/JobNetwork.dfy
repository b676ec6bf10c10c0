/** The authorized job protocol: Sisters that receive, forward, steal, run and
    answer jobs over a network that may lose, reorder, duplicate and replay.

    Each Sister's handler is cut into the steps between which other tasks, other
    messages or a crash can come: the signature check, the durable nonce record,
    the enqueue, the steal and its hand-off. */
module JobNetwork {
  import opened Wrappers
  import opened Identity
  import opened JobManagement
  import NonceStore

  datatype JobData = JobData(id: JobId, creator: SisterId, executor: SisterId, creatorAddr: string,
                             command: string, arguments: seq<string>, createdAt: Time,
                             authorization: Option<CommandAuthorization>)

  function Join(words: seq<string>): string {
    if words == [] then "" else if |words| == 1 then words[0] else words[0] + " " + Join(words[1..])
  }

  function FullCommand(job: JobData): string {
    if job.arguments == [] then job.command else job.command + " " + Join(job.arguments)
  }

  datatype Payload = JobMsg(job: JobData) | JobRequestMsg | JobResultMsg(result: JobResult)

  datatype Envelope = Envelope(networkId: NetworkId, from: SisterId, to: SisterId, payload: Payload)

  datatype Config = Config(id: SisterId, networkId: NetworkId, authority: Option<NetworkAuthority>,
                           allowUnauthenticated: bool, listenAddr: string)

  // ----- The handler's decisions -----

  /** An authenticated stream pins the claimed sender; the legacy plane has no peer to pin to. */
  predicate SenderMatches(peer: Option<SisterId>, claimed: SisterId) {
    peer.Some? ==> peer.value == claimed
  }

  predicate Admitted(c: Config, env: Envelope, peer: Option<SisterId>) {
    env.networkId == c.networkId && SenderMatches(peer, env.from)
  }

  predicate WillForward(c: Config, peers: set<SisterId>, job: JobData) {
    job.executor != 0 && job.executor != c.id && job.executor in peers
  }

  predicate ConstraintsHold(a: CommandAuthorization, command: string) {
    forall i | 0 <= i < |a.constraints| :: a.constraints[i] == "command=" + command
  }

  predicate AuthorizationHolds(c: Config, a: CommandAuthorization, job: JobData, target: SisterId, now: Time, revoked: bool) {
    && c.authority.Some?
    && a.permission == JobSubmit
    && a.networkId == c.networkId
    && a.Verify(c.authority.value, now)
    && a.target == Some(Sister(target))
    && ConstraintsHold(a, FullCommand(job))
    && !revoked
  }

  datatype Verdict = Reject | Forward | NeedsNonce | RunsUnauthenticated

  /** What the Job branch decides before it touches the nonce store. */
  function Judge(c: Config, peers: set<SisterId>, env: Envelope, peer: Option<SisterId>, now: Time, revoked: bool): Verdict
    requires env.payload.JobMsg?
  {
    var job := env.payload.job;
    var forward := WillForward(c, peers, job);
    if !Admitted(c, env, peer) then Reject
    else match job.authorization
      case None =>
        if !c.allowUnauthenticated then Reject else if forward then Forward else RunsUnauthenticated
      case Some(a) =>
        if !AuthorizationHolds(c, a, job, if forward then job.executor else c.id, now, revoked) then Reject
        else if forward then Forward else NeedsNonce
  }

  /** Field by field, what makes an authorization good for a job on a target: two
      signatures, live windows, an Owner or an Operator, this very Sister and only
      the job's own command line. */
  ghost predicate Permits(c: Config, job: JobData, a: CommandAuthorization, target: SisterId, now: Time) {
    && Signed(c, job, a)
    && a.target.Some? && a.target.value == Sister(target)
    && a.issuedAt <= now <= a.expiresAt && a.grant.issuedAt <= now && (a.grant.until.None? || now <= a.grant.until.value)
  }

  ghost predicate Signed(c: Config, job: JobData, a: CommandAuthorization) {
    && c.authority.Some? && SealedCommand(a, c.authority.value)
    && a.networkId == c.networkId && a.permission == JobSubmit && (a.role == Owner || a.role == Operator)
    && forall i | 0 <= i < |a.constraints| :: a.constraints[i] == "command=" + FullCommand(job)
  }

  /** The Job branch by cases, over an admitted envelope: forwarded exactly for a
      known remote executor the authorization names, taken exactly when it names
      this Sister and there is nobody to forward to. Everything else is refused. */
  lemma JudgeExactly(c: Config, peers: set<SisterId>, env: Envelope, peer: Option<SisterId>, now: Time, revoked: bool)
    requires env.payload.JobMsg?
    ensures var job, v := env.payload.job, Judge(c, peers, env, peer, now, revoked);
            var admitted := env.networkId == c.networkId && (peer.None? || peer.value == env.from);
            var remote := job.executor != 0 && job.executor != c.id && job.executor in peers;
            && (v == Forward <==> && admitted && remote
                                  && (if job.authorization.Some?
                                      then Permits(c, job, job.authorization.value, job.executor, now) && !revoked
                                      else c.allowUnauthenticated))
            && (v == NeedsNonce <==> && admitted && !remote && job.authorization.Some?
                                     && Permits(c, job, job.authorization.value, c.id, now) && !revoked)
            && (v == RunsUnauthenticated <==> admitted && !remote && job.authorization.None? && c.allowUnauthenticated)
  {
    if env.payload.job.authorization.Some? && c.authority.Some? {
      var a := env.payload.job.authorization.value;
      CommandVerifiesExactly(a, a, c.authority.value, now);
    }
    hide SealedCommand, FullCommand;
  }

  /** A command line is the command and then each argument after a space. */
  lemma {:induction false} FullCommandAppends(job: JobData, word: string)
    ensures job.arguments == [] ==> FullCommand(job) == job.command
    ensures FullCommand(job.(arguments := job.arguments + [word])) == FullCommand(job) + " " + word
  {
    if job.arguments == [] {
      assert job.arguments + [word] == [word];
    } else {
      JoinAppends(job.arguments, word);
      assert job.command + " " + (Join(job.arguments) + " " + word) == job.command + " " + Join(job.arguments) + " " + word;
    }
  }

  lemma {:induction false} JoinAppends(words: seq<string>, word: string)
    requires words != []
    ensures Join(words + [word]) == Join(words) + " " + word
  {
    if |words| > 1 {
      JoinAppends(words[1..], word);
      assert (words + [word])[1..] == words[1..] + [word];
    } else {
      assert (words + [word])[1..] == [word];
    }
  }

  function ForwardEnvelope(c: Config, env: Envelope): Envelope
    requires env.payload.JobMsg?
  {
    Envelope(c.networkId, c.id, env.payload.job.executor, env.payload)
  }

  function LocalJobOf(job: JobData): LocalJob {
    NewJob(job.id, FullCommand(job)).(creator := job.creator, creatorAddr := Some(job.creatorAddr),
                                      authorization := job.authorization)
  }

  function StolenJobData(c: Config, job: LocalJob, requester: SisterId, now: Time): JobData {
    JobData(job.id, job.creator, requester,
            if job.creatorAddr.Some? then job.creatorAddr.value else c.listenAddr,
            job.command, [], now, job.authorization)
  }

  // ----- One Sister -----

  /** A nonce let through: which authorization, at which reading of the clock. */
  datatype Grant = Grant(authorization: CommandAuthorization, reading: Time)

  datatype Offer = Offer(job: LocalJob, requester: SisterId, known: bool)

  /** A Sister. `verified` jobs wait for the nonce lock, `cleared` jobs are past
      it and not yet enqueued. The nonce file and the clock outlive a crash;
      `grants`, `log` (handler enqueues) and `runs` (commands started) are history. */
  datatype SisterState = SisterState(
    config: Config, manager: Manager, nonces: NonceStore.File, peers: set<SisterId>, clock: Time,
    verified: seq<JobData>, cleared: seq<JobData>, offered: seq<Offer>, executing: Option<LocalJob>,
    grants: seq<Grant>, log: seq<JobData>, runs: seq<LocalJob>, results: seq<JobResult>)

  datatype Event =
    | ReceiveJob(env: Envelope, peer: Option<SisterId>, now: Time, revoked: bool, reaches: bool)
    | RecordNonce(k: nat, now: Time, io: NonceStore.Io)
    | RecordForStream(authorization: CommandAuthorization, now: Time, io: NonceStore.Io)   // same file, same lock
    | EnqueueCleared(k: nat)
    | ReceiveRequest(env: Envelope, peer: Option<SisterId>)
    | SettleOffer(k: nat, ok: bool, reaches: bool, now: Time)
    | ReceiveResult(env: Envelope, peer: Option<SisterId>)
    | ExecutorPops
    | ExecutorFinishes(result: JobResult, reaches: bool)
    | SubmitRemote(job: JobData, waiter: nat, reaches: bool)
    | SubmitLocal(id: JobId, command: string)
    | PeersChange(peers: set<SisterId>)
    | Crash

  predicate Enabled(s: SisterState, e: Event) {
    match e
    case ReceiveJob(env, _, _, _, _) => env.payload.JobMsg?
    case RecordNonce(k, now, _) => k < |s.verified| && s.verified[k].authorization.Some? && s.clock <= now
    case RecordForStream(_, now, _) => s.clock <= now
    case EnqueueCleared(k) => k < |s.cleared|
    case ReceiveRequest(env, _) => env.payload.JobRequestMsg?
    case SettleOffer(k, _, _, _) => k < |s.offered|
    case ReceiveResult(env, _) => env.payload.JobResultMsg?
    case ExecutorPops => s.executing.None?
    case ExecutorFinishes(result, _) =>
      && s.executing.Some?
      && result.jobId == s.executing.value.id && result.creator == s.executing.value.creator
      && result.executor == s.config.id
    case SubmitRemote(job, _, _) => job.creator == s.config.id && job.executor != s.config.id
    case _ => true
  }

  function AfterReceiveJob(s: SisterState, e: Event): SisterState
    requires e.ReceiveJob? && Enabled(s, e)
  {
    match Judge(s.config, s.peers, e.env, e.peer, e.now, e.revoked)
    case NeedsNonce => s.(verified := s.verified + [e.env.payload.job])
    case RunsUnauthenticated => s.(cleared := s.cleared + [e.env.payload.job])
    case _ => s
  }

  function AfterRecordNonce(s: SisterState, e: Event): SisterState
    requires e.RecordNonce? && Enabled(s, e)
  {
    var job := s.verified[e.k];
    var a := job.authorization.value;
    var t := s.(nonces := NonceStore.RecordedFile(s.nonces, a, e.now, e.io), clock := e.now,
                verified := Without(s.verified, e.k));
    if NonceStore.RecordOutcome(s.nonces, a, e.now, e.io) == NonceStore.Recorded then
      t.(cleared := s.cleared + [job], grants := s.grants + [Grant(a, e.now)])
    else t
  }

  function AfterReceiveRequest(s: SisterState, e: Event): SisterState
    requires e.ReceiveRequest? && Enabled(s, e)
  {
    var queue := s.manager.queue;
    var k := FirstTransferable(queue, e.env.from, s.config.allowUnauthenticated);
    if !Admitted(s.config, e.env, e.peer) || k == |queue| then s
    else s.(manager := s.manager.(queue := Without(queue, k)),
            offered := s.offered + [Offer(queue[k], e.env.from, e.env.from in s.peers)])
  }

  function AfterSettleOffer(s: SisterState, e: Event): SisterState
    requires e.SettleOffer? && Enabled(s, e)
  {
    var offer := s.offered[e.k];
    var t := s.(offered := Without(s.offered, e.k));
    if offer.known && e.ok then t.(manager := MarkedTransferred(s.manager, offer.job.id))
    else t.(manager := s.manager.(queue := s.manager.queue + [offer.job]))
  }

  function AfterReceiveResult(s: SisterState, e: Event): SisterState
    requires e.ReceiveResult? && Enabled(s, e)
  {
    var result := e.env.payload.result;
    if !Admitted(s.config, e.env, e.peer) || result.creator != s.config.id || result.jobId !in s.manager.pending then s
    else s.(manager := s.manager.(pending := s.manager.pending - {result.jobId}), results := s.results + [result])
  }

  function AfterExecutorPops(s: SisterState): SisterState {
    if s.manager.queue == [] then s
    else
      var job := s.manager.queue[0];
      s.(manager := MarkedRunning(s.manager.(queue := s.manager.queue[1..]), job.id, s.clock),
         executing := Some(job), runs := s.runs + [job])
  }

  function AfterEnqueue(s: SisterState, k: nat): SisterState
    requires k < |s.cleared|
  {
    s.(manager := Enqueued(s.manager, LocalJobOf(s.cleared[k])), cleared := Without(s.cleared, k),
       log := s.log + [s.cleared[k]])
  }

  function AfterSubmitLocal(s: SisterState, id: JobId, command: string): SisterState {
    s.(manager := Enqueued(s.manager, NewJob(id, command).(creator := s.config.id)))
  }

  function Next(s: SisterState, e: Event): SisterState
    requires Enabled(s, e)
  {
    match e
    case ReceiveJob(_, _, _, _, _) => AfterReceiveJob(s, e)
    case RecordNonce(_, _, _) => AfterRecordNonce(s, e)
    case RecordForStream(a, now, io) => s.(nonces := NonceStore.RecordedFile(s.nonces, a, now, io), clock := now)
    case EnqueueCleared(k) => AfterEnqueue(s, k)
    case ReceiveRequest(_, _) => AfterReceiveRequest(s, e)
    case SettleOffer(_, _, _, _) => AfterSettleOffer(s, e)
    case ReceiveResult(_, _) => AfterReceiveResult(s, e)
    case ExecutorPops => AfterExecutorPops(s)
    case ExecutorFinishes(result, _) =>
      s.(manager := MarkedFinished(s.manager, result.jobId, result), executing := None)
    case SubmitRemote(job, waiter, _) =>
      s.(manager := s.manager.(pending := s.manager.pending[job.id := waiter]))
    case SubmitLocal(id, command) => AfterSubmitLocal(s, id, command)
    case PeersChange(peers) => s.(peers := peers)
    case Crash => s.(manager := EmptyManager, verified := [], cleared := [], offered := [], executing := None)
  }

  /** The envelopes a step puts on the wire. A send that reports failure may
      still have reached the other side. */
  function Emits(s: SisterState, e: Event): set<Envelope>
    requires Enabled(s, e)
  {
    match e
    case ReceiveJob(env, peer, now, revoked, reaches) =>
      if reaches && Judge(s.config, s.peers, env, peer, now, revoked).Forward? then {ForwardEnvelope(s.config, env)} else {}
    case SettleOffer(k, ok, reaches, now) =>
      var offer := s.offered[k];
      if offer.known && reaches then
        {Envelope(s.config.networkId, s.config.id, offer.requester,
                  JobMsg(StolenJobData(s.config, offer.job, offer.requester, now)))}
      else {}
    case ExecutorFinishes(result, reaches) =>
      if reaches && s.executing.value.creator != s.config.id then
        {Envelope(s.config.networkId, s.config.id, s.executing.value.creator, JobResultMsg(result))}
      else {}
    case SubmitRemote(job, _, reaches) =>
      if reaches then {Envelope(s.config.networkId, s.config.id, job.executor, JobMsg(job))} else {}
    case _ => {}
  }

  // ----- Counting -----

  function Tally<T>(s: seq<T>, p: T -> bool): nat {
    if s == [] then 0 else Tally(s[..|s| - 1], p) + if p(s[|s| - 1]) then 1 else 0
  }

  lemma TallyAppend<T>(s: seq<T>, x: T, p: T -> bool)
    ensures Tally(s + [x], p) == Tally(s, p) + if p(x) then 1 else 0
  {
    assert (s + [x])[..|s|] == s;
  }

  lemma {:induction false} TallyWithout<T>(s: seq<T>, k: nat, p: T -> bool)
    requires k < |s|
    ensures Tally(s, p) == Tally(Without(s, k), p) + if p(s[k]) then 1 else 0
    decreases |s|
  {
    var last := |s| - 1;
    if k == last {
      assert Without(s, k) == s[..last];
    } else {
      TallyWithout(s[..last], k, p);
      assert Without(s, k) == Without(s[..last], k) + [s[last]];
      TallyAppend(Without(s[..last], k), s[last], p);
    }
  }

  lemma {:induction false} TallyAtMostOne<T>(s: seq<T>, p: T -> bool)
    requires forall i, j | 0 <= i < j < |s| :: !(p(s[i]) && p(s[j]))
    ensures Tally(s, p) <= 1
    ensures Tally(s, p) == 0 || exists i | 0 <= i < |s| :: p(s[i])
  {
    if s != [] {
      var init := s[..|s| - 1];
      TallyAtMostOne(init, p);
      if Tally(init, p) > 0 {
        var i :| 0 <= i < |init| && p(init[i]);
        assert p(s[i]);
      }
    }
  }

  lemma {:induction false} TallyWitness<T>(s: seq<T>, p: T -> bool)
    requires Tally(s, p) > 0
    ensures exists i | 0 <= i < |s| :: p(s[i])
  {
    if Tally(s[..|s| - 1], p) > 0 {
      TallyWitness(s[..|s| - 1], p);
      var i :| 0 <= i < |s| - 1 && p(s[..|s| - 1][i]);
      assert p(s[i]);
    }
  }

  function Carries(a: CommandAuthorization): JobData -> bool {
    (j: JobData) => j.authorization == Some(a)
  }

  function LocalCarries(a: CommandAuthorization): LocalJob -> bool {
    (j: LocalJob) => j.authorization == Some(a)
  }

  function OfferCarries(a: CommandAuthorization): Offer -> bool {
    (o: Offer) => o.job.authorization == Some(a)
  }

  function Grants(a: CommandAuthorization): Grant -> bool {
    (g: Grant) => g.authorization == a
  }

  // ----- What every step of a Sister keeps -----

  predicate BoundHere(s: SisterState, authorization: Option<CommandAuthorization>) {
    authorization.Some? ==>
      && authorization.value.target == Some(Sister(s.config.id))
      && authorization.value.networkId == s.config.networkId
      && authorization.value.grant.networkId == s.config.networkId
  }

  /** Everything past the signature check is bound to this Sister. */
  ghost predicate Bound(s: SisterState) {
    && (forall j | j in s.verified :: j.authorization.Some? && BoundHere(s, j.authorization))
    && (forall j | j in s.cleared :: BoundHere(s, j.authorization) && (j.authorization.None? ==> s.config.allowUnauthenticated))
    && (forall j | j in s.log :: BoundHere(s, j.authorization) && (j.authorization.None? ==> s.config.allowUnauthenticated))
    && (forall j | j in s.manager.queue :: BoundHere(s, j.authorization))
    && (forall o | o in s.offered :: BoundHere(s, o.job.authorization))
    && (forall g | g in s.grants :: BoundHere(s, Some(g.authorization)))
  }

  /** A spent nonce stays on disk until the clock has passed its expiry, and the
      same authorization is granted again only after that. */
  ghost predicate NoncesHold(s: SisterState) {
    && (forall g | g in s.grants ::
          || s.nonces.Unreadable?
          || NonceStore.EntryOf(g.authorization) in NonceStore.Loaded(s.nonces)
          || s.clock > g.authorization.expiresAt)
    && (forall i, j | 0 <= i < j < |s.grants| && s.grants[i].authorization == s.grants[j].authorization ::
          s.grants[j].reading > s.grants[j].authorization.expiresAt)
  }

  /** Nothing is enqueued that was not granted, and nothing runs, waits or is
      offered that was not enqueued. */
  ghost predicate Accounted(s: SisterState, a: CommandAuthorization) {
    && Tally(s.log, Carries(a)) + Tally(s.cleared, Carries(a)) <= Tally(s.grants, Grants(a))
    && Tally(s.runs, LocalCarries(a)) + Tally(s.manager.queue, LocalCarries(a)) + Tally(s.offered, OfferCarries(a))
       <= Tally(s.log, Carries(a))
  }

  lemma WithoutMember<T>(s: seq<T>, k: nat, x: T)
    requires k < |s| && x in Without(s, k)
    ensures x in s
  {
  }

  lemma BoundAfterReceiveJob(s: SisterState, e: Event)
    requires e.ReceiveJob? && Enabled(s, e) && Bound(s)
    ensures Bound(AfterReceiveJob(s, e))
  {
  }

  lemma BoundAfterRecord(s: SisterState, e: Event)
    requires e.RecordNonce? && Enabled(s, e) && Bound(s)
    ensures Bound(AfterRecordNonce(s, e))
  {
    assert s.verified[e.k] in s.verified;
    forall j | j in Without(s.verified, e.k) ensures j in s.verified {
      WithoutMember(s.verified, e.k, j);
    }
  }

  lemma BoundAfterEnqueue(s: SisterState, k: nat)
    requires k < |s.cleared| && Bound(s)
    ensures Bound(AfterEnqueue(s, k))
  {
    assert s.cleared[k] in s.cleared;
    forall j | j in Without(s.cleared, k) ensures j in s.cleared {
      WithoutMember(s.cleared, k, j);
    }
  }

  lemma BoundAfterRequest(s: SisterState, e: Event)
    requires e.ReceiveRequest? && Enabled(s, e) && Bound(s)
    ensures Bound(AfterReceiveRequest(s, e))
  {
    var queue := s.manager.queue;
    var k := FirstTransferable(queue, e.env.from, s.config.allowUnauthenticated);
    if k < |queue| {
      assert queue[k] in queue;
      assert forall j | j in Without(queue, k) :: j in queue;
    }
  }

  lemma BoundAfterSettle(s: SisterState, e: Event)
    requires e.SettleOffer? && Enabled(s, e) && Bound(s)
    ensures Bound(AfterSettleOffer(s, e))
  {
    assert s.offered[e.k] in s.offered;
    forall o | o in Without(s.offered, e.k) ensures o in s.offered {
      WithoutMember(s.offered, e.k, o);
    }
  }

  lemma BoundAfterPop(s: SisterState)
    requires Bound(s)
    ensures Bound(AfterExecutorPops(s))
  {
  }

  lemma BoundAfterSubmit(s: SisterState, id: JobId, command: string)
    requires Bound(s)
    ensures Bound(AfterSubmitLocal(s, id, command))
  {
  }

  lemma BoundAfter(s: SisterState, e: Event)
    requires Enabled(s, e) && Bound(s)
    ensures Bound(Next(s, e))
  {
    match e
    case ReceiveJob(_, _, _, _, _) => BoundAfterReceiveJob(s, e);
    case RecordNonce(_, _, _) => BoundAfterRecord(s, e);
    case EnqueueCleared(k) => BoundAfterEnqueue(s, k);
    case ReceiveRequest(_, _) => BoundAfterRequest(s, e);
    case SettleOffer(_, _, _, _) => BoundAfterSettle(s, e);
    case ExecutorPops => BoundAfterPop(s);
    case SubmitLocal(id, command) => BoundAfterSubmit(s, id, command);
    case _ =>
  }

  lemma NoncesAfterRecord(s: SisterState, e: Event)
    requires e.RecordNonce? && Enabled(s, e) && NoncesHold(s)
    ensures NoncesHold(AfterRecordNonce(s, e))
  {
    var t := AfterRecordNonce(s, e);
    var a := s.verified[e.k].authorization.value;
    forall g | g in s.grants
      ensures || t.nonces.Unreadable?
              || NonceStore.EntryOf(g.authorization) in NonceStore.Loaded(t.nonces)
              || t.clock > g.authorization.expiresAt
    {
    }
    if |t.grants| > |s.grants| {
      forall i | 0 <= i < |s.grants| && s.grants[i].authorization == a
        ensures e.now > a.expiresAt
      {
        assert s.grants[i] in s.grants;
        assert NonceStore.Matches(NonceStore.EntryOf(a), a);
      }
    }
  }

  /** Whatever a stream operation records, no job's spent nonce leaves the disk early. */
  lemma NoncesAfterStream(s: SisterState, e: Event)
    requires e.RecordForStream? && Enabled(s, e) && NoncesHold(s)
    ensures NoncesHold(Next(s, e))
  {
    var t := Next(s, e);
    forall g | g in s.grants
      ensures || t.nonces.Unreadable?
              || NonceStore.EntryOf(g.authorization) in NonceStore.Loaded(t.nonces)
              || t.clock > g.authorization.expiresAt
    {
    }
  }

  lemma NoncesAfter(s: SisterState, e: Event)
    requires Enabled(s, e) && NoncesHold(s)
    ensures NoncesHold(Next(s, e))
  {
    if e.RecordNonce? {
      NoncesAfterRecord(s, e);
    } else if e.RecordForStream? {
      NoncesAfterStream(s, e);
    } else {
      var t := Next(s, e);
      assert t.nonces == s.nonces && t.grants == s.grants && t.clock == s.clock;
    }
  }

  lemma UnauthenticatedCarriesNothing(c: Config, peers: set<SisterId>, env: Envelope, peer: Option<SisterId>,
                                      now: Time, revoked: bool)
    requires env.payload.JobMsg?
    ensures Judge(c, peers, env, peer, now, revoked) == RunsUnauthenticated ==> env.payload.job.authorization.None?
  {
    hide WillForward, Admitted, AuthorizationHolds;
  }

  lemma AccountedAfterReceiveJob(s: SisterState, e: Event, a: CommandAuthorization)
    requires e.ReceiveJob? && Enabled(s, e) && Accounted(s, a)
    ensures Accounted(AfterReceiveJob(s, e), a)
  {
    UnauthenticatedCarriesNothing(s.config, s.peers, e.env, e.peer, e.now, e.revoked);
    TallyAppend(s.cleared, e.env.payload.job, Carries(a));
    hide Judge, Tally;
  }

  lemma AccountedAfterRecord(s: SisterState, e: Event, a: CommandAuthorization)
    requires e.RecordNonce? && Enabled(s, e) && Accounted(s, a)
    ensures Accounted(AfterRecordNonce(s, e), a)
  {
    var job := s.verified[e.k];
    TallyAppend(s.cleared, job, Carries(a));
    TallyAppend(s.grants, Grant(job.authorization.value, e.now), Grants(a));
  }

  lemma AccountedAfterEnqueue(s: SisterState, k: nat, a: CommandAuthorization)
    requires k < |s.cleared| && Accounted(s, a)
    ensures Accounted(AfterEnqueue(s, k), a)
  {
    TallyWithout(s.cleared, k, Carries(a));
    TallyAppend(s.log, s.cleared[k], Carries(a));
    TallyAppend(s.manager.queue, LocalJobOf(s.cleared[k]), LocalCarries(a));
  }

  lemma AccountedAfterRequest(s: SisterState, e: Event, a: CommandAuthorization)
    requires e.ReceiveRequest? && Enabled(s, e) && Accounted(s, a)
    ensures Accounted(AfterReceiveRequest(s, e), a)
  {
    var queue := s.manager.queue;
    var k := FirstTransferable(queue, e.env.from, s.config.allowUnauthenticated);
    if k < |queue| {
      TallyWithout(queue, k, LocalCarries(a));
      TallyAppend(s.offered, Offer(queue[k], e.env.from, e.env.from in s.peers), OfferCarries(a));
    }
  }

  lemma AccountedAfterSettle(s: SisterState, e: Event, a: CommandAuthorization)
    requires e.SettleOffer? && Enabled(s, e) && Accounted(s, a)
    ensures Accounted(AfterSettleOffer(s, e), a)
  {
    TallyWithout(s.offered, e.k, OfferCarries(a));
    TallyAppend(s.manager.queue, s.offered[e.k].job, LocalCarries(a));
  }

  lemma AccountedAfterPop(s: SisterState, a: CommandAuthorization)
    requires Accounted(s, a)
    ensures Accounted(AfterExecutorPops(s), a)
  {
    var queue := s.manager.queue;
    if queue != [] {
      TallyWithout(queue, 0, LocalCarries(a));
      assert Without(queue, 0) == queue[1..];
      TallyAppend(s.runs, queue[0], LocalCarries(a));
    }
  }

  lemma AccountedAfterSubmit(s: SisterState, id: JobId, command: string, a: CommandAuthorization)
    requires Accounted(s, a)
    ensures Accounted(AfterSubmitLocal(s, id, command), a)
  {
    TallyAppend(s.manager.queue, NewJob(id, command).(creator := s.config.id), LocalCarries(a));
  }

  lemma AccountedAfter(s: SisterState, e: Event, a: CommandAuthorization)
    requires Enabled(s, e) && Accounted(s, a)
    ensures Accounted(Next(s, e), a)
  {
    hide AfterReceiveJob, AfterRecordNonce, AfterEnqueue, AfterReceiveRequest, AfterSettleOffer;
    match e
    case ReceiveJob(_, _, _, _, _) => AccountedAfterReceiveJob(s, e, a);
    case RecordNonce(_, _, _) => AccountedAfterRecord(s, e, a);
    case EnqueueCleared(k) => AccountedAfterEnqueue(s, k, a);
    case ReceiveRequest(_, _) => AccountedAfterRequest(s, e, a);
    case SettleOffer(_, _, _, _) => AccountedAfterSettle(s, e, a);
    case ExecutorPops => AccountedAfterPop(s, a);
    case SubmitLocal(id, command) => AccountedAfterSubmit(s, id, command, a);
    case _ =>
  }

  // ----- The network -----

  /** What of a job must survive every hop. */
  datatype Core = Core(id: JobId, creator: SisterId, command: string, authorization: Option<CommandAuthorization>)

  function CoreOf(job: JobData): Core {
    Core(job.id, job.creator, FullCommand(job), job.authorization)
  }

  function LocalCore(job: LocalJob): Core {
    Core(job.id, job.creator, job.command, job.authorization)
  }

  /** An envelope on the wire, with the identity its stream authenticates and
      whether a modelled Sister sent it. The wire only grows: anything on it may
      be delivered late, again, or never. */
  datatype Sent = Sent(sender: SisterId, byNode: bool, env: Envelope)

  datatype World = World(sisters: map<SisterId, SisterState>, wire: set<Sent>, origins: set<Core>)

  /** A step of one Sister, or an envelope from anybody else. */
  datatype WorldEvent = At(id: SisterId, event: Event) | Inject(sender: SisterId, env: Envelope)

  ghost predicate Deliverable(w: World, env: Envelope, peer: Option<SisterId>) {
    exists m | m in w.wire :: m.env == env && (peer.Some? ==> peer.value == m.sender)
  }

  ghost predicate WorldEnabled(w: World, e: WorldEvent) {
    e.At? ==>
      && e.id in w.sisters && Enabled(w.sisters[e.id], e.event)
      && (e.event.ReceiveJob? ==> Deliverable(w, e.event.env, e.event.peer))
      && (e.event.ReceiveRequest? ==> Deliverable(w, e.event.env, e.event.peer))
      && (e.event.ReceiveResult? ==> Deliverable(w, e.event.env, e.event.peer))
  }

  function Created(s: SisterState, e: Event): set<Core> {
    match e
    case SubmitRemote(job, _, _) => {CoreOf(job)}
    case SubmitLocal(id, command) => {Core(id, s.config.id, command, None)}
    case _ => {}
  }

  ghost function WorldNext(w: World, e: WorldEvent): World
    requires WorldEnabled(w, e)
  {
    match e
    case Inject(sender, env) =>
      w.(wire := w.wire + {Sent(sender, false, env)},
         origins := if env.payload.JobMsg? then w.origins + {CoreOf(env.payload.job)} else w.origins)
    case At(id, event) =>
      var s := w.sisters[id];
      World(w.sisters[id := Next(s, event)],
            w.wire + (set env | env in Emits(s, event) :: Sent(id, true, env)),
            w.origins + Created(s, event))
  }

  ghost predicate Fresh(s: SisterState, id: SisterId) {
    && s.config.id == id && s.manager == EmptyManager && s.verified == [] && s.cleared == []
    && s.offered == [] && s.executing == None && s.grants == [] && s.log == [] && s.runs == [] && s.results == []
  }

  /** Any Sisters with any nonce files, peers and clocks, and nothing sent yet. */
  ghost predicate Start(w: World) {
    w.wire == {} && w.origins == {} && forall id | id in w.sisters :: Fresh(w.sisters[id], id)
  }

  ghost predicate IsRun(worlds: seq<World>, events: seq<WorldEvent>) {
    && |worlds| == |events| + 1 && Start(worlds[0])
    && forall i | 0 <= i < |events| :: WorldEnabled(worlds[i], events[i]) && worlds[i + 1] == WorldNext(worlds[i], events[i])
  }

  ghost predicate SisterHolds(s: SisterState, id: SisterId) {
    s.config.id == id && Bound(s) && NoncesHold(s) && forall a :: Accounted(s, a)
  }

  lemma SisterHoldsAfter(s: SisterState, id: SisterId, e: Event)
    requires Enabled(s, e) && SisterHolds(s, id)
    ensures SisterHolds(Next(s, e), id)
  {
    BoundAfter(s, e);
    NoncesAfter(s, e);
    forall a ensures Accounted(Next(s, e), a) {
      AccountedAfter(s, e, a);
    }
    ConfigStays(s, e);
  }

  lemma ConfigStays(s: SisterState, e: Event)
    requires Enabled(s, e)
    ensures Next(s, e).config == s.config
  {
  }

  lemma {:induction false} RunHolds(worlds: seq<World>, events: seq<WorldEvent>, n: nat)
    requires IsRun(worlds, events) && n < |worlds|
    ensures forall id | id in worlds[n].sisters :: SisterHolds(worlds[n].sisters[id], id)
    decreases n
  {
    if n > 0 {
      RunHolds(worlds, events, n - 1);
      var w, e := worlds[n - 1], events[n - 1];
      assert worlds[n] == WorldNext(w, e);
      if e.At? {
        SisterHoldsAfter(w.sisters[e.id], e.id, e.event);
      }
    }
  }

  /** Over every run, with forwarding, stealing, duplicates, replays and
      restarts, and local clocks that do not go back: if no grant of an
      authorization was read past its expiry, the whole network enqueues it at
      most once and starts it at most once, and only on its target. */
  lemma AtMostOnceOnTarget(worlds: seq<World>, events: seq<WorldEvent>, n: nat, a: CommandAuthorization)
    requires IsRun(worlds, events) && n < |worlds|
    requires forall id | id in worlds[n].sisters ::
               forall g | g in worlds[n].sisters[id].grants :: g.authorization == a ==> g.reading <= a.expiresAt
    ensures forall id | id in worlds[n].sisters ::
              var s := worlds[n].sisters[id];
              && Tally(s.runs, LocalCarries(a)) <= Tally(s.log, Carries(a)) <= 1
              && (Tally(s.log, Carries(a)) == 1 ==> a.target == Some(Sister(id)))
    ensures forall id, other | id in worlds[n].sisters && other in worlds[n].sisters && id != other ::
              Tally(worlds[n].sisters[id].log, Carries(a)) + Tally(worlds[n].sisters[other].log, Carries(a)) <= 1
  {
    RunHolds(worlds, events, n);
    forall id | id in worlds[n].sisters
      ensures var s := worlds[n].sisters[id];
              && Tally(s.runs, LocalCarries(a)) <= Tally(s.log, Carries(a)) <= 1
              && (Tally(s.log, Carries(a)) == 1 ==> a.target == Some(Sister(id)))
    {
      AtMostOnceHere(worlds[n].sisters[id], id, a);
    }
  }

  lemma AtMostOnceHere(s: SisterState, id: SisterId, a: CommandAuthorization)
    requires SisterHolds(s, id)
    requires forall g | g in s.grants :: g.authorization == a ==> g.reading <= a.expiresAt
    ensures Tally(s.runs, LocalCarries(a)) <= Tally(s.log, Carries(a)) <= 1
    ensures Tally(s.log, Carries(a)) == 1 ==> a.target == Some(Sister(id))
  {
    assert Accounted(s, a);
    forall i, j | 0 <= i < j < |s.grants| ensures !(Grants(a)(s.grants[i]) && Grants(a)(s.grants[j])) {
      assert s.grants[j] in s.grants;
    }
    TallyAtMostOne(s.grants, Grants(a));
    if Tally(s.log, Carries(a)) == 1 {
      TallyWitness(s.log, Carries(a));
      var i :| 0 <= i < |s.log| && Carries(a)(s.log[i]);
      assert s.log[i] in s.log;
    }
  }

  /** Exactly when an authorization that was granted is granted again: a Sister
      of any run, whose file reads and writes and holds no other entry for the
      nonce, lets the duplicate through if and only if its reading for the record,
      as opposed to the one for the signature, is past the expiry. */
  lemma GrantedAgainExactlyWhen(s: SisterState, id: SisterId, k: nat, now: Time)
    requires SisterHolds(s, id) && Enabled(s, RecordNonce(k, now, NonceStore.Fine)) && !s.nonces.Unreadable?
    requires var a := s.verified[k].authorization.value;
             && (exists g | g in s.grants :: g.authorization == a)
             && (forall e | e in NonceStore.Loaded(s.nonces) :: NonceStore.Matches(e, a) ==> e == NonceStore.EntryOf(a))
    ensures var a, t := s.verified[k].authorization.value, Next(s, RecordNonce(k, now, NonceStore.Fine));
            && (t.grants == s.grants + [Grant(a, now)] <==> now > a.expiresAt)
            && (t.grants == s.grants <==> now <= a.expiresAt)
  {
    var a := s.verified[k].authorization.value;
    var g :| g in s.grants && g.authorization == a;
    assert BoundHere(s, Some(g.authorization));
    assert NonceStore.Matches(NonceStore.EntryOf(a), a) && NonceStore.EntryOf(a).expiresAt == a.expiresAt;
    var retained := NonceStore.Retained(NonceStore.Loaded(s.nonces), now);
    if now <= a.expiresAt {
      assert NonceStore.EntryOf(a) in retained;
    } else {
      assert forall e | e in retained :: !NonceStore.Matches(e, a);
    }
    hide NonceStore.Retained;
  }

  // ----- A late duplicate really runs twice -----

  /** One more step of a run at one Sister. */
  lemma Drive(worlds: seq<World>, events: seq<WorldEvent>, id: SisterId, e: Event)
    returns (ws: seq<World>, es: seq<WorldEvent>)
    requires IsRun(worlds, events) && WorldEnabled(worlds[|events|], At(id, e))
    ensures IsRun(ws, es) && |es| == |events| + 1 && ws[0] == worlds[0] && id in ws[|es|].sisters
    ensures ws[|es|].sisters[id] == Next(worlds[|events|].sisters[id], e)
    ensures worlds[|events|].wire <= ws[|es|].wire
  {
    hide Next, Enabled, Emits, Created, Start, Deliverable;
    var w := WorldNext(worlds[|events|], At(id, e));
    ws, es := worlds + [w], events + [At(id, e)];
  }

  /** A Sister lets the first of its verified jobs through and enqueues it. */
  lemma GrantAndEnqueue(s: SisterState, job: JobData, now: Time)
    requires s.verified != [] && s.verified[0] == job && s.cleared == [] && job.authorization.Some? && s.clock <= now
    requires NonceStore.RecordOutcome(s.nonces, job.authorization.value, now, NonceStore.Fine) == NonceStore.Recorded
    ensures Enabled(s, RecordNonce(0, now, NonceStore.Fine))
    ensures var t := Next(s, RecordNonce(0, now, NonceStore.Fine));
            && Enabled(t, EnqueueCleared(0))
            && var u := Next(t, EnqueueCleared(0));
               && u.verified == s.verified[1..] && u.cleared == [] && u.log == s.log + [job] && u.clock == now
               && u.nonces == NonceStore.RecordedFile(s.nonces, job.authorization.value, now, NonceStore.Fine)
  {
    hide NonceStore.RecordOutcome, NonceStore.RecordedFile;
    var t := AfterRecordNonce(s, RecordNonce(0, now, NonceStore.Fine));
    assert t.cleared == [job] && t.verified == s.verified[1..];
    assert Without([job], 0) == [];
  }

  lemma RecordsOnceMoreWhenLate(a: CommandAuthorization)
    requires a.networkId == a.grant.networkId
    ensures NonceStore.RecordOutcome(NonceStore.Missing, a, a.expiresAt, NonceStore.Fine) == NonceStore.Recorded
    ensures var file := NonceStore.RecordedFile(NonceStore.Missing, a, a.expiresAt, NonceStore.Fine);
            NonceStore.RecordOutcome(file, a, a.expiresAt + 1, NonceStore.Fine) == NonceStore.Recorded
  {
    assert NonceStore.Retained([], a.expiresAt) == [];
  }

  /** The proviso of `AtMostOnceOnTarget` is needed. At any Sister of any fresh
      network without a nonce file, and for any job it would take, there is a run in
      which two deliveries of the one envelope are verified, the first recorded
      before the expiry and the second after it, and both enqueued. */
  lemma LateDuplicateIsEnqueuedTwice(w: World, id: SisterId, env: Envelope, now: Time)
    returns (worlds: seq<World>, events: seq<WorldEvent>)
    requires Start(w) && id in w.sisters && env.payload.JobMsg?
    requires var s := w.sisters[id];
             && Judge(s.config, s.peers, env, Some(env.from), now, false).NeedsNonce?
             && s.nonces.Missing? && s.clock <= env.payload.job.authorization.value.expiresAt
    ensures IsRun(worlds, events) && worlds[0] == w && id in worlds[|events|].sisters
    ensures Tally(worlds[|events|].sisters[id].log, Carries(env.payload.job.authorization.value)) == 2
  {
    var s, job := w.sisters[id], env.payload.job;
    var a := job.authorization.value;
    assert a.networkId == a.grant.networkId;
    worlds, events := Delivered(w, env);
    var receive := ReceiveJob(env, Some(env.from), now, false, false);
    worlds, events := TakenTwice(worlds, events, id, env, receive);
    hide Judge, Next, Enabled, IsRun, Emits, WorldNext;
    RecordsOnceMoreWhenLate(a);
    worlds, events := Granted(worlds, events, id, job, a.expiresAt);
    worlds, events := Granted(worlds, events, id, job, a.expiresAt + 1);
    assert worlds[|events|].sisters[id].log == [] + [job] + [job];
    TallyAppend([], job, Carries(a));
    TallyAppend([] + [job], job, Carries(a));
  }

  lemma Delivered(w: World, env: Envelope) returns (worlds: seq<World>, events: seq<WorldEvent>)
    requires Start(w)
    ensures IsRun(worlds, events) && worlds[0] == w && worlds[|events|].sisters == w.sisters
    ensures Sent(env.from, false, env) in worlds[|events|].wire
  {
    var e := Inject(env.from, env);
    worlds, events := [w, WorldNext(w, e)], [e];
  }

  lemma TakenTwice(before: seq<World>, done: seq<WorldEvent>, id: SisterId, env: Envelope, receive: Event)
    returns (worlds: seq<World>, events: seq<WorldEvent>)
    requires IsRun(before, done) && Sent(env.from, false, env) in before[|done|].wire && id in before[|done|].sisters
    requires receive.ReceiveJob? && receive.env == env && receive.peer == Some(env.from) && env.payload.JobMsg?
    requires var s := before[|done|].sisters[id];
             && Judge(s.config, s.peers, env, Some(env.from), receive.now, receive.revoked).NeedsNonce?
             && s.verified == []
    ensures IsRun(worlds, events) && worlds[0] == before[0] && id in worlds[|events|].sisters
    ensures worlds[|events|].sisters[id] == before[|done|].sisters[id].(verified := [env.payload.job, env.payload.job])
  {
    hide Judge, Emits, WorldNext;
    var job := env.payload.job;
    worlds, events := Drive(before, done, id, receive);
    assert worlds[|events|].sisters[id] == before[|done|].sisters[id].(verified := [] + [job]);
    worlds, events := Drive(worlds, events, id, receive);
    assert [] + [job] + [job] == [job, job];
  }

  lemma Granted(before: seq<World>, done: seq<WorldEvent>, id: SisterId, job: JobData, now: Time)
    returns (worlds: seq<World>, events: seq<WorldEvent>)
    requires IsRun(before, done) && id in before[|done|].sisters && job.authorization.Some?
    requires var s := before[|done|].sisters[id];
             && s.verified != [] && s.verified[0] == job && s.cleared == [] && s.clock <= now
             && NonceStore.RecordOutcome(s.nonces, job.authorization.value, now, NonceStore.Fine) == NonceStore.Recorded
    ensures IsRun(worlds, events) && worlds[0] == before[0] && id in worlds[|events|].sisters
    ensures var s, t := before[|done|].sisters[id], worlds[|events|].sisters[id];
            && t.verified == s.verified[1..] && t.cleared == [] && t.log == s.log + [job] && t.clock == now
            && t.nonces == NonceStore.RecordedFile(s.nonces, job.authorization.value, now, NonceStore.Fine)
  {
    GrantAndEnqueue(before[|done|].sisters[id], job, now);
    hide Next, Enabled, IsRun, Emits, WorldNext, NonceStore.RecordOutcome, NonceStore.RecordedFile;
    worlds, events := Drive(before, done, id, RecordNonce(0, now, NonceStore.Fine));
    worlds, events := Drive(worlds, events, id, EnqueueCleared(0));
  }

  /** An Owner's authorization of one command for Sister 2, live from 0 to 5. */
  function SampleAuthorization(): CommandAuthorization {
    var human := HumanIdentity(7, "", 20);
    var grant := HumanMembership(1, human, Owner, 0, None, 1,
                                 Signature(10, HumanMembershipText(1, human, Owner, 0, None, 1)));
    CommandAuthorization(1, human, grant, Owner, JobSubmit, Some(Sister(2)), [], 0, 5, 9,
                         Signature(20, CommandText(1, human, grant, Owner, JobSubmit, Some(Sister(2)), [], 0, 5, 9)))
  }

  function SampleSister(): SisterState {
    SisterState(Config(2, 1, Some(NetworkAuthority(1, 10)), false, ""), EmptyManager, NonceStore.Missing, {}, 0,
                [], [], [], None, [], [], [], [])
  }

  /** One such network, and so one such run. */
  lemma SampleIsEnqueuedTwice() returns (worlds: seq<World>, events: seq<WorldEvent>)
    ensures IsRun(worlds, events) && worlds[0] == World(map[2 := SampleSister()], {}, {})
    ensures 2 in worlds[|events|].sisters
    ensures Tally(worlds[|events|].sisters[2].log, Carries(SampleAuthorization())) == 2
  {
    var job := JobData("", 3, 0, "", "", [], 0, Some(SampleAuthorization()));
    worlds, events := LateDuplicateIsEnqueuedTwice(World(map[2 := SampleSister()], {}, {}), 2,
                                                   Envelope(1, 3, 2, JobMsg(job)), 5);
  }

  /** With unauthenticated operations off, the handler enqueues only jobs whose
      authorization names this Sister, and no other Sister can steal any of them. */
  lemma AuthenticatedModeNeverHandsOver(worlds: seq<World>, events: seq<WorldEvent>, n: nat, id: SisterId, requester: SisterId)
    requires IsRun(worlds, events) && n < |worlds| && id in worlds[n].sisters
    requires !worlds[n].sisters[id].config.allowUnauthenticated && requester != id
    ensures var s := worlds[n].sisters[id];
            && (forall j | j in s.log :: j.authorization.Some? && j.authorization.value.target == Some(Sister(id)))
            && (forall j | j in s.manager.queue :: !Transferable(j, requester, s.config.allowUnauthenticated))
  {
    RunHolds(worlds, events, n);
  }

  // ----- Hops -----

  ghost predicate TracedSister(s: SisterState, origins: set<Core>) {
    && (forall j | j in s.verified :: CoreOf(j) in origins)
    && (forall j | j in s.cleared :: CoreOf(j) in origins)
    && (forall j | j in s.log :: CoreOf(j) in origins)
    && (forall j | j in s.manager.queue :: LocalCore(j) in origins)
    && (forall o | o in s.offered :: LocalCore(o.job) in origins)
    && (s.executing.Some? ==> LocalCore(s.executing.value) in origins)
    && (forall j | j in s.runs :: LocalCore(j) in origins)
    && (forall r | r in s.results :: r.creator == s.config.id)
  }

  ghost predicate TracedEnvelope(m: Sent, origins: set<Core>) {
    && (m.byNode ==> m.env.from == m.sender)
    && (m.env.payload.JobMsg? ==> CoreOf(m.env.payload.job) in origins)
    && (m.byNode && m.env.payload.JobMsg? ==> m.env.to == m.env.payload.job.executor)
    && (m.byNode && m.env.payload.JobResultMsg? ==>
          var r := m.env.payload.result;
          r.executor == m.sender &&
          exists c | c in origins :: c.id == r.jobId && c.creator == r.creator && m.env.to == c.creator)
  }

  ghost predicate Traced(w: World) {
    && (forall id | id in w.sisters :: w.sisters[id].config.id == id && TracedSister(w.sisters[id], w.origins))
    && (forall m | m in w.wire :: TracedEnvelope(m, w.origins))
  }

  lemma ReceiveKeepsTrace(s: SisterState, e: Event, origins: set<Core>)
    requires e.ReceiveJob? && Enabled(s, e) && TracedSister(s, origins)
    requires CoreOf(e.env.payload.job) in origins
    ensures TracedSister(AfterReceiveJob(s, e), origins)
  {
  }

  lemma RecordKeepsTrace(s: SisterState, e: Event, origins: set<Core>)
    requires e.RecordNonce? && Enabled(s, e) && TracedSister(s, origins)
    ensures TracedSister(AfterRecordNonce(s, e), origins)
  {
    assert s.verified[e.k] in s.verified;
    forall j | j in Without(s.verified, e.k) ensures j in s.verified {
      WithoutMember(s.verified, e.k, j);
    }
  }

  lemma EnqueueKeepsTrace(s: SisterState, k: nat, origins: set<Core>)
    requires k < |s.cleared| && TracedSister(s, origins)
    ensures TracedSister(AfterEnqueue(s, k), origins)
  {
    assert s.cleared[k] in s.cleared;
    assert LocalCore(LocalJobOf(s.cleared[k])) == CoreOf(s.cleared[k]);
    forall j | j in Without(s.cleared, k) ensures j in s.cleared {
      WithoutMember(s.cleared, k, j);
    }
  }

  lemma RequestKeepsTrace(s: SisterState, e: Event, origins: set<Core>)
    requires e.ReceiveRequest? && Enabled(s, e) && TracedSister(s, origins)
    ensures TracedSister(AfterReceiveRequest(s, e), origins)
  {
    var queue := s.manager.queue;
    var k := FirstTransferable(queue, e.env.from, s.config.allowUnauthenticated);
    if k < |queue| {
      assert queue[k] in queue;
      assert forall j | j in Without(queue, k) :: j in queue;
    }
  }

  lemma SettleKeepsTrace(s: SisterState, e: Event, origins: set<Core>)
    requires e.SettleOffer? && Enabled(s, e) && TracedSister(s, origins)
    ensures TracedSister(AfterSettleOffer(s, e), origins)
  {
    assert s.offered[e.k] in s.offered;
    forall o | o in Without(s.offered, e.k) ensures o in s.offered {
      WithoutMember(s.offered, e.k, o);
    }
  }

  lemma PopKeepsTrace(s: SisterState, origins: set<Core>)
    requires TracedSister(s, origins)
    ensures TracedSister(AfterExecutorPops(s), origins)
  {
  }

  lemma SubmitKeepsTrace(s: SisterState, id: JobId, command: string, origins: set<Core>)
    requires TracedSister(s, origins) && Core(id, s.config.id, command, None) in origins
    ensures TracedSister(AfterSubmitLocal(s, id, command), origins)
  {
    var job := NewJob(id, command).(creator := s.config.id);
    assert LocalCore(job) == Core(id, s.config.id, command, None);
  }

  lemma NextKeepsTrace(s: SisterState, e: Event, origins: set<Core>)
    requires Enabled(s, e) && TracedSister(s, origins) && Created(s, e) <= origins
    requires e.ReceiveJob? ==> CoreOf(e.env.payload.job) in origins
    ensures TracedSister(Next(s, e), origins)
  {
    match e
    case ReceiveJob(_, _, _, _, _) => ReceiveKeepsTrace(s, e, origins);
    case RecordNonce(_, _, _) => RecordKeepsTrace(s, e, origins);
    case EnqueueCleared(k) => EnqueueKeepsTrace(s, k, origins);
    case ReceiveRequest(_, _) => RequestKeepsTrace(s, e, origins);
    case SettleOffer(_, _, _, _) => SettleKeepsTrace(s, e, origins);
    case ExecutorPops => PopKeepsTrace(s, origins);
    case SubmitLocal(id, command) => SubmitKeepsTrace(s, id, command, origins);
    case _ =>
  }

  lemma EmitsTraced(s: SisterState, e: Event, origins: set<Core>, env: Envelope)
    requires Enabled(s, e) && TracedSister(s, origins) && Created(s, e) <= origins
    requires e.ReceiveJob? ==> CoreOf(e.env.payload.job) in origins
    requires env in Emits(s, e)
    ensures TracedEnvelope(Sent(s.config.id, true, env), origins)
  {
    match e
    case SettleOffer(k, _, _, now) =>
      var offer := s.offered[k];
      assert offer in s.offered;
      assert CoreOf(StolenJobData(s.config, offer.job, offer.requester, now)) == LocalCore(offer.job);
    case ExecutorFinishes(result, _) =>
      assert LocalCore(s.executing.value) in origins;
    case _ =>
  }

  lemma TraceGrows(s: SisterState, origins: set<Core>, more: set<Core>)
    requires TracedSister(s, origins) && origins <= more
    ensures TracedSister(s, more)
  {
  }

  lemma OriginsGrow(w: World, e: WorldEvent)
    requires WorldEnabled(w, e) && Traced(w)
    ensures w.origins <= WorldNext(w, e).origins
    ensures e.At? ==> Created(w.sisters[e.id], e.event) <= WorldNext(w, e).origins
    ensures e.At? && e.event.ReceiveJob? ==> CoreOf(e.event.env.payload.job) in w.origins
  {
  }

  lemma WorldKeepsSisters(w: World, e: WorldEvent)
    requires WorldEnabled(w, e) && Traced(w)
    ensures var w' := WorldNext(w, e);
            forall id | id in w'.sisters :: w'.sisters[id].config.id == id && TracedSister(w'.sisters[id], w'.origins)
  {
    OriginsGrow(w, e);
    var w' := WorldNext(w, e);
    forall id | id in w'.sisters ensures w'.sisters[id].config.id == id && TracedSister(w'.sisters[id], w'.origins) {
      TraceGrows(w.sisters[id], w.origins, w'.origins);
      if e.At? && e.id == id {
        NextKeepsTrace(w.sisters[id], e.event, w'.origins);
        ConfigStays(w.sisters[id], e.event);
      }
    }
  }

  lemma WorldKeepsWire(w: World, e: WorldEvent)
    requires WorldEnabled(w, e) && Traced(w)
    ensures var w' := WorldNext(w, e); forall m | m in w'.wire :: TracedEnvelope(m, w'.origins)
  {
    OriginsGrow(w, e);
    var w' := WorldNext(w, e);
    forall m | m in w'.wire ensures TracedEnvelope(m, w'.origins) {
      if m !in w.wire && e.At? {
        TraceGrows(w.sisters[e.id], w.origins, w'.origins);
        EmitsTraced(w.sisters[e.id], e.event, w'.origins, m.env);
      }
    }
  }

  lemma WorldKeepsTrace(w: World, e: WorldEvent)
    requires WorldEnabled(w, e) && Traced(w)
    ensures Traced(WorldNext(w, e))
  {
    WorldKeepsSisters(w, e);
    WorldKeepsWire(w, e);
  }

  /** Through any chain of forwards and steals: every job on the wire, in a
      queue, in hand or run has the id, creator, full command line and
      authorization of one that was submitted; an envelope a Sister sent names
      that Sister as its sender and goes to the executor its job names; a result
      goes to its job's creator, and only the creator accepts it. */
  lemma {:induction false} HopsKeepTheJob(worlds: seq<World>, events: seq<WorldEvent>, n: nat)
    requires IsRun(worlds, events) && n < |worlds|
    ensures Traced(worlds[n])
    decreases n
  {
    if n > 0 {
      HopsKeepTheJob(worlds, events, n - 1);
      WorldKeepsTrace(worlds[n - 1], events[n - 1]);
      assert worlds[n] == WorldNext(worlds[n - 1], events[n - 1]);
    }
  }

  // ----- What was signed for every job taken or passed on -----

  /** Every authorized job past the signature check carries both signatures, for
      this Sister and for its own command line. */
  ghost predicate SignedSister(s: SisterState) {
    && (forall j | j in s.verified :: j.authorization.Some? ==> SignedHere(s.config, j))
    && (forall j | j in s.cleared :: j.authorization.Some? ==> SignedHere(s.config, j))
    && (forall j | j in s.log :: j.authorization.Some? ==> SignedHere(s.config, j))
  }

  ghost predicate SignedHere(c: Config, j: JobData)
    requires j.authorization.Some?
  {
    Signed(c, j, j.authorization.value) && j.authorization.value.target == Some(Sister(c.id))
  }

  lemma ReceiveKeepsSigned(s: SisterState, e: Event)
    requires e.ReceiveJob? && Enabled(s, e) && SignedSister(s)
    ensures SignedSister(AfterReceiveJob(s, e))
  {
    JudgeExactly(s.config, s.peers, e.env, e.peer, e.now, e.revoked);
    hide Judge, Signed;
  }

  lemma RecordKeepsSigned(s: SisterState, e: Event)
    requires e.RecordNonce? && Enabled(s, e) && SignedSister(s)
    ensures SignedSister(AfterRecordNonce(s, e))
  {
    hide SignedHere, NonceStore.RecordOutcome, NonceStore.RecordedFile;
    assert s.verified[e.k] in s.verified;
    forall j | j in Without(s.verified, e.k) ensures j in s.verified {
      WithoutMember(s.verified, e.k, j);
    }
  }

  lemma EnqueueKeepsSigned(s: SisterState, k: nat)
    requires k < |s.cleared| && SignedSister(s)
    ensures SignedSister(AfterEnqueue(s, k))
  {
    hide SignedHere;
    assert s.cleared[k] in s.cleared;
    forall j | j in Without(s.cleared, k) ensures j in s.cleared {
      WithoutMember(s.cleared, k, j);
    }
  }

  lemma NextKeepsSigned(s: SisterState, e: Event)
    requires Enabled(s, e) && SignedSister(s)
    ensures SignedSister(Next(s, e))
  {
    hide SignedHere, AfterReceiveJob, AfterRecordNonce, AfterEnqueue, NonceStore.RecordedFile;
    match e
    case ReceiveJob(_, _, _, _, _) => ReceiveKeepsSigned(s, e);
    case RecordNonce(_, _, _) => RecordKeepsSigned(s, e);
    case EnqueueCleared(k) => EnqueueKeepsSigned(s, k);
    case _ =>
  }

  /** In every run, each authorized job a Sister has enqueued was signed by its
      issuer, whose role the Authority signed, for this Sister and this command. */
  lemma {:induction false} LoggedJobsAreSigned(worlds: seq<World>, events: seq<WorldEvent>, n: nat)
    requires IsRun(worlds, events) && n < |worlds|
    ensures forall id | id in worlds[n].sisters :: SignedSister(worlds[n].sisters[id])
    decreases n
  {
    hide SignedSister, Next, Enabled, Emits;
    if n == 0 {
      forall id | id in worlds[0].sisters
        ensures SignedSister(worlds[0].sisters[id])
      {
        FreshIsSigned(worlds[0].sisters[id], id);
      }
    } else {
      LoggedJobsAreSigned(worlds, events, n - 1);
      var w, e := worlds[n - 1], events[n - 1];
      assert worlds[n] == WorldNext(w, e);
      if e.At? {
        NextKeepsSigned(w.sisters[e.id], e.event);
      }
    }
  }

  lemma FreshIsSigned(s: SisterState, id: SisterId)
    requires Fresh(s, id)
    ensures SignedSister(s)
  {
  }

  /** In every run, what a Sister forwards is the envelope's job unchanged, under
      its own name and Network, to a peer other than itself that the job names as
      executor and that a good authorization, if there is one, is for. */
  lemma ForwardsGoWhereAuthorized(worlds: seq<World>, events: seq<WorldEvent>, n: nat, out: Envelope)
    requires IsRun(worlds, events) && n < |events| && events[n].At? && events[n].event.ReceiveJob?
    requires out in Emits(worlds[n].sisters[events[n].id], events[n].event)
    ensures var s, e := worlds[n].sisters[events[n].id], events[n].event;
            && out.networkId == s.config.networkId && out.from == events[n].id && out.payload == e.env.payload
            && out.to == e.env.payload.job.executor && out.to in s.peers && out.to != events[n].id
            && (e.env.payload.job.authorization.Some? ==>
                Permits(s.config, e.env.payload.job, e.env.payload.job.authorization.value, out.to, e.now))
            && Sent(events[n].id, true, out) in worlds[n + 1].wire
  {
    var s, e := worlds[n].sisters[events[n].id], events[n].event;
    RunHolds(worlds, events, n);
    hide SisterHolds, Bound, NoncesHold;
    JudgeExactly(s.config, s.peers, e.env, e.peer, e.now, e.revoked);
    hide Judge, Permits;
    assert worlds[n + 1] == WorldNext(worlds[n], events[n]);
  }

  // ----- A Sister's steps are the job manager's -----

  function Jobs(offers: seq<Offer>): (r: seq<LocalJob>)
    ensures |r| == |offers| && forall k | 0 <= k < |r| :: r[k] == offers[k].job
  {
    seq(|offers|, k requires 0 <= k < |offers| => offers[k].job)
  }

  /** The queue, table, offers and running job of a Sister, as one shop. */
  function ShopOf(s: SisterState): Shop {
    Shop(s.manager, Jobs(s.offered), None, if s.executing.Some? then [s.executing.value.id] else [])
  }

  /** A work request from an admitted sender is a steal in the shop, offered to
      that sender and marked with whether it is known; any other does nothing. */
  lemma RequestStepIsASteal(s: SisterState, e: Event)
    requires e.ReceiveRequest? && Enabled(s, e)
    ensures var t, admitted := Next(s, e), e.env.networkId == s.config.networkId && (e.peer.None? || e.peer.value == e.env.from);
            && (!admitted ==> t == s)
            && (admitted ==>
                ShopOf(t) == JobManagement.Next(ShopOf(s), StealTakes(e.env.from, s.config.allowUnauthenticated)))
            && t == s.(manager := t.manager, offered := t.offered) && s.offered <= t.offered
            && forall k | |s.offered| <= k < |t.offered| ::
                 t.offered[k].requester == e.env.from && (t.offered[k].known <==> e.env.from in s.peers)
  {
    var t := Next(s, e);
    if t != s {
      assert Jobs(t.offered) == Jobs(s.offered) + [t.offered[|s.offered|].job];
    }
  }

  /** An offer ends transferred when the requester is known and was reached, with
      the job sent to it as executor, and otherwise back in the queue. */
  lemma SettleStepIsAHandOff(s: SisterState, e: Event)
    requires e.SettleOffer? && Enabled(s, e)
    ensures var t, offer := Next(s, e), s.offered[e.k];
            && ShopOf(t) == JobManagement.Next(ShopOf(s), if offer.known && e.ok then StealSent(e.k) else StealReturns(e.k))
            && t == s.(manager := t.manager, offered := t.offered)
            && t.offered == s.offered[..e.k] + s.offered[e.k + 1..]
            && Emits(s, e) == if offer.known && e.reaches
                              then {Envelope(s.config.networkId, s.config.id, offer.requester,
                                             JobMsg(JobData(offer.job.id, offer.job.creator, offer.requester,
                                                            if offer.job.creatorAddr.Some? then offer.job.creatorAddr.value
                                                            else s.config.listenAddr,
                                                            offer.job.command, [], e.now, offer.job.authorization)))}
                              else {}
  {
    var t := Next(s, e);
    assert Jobs(t.offered) == Without(Jobs(s.offered), e.k);
  }

  /** The executor takes the head of the queue and starts it, then finishes it and
      answers its creator. */
  lemma ExecutorStepsAreTheShops(s: SisterState, result: JobResult, reaches: bool)
    ensures s.executing.None? && s.manager.queue != [] ==>
              var t, job := Next(s, Event.ExecutorPops), s.manager.queue[0];
              && ShopOf(t) == JobManagement.Next(JobManagement.Next(ShopOf(s), JobManagement.Event.ExecutorPops), ExecutorStarts(s.clock))
              && t == s.(manager := t.manager, executing := Some(job), runs := s.runs + [job])
    ensures s.executing.None? && s.manager.queue == [] ==> Next(s, Event.ExecutorPops) == s
    ensures Enabled(s, ExecutorFinishes(result, reaches)) ==>
              var t := Next(s, ExecutorFinishes(result, reaches));
              && ShopOf(t) == JobManagement.Next(ShopOf(s), Finish(0, result))
              && t == s.(manager := t.manager, executing := None)
              && Emits(s, ExecutorFinishes(result, reaches)) ==
                 if reaches && s.executing.value.creator != s.config.id
                 then {Envelope(s.config.networkId, s.config.id, s.executing.value.creator, JobResultMsg(result))} else {}
  {
  }

  /** A job past the checks enters the shop with its own id, command line, creator
      and authorization; one submitted here enters it for this Sister. */
  lemma NewJobsEnterTheShop(s: SisterState, k: nat, id: JobId, command: string)
    ensures k < |s.cleared| && s.cleared[k].id !in s.manager.jobs ==>
              var t, j := Next(s, EnqueueCleared(k)), s.cleared[k];
              && ShopOf(t) == JobManagement.Next(ShopOf(s), Enqueue(LocalJob(j.id, FullCommand(j), Queued, None, None, None,
                                                                             j.creator, Some(j.creatorAddr), j.authorization)))
              && t == s.(manager := t.manager, cleared := s.cleared[..k] + s.cleared[k + 1..], log := s.log + [j])
    ensures id !in s.manager.jobs ==>
              var t := Next(s, SubmitLocal(id, command));
              && ShopOf(t) == JobManagement.Next(ShopOf(s), Enqueue(LocalJob(id, command, Queued, None, None, None,
                                                                             s.config.id, None, None)))
              && t == s.(manager := t.manager)
  {
    hide FullCommand;
  }

  /** What the remaining steps do: a job delivered waits for its nonce or its turn
      as the branch decides; a result from an admitted sender for a job this Sister
      created and still awaits is taken once; a remote submission reserves its waiter
      first; a crash keeps only the nonce file, the clock and what has happened. */
  lemma OtherSteps(s: SisterState, e: Event)
    requires Enabled(s, e)
    ensures e.ReceiveJob? ==>
              var v, job := Judge(s.config, s.peers, e.env, e.peer, e.now, e.revoked), e.env.payload.job;
              Next(s, e) == s.(verified := s.verified + (if v.NeedsNonce? then [job] else []),
                               cleared := s.cleared + (if v.RunsUnauthenticated? then [job] else []))
    ensures e.ReceiveJob? ==>
              Emits(s, e) == if e.reaches && Judge(s.config, s.peers, e.env, e.peer, e.now, e.revoked).Forward?
                             then {Envelope(s.config.networkId, s.config.id, e.env.payload.job.executor, e.env.payload)}
                             else {}
    ensures e.ReceiveResult? ==>
              var r := e.env.payload.result;
              var taken := && e.env.networkId == s.config.networkId && (e.peer.None? || e.peer.value == e.env.from)
                           && r.creator == s.config.id && r.jobId in s.manager.pending;
              Next(s, e) == if taken then s.(manager := Manager(s.manager.queue, s.manager.jobs, s.manager.pending - {r.jobId}),
                                             results := s.results + [r])
                            else s
    ensures e.SubmitRemote? ==>
              && Next(s, e) == s.(manager := Manager(s.manager.queue, s.manager.jobs, s.manager.pending[e.job.id := e.waiter]))
              && Emits(s, e) == if e.reaches then {Envelope(s.config.networkId, s.config.id, e.job.executor, JobMsg(e.job))} else {}
    ensures e.RecordForStream? ==>
              Next(s, e) == s.(nonces := NonceStore.RecordedFile(s.nonces, e.authorization, e.now, e.io), clock := e.now)
    ensures e.PeersChange? ==> Next(s, e) == s.(peers := e.peers)
    ensures e.Crash? ==>
              Next(s, e) == SisterState(s.config, Manager([], map[], map[]), s.nonces, s.peers, s.clock, [], [], [], None,
                                        s.grants, s.log, s.runs, s.results)
  {
    hide Judge;
  }

  // ----- The handler object -----

  class SisterNode {
    const config: Config
    const jobs: JobManager
    const nonces: NonceStore.AuthorizationNonceStore
    var peers: set<SisterId>

    constructor (config: Config)
      ensures this.config == config && peers == {} && fresh(jobs) && fresh(nonces)
      ensures jobs.View() == EmptyManager && nonces.file == NonceStore.Missing
    {
      this.config := config;
      jobs := new JobManager();
      nonces := new NonceStore.AuthorizationNonceStore();
      peers := {};
    }

    /** The checks of the Job branch, in the dispatcher's order. */
    method CheckJob(env: Envelope, peer: Option<SisterId>, now: Time, revoked: bool) returns (v: Verdict)
      requires env.payload.JobMsg?
      ensures v == Judge(config, peers, env, peer, now, revoked)
    {
      if env.networkId != config.networkId {
        return Reject;
      }
      if !SenderMatches(peer, env.from) {
        return Reject;
      }
      var job := env.payload.job;
      var willForward := WillForward(config, peers, job);
      if job.authorization.None? {
        return if !config.allowUnauthenticated then Reject else if willForward then Forward else RunsUnauthenticated;
      }
      var a := job.authorization.value;
      var expectedTarget := if willForward then job.executor else config.id;
      if config.authority.None? {
        return Reject;
      }
      if a.permission != JobSubmit || a.networkId != config.networkId || !a.Verify(config.authority.value, now)
         || a.target != Some(Sister(expectedTarget)) || !ConstraintsHold(a, FullCommand(job)) {
        return Reject;
      }
      if revoked {
        return Reject;
      }
      return if willForward then Forward else NeedsNonce;
    }

    /** The Job branch of the dispatcher, run without interruption. */
    method DispatchJob(env: Envelope, peer: Option<SisterId>, verifyNow: Time, revoked: bool,
                       recordNow: Time, io: NonceStore.Io, sendOk: bool)
      returns (r: Result<Option<Envelope>, Verdict>)
      requires env.payload.JobMsg?
      modifies jobs, nonces
      ensures var v := Judge(config, peers, env, peer, verifyNow, revoked);
              var runs := v.RunsUnauthenticated? ||
                          (v.NeedsNonce? && NonceStore.RecordOutcome(old(nonces.file), env.payload.job.authorization.value,
                                                                     recordNow, io) == NonceStore.Recorded);
              && jobs.View() == (if runs then Enqueued(old(jobs.View()), LocalJobOf(env.payload.job)) else old(jobs.View()))
              && nonces.file == (if v.NeedsNonce? then
                                   NonceStore.RecordedFile(old(nonces.file), env.payload.job.authorization.value, recordNow, io)
                                 else old(nonces.file))
              && r == (if runs then Ok(None)
                       else if v.Forward? && sendOk then Ok(Some(ForwardEnvelope(config, env)))
                       else Err(v))
    {
      var v := CheckJob(env, peer, verifyNow, revoked);
      if v.Reject? {
        return Err(v);
      }
      var job := env.payload.job;
      if v.NeedsNonce? {
        var outcome := nonces.Record(job.authorization.value, recordNow, io);
        if outcome != NonceStore.Recorded {
          return Err(v);
        }
      }
      if v.Forward? {
        if !sendOk {
          return Err(v);
        }
        return Ok(Some(ForwardEnvelope(config, env)));
      }
      jobs.Enqueue(LocalJobOf(job));
      return Ok(None);
    }
  }

  /** The uninterrupted branch is three protocol steps in a row: from a Sister
      with nothing in hand, check, record and enqueue end where it ends. */
  lemma UninterruptedBranch(s: SisterState, env: Envelope, peer: Option<SisterId>, now: Time, revoked: bool,
                            recordNow: Time, io: NonceStore.Io)
    requires env.payload.JobMsg? && s.verified == [] && s.cleared == [] && s.clock <= recordNow
    requires Judge(s.config, s.peers, env, peer, now, revoked).NeedsNonce?
    ensures var a := env.payload.job.authorization.value;
            var checked := Next(s, ReceiveJob(env, peer, now, revoked, false));
            Enabled(checked, RecordNonce(0, recordNow, io)) &&
            var recorded := Next(checked, RecordNonce(0, recordNow, io));
            if NonceStore.RecordOutcome(s.nonces, a, recordNow, io) == NonceStore.Recorded then
              Enabled(recorded, EnqueueCleared(0)) &&
              var done := Next(recorded, EnqueueCleared(0));
              && done.manager == Enqueued(s.manager, LocalJobOf(env.payload.job))
              && done.nonces == NonceStore.RecordedFile(s.nonces, a, recordNow, io)
              && done.verified == [] && done.cleared == []
            else recorded.manager == s.manager && recorded.verified == [] && recorded.cleared == []
                 && recorded.nonces == NonceStore.RecordedFile(s.nonces, a, recordNow, io)
  {
    var job := env.payload.job;
    var checked := s.(verified := [job]);
    assert s.verified + [job] == [job];
    assert Next(s, ReceiveJob(env, peer, now, revoked, false)) == checked;
    var recorded := Next(checked, RecordNonce(0, recordNow, io));
    assert Without([job], 0) == [];
    if NonceStore.RecordOutcome(s.nonces, job.authorization.value, recordNow, io) == NonceStore.Recorded {
      assert recorded.cleared == [job];
    }
  }
}
