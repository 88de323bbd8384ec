/**
 The client's router (`maelstrom-client-process/src/router.rs`): jobs go to the broker or to
 the local worker, and what these say about a job goes back to whoever asked for it.
 */
module Routers {
  import opened Wrappers
  import opened Integers
  import opened Sequences

  type JobId = u32

  type Handle = nat

  datatype JobSpec = JobSpec(mustBeRunLocally: bool, contents: string)

  datatype RunningStatus = AtBroker(brokerStatus: string) | AtLocalWorker(workerStatus: string)

  datatype JobStatus = Running(status: RunningStatus) | Completed(id: JobId, outcome: string)

  datatype Message =
    | AddArtifact(path: string, digest: string)
    | RunJob(spec: JobSpec, handle: Handle)
    | ShutDown(error: string)
    | BrokerJobResponse(id: JobId, outcome: string)
    | BrokerJobStatusUpdate(id: JobId, status: string)
    | BrokerTransferArtifact(digest: string)
    | BrokerGeneralError(error: string)
    | LocalJobResponse(id: JobId, outcome: string)
    | LocalJobStatusUpdate(id: JobId, status: string)
    | LocalStartArtifactFetch(digest: string)

  datatype Sent =
    | JobUpdate(handle: Handle, update: JobStatus)
    | JobRequestToBroker(id: JobId, spec: JobSpec)
    | ArtifactTransferToBroker(digest: string, path: string)
    | EnqueueJobToLocalWorker(id: JobId, spec: JobSpec)
    | ArtifactFetchCompletedToLocalWorker(digest: string, result: Result<string, string>)
    | ShutdownLocalWorker(error: string)

  datatype JobEntry = JobEntry(handle: Handle, status: Option<RunningStatus>)

  // ----- What a handle has seen

  /** The updates sent to a handle, in order. */
  function UpdatesTo(sent: seq<Sent>, h: Handle): seq<JobStatus> {
    if sent == [] then []
    else
      var last := sent[|sent| - 1];
      UpdatesTo(sent[..|sent| - 1], h) + if last.JobUpdate? && last.handle == h then [last.update] else []
  }

  lemma {:induction false} SentOneMore(sent: seq<Sent>, message: Sent, h: Handle)
    ensures UpdatesTo(sent + [message], h)
         == UpdatesTo(sent, h) + if message.JobUpdate? && message.handle == h then [message.update] else []
  {
    assert (sent + [message])[..|sent|] == sent;
  }

  predicate AllRunning(updates: seq<JobStatus>) {
    forall i :: 0 <= i < |updates| ==> updates[i].Running?
  }

  /** The status kept for a live job is the last update its handle has seen; none of them is the last word. */
  predicate SeesLive(updates: seq<JobStatus>, status: Option<RunningStatus>) {
    && AllRunning(updates)
    && status == if updates == [] then None else Some(updates[|updates| - 1].status)
  }

  /** Running updates, then one completion, for this job. */
  predicate SeesCompleted(updates: seq<JobStatus>, id: JobId) {
    && updates != [] && AllRunning(updates[..|updates| - 1])
    && updates[|updates| - 1].Completed? && updates[|updates| - 1].id == id
  }

  // ----- What the peers hold

  /** The state of the router as far as jobs go; `handles` are those of all jobs ever, in order. */
  datatype Ledger = Ledger(jobs: map<JobId, JobEntry>, handles: seq<Handle>, atBroker: set<JobId>, atLocal: set<JobId>)

  /** A peer may send what concerns a job only while it holds that job; a request brings a handle of its own. */
  predicate MaySend(message: Message, standalone: bool, l: Ledger) {
    match message
    case RunJob(_, handle) => handle !in l.handles && |l.handles| < 0xffff_ffff
    case BrokerJobResponse(id, _) => id in l.atBroker
    case BrokerJobStatusUpdate(id, _) => id in l.atBroker
    case BrokerTransferArtifact(_) => !standalone
    case LocalJobResponse(id, _) => id in l.atLocal
    case LocalJobStatusUpdate(id, _) => id in l.atLocal
    case _ => true
  }

  predicate Handed(jobs: map<JobId, JobEntry>, handles: seq<Handle>) {
    forall id :: id in jobs ==> id < |handles| && jobs[id].handle == handles[id]
  }

  /** Live jobs are held by exactly one peer; each job has a handle of its own. */
  ghost predicate Owned(l: Ledger) {
    && l.jobs.Keys == l.atBroker + l.atLocal && l.atBroker !! l.atLocal
    && NoDuplicates(l.handles)
    && Handed(l.jobs, l.handles)
  }

  /** The handle of job `id` has seen what the job's state calls for. */
  ghost predicate Hears(l: Ledger, sent: seq<Sent>, id: JobId)
    requires id < |l.handles|
  {
    var updates := UpdatesTo(sent, l.handles[id]);
    if id in l.jobs then SeesLive(updates, l.jobs[id].status) else SeesCompleted(updates, id)
  }

  ghost predicate Kept(l: Ledger, sent: seq<Sent>) {
    && Owned(l)
    && (forall id: JobId :: id < |l.handles| ==> Hears(l, sent, id))
    && (forall h :: h !in l.handles ==> UpdatesTo(sent, h) == [])
  }

  lemma LiveOneMore(updates: seq<JobStatus>, before: Option<RunningStatus>, status: RunningStatus, id: JobId,
                    outcome: string)
    requires SeesLive(updates, before)
    ensures SeesLive(updates + [Running(status)], Some(status))
    ensures SeesCompleted(updates + [Completed(id, outcome)], id)
  {
    assert (updates + [Completed(id, outcome)])[..|updates|] == updates;
  }

  /** A message to anyone but a job's handle changes nothing. */
  lemma Unheard(l: Ledger, sent: seq<Sent>, message: Sent)
    requires Kept(l, sent) && !message.JobUpdate?
    ensures Kept(l, sent + [message])
  {
    hide SeesLive, SeesCompleted;
    forall h ensures UpdatesTo(sent + [message], h) == UpdatesTo(sent, h) {
      StillUnheard(sent, message, h);
    }
    forall id: JobId | id < |l.handles| ensures Hears(l, sent + [message], id) {
      assert Hears(l, sent, id);
    }
  }

  function Started(l: Ledger, id: JobId, handle: Handle, local: bool): Ledger {
    Ledger(l.jobs[id := JobEntry(handle, None)], l.handles + [handle],
           if local then l.atBroker else l.atBroker + {id}, if local then l.atLocal + {id} else l.atLocal)
  }

  lemma StartOwned(l: Ledger, handle: Handle, local: bool)
    requires Owned(l) && handle !in l.handles && |l.handles| < 0xffff_ffff
    ensures
      var after := Started(l, |l.handles|, handle, local);
      && |l.handles| !in l.jobs && Owned(after) && |after.jobs| == |l.jobs| + 1
  {
    var id: JobId := |l.handles|;
    HandedOneMore(l.jobs, l.handles, handle);
    AppendDistinct(l.handles, handle);
    hide NoDuplicates, Handed;
    AddedCount(l.jobs, id, JobEntry(handle, None));
    HeldOneMore(l.atBroker, l.atLocal, id, local);
  }

  lemma HandedOneMore(jobs: map<JobId, JobEntry>, handles: seq<Handle>, handle: Handle)
    requires Handed(jobs, handles) && |handles| < 0xffff_ffff
    ensures |handles| !in jobs && Handed(jobs[|handles| := JobEntry(handle, None)], handles + [handle])
  {
  }

  lemma HeldOneMore(atBroker: set<JobId>, atLocal: set<JobId>, id: JobId, local: bool)
    requires atBroker !! atLocal && id !in atBroker + atLocal
    ensures
      var broker, worker := if local then atBroker else atBroker + {id}, if local then atLocal + {id} else atLocal;
      broker !! worker && broker + worker == (atBroker + atLocal) + {id}
  {
  }

  lemma StartKeeps(l: Ledger, sent: seq<Sent>, handle: Handle, local: bool)
    requires Kept(l, sent) && handle !in l.handles && |l.handles| < 0xffff_ffff
    ensures
      var after := Started(l, |l.handles|, handle, local);
      && Kept(after, sent) && |l.handles| !in l.jobs
      && after.jobs.Keys == after.atBroker + after.atLocal && |after.jobs| == |l.jobs| + 1
  {
    StartOwned(l, handle, local);
    var id: JobId := |l.handles|;
    var after := Started(l, id, handle, local);
    assert after.jobs.Keys == after.atBroker + after.atLocal;
    hide UpdatesTo, SeesCompleted, Owned;
    forall other: JobId | other < |l.handles| ensures Hears(after, sent, other) {
      assert Hears(l, sent, other);
    }
    assert Hears(after, sent, id) by {
      assert SeesLive([], None);
    }
  }

  function Updated(l: Ledger, id: JobId, status: RunningStatus): Ledger
    requires id in l.jobs
  {
    l.(jobs := l.jobs[id := l.jobs[id].(status := Some(status))])
  }

  function Finished(l: Ledger, id: JobId): Ledger {
    Ledger(l.jobs - {id}, l.handles, l.atBroker - {id}, l.atLocal - {id})
  }

  /** Telling a live job's handle something: if that is what the job's new state calls for, all is as it should be. */
  lemma {:induction false} TellOne(l: Ledger, after: Ledger, sent: seq<Sent>, id: JobId, update: JobStatus)
    requires Kept(l, sent) && id in l.jobs && Owned(after) && after.handles == l.handles
    requires forall other: JobId :: other != id ==> (other in after.jobs <==> other in l.jobs)
    requires forall other :: other in l.jobs && other != id ==> after.jobs[other] == l.jobs[other]
    requires
      var updates := UpdatesTo(sent, l.handles[id]) + [update];
      if id in after.jobs then SeesLive(updates, after.jobs[id].status) else SeesCompleted(updates, id)
    ensures Kept(after, sent + [JobUpdate(l.handles[id], update)])
  {
    hide SeesLive, SeesCompleted;
    var message := JobUpdate(l.handles[id], update);
    SentOneMore(sent, message, message.handle);
    forall other: JobId | other < |l.handles| ensures Hears(after, sent + [message], other) {
      assert Hears(l, sent, other);
      if other != id {
        assert l.handles[other] != message.handle;
        StillUnheard(sent, message, l.handles[other]);
      }
    }
    forall h | h !in l.handles ensures UpdatesTo(sent + [message], h) == [] {
      StillUnheard(sent, message, h);
    }
  }

  lemma {:induction false} StillUnheard(sent: seq<Sent>, message: Sent, h: Handle)
    requires message.JobUpdate? ==> message.handle != h
    ensures UpdatesTo(sent + [message], h) == UpdatesTo(sent, h)
  {
    SentOneMore(sent, message, h);
  }

  lemma UpdateKeeps(l: Ledger, sent: seq<Sent>, id: JobId, status: RunningStatus)
    requires Kept(l, sent) && id in l.jobs
    ensures Kept(Updated(l, id, status), sent + [JobUpdate(l.jobs[id].handle, Running(status))])
  {
    hide UpdatesTo, SeesLive, SeesCompleted;
    assert Hears(l, sent, id);
    LiveOneMore(UpdatesTo(sent, l.handles[id]), l.jobs[id].status, status, id, "");
    assert Updated(l, id, status).jobs.Keys == l.jobs.Keys;
    TellOne(l, Updated(l, id, status), sent, id, Running(status));
  }

  lemma FinishKeeps(l: Ledger, sent: seq<Sent>, id: JobId, outcome: string)
    requires Kept(l, sent) && id in l.jobs
    ensures Kept(Finished(l, id), sent + [JobUpdate(l.jobs[id].handle, Completed(id, outcome))])
  {
    hide UpdatesTo, SeesLive, SeesCompleted;
    assert Hears(l, sent, id);
    LiveOneMore(UpdatesTo(sent, l.handles[id]), l.jobs[id].status, AtBroker(""), id, outcome);
    TellOne(l, Finished(l, id), sent, id, Completed(id, outcome));
  }

  // ----- What a message does

  /** A message that ends the router's work: an error from the broker, or its request for an unknown artifact. */
  predicate Refused(message: Message, artifacts: map<string, string>) {
    message.BrokerGeneralError? || (message.BrokerTransferArtifact? && message.digest !in artifacts)
  }

  /** What is sent in answer to a message. */
  function Answer(message: Message, artifacts: map<string, string>, standalone: bool, l: Ledger): seq<Sent>
    requires MaySend(message, standalone, l) && l.jobs.Keys == l.atBroker + l.atLocal && !Refused(message, artifacts)
  {
    match message
    case RunJob(spec, _) =>
      [if standalone || spec.mustBeRunLocally then EnqueueJobToLocalWorker(|l.handles|, spec)
       else JobRequestToBroker(|l.handles|, spec)]
    case BrokerJobResponse(id, outcome) => [JobUpdate(l.jobs[id].handle, Completed(id, outcome))]
    case BrokerJobStatusUpdate(id, status) => [JobUpdate(l.jobs[id].handle, Running(AtBroker(status)))]
    case BrokerTransferArtifact(digest) => [ArtifactTransferToBroker(digest, artifacts[digest])]
    case LocalJobResponse(id, outcome) => [JobUpdate(l.jobs[id].handle, Completed(id, outcome))]
    case LocalJobStatusUpdate(id, status) => [JobUpdate(l.jobs[id].handle, Running(AtLocalWorker(status)))]
    case LocalStartArtifactFetch(digest) =>
      [ArtifactFetchCompletedToLocalWorker(digest, if digest in artifacts then Ok(artifacts[digest]) else Err(digest))]
    case ShutDown(error) => [ShutdownLocalWorker(error)]
    case _ => []
  }

  /** What a message does to the jobs. */
  function After(message: Message, standalone: bool, l: Ledger): Ledger
    requires MaySend(message, standalone, l) && l.jobs.Keys == l.atBroker + l.atLocal
  {
    match message
    case RunJob(spec, handle) => Started(l, |l.handles|, handle, standalone || spec.mustBeRunLocally)
    case BrokerJobResponse(id, _) => Finished(l, id)
    case LocalJobResponse(id, _) => Finished(l, id)
    case BrokerJobStatusUpdate(id, status) => Updated(l, id, AtBroker(status))
    case LocalJobStatusUpdate(id, status) => Updated(l, id, AtLocalWorker(status))
    case _ => l
  }

  // ----- The router

  class Router {
    const standalone: bool
    var artifacts: map<string, string>
    var nextClientJobId: nat
    var jobs: map<JobId, JobEntry>
    var completedJobs: nat
    var sent: seq<Sent>
    ghost var handles: seq<Handle>
    ghost var atBroker: set<JobId>
    ghost var atLocal: set<JobId>

    ghost function Held(): Ledger
      reads this
    {
      Ledger(jobs, handles, atBroker, atLocal)
    }

    /** Live and completed jobs together are all jobs there ever were. */
    ghost predicate Valid()
      reads this
    {
      && jobs.Keys == atBroker + atLocal
      && Kept(Held(), sent)
      && |handles| == nextClientJobId == |jobs| + completedJobs
      && (standalone ==> atBroker == {})
    }

    constructor (standalone: bool)
      ensures Valid() && this.standalone == standalone && Held() == Ledger(map[], [], {}, {})
      ensures sent == [] && artifacts == map[] && nextClientJobId == 0
    {
      this.standalone := standalone;
      artifacts, nextClientJobId, jobs, completedJobs, sent := map[], 0, map[], 0, [];
      handles, atBroker, atLocal := [], {}, {};
    }

    method ReceiveJobResponse(id: JobId, outcome: string)
      requires Valid() && id in jobs
      modifies `jobs, `completedJobs, `sent, `atBroker, `atLocal
      ensures Valid() && Held() == old(Finished(Held(), id)) && completedJobs == old(completedJobs) + 1
      ensures sent == old(sent) + [JobUpdate(old(jobs)[id].handle, Completed(id, outcome))]
    {
      hide Kept;
      FinishKeeps(Held(), sent, id, outcome);
      RemovedCount(jobs, id);
      var handle := jobs[id].handle;
      jobs := jobs - {id};
      sent := sent + [JobUpdate(handle, Completed(id, outcome))];
      completedJobs := completedJobs + 1;
      atBroker, atLocal := atBroker - {id}, atLocal - {id};
    }

    method ReceiveJobStatusUpdate(id: JobId, status: RunningStatus)
      requires Valid() && id in jobs
      modifies `jobs, `sent
      ensures Valid() && Held() == old(Updated(Held(), id, status))
      ensures sent == old(sent) + [JobUpdate(old(jobs)[id].handle, Running(status))]
    {
      hide Kept;
      UpdateKeeps(Held(), sent, id, status);
      var job := jobs[id].(status := Some(status));
      assert jobs[id := job].Keys == jobs.Keys;
      jobs := jobs[id := job];
      sent := sent + [JobUpdate(job.handle, Running(status))];
    }

    /** Gives a new job the next number. */
    method AddJob(handle: Handle, ghost local: bool) returns (id: JobId)
      requires Valid() && handle !in handles && nextClientJobId < 0xffff_ffff && (standalone ==> local)
      modifies `nextClientJobId, `jobs, `handles, `atBroker, `atLocal
      ensures Valid() && id == old(nextClientJobId) && id !in old(jobs)
      ensures Held() == old(Started(Held(), nextClientJobId, handle, local))
    {
      hide Kept;
      StartKeeps(Held(), sent, handle, local);
      ghost var after := Started(Held(), nextClientJobId, handle, local);
      id := nextClientJobId;
      nextClientJobId := nextClientJobId + 1;
      assert id !in jobs;
      jobs := jobs[id := JobEntry(handle, None)];
      handles := handles + [handle];
      atBroker := if local then atBroker else atBroker + {id};
      atLocal := if local then atLocal + {id} else atLocal;
      assert Held() == after;
    }

    method Send(message: Sent)
      requires Valid() && !message.JobUpdate?
      modifies `sent
      ensures Valid() && sent == old(sent) + [message]
    {
      Unheard(Held(), sent, message);
      hide Kept;
      sent := sent + [message];
    }

    /** Takes one message. Nothing a peer may send makes it panic, and only two kinds of message are refused. */
    method ReceiveMessage(message: Message) returns (r: Result<(), string>)
      requires Valid() && MaySend(message, standalone, Held())
      modifies this
      ensures Valid()
      ensures r.Err? <==> Refused(message, old(artifacts))
      ensures r.Err? ==> sent == old(sent) && Held() == old(Held()) && artifacts == old(artifacts)
      ensures r.Ok? ==> sent == old(sent) + Answer(message, old(artifacts), standalone, old(Held()))
      ensures Held() == After(message, standalone, old(Held()))
      ensures artifacts
           == if message.AddArtifact? then old(artifacts)[message.digest := message.path] else old(artifacts)
    {
      hide Kept, Started, Finished, Updated;
      assert sent + [] == sent;
      r := Ok(());
      match message {
        case AddArtifact(path, digest) =>
          artifacts := artifacts[digest := path];
        case RunJob(spec, handle) =>
          var local := standalone || spec.mustBeRunLocally;
          var id := AddJob(handle, local);
          if local {
            Send(EnqueueJobToLocalWorker(id, spec));
          } else {
            Send(JobRequestToBroker(id, spec));
          }
        case BrokerJobResponse(id, outcome) =>
          assert !standalone;
          ReceiveJobResponse(id, outcome);
        case BrokerJobStatusUpdate(id, status) =>
          ReceiveJobStatusUpdate(id, AtBroker(status));
        case BrokerTransferArtifact(digest) =>
          assert !standalone;
          if digest !in artifacts {
            return Err(digest);
          }
          Send(ArtifactTransferToBroker(digest, artifacts[digest]));
        case BrokerGeneralError(error) =>
          return Err(error);
        case LocalJobResponse(id, outcome) =>
          ReceiveJobResponse(id, outcome);
        case LocalJobStatusUpdate(id, status) =>
          ReceiveJobStatusUpdate(id, AtLocalWorker(status));
        case LocalStartArtifactFetch(digest) =>
          var result := if digest in artifacts then Ok(artifacts[digest]) else Err(digest);
          Send(ArtifactFetchCompletedToLocalWorker(digest, result));
        case ShutDown(error) =>
          Send(ShutdownLocalWorker(error));
      }
    }
  }

  // ----- Whole runs

  /** What a run has come to: the jobs, the artifacts, everything sent, and whether the router still takes messages. */
  datatype Progress = Progress(ledger: Ledger, artifacts: map<string, string>, sent: seq<Sent>, running: bool)

  /** One more message. After the end nothing happens; what a sender may not send is no part of a run. */
  function Advance(p: Progress, message: Message, standalone: bool): Progress {
    if !p.running || p.ledger.jobs.Keys != p.ledger.atBroker + p.ledger.atLocal then p
    else if !MaySend(message, standalone, p.ledger) then p
    else if Refused(message, p.artifacts) then p.(running := false)
    else Progress(
        After(message, standalone, p.ledger),
        if message.AddArtifact? then p.artifacts[message.digest := message.path] else p.artifacts,
        p.sent + Answer(message, p.artifacts, standalone, p.ledger),
        true)
  }

  function AdvanceAll(messages: seq<Message>, standalone: bool): Progress {
    if messages == [] then Progress(Ledger(map[], [], {}, {}), map[], [], true)
    else Advance(AdvanceAll(messages[..|messages| - 1], standalone), messages[|messages| - 1], standalone)
  }

  /** At each point of the run the sender of the next message may send it. */
  predicate AllMaySend(messages: seq<Message>, standalone: bool) {
    forall i :: 0 <= i < |messages| ==>
                  var p := AdvanceAll(messages[..i], standalone);
                  p.running ==> MaySend(messages[i], standalone, p.ledger)
  }

  /** Any messages that well-behaved peers send, in any order, until one ends the router's work. */
  method Run(standalone: bool, messages: seq<Message>) returns (router: Router, running: bool)
    requires AllMaySend(messages, standalone)
    ensures fresh(router) && router.Valid() && router.standalone == standalone
    ensures AdvanceAll(messages, standalone) == Progress(router.Held(), router.artifacts, router.sent, running)
  {
    hide Kept, Started, Updated, Finished, Answer, MaySend, After, Refused;
    router := new Router(standalone);
    running := true;
    for i := 0 to |messages|
      invariant fresh(router) && router.Valid() && router.standalone == standalone
      invariant AdvanceAll(messages[..i], standalone) == Progress(router.Held(), router.artifacts, router.sent, running)
    {
      assert messages[..i + 1][..i] == messages[..i];
      if running {
        var r := router.ReceiveMessage(messages[i]);
        running := r.Ok?;
      }
    }
    assert messages[..|messages|] == messages;
  }

  // ----- What messages come to in a run

  /** The handles that jobs were asked for with, in order. */
  function AskedWith(messages: seq<Message>): seq<Handle> {
    if messages == [] then []
    else
      var last := messages[|messages| - 1];
      AskedWith(messages[..|messages| - 1]) + if last.RunJob? then [last.handle] else []
  }

  /** The message at `i` adds the artifact, and no later one does. */
  predicate LastAdds(messages: seq<Message>, i: nat, digest: string, path: string) {
    && i < |messages| && messages[i] == AddArtifact(path, digest)
    && forall j :: i < j < |messages| ==> !(messages[j].AddArtifact? && messages[j].digest == digest)
  }

  /** Each artifact is where it was last said to be. */
  ghost predicate ArtifactsAre(messages: seq<Message>, artifacts: map<string, string>) {
    && (forall i :: 0 <= i < |messages| && messages[i].AddArtifact? ==> messages[i].digest in artifacts)
    && (forall digest :: digest in artifacts ==> exists i: nat :: LastAdds(messages, i, digest, artifacts[digest]))
  }

  lemma {:induction false} AllMaySendBefore(messages: seq<Message>, message: Message, standalone: bool)
    requires AllMaySend(messages + [message], standalone)
    ensures AllMaySend(messages, standalone)
    ensures AdvanceAll(messages, standalone).running ==>
              MaySend(message, standalone, AdvanceAll(messages, standalone).ledger)
  {
    var all := messages + [message];
    assert all[|messages|] == message && all[..|messages|] == messages;
    assert forall i :: 0 <= i < |messages| ==> all[i] == messages[i] && all[..i] == messages[..i];
  }

  lemma AfterOwned(l: Ledger, message: Message, standalone: bool)
    requires Owned(l) && MaySend(message, standalone, l)
    ensures Owned(After(message, standalone, l))
  {
    OwnedKeys(l);
    hide Owned, Updated, Finished, Started;
    match message {
      case RunJob(spec, handle) => StartOwned(l, handle, standalone || spec.mustBeRunLocally);
      case BrokerJobStatusUpdate(id, status) => UpdateOwned(l, id, AtBroker(status));
      case LocalJobStatusUpdate(id, status) => UpdateOwned(l, id, AtLocalWorker(status));
      case BrokerJobResponse(id, _) => FinishOwned(l, id);
      case LocalJobResponse(id, _) => FinishOwned(l, id);
      case _ =>
    }
  }

  lemma UpdateOwned(l: Ledger, id: JobId, status: RunningStatus)
    requires Owned(l) && id in l.jobs
    ensures Owned(Updated(l, id, status))
  {
    hide NoDuplicates;
    assert Updated(l, id, status).jobs.Keys == l.jobs.Keys;
  }

  lemma FinishOwned(l: Ledger, id: JobId)
    requires Owned(l) && id in l.jobs
    ensures Owned(Finished(l, id))
  {
    hide NoDuplicates;
    assert (l.jobs - {id}).Keys == l.jobs.Keys - {id};
  }

  lemma ArtifactsOneMore(messages: seq<Message>, artifacts: map<string, string>, message: Message)
    requires ArtifactsAre(messages, artifacts)
    ensures ArtifactsAre(messages + [message],
                         if message.AddArtifact? then artifacts[message.digest := message.path] else artifacts)
  {
    var all := messages + [message];
    var after := if message.AddArtifact? then artifacts[message.digest := message.path] else artifacts;
    forall digest | digest in after ensures exists i: nat :: LastAdds(all, i, digest, after[digest]) {
      if message.AddArtifact? && message.digest == digest {
        assert LastAdds(all, |messages|, digest, after[digest]);
      } else {
        var i: nat :| LastAdds(messages, i, digest, artifacts[digest]);
        assert LastAdds(all, i, digest, after[digest]);
      }
    }
  }

  lemma {:induction false} RunRecords(messages: seq<Message>, standalone: bool)
    requires AllMaySend(messages, standalone) && AdvanceAll(messages, standalone).running
    ensures
      var p := AdvanceAll(messages, standalone);
      Owned(p.ledger) && p.ledger.handles == AskedWith(messages) && ArtifactsAre(messages, p.artifacts)
  {
    hide Owned, After, MaySend, Answer, ArtifactsAre, AllMaySend, Refused;
    if messages == [] {
      NothingHeld();
    } else {
      var front, last := messages[..|messages| - 1], messages[|messages| - 1];
      assert messages == front + [last];
      AllMaySendBefore(front, last, standalone);
      RunRecords(front, standalone);
      var p := AdvanceAll(front, standalone);
      OwnedKeys(p.ledger);
      AfterOwned(p.ledger, last, standalone);
      AfterHandles(p.ledger, last, standalone);
      ArtifactsOneMore(front, p.artifacts, last);
    }
  }

  lemma NothingHeld()
    ensures Owned(Ledger(map[], [], {}, {})) && ArtifactsAre([], map[])
  {
  }

  lemma OwnedKeys(l: Ledger)
    requires Owned(l)
    ensures l.jobs.Keys == l.atBroker + l.atLocal
  {
  }

  lemma AfterHandles(l: Ledger, message: Message, standalone: bool)
    requires MaySend(message, standalone, l) && l.jobs.Keys == l.atBroker + l.atLocal
    ensures After(message, standalone, l).handles == l.handles + if message.RunJob? then [message.handle] else []
  {
  }

  /** No message adds the artifact. */
  predicate NeverAdded(messages: seq<Message>, digest: string) {
    forall i :: 0 <= i < |messages| && messages[i].AddArtifact? ==> messages[i].digest != digest
  }

  /**
   What a message makes the router send after `before`: a job goes to where it must run, under the next
   number; what a peer says of job `id` reaches the handle that the `id`th job was asked for with, word for
   word; and whoever asks for an artifact is told where it was last said to be.
   */
  ghost predicate Sends(before: seq<Message>, message: Message, standalone: bool, added: seq<Sent>) {
    var asked := AskedWith(before);
    match message
    case RunJob(spec, _) =>
      |asked| < 0x1_0000_0000 &&
      added == if standalone || spec.mustBeRunLocally then [EnqueueJobToLocalWorker(|asked|, spec)]
             else [JobRequestToBroker(|asked|, spec)]
    case BrokerJobResponse(id, outcome) => id < |asked| && added == [JobUpdate(asked[id], Completed(id, outcome))]
    case LocalJobResponse(id, outcome) => id < |asked| && added == [JobUpdate(asked[id], Completed(id, outcome))]
    case BrokerJobStatusUpdate(id, status) => id < |asked| && added == [JobUpdate(asked[id], Running(AtBroker(status)))]
    case LocalJobStatusUpdate(id, status) =>
      id < |asked| && added == [JobUpdate(asked[id], Running(AtLocalWorker(status)))]
    case LocalStartArtifactFetch(digest) =>
      && (forall i, path :: LastAdds(before, i, digest, path) ==>
            added == [ArtifactFetchCompletedToLocalWorker(digest, Ok(path))])
      && (NeverAdded(before, digest) ==> added == [ArtifactFetchCompletedToLocalWorker(digest, Err(digest))])
    case BrokerTransferArtifact(digest) =>
      && (forall i, path :: LastAdds(before, i, digest, path) ==> added == [ArtifactTransferToBroker(digest, path)])
      && (NeverAdded(before, digest) ==> added == [])
    case ShutDown(error) => added == [ShutdownLocalWorker(error)]
    case AddArtifact(_, _) => added == []
    case BrokerGeneralError(_) => added == []
  }

  /** The messages that end a run: an error, or a request for an artifact that was never added. */
  predicate Ends(before: seq<Message>, message: Message) {
    message.BrokerGeneralError? || (message.BrokerTransferArtifact? && NeverAdded(before, message.digest))
  }

  /** What one more message does to a run, told in terms of the messages before it alone. */
  lemma SentInRun(messages: seq<Message>, standalone: bool, message: Message) returns (added: seq<Sent>)
    requires AllMaySend(messages + [message], standalone) && AdvanceAll(messages, standalone).running
    ensures Sends(messages, message, standalone, added)
    ensures
      var before, after := AdvanceAll(messages, standalone), AdvanceAll(messages + [message], standalone);
      after.sent == before.sent + added && (after.running <==> !Ends(messages, message))
  {
    AllMaySendBefore(messages, message, standalone);
    RunRecords(messages, standalone);
    var p := AdvanceAll(messages, standalone);
    assert (messages + [message])[..|messages|] == messages;
    assert AdvanceAll(messages + [message], standalone) == Advance(p, message, standalone);
    ArtifactsMean(messages, p.artifacts);
    added := if Refused(message, p.artifacts) then [] else Answer(message, p.artifacts, standalone, p.ledger);
  }

  lemma ArtifactsMean(messages: seq<Message>, artifacts: map<string, string>)
    requires ArtifactsAre(messages, artifacts)
    ensures forall digest :: digest !in artifacts <==> NeverAdded(messages, digest)
    ensures forall i, digest, path :: LastAdds(messages, i, digest, path) ==>
                                        digest in artifacts && artifacts[digest] == path
  {
    forall digest ensures digest !in artifacts <==> NeverAdded(messages, digest) {
      if digest in artifacts {
        var i: nat :| LastAdds(messages, i, digest, artifacts[digest]);
        assert messages[i].AddArtifact? && messages[i].digest == digest;
      }
    }
    forall i: nat, digest, path | LastAdds(messages, i, digest, path)
      ensures digest in artifacts && artifacts[digest] == path
    {
      assert messages[i].AddArtifact?;
      var k: nat :| LastAdds(messages, k, digest, artifacts[digest]);
      assert messages[k].AddArtifact?;
    }
  }

  lemma AddedCount<K, V>(m: map<K, V>, k: K, v: V)
    requires k !in m
    ensures |m[k := v]| == |m| + 1 && m[k := v].Keys == m.Keys + {k}
  {
    assert m[k := v].Keys == m.Keys + {k};
  }

  lemma RemovedCount<K, V>(m: map<K, V>, k: K)
    requires k in m
    ensures |m - {k}| == |m| - 1
  {
    assert (m - {k}).Keys == m.Keys - {k};
  }
}
