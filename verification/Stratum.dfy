/**
 The stratum pool as a state machine: workers, the current job, the duplicate map and the job
 versions, with one function for each step of the main loop. History fields (received ids,
 judgements, reports, ...) record what has happened; no step reads them.
 */
module Stratum {
  import opened Basics
  import opened Consensus

  // ---- Protocol records --------------------------------------------------

  datatype Share = Share(height: nat, jobId: nat, nonce: nat, edgeBits: nat, pow: seq<nat>)

  datatype Job = Job(height: nat, jobId: nat, difficulty: nat, prePow: string)

  /** The text "user_id-connection_id" that keys the worker map. */
  datatype Uuid = Uuid(userId: nat, connId: string)

  datatype Status = Status(height: nat, difficulty: nat, accepted: nat, rejected: nat, stale: nat)

  datatype Counts = Counts(accepted: nat, rejected: nat, stale: nat)

  datatype WorkerShares = WorkerShares(id: Uuid, height: nat, difficulty: nat, shares: map<nat, Counts>)

  /** What the redis look-ups and the login text amount to. */
  datatype LoginParams = Missing | Invalid | Params(fields: nat, legacyId: nat, redisId: nat)

  datatype SubmitParams = NoParams | Unparsable | Parsed(share: Share)

  datatype Request =
    | Login(login: LoginParams)
    | GetJobTemplate
    | Submit(params: SubmitParams)
    | GetStatus
    | KeepAlive
    | Unknown

  datatype Message =
    | Nothing
    | ReadError
    | InvalidJson
    | Rpc(id: string, request: Request)

  /** Header construction, cycle verification and the proof hash, which live in other crates. */
  datatype Oracle = Oracle(
    header: (string, nat, nat, seq<nat>) -> bool,
    cycle: (string, nat, nat, seq<nat>) -> bool,
    hash: (nat, seq<nat>) -> nat)

  // ---- Judgements and tallies --------------------------------------------

  datatype Verdict = Accepted | Rejected | Stale

  datatype Judgement = Judgement(share: Share, verdict: Verdict, tallied: bool)

  function Add(c: Counts, v: Verdict): Counts
  {
    match v
    case Accepted => c.(accepted := c.accepted + 1)
    case Rejected => c.(rejected := c.rejected + 1)
    case Stale => c.(stale := c.stale + 1)
  }

  function Pick(c: Counts, v: Verdict): nat
  {
    match v
    case Accepted => c.accepted
    case Rejected => c.rejected
    case Stale => c.stale
  }

  function CountsFor(shares: map<nat, Counts>, size: nat): Counts
  {
    if size in shares then shares[size] else Counts(0, 0, 0)
  }

  function AddTally(shares: map<nat, Counts>, size: nat, v: Verdict): map<nat, Counts>
  {
    shares[size := Add(CountsFor(shares, size), v)]
  }

  /** The per-size tally that a list of judgements amounts to. */
  function TallyOf(js: seq<Judgement>): map<nat, Counts>
  {
    if js == [] then map[]
    else
      var j, before := js[|js| - 1], TallyOf(js[..|js| - 1]);
      if j.tallied then AddTally(before, j.share.edgeBits, j.verdict) else before
  }

  function VerdictCount(js: seq<Judgement>, v: Verdict): nat
  {
    if js == [] then 0
    else VerdictCount(js[..|js| - 1], v) + if js[|js| - 1].verdict == v then 1 else 0
  }

  /** How many judgements with this verdict were tallied under this size. */
  function SizeCount(js: seq<Judgement>, size: nat, v: Verdict): nat
  {
    if js == [] then 0
    else
      var j := js[|js| - 1];
      SizeCount(js[..|js| - 1], size, v)
      + if j.tallied && j.verdict == v && j.share.edgeBits == size then 1 else 0
  }

  // ---- Worker state ------------------------------------------------------

  /** One line printed for the log collector, with the judgements it stands for. */
  datatype Report = Report(emitted: WorkerShares, entries: seq<Judgement>)

  datatype WorkerState = WorkerState(
    userId: nat,
    connId: string,
    error: bool,
    authenticated: bool,
    status: Status,
    workerShares: WorkerShares,
    shares: seq<Share>,
    requestIds: seq<string>,
    needsJob: bool,
    requestedJob: bool,
    // history
    received: seq<string>,
    answered: seq<string>,
    judged: seq<Judgement>,    // since the last login
    open: seq<Judgement>,      // since the tally was last reset
    reports: seq<Report>)      // since the last login

  function UuidOf(w: WorkerState): Uuid { Uuid(w.userId, w.connId) }

  function NewWorker(connId: string, difficulty: nat): WorkerState
  {
    WorkerState(0, connId, false, false, Status(0, difficulty, 0, 0, 0),
           WorkerShares(Uuid(0, connId), 0, 0, map[]), [], [], false, false, [], [], [], [], [])
  }

  /** Answer with the oldest unanswered request id, or "0" when there is none. */
  function Respond(w: WorkerState): WorkerState
  {
    if w.requestIds == [] then w.(answered := w.answered + ["0"])
    else w.(requestIds := w.requestIds[1..], answered := w.answered + [w.requestIds[0]])
  }

  function SendJob(w: WorkerState, delivered: bool): WorkerState
  {
    var w1 := w.(needsJob := false, requestedJob := false);
    var w2 := if w.requestedJob then Respond(w1) else w1;
    if delivered then w2 else w2.(error := true)
  }

  function ResetWorkerShares(w: WorkerState, height: nat, difficulty: nat): WorkerState
  {
    w.(workerShares := WorkerShares(UuidOf(w), height, difficulty, map[]), open := [])
  }

  function EmitReport(w: WorkerState): WorkerState
  {
    w.(reports := w.reports + [Report(w.workerShares, w.open)])
  }

  /** The user id a login resolves to, or none when it is refused. */
  function ResolveLogin(p: LoginParams): Option<nat>
    requires p.Params?
  {
    if p.fields > 3 then (if p.legacyId != 0 then Some(p.legacyId) else None)
    else if p.redisId != 0 then Some(p.redisId)
    else if p.legacyId != 0 then Some(p.legacyId)
    else None
  }

  /** A login that succeeds starts the worker's totals afresh. */
  function LogInState(w: WorkerState, p: LoginParams): WorkerState
  {
    if w.userId != 0 then w
    else if !p.Params? then w.(error := true)
    else
      match ResolveLogin(p)
      case None => w.(error := true)
      case Some(id) =>
        w.(userId := id, authenticated := true, needsJob := false,
           status := Status(0, 0, 0, 0, 0), judged := [], reports := [])
  }

  function LogIn(w: WorkerState, p: LoginParams): WorkerState { Respond(LogInState(w, p)) }

  predicate Panics(m: Message) { m.Rpc? && m.request == Submit(NoParams) }

  /** Queue the id of a request before anything is done about it. */
  function Receive(w: WorkerState, id: string): WorkerState
  {
    w.(requestIds := w.requestIds + [id], received := w.received + [id])
  }

  function HandleRequest(w: WorkerState, request: Request): WorkerState
  {
    match request
    case Login(p) => LogIn(w, p)
    case GetJobTemplate => w.(needsJob := true, requestedJob := true)
    case Submit(p) => if p.Parsed? then w.(shares := w.shares + [p.share]) else w
    case GetStatus => Respond(w)
    case KeepAlive => Respond(w)
    case Unknown => w.(error := true)
  }

  function HandleMessage(w: WorkerState, m: Message): WorkerState
  {
    match m
    case Nothing => w
    case ReadError => w.(error := true)
    case InvalidJson => w.(error := true)
    case Rpc(id, request) => HandleRequest(Receive(w, id), request)
  }

  // ---- Judging a share ---------------------------------------------------

  datatype Outcome =
    | Duplicate | BadSize | BadLength | TooLate | UnknownJob | BadHeader | BadCycle
    | BelowOne | BelowWorker | Good

  /** The sizes that the share check lets through. */
  predicate IsPowSize(size: nat) { !(size < 29 || size == 30) }

  /** The compact edge_bits the header and the proof are built with. */
  function EdgeByte(share: Share): nat { share.edgeBits % 256 }

  function ShareDifficulty(o: Oracle, share: Share): nat
  {
    UnscaledDifficulty(o.hash(EdgeByte(share), share.pow))
  }

  function Classify(o: Oracle, duplicates: map<seq<nat>, nat>, height: nat, versions: map<nat, string>,
                    workerDifficulty: nat, share: Share): Outcome
  {
    if share.pow in duplicates then Duplicate
    else if !IsPowSize(share.edgeBits) then BadSize
    else if |share.pow| != PROOF_SIZE then BadLength
    else if share.height != height then TooLate
    else if share.jobId !in versions then UnknownJob
    else if !o.header(versions[share.jobId], EdgeByte(share), share.nonce, share.pow) then BadHeader
    else if !o.cycle(versions[share.jobId], EdgeByte(share), share.nonce, share.pow) then BadCycle
    else if ShareDifficulty(o, share) < 1 then BelowOne
    else if ShareDifficulty(o, share) < workerDifficulty then BelowWorker
    else Good
  }

  function VerdictOf(x: Outcome): Verdict
  {
    if x.Good? then Accepted else if x.TooLate? then Stale else Rejected
  }

  predicate IsTallied(x: Outcome) { !x.BadSize? && !x.BadLength? }

  predicate IsAnswered(x: Outcome) { !x.UnknownJob? }

  function Bump(s: Status, v: Verdict): Status
  {
    match v
    case Accepted => s.(accepted := s.accepted + 1)
    case Rejected => s.(rejected := s.rejected + 1)
    case Stale => s.(stale := s.stale + 1)
  }

  /** One status counter moves, and the tally follows when the exit tallies. */
  function Book(w: WorkerState, share: Share, x: Outcome): WorkerState
  {
    var j := Judgement(share, VerdictOf(x), IsTallied(x));
    w.(status := Bump(w.status, VerdictOf(x)),
       judged := w.judged + [j],
       open := w.open + [j],
       workerShares := if IsTallied(x)
         then w.workerShares.(shares := AddTally(w.workerShares.shares, share.edgeBits, VerdictOf(x)))
         else w.workerShares)
  }

  function Judge(w: WorkerState, share: Share, x: Outcome): WorkerState
  {
    if IsAnswered(x) then Respond(Book(w, share, x)) else Book(w, share, x)
  }

  // ---- Pool state --------------------------------------------------------

  /** A job handed to the workers and the id the server had given it. */
  datatype Issued = Issued(job: Job, serverId: nat)

  /** A share sent upstream, with the circumstances it was sent in. */
  datatype Forward = Forward(share: Share, sentId: nat, prePow: string, height: nat, issued: seq<Issued>)

  datatype PoolState = PoolState(
    job: Job,
    serverJob: Job,
    difficulty: nat,
    workers: map<Uuid, WorkerState>,
    duplicates: map<seq<nat>, nat>,
    versions: map<nat, string>,
    halted: bool,                // a panic ended the main loop
    // history
    accepted: seq<seq<nat>>,     // since the duplicate map was last cleared
    issued: seq<Issued>,         // since the height last changed
    forwarded: seq<Forward>)

  const NO_JOB := Job(0, 0, 0, "")

  function NewPool(difficulty: nat): PoolState
  {
    PoolState(NO_JOB, NO_JOB, difficulty, map[], map[], map[], false, [], [], [])
  }

  /** The job id shown to workers. */
  function ComposeJobId(height: nat, serverId: nat): nat { height * 1000 + serverId }

  function Connect(p: PoolState, connId: string): PoolState
  {
    var w := NewWorker(connId, p.difficulty);
    p.(workers := p.workers[UuidOf(w) := w])
  }

  function BroadcastTo(w: WorkerState, height: nat, difficulty: nat, delivered: bool): WorkerState
  {
    if !w.authenticated then w
    else
      var w1 := w.(status := w.status.(difficulty := difficulty, height := height));
      ResetWorkerShares(SendJob(EmitReport(w1), delivered), height, difficulty)
  }

  function SendJobTo(w: WorkerState, height: nat, difficulty: nat, delivered: bool): WorkerState
  {
    if !(w.needsJob && w.authenticated) then w
    else
      var w1 := w.(status := w.status.(difficulty := difficulty, height := height));
      SendJob(ResetWorkerShares(EmitReport(w1), height, difficulty), delivered)
  }

  function MessageFor(msgs: map<Uuid, Message>, k: Uuid): Message
  {
    if k in msgs then msgs[k] else Nothing
  }

  /** Handle a message, and drop the tally of a worker whose uuid has changed. */
  function ReadMessage(w: WorkerState, k: Uuid, m: Message, height: nat, difficulty: nat): WorkerState
  {
    var w1 := HandleMessage(w, m);
    if UuidOf(w1) != k then ResetWorkerShares(w1, height, difficulty) else w1
  }

  /** A pass over all workers: what is done to each of them. */
  datatype Pass =
    | Broadcasting(height: nat, difficulty: nat, undelivered: set<Uuid>)
    | Offering(height: nat, difficulty: nat, undelivered: set<Uuid>)
    | Reading(height: nat, difficulty: nat, msgs: map<Uuid, Message>)

  function Apply(pass: Pass, k: Uuid, w: WorkerState): WorkerState
  {
    match pass
    case Broadcasting(height, difficulty, undelivered) => BroadcastTo(w, height, difficulty, k !in undelivered)
    case Offering(height, difficulty, undelivered) => SendJobTo(w, height, difficulty, k !in undelivered)
    case Reading(height, difficulty, msgs) => ReadMessage(w, k, MessageFor(msgs, k), height, difficulty)
  }

  function ApplyAll(ws: map<Uuid, WorkerState>, pass: Pass): map<Uuid, WorkerState>
  {
    map k | k in ws :: Apply(pass, k, ws[k])
  }

  function AcceptNewJob(p: PoolState, undelivered: set<Uuid>): PoolState
  {
    if p.job.prePow == p.serverJob.prePow then p
    else
      var s := p.serverJob;
      var job := s.(jobId := ComposeJobId(s.height, s.jobId));
      var newHeight := p.job.height != s.height;
      p.(job := job,
         workers := ApplyAll(p.workers, Broadcasting(s.height, p.difficulty, undelivered)),
         duplicates := if newHeight then map[] else p.duplicates,
         accepted := if newHeight then [] else p.accepted,
         versions := (if newHeight then map[] else p.versions)[job.jobId := job.prePow],
         issued := (if newHeight then [] else p.issued) + [Issued(job, s.jobId)])
  }

  function SendJobs(p: PoolState, undelivered: set<Uuid>): PoolState
  {
    p.(workers := ApplyAll(p.workers, Offering(p.job.height, p.difficulty, undelivered)))
  }

  function WithoutErrors(ws: map<Uuid, WorkerState>): map<Uuid, WorkerState>
  {
    map k | k in ws && !ws[k].error :: ws[k]
  }

  function CleanWorkers(p: PoolState): PoolState
  {
    p.(workers := WithoutErrors(p.workers))
  }

  predicate SomePanic(msgs: map<Uuid, Message>) { exists k | k in msgs :: Panics(msgs[k]) }

  /** Take one worker out and put it back under its own uuid. */
  function RehashOne(ws: map<Uuid, WorkerState>, k: Uuid): map<Uuid, WorkerState>
  {
    if k in ws then (ws - {k})[UuidOf(ws[k]) := ws[k]] else ws
  }

  /** Second pass: re-file the changed workers one by one. */
  function Rehash(ws: map<Uuid, WorkerState>, order: seq<Uuid>): map<Uuid, WorkerState>
    decreases |order|
  {
    if order == [] then ws else Rehash(RehashOne(ws, order[0]), order[1..])
  }

  function ProcessWorkerMessages(p: PoolState, msgs: map<Uuid, Message>, order: seq<Uuid>): PoolState
  {
    if SomePanic(msgs) then p.(halted := true)
    else p.(workers := Rehash(ApplyAll(p.workers, Reading(p.job.height, p.difficulty, msgs)), order))
  }

  function ClassifyIn(o: Oracle, p: PoolState, k: Uuid, share: Share): Outcome
    requires k in p.workers
  {
    Classify(o, p.duplicates, p.job.height, p.versions, p.workers[k].status.difficulty, share)
  }

  /** Remember the proof, and record the exit with the worker. */
  function RecordIn(p: PoolState, k: Uuid, share: Share, x: Outcome): PoolState
    requires k in p.workers
  {
    p.(duplicates := if x.Duplicate? then p.duplicates else p.duplicates[share.pow := p.workers[k].userId],
       workers := p.workers[k := Judge(p.workers[k], share, x)])
  }

  /** A good share goes upstream when it meets the job's difficulty; a remainder by height zero panics. */
  function AcceptIn(o: Oracle, p: PoolState, share: Share): PoolState
    requires share.jobId in p.versions
  {
    var p1 := p.(accepted := p.accepted + [share.pow]);
    if ShareDifficulty(o, share) < p.job.difficulty then p1
    else if share.height == 0 then p1.(halted := true)
    else p1.(forwarded := p.forwarded
               + [Forward(share, share.jobId % share.height, p.versions[share.jobId], p.job.height, p.issued)])
  }

  function JudgeShare(o: Oracle, p: PoolState, k: Uuid, share: Share): PoolState
    requires k in p.workers
  {
    var x := ClassifyIn(o, p, k, share);
    if x.Good? then AcceptIn(o, RecordIn(p, k, share, x), share) else RecordIn(p, k, share, x)
  }

  function JudgeShares(o: Oracle, p: PoolState, k: Uuid, shares: seq<Share>): PoolState
    requires k in p.workers
    decreases |shares|
  {
    if shares == [] || p.halted then p else JudgeShares(o, JudgeShare(o, p, k, shares[0]), k, shares[1..])
  }

  function TakeShares(p: PoolState, k: Uuid): PoolState
    requires k in p.workers
  {
    p.(workers := p.workers[k := p.workers[k].(shares := [])])
  }

  function DrainWorker(o: Oracle, p: PoolState, k: Uuid): PoolState
  {
    if k !in p.workers then p else JudgeShares(o, TakeShares(p, k), k, p.workers[k].shares)
  }

  function ProcessShares(o: Oracle, p: PoolState, order: seq<Uuid>): PoolState
    decreases |order|
  {
    if order == [] || p.halted then p else ProcessShares(o, DrainWorker(o, p, order[0]), order[1..])
  }

  // ---- Runs --------------------------------------------------------------

  datatype Event =
    | Connected(connId: string)
    | ServerJobChanged(job: Job)
    | AcceptsNewJob(undelivered: set<Uuid>)
    | ReadsMessages(msgs: map<Uuid, Message>, order: seq<Uuid>)
    | ProcessesShares(order: seq<Uuid>)
    | SendsJobs(undelivered: set<Uuid>)
    | CleansWorkers

  predicate Enumerates(order: seq<Uuid>, keys: set<Uuid>)
  {
    && (forall i, j | 0 <= i < j < |order| :: order[i] != order[j])
    && (set k | k in order) == keys
  }

  /** The keys whose worker has a new uuid after the first pass. */
  function ChangedKeys(ws: map<Uuid, WorkerState>): set<Uuid>
  {
    set k | k in ws && UuidOf(ws[k]) != k
  }

  /** Connection ids are fresh, and the hash map hands out each key once, in any order. */
  predicate Possible(p: PoolState, e: Event)
  {
    match e
    case Connected(c) => forall k | k in p.workers :: k.connId != c
    case ReadsMessages(msgs, order) => !SomePanic(msgs) ==> Enumerates(order, ChangedKeys(ApplyAll(p.workers, Reading(p.job.height, p.difficulty, msgs))))
    case ProcessesShares(order) => Enumerates(order, p.workers.Keys)
    case _ => true
  }

  function Step(o: Oracle, p: PoolState, e: Event): PoolState
  {
    if p.halted then p
    else
      match e
      case Connected(c) => Connect(p, c)
      case ServerJobChanged(job) => p.(serverJob := job)
      case AcceptsNewJob(undelivered) => AcceptNewJob(p, undelivered)
      case ReadsMessages(msgs, order) => ProcessWorkerMessages(p, msgs, order)
      case ProcessesShares(order) => ProcessShares(o, p, order)
      case SendsJobs(undelivered) => SendJobs(p, undelivered)
      case CleansWorkers => CleanWorkers(p)
  }

  /** The states a pool can reach: any steps, in any order. */
  ghost predicate IsRun(o: Oracle, states: seq<PoolState>, events: seq<Event>)
  {
    && |states| == |events| + 1
    && (exists d :: states[0] == NewPool(d))
    && forall i | 0 <= i < |events| :: Possible(states[i], events[i]) && states[i + 1] == Step(o, states[i], events[i])
  }
}
