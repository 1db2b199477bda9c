/**
 What each step of the stratum pool achieves, told from the states before and after it and from the literal
 conditions of the protocol.
 */
module StratumLaws {
  import opened Basics
  import opened Consensus
  import opened Stratum
  import opened StratumSafety

  // ---- The exits of the share check --------------------------------------

  predicate SizeTaken(size: nat) { size == 29 || size >= 31 }

  /** The hash is small enough for a difficulty. */
  predicate Meets(hash: nat, difficulty: nat)
  {
    difficulty == 0 || (if hash == 0 then 1 else hash) * difficulty <= 0x1_0000_0000_0000_0000
  }

  /** Hash and difficulties are 64-bit words. */
  predicate Words(o: Oracle, p: PoolState, k: Uuid, share: Share)
    requires k in p.workers
  {
    && o.hash(share.edgeBits % 256, share.pow) < 0x1_0000_0000_0000_0000
    && p.workers[k].status.difficulty < 0x1_0000_0000_0000_0000
    && p.job.difficulty < 0x1_0000_0000_0000_0000
  }

  /** A new proof of a size and length that are taken. */
  predicate WellFormed(p: PoolState, share: Share)
  {
    share.pow !in p.duplicates && SizeTaken(share.edgeBits) && |share.pow| == 42
  }

  predicate IsLate(p: PoolState, share: Share) { WellFormed(p, share) && share.height != p.job.height }

  predicate IsForUnknownJob(p: PoolState, share: Share)
  {
    WellFormed(p, share) && share.height == p.job.height && share.jobId !in p.versions
  }

  /** A verified proof for a current job that meets the worker's difficulty. */
  predicate IsAccepted(o: Oracle, p: PoolState, k: Uuid, share: Share)
    requires k in p.workers
  {
    && WellFormed(p, share)
    && share.height == p.job.height
    && share.jobId in p.versions
    && o.header(p.versions[share.jobId], share.edgeBits % 256, share.nonce, share.pow)
    && o.cycle(p.versions[share.jobId], share.edgeBits % 256, share.nonce, share.pow)
    && Meets(o.hash(share.edgeBits % 256, share.pow), p.workers[k].status.difficulty)
  }

  /** A difficulty is reached exactly when the hash meets it. */
  lemma DifficultyMeets(hash: nat, d: nat)
    requires hash < 0x1_0000_0000_0000_0000 && d < 0x1_0000_0000_0000_0000
    ensures UnscaledDifficulty(hash) >= d <==> Meets(hash, d)
  {
    if d > 0 { UnscaledDifficultyThreshold(hash, d); }
  }

  lemma ClassifiedGood(o: Oracle, p: PoolState, k: Uuid, share: Share)
    requires k in p.workers && Words(o, p, k, share)
    ensures ClassifyIn(o, p, k, share).Good? <==> IsAccepted(o, p, k, share)
    ensures ClassifyIn(o, p, k, share).TooLate? <==> IsLate(p, share)
    ensures ClassifyIn(o, p, k, share).UnknownJob? <==> IsForUnknownJob(p, share)
  {
    DifficultyMeets(o.hash(share.edgeBits % 256, share.pow), p.workers[k].status.difficulty);
  }

  /** Exactly one status counter moves: accepted, stale, or rejected for every other reason. */
  lemma ShareMovesStatus(o: Oracle, p: PoolState, k: Uuid, share: Share)
    requires k in p.workers && Words(o, p, k, share)
    ensures k in JudgeShare(o, p, k, share).workers
    ensures var s, s' := p.workers[k].status, JudgeShare(o, p, k, share).workers[k].status;
            s' == if IsAccepted(o, p, k, share) then s.(accepted := s.accepted + 1)
                  else if IsLate(p, share) then s.(stale := s.stale + 1)
                  else s.(rejected := s.rejected + 1)
  {
    ClassifiedGood(o, p, k, share);
    JudgeShareShape(o, p, k, share);
  }

  /** The tally follows under the share's size, unless a new proof has a size or length that is refused. */
  lemma ShareMovesTally(o: Oracle, p: PoolState, k: Uuid, share: Share)
    requires k in p.workers && Words(o, p, k, share)
    ensures k in JudgeShare(o, p, k, share).workers
    ensures var t, t' := p.workers[k].workerShares, JudgeShare(o, p, k, share).workers[k].workerShares;
            var c := if share.edgeBits in t.shares then t.shares[share.edgeBits] else Counts(0, 0, 0);
            t' == if share.pow !in p.duplicates && !WellFormed(p, share) then t
                  else t.(shares := t.shares[share.edgeBits :=
                            if IsAccepted(o, p, k, share) then c.(accepted := c.accepted + 1)
                            else if IsLate(p, share) then c.(stale := c.stale + 1)
                            else c.(rejected := c.rejected + 1)])
  {
    ClassifiedGood(o, p, k, share);
    JudgeShareShape(o, p, k, share);
  }

  /** Every share but one for an unknown job is answered, with the oldest id; its proof is remembered; nobody else is touched. */
  lemma ShareIsAnswered(o: Oracle, p: PoolState, k: Uuid, share: Share)
    requires k in p.workers && Words(o, p, k, share)
    ensures var p' := JudgeShare(o, p, k, share);
            && p'.workers.Keys == p.workers.Keys
            && (forall j | j in p.workers && j != k :: p'.workers[j] == p.workers[j])
            && p'.duplicates == (if share.pow in p.duplicates then p.duplicates else p.duplicates[share.pow := p.workers[k].userId])
            && p'.job == p.job && p'.difficulty == p.difficulty && p'.versions == p.versions
    ensures var w, w' := p.workers[k], JudgeShare(o, p, k, share).workers[k];
            if IsForUnknownJob(p, share) then w'.answered == w.answered && w'.requestIds == w.requestIds
            else w'.answered == w.answered + [Oldest(w.requestIds)] && w'.requestIds == Later(w.requestIds)
  {
    ClassifiedGood(o, p, k, share);
    JudgeShareShape(o, p, k, share);
  }

  /** The id that the next answer carries, and what is left of the queue. */
  function Oldest(ids: seq<string>): string { if ids == [] then "0" else ids[0] }

  function Later(ids: seq<string>): seq<string> { if ids == [] then [] else ids[1..] }

  // ---- What goes upstream ------------------------------------------------

  /** What one share sends upstream: itself, under the server's job id, if it is accepted and meets the job's difficulty. */
  function SentBy(o: Oracle, p: PoolState, k: Uuid, share: Share): seq<Forward>
    requires k in p.workers
  {
    if IsAccepted(o, p, k, share) && share.height > 0 && Meets(o.hash(share.edgeBits % 256, share.pow), p.job.difficulty)
    then [Forward(share, share.jobId % share.height, p.versions[share.jobId], p.job.height, p.issued)]
    else []
  }

  /** Accepted proofs are remembered as such, strong ones go upstream, and at height zero a strong one panics. */
  lemma ShareIsSent(o: Oracle, p: PoolState, k: Uuid, share: Share)
    requires k in p.workers && Words(o, p, k, share)
    ensures var p' := JudgeShare(o, p, k, share);
            && p'.forwarded == p.forwarded + SentBy(o, p, k, share)
            && p'.accepted == p.accepted + (if IsAccepted(o, p, k, share) then [share.pow] else [])
            && var panics := IsAccepted(o, p, k, share) && share.height == 0 && Meets(o.hash(share.edgeBits % 256, share.pow), p.job.difficulty);
            p'.halted == (p.halted || panics)
  {
    ClassifiedGood(o, p, k, share);
    DifficultyMeets(o.hash(share.edgeBits % 256, share.pow), p.job.difficulty);
  }

  /** All hashes and difficulties are 64-bit words. */
  ghost predicate AllWords(o: Oracle, p: PoolState)
  {
    && (forall size, pow :: o.hash(size, pow) < 0x1_0000_0000_0000_0000)
    && p.job.difficulty < 0x1_0000_0000_0000_0000
    && forall k | k in p.workers :: p.workers[k].status.difficulty < 0x1_0000_0000_0000_0000
  }

  lemma JudgeKeepsWords(o: Oracle, p: PoolState, k: Uuid, share: Share)
    requires k in p.workers && AllWords(o, p)
    ensures k in JudgeShare(o, p, k, share).workers && AllWords(o, JudgeShare(o, p, k, share))
  {
    JudgeShareShape(o, p, k, share);
  }

  /** What the shares of one worker, and of all workers in turn, send upstream. */
  function SentByAll(o: Oracle, p: PoolState, k: Uuid, shares: seq<Share>): seq<Forward>
    requires k in p.workers
    decreases |shares|
  {
    if shares == [] || p.halted then []
    else SentBy(o, p, k, shares[0]) + SentByAll(o, JudgeShare(o, p, k, shares[0]), k, shares[1..])
  }

  function SentByWorkers(o: Oracle, p: PoolState, order: seq<Uuid>): seq<Forward>
    decreases |order|
  {
    if order == [] || p.halted then []
    else SentByWorker(o, p, order[0]) + SentByWorkers(o, DrainWorker(o, p, order[0]), order[1..])
  }

  function SentByWorker(o: Oracle, p: PoolState, k: Uuid): seq<Forward>
  {
    if k in p.workers then SentByAll(o, TakeShares(p, k), k, p.workers[k].shares) else []
  }

  lemma {:induction false} SharesAreSent(o: Oracle, p: PoolState, k: Uuid, shares: seq<Share>)
    requires k in p.workers && AllWords(o, p)
    ensures JudgeShares(o, p, k, shares).forwarded == p.forwarded + SentByAll(o, p, k, shares)
    ensures AllWords(o, JudgeShares(o, p, k, shares))
    decreases |shares|
  {
    if shares != [] && !p.halted {
      var p1 := JudgeShare(o, p, k, shares[0]);
      JudgeForwards(o, p, k, shares[0]);
      SharesAreSent(o, p1, k, shares[1..]);
      assert JudgeShares(o, p, k, shares) == JudgeShares(o, p1, k, shares[1..]);
      Regrouped(p.forwarded, SentBy(o, p, k, shares[0]), SentByAll(o, p1, k, shares[1..]));
    }
  }

  lemma JudgeForwards(o: Oracle, p: PoolState, k: Uuid, share: Share)
    requires k in p.workers && AllWords(o, p)
    ensures k in JudgeShare(o, p, k, share).workers && AllWords(o, JudgeShare(o, p, k, share))
    ensures JudgeShare(o, p, k, share).forwarded == p.forwarded + SentBy(o, p, k, share)
  {
    ShareIsSent(o, p, k, share);
    JudgeKeepsWords(o, p, k, share);
  }

  lemma Regrouped(a: seq<Forward>, b: seq<Forward>, c: seq<Forward>)
    ensures a + b + c == a + (b + c)
  {}

  /** Draining the workers sends exactly their strong shares upstream, in order. */
  lemma {:induction false} WorkersAreSent(o: Oracle, p: PoolState, order: seq<Uuid>)
    requires AllWords(o, p)
    ensures ProcessShares(o, p, order).forwarded == p.forwarded + SentByWorkers(o, p, order)
    decreases |order|
  {
    if order != [] && !p.halted {
      var p1 := DrainWorker(o, p, order[0]);
      WorkerIsSent(o, p, order[0]);
      WorkersAreSent(o, p1, order[1..]);
      assert ProcessShares(o, p, order) == ProcessShares(o, p1, order[1..]);
      Regrouped(p.forwarded, SentByWorker(o, p, order[0]), SentByWorkers(o, p1, order[1..]));
    }
  }

  lemma WorkerIsSent(o: Oracle, p: PoolState, k: Uuid)
    requires AllWords(o, p)
    ensures DrainWorker(o, p, k).forwarded == p.forwarded + SentByWorker(o, p, k) && AllWords(o, DrainWorker(o, p, k))
  {
    if k in p.workers {
      SharesAreSent(o, TakeShares(p, k), k, p.workers[k].shares);
    }
  }

  /** What the first `n` events of a run send upstream. */
  ghost function SentInRun(o: Oracle, states: seq<PoolState>, events: seq<Event>, n: nat): seq<Forward>
    requires n <= |events| < |states|
  {
    if n == 0 then []
    else
      SentInRun(o, states, events, n - 1)
      + if events[n - 1].ProcessesShares? then SentByWorkers(o, states[n - 1], events[n - 1].order) else []
  }

  /** In every run upstream has got exactly the strong shares of all share passes. */
  lemma {:induction false} RunSendsStrongShares(o: Oracle, states: seq<PoolState>, events: seq<Event>, n: nat)
    requires IsRun(o, states, events) && n < |states|
    requires forall i | 0 <= i < n :: AllWords(o, states[i])
    ensures states[n].forwarded == SentInRun(o, states, events, n)
    decreases n
  {
    if n > 0 {
      RunSendsStrongShares(o, states, events, n - 1);
      OnlySharesAreSent(o, states[n - 1], events[n - 1]);
    }
  }

  lemma OnlySharesAreSent(o: Oracle, p: PoolState, e: Event)
    requires AllWords(o, p)
    ensures Step(o, p, e).forwarded
         == p.forwarded + if e.ProcessesShares? then SentByWorkers(o, p, e.order) else []
  {
    if e.ProcessesShares? { WorkersAreSent(o, p, e.order); }
  }

  // ---- Requests ----------------------------------------------------------

  /** What each request but a login does to its worker. */
  lemma RequestOutcome(w: WorkerState, id: string, request: Request)
    requires !request.Login?
    ensures var queue := w.requestIds + [id];
            var got := w.(received := w.received + [id], requestIds := queue);
            HandleMessage(w, Rpc(id, request)) ==
            match request
            case GetJobTemplate => got.(needsJob := true, requestedJob := true)
            case Submit(p) => if p.Parsed? then got.(shares := w.shares + [p.share]) else got
            case Unknown => got.(error := true)
            case _ => got.(requestIds := queue[1..], answered := w.answered + [queue[0]])
  {
  }

  /** The user a login names: by the legacy id when the login text has more than three fields, else by either look-up. */
  function Named(p: LoginParams): nat
  {
    if !p.Params? then 0
    else if p.fields > 3 || p.redisId == 0 then p.legacyId
    else p.redisId
  }

  /** A first login that names a user starts afresh as that user; one that does not puts the worker in error; both are answered. */
  lemma LoginOutcome(w: WorkerState, id: string, p: LoginParams)
    ensures var queue := w.requestIds + [id];
            var told := w.(received := w.received + [id], requestIds := queue[1..], answered := w.answered + [queue[0]]);
            HandleMessage(w, Rpc(id, Login(p))) ==
            if w.userId != 0 then told
            else if Named(p) == 0 then told.(error := true)
            else told.(userId := Named(p), authenticated := true, needsJob := false,
                       status := Status(0, 0, 0, 0, 0), judged := [], reports := [])
  {
  }

  /** Broken input puts the worker in error; silence changes nothing. */
  lemma NoRequestOutcome(w: WorkerState)
    ensures HandleMessage(w, Nothing) == w
    ensures HandleMessage(w, ReadError) == HandleMessage(w, InvalidJson) == w.(error := true)
  {
  }

  /** What no message changes: the connection, the tally, and the user once there is one. */
  lemma HandlingShape(w: WorkerState, m: Message)
    ensures var w1 := HandleMessage(w, m);
            && w1.connId == w.connId && w1.workerShares == w.workerShares && w1.open == w.open
            && (w1.reports == w.reports || w1.reports == [])
            && (w1.userId == w.userId ==> w1.authenticated == w.authenticated)
            && (w.userId != 0 ==> w1.userId == w.userId)
  {
    if m.Rpc? && m.request.Login? {
      LoginOutcome(w, m.id, m.request.login);
    } else if m.Rpc? {
      RequestOutcome(w, m.id, m.request);
    }
  }

  /** One message of one worker; a worker whose user changes gets an empty tally. */
  lemma ReadOneOutcome(w: WorkerState, k: Uuid, m: Message, height: nat, difficulty: nat)
    requires UuidOf(w) == k
    ensures var w1 := HandleMessage(w, m);
            var key := Uuid(w1.userId, k.connId);
            UuidOf(ReadMessage(w, k, m, height, difficulty)) == key &&
            ReadMessage(w, k, m, height, difficulty) ==
              if w1.userId == k.userId then w1 else w1.(workerShares := WorkerShares(key, height, difficulty, map[]), open := [])
  {
    HandlingShape(w, m);
  }

  /** Workers are filed under their own uuids, on connections of their own. */
  ghost predicate WellFiled(ws: map<Uuid, WorkerState>)
  {
    && (forall k | k in ws :: UuidOf(ws[k]) == k)
    && (forall k, j | k in ws && j in ws && k != j :: k.connId != j.connId)
  }

  lemma InvIsWellFiled(o: Oracle, p: PoolState)
    requires Inv(o, p)
    ensures WellFiled(p.workers)
  {
  }

  lemma ReadingKeepsConnections(p: PoolState, msgs: map<Uuid, Message>)
    requires WellFiled(p.workers)
    ensures ConnectionsDistinct(ApplyAll(p.workers, Reading(p.job.height, p.difficulty, msgs)))
  {
    forall k | k in p.workers ensures ReadMessage(p.workers[k], k, MessageFor(msgs, k), p.job.height, p.difficulty).connId == k.connId {
      ReadOneOutcome(p.workers[k], k, MessageFor(msgs, k), p.job.height, p.difficulty);
    }
  }

  /** Reading messages handles one message of every worker, and files every worker under its user and connection. */
  lemma ReadingOutcome(o: Oracle, p: PoolState, msgs: map<Uuid, Message>, order: seq<Uuid>, k: Uuid)
    requires Inv(o, p) && Possible(p, ReadsMessages(msgs, order)) && !SomePanic(msgs) && k in p.workers
    ensures var p' := ProcessWorkerMessages(p, msgs, order);
            var w1 := HandleMessage(p.workers[k], if k in msgs then msgs[k] else Nothing);
            var key := Uuid(w1.userId, k.connId);
            && |p'.workers| == |p.workers| && key in p'.workers
            && p'.workers[key] == (if w1.userId == k.userId then w1
                                   else w1.(workerShares := WorkerShares(key, p.job.height, p.difficulty, map[]), open := []))
            && p' == p.(workers := p'.workers)
  {
    InvIsWellFiled(o, p);
    ReadingFiles(p, msgs, order, k);
    ReadOneOutcome(p.workers[k], k, MessageFor(msgs, k), p.job.height, p.difficulty);
  }

  lemma ReadingFiles(p: PoolState, msgs: map<Uuid, Message>, order: seq<Uuid>, k: Uuid)
    requires WellFiled(p.workers) && Possible(p, ReadsMessages(msgs, order)) && !SomePanic(msgs) && k in p.workers
    ensures var ws' := ProcessWorkerMessages(p, msgs, order).workers;
            var w := ReadMessage(p.workers[k], k, MessageFor(msgs, k), p.job.height, p.difficulty);
            |ws'| == |p.workers| && UuidOf(w) in ws' && ws'[UuidOf(w)] == w
  {
    var ws := ApplyAll(p.workers, Reading(p.job.height, p.difficulty, msgs));
    ReadingKeepsConnections(p, msgs);
    RehashFinds(ws, order, k);
    SameSize(ws, p.workers);
  }

  lemma RehashFinds(ws: map<Uuid, WorkerState>, order: seq<Uuid>, k: Uuid)
    requires ConnectionsDistinct(ws) && Enumerates(order, ChangedKeys(ws)) && k in ws
    ensures var ws' := Rehash(ws, order);
            UuidOf(ws[k]) in ws' && ws'[UuidOf(ws[k])] == ws[k] && |ws'| == |ws|
  {
    RehashRekeys(ws, order);
    RekeyedFinds(ws, Rehash(ws, order), k);
  }

  lemma RekeyedFinds(ws: map<Uuid, WorkerState>, ws': map<Uuid, WorkerState>, k: Uuid)
    requires Rekeyed(ws, ws') && k in ws
    ensures UuidOf(ws[k]) in ws' && ws'[UuidOf(ws[k])] == ws[k] && |ws'| == |ws|
  {
  }

  lemma SameSize(a: map<Uuid, WorkerState>, b: map<Uuid, WorkerState>)
    requires a.Keys == b.Keys
    ensures |a| == |b|
  {
    assert |a| == |a.Keys| && |b| == |b.Keys|;
  }

  // ---- Jobs --------------------------------------------------------------

  /** A worker that has been sent a job: its tally reported, a new one begun for the job, its targets set. */
  predicate HasNewJob(height: nat, difficulty: nat, w: WorkerState, w': WorkerState, delivered: bool)
  {
    && w'.reports == w.reports + [Report(w.workerShares, w.open)]
    && w'.workerShares == WorkerShares(Uuid(w.userId, w.connId), height, difficulty, map[]) && w'.open == []
    && w'.status == w.status.(height := height, difficulty := difficulty)
    && !w'.needsJob && !w'.requestedJob
    && (if w.requestedJob then w'.answered == w.answered + [Oldest(w.requestIds)] && w'.requestIds == Later(w.requestIds)
        else w'.answered == w.answered && w'.requestIds == w.requestIds)
    && (w'.error <==> w.error || !delivered)
    && w'.userId == w.userId && w'.connId == w.connId && w'.authenticated == w.authenticated
    && w'.shares == w.shares && w'.received == w.received && w'.judged == w.judged
  }

  lemma OfferedWorker(w: WorkerState, height: nat, difficulty: nat, delivered: bool)
    ensures var w' := SendJobTo(w, height, difficulty, delivered);
            if w.needsJob && w.authenticated then HasNewJob(height, difficulty, w, w', delivered) else w' == w
  {
  }

  lemma BroadcastWorker(w: WorkerState, height: nat, difficulty: nat, delivered: bool)
    ensures var w' := BroadcastTo(w, height, difficulty, delivered);
            if w.authenticated then HasNewJob(height, difficulty, w, w', delivered) else w' == w
  {
  }

  /** Sending jobs reaches exactly the logged-in workers that wait for one. */
  lemma OfferOutcome(p: PoolState, undelivered: set<Uuid>, k: Uuid)
    requires k in p.workers
    ensures var p' := SendJobs(p, undelivered);
            && p' == p.(workers := p'.workers) && p'.workers.Keys == p.workers.Keys
            && if p.workers[k].needsJob && p.workers[k].authenticated
               then HasNewJob(p.job.height, p.difficulty, p.workers[k], p'.workers[k], k !in undelivered)
               else p'.workers[k] == p.workers[k]
  {
    OfferedWorker(p.workers[k], p.job.height, p.difficulty, k !in undelivered);
  }

  /** A job with a new pre_pow reaches every logged-in worker. */
  lemma NewJobOutcome(p: PoolState, undelivered: set<Uuid>, k: Uuid)
    requires k in p.workers && p.job.prePow != p.serverJob.prePow
    ensures var p' := AcceptNewJob(p, undelivered);
            && p'.workers.Keys == p.workers.Keys
            && if p.workers[k].authenticated
               then HasNewJob(p.serverJob.height, p.difficulty, p.workers[k], p'.workers[k], k !in undelivered)
               else p'.workers[k] == p.workers[k]
  {
    BroadcastWorker(p.workers[k], p.serverJob.height, p.difficulty, k !in undelivered);
  }

  /** The pool's own tables under a new job: proofs and versions are forgotten exactly when the height changes. */
  lemma NewJobTables(p: PoolState, undelivered: set<Uuid>)
    ensures p.job.prePow == p.serverJob.prePow ==> AcceptNewJob(p, undelivered) == p
    ensures p.job.prePow != p.serverJob.prePow ==>
              var p', s := AcceptNewJob(p, undelivered), p.serverJob;
              var id, moved := s.height * 1000 + s.jobId, p.job.height != s.height;
              && p'.job == Job(s.height, id, s.difficulty, s.prePow)
              && p'.duplicates == (if moved then map[] else p.duplicates)
              && p'.versions == (if moved then map[] else p.versions)[id := s.prePow]
              && p'.serverJob == s && p'.difficulty == p.difficulty && p'.forwarded == p.forwarded && p'.halted == p.halted
  {
  }

  /** Cleaning keeps exactly the workers that are not in error, as they are. */
  lemma CleaningOutcome(p: PoolState)
    ensures var p' := CleanWorkers(p);
            && p' == p.(workers := p'.workers)
            && (forall k :: k in p'.workers <==> k in p.workers && !p.workers[k].error)
            && forall k | k in p'.workers :: p'.workers[k] == p.workers[k]
  {
  }

  /** A connection adds one worker, nobody yet, at the pool's difficulty. */
  lemma ConnectingOutcome(p: PoolState, connId: string)
    ensures var p', key := Connect(p, connId), Uuid(0, connId);
            && key in p'.workers && p' == p.(workers := p.workers[key := p'.workers[key]])
            && var w := p'.workers[key];
            && w.userId == 0 && w.connId == connId && !w.authenticated && !w.error && !w.needsJob && !w.requestedJob
            && w.status == Status(0, p.difficulty, 0, 0, 0)
            && w.shares == [] && w.requestIds == [] && w.received == [] && w.answered == [] && w.judged == [] && w.reports == []
  {
  }

  /** The share pass: after it, unless it panicked, nobody has shares pending and each pending share was judged once, in order. */
  lemma {:induction false} DrainingOutcome(o: Oracle, p: PoolState, order: seq<Uuid>, k: Uuid)
    requires k in p.workers && !ProcessShares(o, p, order).halted
    requires forall i, j | 0 <= i < j < |order| :: order[i] != order[j]
    ensures k in ProcessShares(o, p, order).workers
    ensures var w, w' := p.workers[k], ProcessShares(o, p, order).workers[k];
            if k in order then w'.shares == [] && SharesOf(w'.judged) == SharesOf(w.judged) + w.shares else w' == w
    decreases |order|
  {
    if order != [] && !p.halted {
      var first := order[0];
      HaltedStays(o, DrainWorker(o, p, first), order[1..]);
      DrainTouchesOne(o, p, first, k);
      if first == k { DrainJudgesEachShare(o, p, k); }
      DrainingOutcome(o, DrainWorker(o, p, first), order[1..], k);
      assert k in order <==> k == first || k in order[1..];
      if first == k { assert k !in order[1..]; }
    }
  }

  lemma HaltedStays(o: Oracle, p: PoolState, order: seq<Uuid>)
    ensures p.halted ==> ProcessShares(o, p, order) == p
  {
  }

  lemma DrainTouchesOne(o: Oracle, p: PoolState, first: Uuid, k: Uuid)
    requires k in p.workers
    ensures k in DrainWorker(o, p, first).workers
    ensures k != first ==> DrainWorker(o, p, first).workers[k] == p.workers[k]
    ensures k == first && !DrainWorker(o, p, first).halted ==> DrainWorker(o, p, first).workers[k].shares == []
  {
    if first in p.workers {
      JudgingTouchesOne(o, TakeShares(p, first), first, p.workers[first].shares, k);
    }
  }

  lemma {:induction false} JudgingTouchesOne(o: Oracle, p: PoolState, first: Uuid, shares: seq<Share>, k: Uuid)
    requires first in p.workers && k in p.workers
    ensures k in JudgeShares(o, p, first, shares).workers
    ensures k != first ==> JudgeShares(o, p, first, shares).workers[k] == p.workers[k]
    ensures JudgeShares(o, p, first, shares).workers[k].shares == p.workers[k].shares
    decreases |shares|
  {
    if shares != [] && !p.halted {
      JudgeTouchesOne(o, p, first, shares[0], k);
      JudgingTouchesOne(o, JudgeShare(o, p, first, shares[0]), first, shares[1..], k);
      assert JudgeShares(o, p, first, shares) == JudgeShares(o, JudgeShare(o, p, first, shares[0]), first, shares[1..]);
    }
  }

  lemma JudgeTouchesOne(o: Oracle, p: PoolState, first: Uuid, share: Share, k: Uuid)
    requires first in p.workers && k in p.workers
    ensures first in JudgeShare(o, p, first, share).workers && k in JudgeShare(o, p, first, share).workers
    ensures k != first ==> JudgeShare(o, p, first, share).workers[k] == p.workers[k]
    ensures JudgeShare(o, p, first, share).workers[k].shares == p.workers[k].shares
  {
    JudgeShareShape(o, p, first, share);
  }

  /** In a run each event is the operation of the pool that the laws above describe; a pool that has panicked does nothing more. */
  lemma EventsAreOperations(o: Oracle, p: PoolState)
    ensures p.halted ==> forall e :: Step(o, p, e) == p
    ensures !p.halted ==>
              && (forall c :: Step(o, p, Connected(c)) == Connect(p, c))
              && (forall job :: Step(o, p, ServerJobChanged(job)) == p.(serverJob := job))
              && (forall u :: Step(o, p, AcceptsNewJob(u)) == AcceptNewJob(p, u))
              && (forall msgs, order :: Step(o, p, ReadsMessages(msgs, order)) == ProcessWorkerMessages(p, msgs, order))
              && (forall order :: Step(o, p, ProcessesShares(order)) == ProcessShares(o, p, order))
              && (forall u :: Step(o, p, SendsJobs(u)) == SendJobs(p, u))
              && Step(o, p, CleansWorkers) == CleanWorkers(p)
  {
  }

  // ---- The difficulty that tallies are labelled with ---------------------

  /** A worker's open tally and all its reports carry the pool's difficulty. */
  predicate Labelled(w: WorkerState, difficulty: nat)
  {
    && (w.authenticated ==> w.workerShares.difficulty == difficulty)
    && (forall r | r in w.reports :: r.emitted.difficulty == difficulty)
  }

  predicate AllLabelled(p: PoolState) { forall k | k in p.workers :: Labelled(p.workers[k], p.difficulty) }

  lemma {:induction false} JudgingKeepsLabels(o: Oracle, p: PoolState, k: Uuid, shares: seq<Share>)
    requires k in p.workers && AllLabelled(p)
    ensures AllLabelled(JudgeShares(o, p, k, shares)) && JudgeShares(o, p, k, shares).difficulty == p.difficulty
    decreases |shares|
  {
    if shares != [] && !p.halted {
      JudgeKeepsLabels(o, p, k, shares[0]);
      JudgingKeepsLabels(o, JudgeShare(o, p, k, shares[0]), k, shares[1..]);
    }
  }

  lemma JudgeKeepsLabels(o: Oracle, p: PoolState, k: Uuid, share: Share)
    requires k in p.workers && AllLabelled(p)
    ensures k in JudgeShare(o, p, k, share).workers
    ensures AllLabelled(JudgeShare(o, p, k, share)) && JudgeShare(o, p, k, share).difficulty == p.difficulty
  {
    JudgeShareShape(o, p, k, share);
  }

  lemma {:induction false} DrainingKeepsLabels(o: Oracle, p: PoolState, order: seq<Uuid>)
    requires AllLabelled(p)
    ensures AllLabelled(ProcessShares(o, p, order)) && ProcessShares(o, p, order).difficulty == p.difficulty
    decreases |order|
  {
    if order != [] && !p.halted {
      if order[0] in p.workers {
        JudgingKeepsLabels(o, TakeShares(p, order[0]), order[0], p.workers[order[0]].shares);
      }
      DrainingKeepsLabels(o, DrainWorker(o, p, order[0]), order[1..]);
    }
  }

  lemma ReadKeepsLabel(w: WorkerState, k: Uuid, m: Message, height: nat, difficulty: nat)
    requires UuidOf(w) == k && Labelled(w, difficulty) && (w.authenticated <==> w.userId != 0)
    ensures Labelled(ReadMessage(w, k, m, height, difficulty), difficulty)
  {
    HandlingShape(w, m);
    ReadOneOutcome(w, k, m, height, difficulty);
  }

  lemma ReadingKeepsLabels(o: Oracle, p: PoolState, msgs: map<Uuid, Message>, order: seq<Uuid>)
    requires Inv(o, p) && AllLabelled(p) && Possible(p, ReadsMessages(msgs, order))
    ensures AllLabelled(ProcessWorkerMessages(p, msgs, order))
  {
    if !SomePanic(msgs) {
      var ws := ApplyAll(p.workers, Reading(p.job.height, p.difficulty, msgs));
      InvIsWellFiled(o, p);
      ReadingKeepsConnections(p, msgs);
      forall k | k in ws ensures Labelled(ws[k], p.difficulty) {
        LoggedInHasUser(o, p, k);
        ReadKeepsLabel(p.workers[k], k, MessageFor(msgs, k), p.job.height, p.difficulty);
      }
      RehashRekeys(ws, order);
      RekeyingKeepsLabels(ws, Rehash(ws, order), p.difficulty);
    }
  }

  lemma LoggedInHasUser(o: Oracle, p: PoolState, k: Uuid)
    requires Inv(o, p) && k in p.workers
    ensures p.workers[k].authenticated <==> p.workers[k].userId != 0
  {
    assert WorkerInv(p.workers[k], p.job.height, 0);
  }

  lemma RekeyingKeepsLabels(ws: map<Uuid, WorkerState>, ws': map<Uuid, WorkerState>, difficulty: nat)
    requires Rekeyed(ws, ws') && forall k | k in ws :: Labelled(ws[k], difficulty)
    ensures forall u | u in ws' :: Labelled(ws'[u], difficulty)
  {
    forall u | u in ws' ensures Labelled(ws'[u], difficulty) {
      var k :| k in ws && UuidOf(ws[k]) == u;
    }
  }

  lemma NewJobKeepsLabels(p: PoolState, undelivered: set<Uuid>)
    requires AllLabelled(p)
    ensures AllLabelled(AcceptNewJob(p, undelivered)) && AcceptNewJob(p, undelivered).difficulty == p.difficulty
  {
    var ws := AcceptNewJob(p, undelivered).workers;
    forall k | k in ws ensures Labelled(ws[k], p.difficulty) {
      BroadcastWorker(p.workers[k], p.serverJob.height, p.difficulty, k !in undelivered);
    }
  }

  lemma OfferKeepsLabels(p: PoolState, undelivered: set<Uuid>)
    requires AllLabelled(p)
    ensures AllLabelled(SendJobs(p, undelivered)) && SendJobs(p, undelivered).difficulty == p.difficulty
  {
    var ws := SendJobs(p, undelivered).workers;
    forall k | k in ws ensures Labelled(ws[k], p.difficulty) {
      OfferedWorker(p.workers[k], p.job.height, p.difficulty, k !in undelivered);
    }
  }

  lemma StepKeepsLabels(o: Oracle, p: PoolState, e: Event)
    requires Inv(o, p) && AllLabelled(p) && Possible(p, e)
    ensures AllLabelled(Step(o, p, e)) && Step(o, p, e).difficulty == p.difficulty
  {
    if !p.halted {
      match e
      case Connected(c) =>
      case ServerJobChanged(job) =>
      case AcceptsNewJob(undelivered) => NewJobKeepsLabels(p, undelivered);
      case ReadsMessages(msgs, order) => ReadingKeepsLabels(o, p, msgs, order);
      case ProcessesShares(order) => DrainingKeepsLabels(o, p, order);
      case SendsJobs(undelivered) => OfferKeepsLabels(p, undelivered);
      case CleansWorkers =>
    }
  }

  /**
   The pool's difficulty never changes in a run, and every open tally of a logged-in worker and every report
   is labelled with it; the aggregator multiplies counts by this label.
   */
  lemma {:induction false} LabelsAreThePoolDifficulty(o: Oracle, states: seq<PoolState>, events: seq<Event>, n: nat)
    requires IsRun(o, states, events) && n < |states|
    ensures states[n].difficulty == states[0].difficulty && AllLabelled(states[n])
    decreases n
  {
    if n > 0 {
      LabelsAreThePoolDifficulty(o, states, events, n - 1);
      RunKeeps(o, states, events, n - 1);
      StepKeepsLabels(o, states[n - 1], events[n - 1]);
    }
  }
}
