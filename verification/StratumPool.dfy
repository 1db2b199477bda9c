/** The stratum pool's objects, updated in place, against the step functions of `Stratum`. */
module StratumPool {
  import opened Basics
  import opened Consensus
  import opened Stratum

  class Worker {
    var userId: nat
    const connId: string
    var error: bool
    var authenticated: bool
    var status: Status
    var workerShares: WorkerShares
    var shares: seq<Share>
    var requestIds: seq<string>
    var needsJob: bool
    var requestedJob: bool
    ghost var received: seq<string>
    ghost var answered: seq<string>
    ghost var judged: seq<Judgement>
    ghost var open: seq<Judgement>
    ghost var reports: seq<Report>

    ghost function View(): WorkerState
      reads this
    {
      WorkerState(userId, connId, error, authenticated, status, workerShares, shares, requestIds, needsJob,
                  requestedJob, received, answered, judged, open, reports)
    }

    constructor (connId: string, difficulty: nat)
      ensures View() == NewWorker(connId, difficulty)
    {
      this.connId := connId;
      userId, error, authenticated, needsJob, requestedJob := 0, false, false, false, false;
      status := Status(0, difficulty, 0, 0, 0);
      workerShares := WorkerShares(Uuid(0, connId), 0, 0, map[]);
      shares, requestIds := [], [];
      received, answered, judged, open, reports := [], [], [], [], [];
    }

    function Id(): (u: Uuid)
      reads this
      ensures u == UuidOf(View())
    {
      Uuid(userId, connId)
    }

    method SendResponse()
      modifies this
      ensures View() == Respond(old(View()))
    {
      if requestIds == [] {
        answered := answered + ["0"];
      } else {
        answered := answered + [requestIds[0]];
        requestIds := requestIds[1..];
      }
    }

    /** `delivered` says whether the write to the socket succeeded. */
    method SendJob(delivered: bool)
      modifies this
      ensures View() == Stratum.SendJob(old(View()), delivered)
    {
      var requested := requestedJob;
      needsJob := false;
      requestedJob := false;
      if requested {
        SendResponse();
      }
      if !delivered {
        error := true;
      }
    }

    method SetJobTarget(difficulty: nat, height: nat)
      modifies this`status
      ensures View() == old(View()).(status := old(status).(difficulty := difficulty, height := height))
    {
      status := status.(difficulty := difficulty, height := height);
    }

    /** Prints the tally for the log collector. */
    ghost method LogShares()
      modifies this`reports
      ensures View() == EmitReport(old(View()))
    {
      reports := reports + [Report(workerShares, open)];
    }

    method ResetWorkerShares(height: nat, difficulty: nat)
      modifies this
      ensures View() == Stratum.ResetWorkerShares(old(View()), height, difficulty)
    {
      workerShares := WorkerShares(Id(), height, difficulty, map[]);
      open := [];
    }

    /** Adds to the entry of a size, or creates it. */
    method AddShares(size: nat, accepted: nat, rejected: nat, stale: nat)
      modifies this`workerShares
      ensures workerShares == old(workerShares).(shares := old(workerShares).shares[size :=
                var c := CountsFor(old(workerShares).shares, size);
                Counts(c.accepted + accepted, c.rejected + rejected, c.stale + stale)])
    {
      if size in workerShares.shares {
        var c := workerShares.shares[size];
        c := c.(accepted := c.accepted + accepted);
        c := c.(rejected := c.rejected + rejected);
        c := c.(stale := c.stale + stale);
        workerShares := workerShares.(shares := workerShares.shares[size := c]);
      } else {
        workerShares := workerShares.(shares := workerShares.shares[size := Counts(accepted, rejected, stale)]);
      }
    }

    method GetShares() returns (current: seq<Share>)
      modifies this`shares
      ensures current == old(shares)
      ensures View() == old(View()).(shares := [])
    {
      current := shares;
      shares := [];
    }

    /** Resolves the login; the result says whether it was accepted. */
    method DoLogin(p: LoginParams) returns (ok: bool)
      requires p.Params? && userId == 0
      modifies this`userId, this`error
      ensures ok <==> ResolveLogin(p).Some?
      ensures userId == if ok then ResolveLogin(p).value else 0
      ensures error == (old(error) || !ok)
    {
      if p.fields > 3 {
        if p.legacyId != 0 {
          userId := p.legacyId;
          return true;
        }
        error := true;
        return false;
      }
      if p.redisId != 0 {
        userId := p.redisId;
      }
      if userId != 0 {
        return true;
      }
      if p.legacyId != 0 {
        userId := p.legacyId;
        return true;
      }
      error := true;
      return false;
    }

    method StartAfresh()
      modifies this`authenticated, this`needsJob, this`status, this`judged, this`reports
      ensures authenticated && !needsJob && status == Status(0, 0, 0, 0, 0) && judged == [] && reports == []
    {
      authenticated := true;
      needsJob := false;
      status := Status(0, 0, 0, 0, 0);
      judged, reports := [], [];
    }

    method LogInRequest(p: LoginParams)
      modifies this
      ensures View() == LogIn(old(View()), p)
    {
      if userId == 0 {
        if !p.Params? {
          error := true;
        } else {
          var ok := DoLogin(p);
          if ok {
            StartAfresh();
          }
        }
      }
      assert View() == LogInState(old(View()), p);
      SendResponse();
    }

    method ServeRequest(request: Request)
      modifies this
      ensures View() == HandleRequest(old(View()), request)
    {
      match request
      case Login(p) => LogInRequest(p);
      case GetJobTemplate =>
        needsJob := true;
        requestedJob := true;
      case Submit(p) =>
        if p.Parsed? {
          shares := shares + [p.share];
        }
      case GetStatus => SendResponse();
      case KeepAlive => SendResponse();
      case Unknown => error := true;
    }

    method ProcessMessages(m: Message)
      modifies this
      ensures View() == HandleMessage(old(View()), m)
    {
      match m
      case Nothing =>
      case ReadError => error := true;
      case InvalidJson => error := true;
      case Rpc(id, request) =>
        requestIds := requestIds + [id];
        received := received + [id];
        assert View() == Receive(old(View()), id);
        ServeRequest(request);
    }

    /** Counts one judgement in the status and, where the exit says so, in the tally. */
    method BookShare(share: Share, x: Outcome)
      modifies this
      ensures View() == Book(old(View()), share, x)
    {
      CountShare(share, x);
      judged := judged + [Judgement(share, VerdictOf(x), IsTallied(x))];
      open := open + [Judgement(share, VerdictOf(x), IsTallied(x))];
    }

    method CountShare(share: Share, x: Outcome)
      modifies this`status, this`workerShares
      ensures status == Bump(old(status), VerdictOf(x))
      ensures workerShares == if IsTallied(x)
        then old(workerShares).(shares := AddTally(old(workerShares).shares, share.edgeBits, VerdictOf(x)))
        else old(workerShares)
    {
      match VerdictOf(x) {
        case Accepted =>
          status := status.(accepted := status.accepted + 1);
          if IsTallied(x) { AddShares(share.edgeBits, 1, 0, 0); }
        case Rejected =>
          status := status.(rejected := status.rejected + 1);
          if IsTallied(x) { AddShares(share.edgeBits, 0, 1, 0); }
        case Stale =>
          status := status.(stale := status.stale + 1);
          if IsTallied(x) { AddShares(share.edgeBits, 0, 0, 1); }
      }
    }

    /** One exit of the share check: the books, then the answer. */
    method Record(share: Share, x: Outcome)
      modifies this
      ensures View() == Judge(old(View()), share, x)
    {
      BookShare(share, x);
      if IsAnswered(x) {
        SendResponse();
      }
    }

    /** Report, send the new job, start a new tally. */
    method Broadcast(height: nat, difficulty: nat, delivered: bool)
      modifies this
      ensures View() == BroadcastTo(old(View()), height, difficulty, delivered)
    {
      if authenticated {
        SetJobTarget(difficulty, height);
        LogShares();
        SendJob(delivered);
        ResetWorkerShares(height, difficulty);
      }
    }

    /** The job a worker is waiting for. */
    method OfferJob(height: nat, difficulty: nat, delivered: bool)
      modifies this
      ensures View() == SendJobTo(old(View()), height, difficulty, delivered)
    {
      if needsJob && authenticated {
        SetJobTarget(difficulty, height);
        LogShares();
        ResetWorkerShares(height, difficulty);
        SendJob(delivered);
      }
    }

    /** Reads and handles one message; the result says whether the worker must be filed under a new uuid. */
    method ReadOne(k: Uuid, m: Message, height: nat, difficulty: nat) returns (changed: bool)
      modifies this
      ensures View() == ReadMessage(old(View()), k, m, height, difficulty)
      ensures changed <==> UuidOf(View()) != k
    {
      ProcessMessages(m);
      changed := Id() != k;
      if changed {
        ResetWorkerShares(height, difficulty);
      }
    }
  }

  class Pool {
    var job: Job
    var serverJob: Job
    var difficulty: nat
    var workers: map<Uuid, Worker>
    var duplicates: map<seq<nat>, nat>
    var versions: map<nat, string>
    var halted: bool
    ghost var accepted: seq<seq<nat>>
    ghost var issued: seq<Issued>
    ghost var forwarded: seq<Forward>

    /** No connection object is filed twice. */
    ghost predicate Valid()
      reads this
    {
      forall k, j | k in workers && j in workers && workers[k] == workers[j] :: k == j
    }

    ghost function WorkersView(): map<Uuid, WorkerState>
      reads this, workers.Values
    {
      map k | k in workers :: workers[k].View()
    }

    ghost function View(): PoolState
      reads this, workers.Values
    {
      PoolState(job, serverJob, difficulty, WorkersView(), duplicates, versions, halted, accepted, issued, forwarded)
    }

    /** When one worker alone has changed, the view has changed at its key alone. */
    twostate lemma OneChanged(k: Uuid)
      requires old(Valid()) && workers == old(workers) && k in workers
      requires forall j | j in workers && j != k :: unchanged(workers[j])
      ensures WorkersView() == old(WorkersView())[k := workers[k].View()]
    {
    }

    constructor (difficulty: nat)
      ensures Valid() && View() == NewPool(difficulty)
    {
      job, serverJob, this.difficulty := NO_JOB, NO_JOB, difficulty;
      workers, duplicates, versions, halted := map[], map[], map[], false;
      accepted, issued, forwarded := [], [], [];
    }

    /** The listener thread files a new connection. */
    method AcceptWorker(connId: string)
      requires Valid()
      modifies this`workers
      ensures Valid()
      ensures WorkersView() == old(WorkersView())[Uuid(0, connId) := NewWorker(connId, difficulty)]
    {
      ghost var before := WorkersView();
      var worker := new Worker(connId, difficulty);
      assert worker.Id() == Uuid(0, connId);
      workers := workers[worker.Id() := worker];
    }

    method BroadcastOne(k: Uuid, delivered: bool)
      requires Valid() && k in workers
      modifies workers[k]
      ensures WorkersView() == old(WorkersView())[k := BroadcastTo(old(workers[k].View()), job.height, difficulty, delivered)]
    {
      workers[k].Broadcast(job.height, difficulty, delivered);
      OneChanged(k);
    }

    method BroadcastJob(undelivered: set<Uuid>)
      requires Valid()
      modifies workers.Values
      ensures WorkersView() == ApplyAll(old(WorkersView()), Broadcasting(job.height, difficulty, undelivered))
    {
      ghost var before := WorkersView();
      ghost var pass := Broadcasting(job.height, difficulty, undelivered);
      var todo := workers.Keys;
      AllButEnds(before, pass);
      while todo != {}
        invariant todo <= workers.Keys
        invariant WorkersView() == AllBut(before, todo, pass)
        decreases todo
      {
        var k :| k in todo;
        AllButStep(before, todo, pass, k);
        BroadcastOne(k, k !in undelivered);
        todo := todo - {k};
      }
    }

    /** Makes the server's job the current one, under the id shown to workers. */
    method InstallJob() returns (newHeight: bool)
      modifies this`job
      ensures newHeight <==> old(job).height != serverJob.height
      ensures job == serverJob.(jobId := ComposeJobId(serverJob.height, serverJob.jobId))
      ensures WorkersView() == old(WorkersView())
    {
      newHeight := job.height != serverJob.height;
      job := serverJob.(jobId := ComposeJobId(serverJob.height, serverJob.jobId));
    }

    /** Files the current job's version, after forgetting the previous height. */
    method RecordVersion(newHeight: bool)
      modifies this`duplicates, this`versions, this`accepted, this`issued
      ensures duplicates == if newHeight then map[] else old(duplicates)
      ensures accepted == if newHeight then [] else old(accepted)
      ensures versions == (if newHeight then map[] else old(versions))[job.jobId := job.prePow]
      ensures issued == (if newHeight then [] else old(issued)) + [Issued(job, serverJob.jobId)]
      ensures WorkersView() == old(WorkersView())
    {
      if newHeight {
        duplicates := map[];
        versions := map[];
        accepted, issued := [], [];
      }
      versions := versions[job.jobId := job.prePow];
      issued := issued + [Issued(job, serverJob.jobId)];
    }

    method AcceptNewJob(undelivered: set<Uuid>)
      requires Valid()
      modifies this`job, this`duplicates, this`versions, this`accepted, this`issued, workers.Values
      ensures Valid()
      ensures View() == Stratum.AcceptNewJob(old(View()), undelivered)
    {
      if job.prePow != serverJob.prePow {
        var newHeight := InstallJob();
        BroadcastJob(undelivered);
        RecordVersion(newHeight);
      }
    }

    method OfferOne(k: Uuid, delivered: bool)
      requires Valid() && k in workers
      modifies workers[k]
      ensures WorkersView() == old(WorkersView())[k := SendJobTo(old(workers[k].View()), job.height, difficulty, delivered)]
    {
      workers[k].OfferJob(job.height, difficulty, delivered);
      OneChanged(k);
    }

    method SendJobs(undelivered: set<Uuid>)
      requires Valid()
      modifies workers.Values
      ensures WorkersView() == ApplyAll(old(WorkersView()), Offering(job.height, difficulty, undelivered))
    {
      ghost var before := WorkersView();
      ghost var pass := Offering(job.height, difficulty, undelivered);
      var todo := workers.Keys;
      AllButEnds(before, pass);
      while todo != {}
        invariant todo <= workers.Keys
        invariant WorkersView() == AllBut(before, todo, pass)
        decreases todo
      {
        var k :| k in todo;
        AllButStep(before, todo, pass, k);
        OfferOne(k, k !in undelivered);
        todo := todo - {k};
      }
    }

    method DeadWorkers() returns (dead: set<Uuid>)
      ensures dead == set k | k in workers && workers[k].error
    {
      dead := {};
      var todo := workers.Keys;
      while todo != {}
        invariant todo <= workers.Keys
        invariant forall k :: k in dead <==> k in workers && k !in todo && workers[k].error
        decreases todo
      {
        var k :| k in todo;
        if workers[k].error {
          dead := dead + {k};
        }
        todo := todo - {k};
      }
    }

    method Remove(dead: set<Uuid>)
      requires Valid()
      modifies this`workers
      ensures Valid() && workers == old(workers) - dead
      ensures WorkersView() == old(WorkersView()) - dead
    {
      workers := workers - dead;
    }

    method CleanWorkers() returns (remaining: nat)
      requires Valid()
      modifies this`workers
      ensures Valid() && remaining == |workers|
      ensures WorkersView() == WithoutErrors(old(WorkersView()))
    {
      ghost var before := WorkersView();
      var dead := DeadWorkers();
      ghost var after := WithoutErrors(before);
      assert after == before - dead by { WithoutErrorsDrops(before, dead); }
      Remove(dead);
      assert WorkersView() == after;
      remaining := |workers|;
    }

    method ReadOne(k: Uuid, m: Message) returns (moved: bool)
      requires Valid() && k in workers
      modifies workers[k]
      ensures WorkersView() == old(WorkersView())[k := ReadMessage(old(workers[k].View()), k, m, job.height, difficulty)]
      ensures moved <==> UuidOf(ReadMessage(old(workers[k].View()), k, m, job.height, difficulty)) != k
    {
      moved := workers[k].ReadOne(k, m, job.height, difficulty);
      OneChanged(k);
    }

    /** First pass over the workers, in any order; `changed` collects the keys to re-file. */
    method ReadAll(msgs: map<Uuid, Message>) returns (changed: seq<Uuid>)
      requires Valid()
      modifies workers.Values
      ensures WorkersView() == ApplyAll(old(WorkersView()), Reading(job.height, difficulty, msgs))
      ensures Enumerates(changed, ChangedKeys(WorkersView()))
    {
      ghost var before := WorkersView();
      ghost var pass := Reading(job.height, difficulty, msgs);
      var todo := workers.Keys;
      changed := [];
      AllButEnds(before, pass);
      while todo != {}
        invariant todo <= workers.Keys
        invariant WorkersView() == AllBut(before, todo, pass)
        invariant Enumerates(changed, ChangedIn(before, before.Keys - todo, pass))
        decreases todo
      {
        var k :| k in todo;
        AllButStep(before, todo, pass, k);
        ChangedInStep(before, todo, pass, k, changed);
        var moved := ReadOne(k, MessageFor(msgs, k));
        if moved {
          changed := changed + [k];
        }
        todo := todo - {k};
      }
      ChangedInAll(before, pass);
    }

    /** Re-files one worker under its own uuid. */
    method Refile(k: Uuid)
      requires Valid()
      modifies this`workers
      ensures Valid() && workers.Values <= old(workers).Values
      ensures WorkersView() == RehashOne(old(WorkersView()), k)
    {
      if k in workers {
        ghost var before := WorkersView();
        var worker := workers[k];
        assert worker.View() == before[k];
        MoveTo(k, worker.Id());
      }
    }

    /** Files the worker at one key under another instead. */
    method MoveTo(k: Uuid, id: Uuid)
      requires Valid() && k in workers
      modifies this`workers
      ensures Valid() && workers.Values <= old(workers).Values
      ensures WorkersView() == (old(WorkersView()) - {k})[id := old(WorkersView())[k]]
    {
      MoveKeepsDistinct(workers, k, id);
      workers := (workers - {k})[id := workers[k]];
    }

    /** A submit without parameters panics; what the dying loop leaves behind is not observed. */
    method ProcessWorkerMessages(msgs: map<Uuid, Message>) returns (ghost order: seq<Uuid>)
      requires Valid()
      modifies this`workers, this`halted, workers.Values
      ensures Valid()
      ensures SomePanic(msgs) ==> halted && workers == old(workers)
      ensures !SomePanic(msgs) ==>
                && halted == old(halted)
                && Enumerates(order, ChangedKeys(ApplyAll(old(WorkersView()), Reading(job.height, difficulty, msgs))))
                && WorkersView() == Rehash(ApplyAll(old(WorkersView()), Reading(job.height, difficulty, msgs)), order)
    {
      order := [];
      if k :| k in msgs && Panics(msgs[k]) {
        halted := true;
        return;
      }
      var changed := ReadAll(msgs);
      ghost var first := WorkersView();
      order := changed;
      for i := 0 to |changed|
        invariant Valid() && workers.Values <= old(workers).Values && halted == old(halted)
        invariant WorkersView() == Rehash(first, changed[..i])
      {
        RehashSnoc(first, changed[..i], changed[i]);
        assert changed[..i + 1] == changed[..i] + [changed[i]];
        Refile(changed[i]);
      }
      assert changed[..|changed|] == changed;
    }

    /** Which exit a share takes, checked in the order of Classify; the first sight of a proof is remembered. */
    method ClassifyShare(o: Oracle, k: Uuid, share: Share) returns (x: Outcome)
      requires Valid() && k in workers
      modifies this`duplicates
      ensures x == Classify(o, old(duplicates), job.height, versions, workers[k].status.difficulty, share)
      ensures duplicates == if x.Duplicate? then old(duplicates) else old(duplicates)[share.pow := workers[k].userId]
      ensures WorkersView() == old(WorkersView())
    {
      if share.pow in duplicates {
        return Duplicate;
      }
      duplicates := duplicates[share.pow := workers[k].userId];
      if share.edgeBits < 29 || share.edgeBits == 30 {
        return BadSize;
      }
      if |share.pow| != PROOF_SIZE {
        return BadLength;
      }
      if share.height != job.height {
        return TooLate;
      }
      if share.jobId !in versions {
        return UnknownJob;
      }
      var prePow := versions[share.jobId];
      if !o.header(prePow, EdgeByte(share), share.nonce, share.pow) {
        return BadHeader;
      }
      if !o.cycle(prePow, EdgeByte(share), share.nonce, share.pow) {
        return BadCycle;
      }
      var d := UnscaledDifficulty(o.hash(EdgeByte(share), share.pow));
      if d < 1 {
        return BelowOne;
      }
      if d < workers[k].status.difficulty {
        return BelowWorker;
      }
      return Good;
    }

    method RecordOne(k: Uuid, share: Share, x: Outcome)
      requires Valid() && k in workers
      modifies workers[k]
      ensures WorkersView() == old(WorkersView())[k := Judge(old(workers[k].View()), share, x)]
    {
      workers[k].Record(share, x);
      OneChanged(k);
    }

    /** What follows an accepted share: it goes upstream when it meets the job's difficulty. */
    method AcceptShare(o: Oracle, share: Share)
      requires share.jobId in versions
      modifies this`halted, this`accepted, this`forwarded
      ensures View() == AcceptIn(o, old(View()), share)
    {
      ghost var before := WorkersView();
      accepted := accepted + [share.pow];
      if UnscaledDifficulty(o.hash(EdgeByte(share), share.pow)) >= job.difficulty {
        if share.height == 0 {
          halted := true;
        } else {
          forwarded := forwarded + [Forward(share, share.jobId % share.height, versions[share.jobId], job.height, issued)];
        }
      }
      assert WorkersView() == before;
    }

    /** The exit of one share, with the books it moves. */
    method JudgeOne(o: Oracle, k: Uuid, share: Share) returns (x: Outcome)
      requires Valid() && k in workers
      modifies this`duplicates, workers[k]
      ensures x == ClassifyIn(o, old(View()), k, share)
      ensures View() == RecordIn(old(View()), k, share, x)
    {
      ghost var before := WorkersView();
      assert before[k] == workers[k].View();
      x := ClassifyShare(o, k, share);
      RecordOne(k, share, x);
      assert WorkersView() == before[k := Judge(before[k], share, x)];
    }

    /** Checks one share of one worker. */
    method CheckShare(o: Oracle, k: Uuid, share: Share)
      requires Valid() && k in workers
      modifies this`duplicates, this`halted, this`accepted, this`forwarded, workers[k]
      ensures View() == JudgeShare(o, old(View()), k, share)
    {
      var x := JudgeOne(o, k, share);
      if x.Good? {
        AcceptShare(o, share);
      }
    }

    method TakeOne(k: Uuid) returns (shares: seq<Share>)
      requires Valid() && k in workers
      modifies workers[k]
      ensures shares == old(workers[k].shares)
      ensures View() == TakeShares(old(View()), k)
    {
      shares := workers[k].GetShares();
      OneChanged(k);
    }

    /** All pending shares of one worker. */
    method DrainWorker(o: Oracle, k: Uuid)
      requires Valid() && k in workers && !halted
      modifies this`duplicates, this`halted, this`accepted, this`forwarded, workers[k]
      ensures View() == Stratum.DrainWorker(o, old(View()), k)
    {
      ghost var p := View();
      assert p.workers[k].shares == workers[k].shares;
      var shares := TakeOne(k);
      ghost var p1 := View();
      var i := 0;
      while i < |shares| && !halted
        invariant 0 <= i <= |shares|
        invariant View() == JudgeShares(o, p1, k, shares[..i])
        decreases |shares| - i
      {
        JudgeSharesNext(o, p1, k, shares, i);
        CheckShare(o, k, shares[i]);
        i := i + 1;
      }
      JudgeSharesHalted(o, p1, k, shares, i);
    }

    /** The shares of all workers, in any order; `order` is the one that was taken. */
    method ProcessShares(o: Oracle) returns (ghost order: seq<Uuid>)
      requires Valid() && !halted
      modifies this`duplicates, this`halted, this`accepted, this`forwarded, workers.Values
      ensures Enumerates(order, workers.Keys)
      ensures View() == Stratum.ProcessShares(o, old(View()), order)
    {
      ghost var p := View();
      var todo := workers.Keys;
      order := [];
      while todo != {}
        invariant todo <= workers.Keys
        invariant Enumerates(order, workers.Keys - todo)
        invariant View() == Stratum.ProcessShares(o, p, order)
        decreases todo
      {
        var k :| k in todo;
        ProcessSharesSnoc(o, p, order, k);
        EnumerateOneMore(order, workers.Keys, todo, k);
        if !halted {
          DrainWorker(o, k);
        }
        order := order + [k];
        todo := todo - {k};
      }
      assert workers.Keys - todo == workers.Keys;
    }
  }

  // ---- Passes over the workers -------------------------------------------

  /** The workers after a pass has treated all but those in `todo`. */
  function AllBut(ws: map<Uuid, WorkerState>, todo: set<Uuid>, pass: Pass): map<Uuid, WorkerState>
  {
    map k | k in ws :: if k in todo then ws[k] else Apply(pass, k, ws[k])
  }

  /** Filing one of distinct workers at another key keeps them distinct. */
  lemma MoveKeepsDistinct(ws: map<Uuid, Worker>, k: Uuid, id: Uuid)
    requires k in ws && forall i, j | i in ws && j in ws && ws[i] == ws[j] :: i == j
    ensures var ws' := (ws - {k})[id := ws[k]];
            ws'.Values <= ws.Values && forall i, j | i in ws' && j in ws' && ws'[i] == ws'[j] :: i == j
  {
  }

  lemma AllButEnds(ws: map<Uuid, WorkerState>, pass: Pass)
    ensures AllBut(ws, ws.Keys, pass) == ws
    ensures AllBut(ws, {}, pass) == ApplyAll(ws, pass)
  {
  }

  lemma AllButStep(ws: map<Uuid, WorkerState>, todo: set<Uuid>, pass: Pass, k: Uuid)
    requires k in todo && k in ws
    ensures AllBut(ws, todo, pass)[k] == ws[k]
    ensures AllBut(ws, todo, pass)[k := Apply(pass, k, ws[k])] == AllBut(ws, todo - {k}, pass)
  {
  }

  /** The keys among `done` whose worker has a new uuid after the pass. */
  function ChangedIn(ws: map<Uuid, WorkerState>, done: set<Uuid>, pass: Pass): set<Uuid>
  {
    set k | k in done && k in ws && UuidOf(Apply(pass, k, ws[k])) != k
  }

  lemma ChangedInStep(ws: map<Uuid, WorkerState>, todo: set<Uuid>, pass: Pass, k: Uuid, order: seq<Uuid>)
    requires k in todo && todo <= ws.Keys
    requires Enumerates(order, ChangedIn(ws, ws.Keys - todo, pass))
    ensures Enumerates(if UuidOf(Apply(pass, k, ws[k])) != k then order + [k] else order,
                       ChangedIn(ws, ws.Keys - (todo - {k}), pass))
  {
    var done, done' := ws.Keys - todo, ws.Keys - (todo - {k});
    assert done' == done + {k};
    if UuidOf(Apply(pass, k, ws[k])) != k {
      assert ChangedIn(ws, done', pass) == ChangedIn(ws, done, pass) + {k};
      assert k !in ChangedIn(ws, done, pass);
      assert (set j | j in order + [k]) == (set j | j in order) + {k};
    } else {
      assert ChangedIn(ws, done', pass) == ChangedIn(ws, done, pass);
    }
  }

  lemma ChangedInAll(ws: map<Uuid, WorkerState>, pass: Pass)
    ensures ChangedIn(ws, ws.Keys - {}, pass) == ChangedKeys(ApplyAll(ws, pass))
  {
  }

  lemma EnumerateOneMore(order: seq<Uuid>, keys: set<Uuid>, todo: set<Uuid>, k: Uuid)
    requires k in todo && todo <= keys && Enumerates(order, keys - todo)
    ensures Enumerates(order + [k], keys - (todo - {k}))
  {
    assert k !in (set j | j in order);
    assert (set j | j in order + [k]) == (set j | j in order) + {k};
  }

  lemma WithoutErrorsDrops(ws: map<Uuid, WorkerState>, dead: set<Uuid>)
    requires forall k | k in ws :: k in dead <==> ws[k].error
    ensures WithoutErrors(ws) == ws - dead
  {
  }

  // ---- Steps taken from the end of a list --------------------------------

  lemma {:induction false} RehashSnoc(ws: map<Uuid, WorkerState>, order: seq<Uuid>, k: Uuid)
    ensures Rehash(ws, order + [k]) == RehashOne(Rehash(ws, order), k)
    decreases |order|
  {
    if order == [] {
      assert Rehash(ws, [k]) == Rehash(RehashOne(ws, k), [k][1..]);
    } else {
      assert (order + [k])[1..] == order[1..] + [k];
      RehashSnoc(RehashOne(ws, order[0]), order[1..], k);
    }
  }

  lemma JudgeShareKeys(o: Oracle, p: PoolState, k: Uuid, share: Share)
    requires k in p.workers
    ensures JudgeShare(o, p, k, share).workers.Keys == p.workers.Keys
  {
  }

  lemma {:induction false} JudgeSharesSnoc(o: Oracle, p: PoolState, k: Uuid, shares: seq<Share>, share: Share)
    requires k in p.workers
    ensures var p' := JudgeShares(o, p, k, shares);
            && p'.workers.Keys == p.workers.Keys
            && JudgeShares(o, p, k, shares + [share]) == if p'.halted then p' else JudgeShare(o, p', k, share)
    decreases |shares|
  {
    if shares == [] {
      assert [share][1..] == [];
      JudgeShareKeys(o, p, k, share);
    } else if !p.halted {
      JudgeShareKeys(o, p, k, shares[0]);
      assert (shares + [share])[1..] == shares[1..] + [share];
      JudgeSharesSnoc(o, JudgeShare(o, p, k, shares[0]), k, shares[1..], share);
    }
  }

  lemma JudgeSharesNext(o: Oracle, p: PoolState, k: Uuid, shares: seq<Share>, i: nat)
    requires k in p.workers && i < |shares|
    ensures var p' := JudgeShares(o, p, k, shares[..i]);
            && p'.workers.Keys == p.workers.Keys
            && JudgeShares(o, p, k, shares[..i + 1]) == if p'.halted then p' else JudgeShare(o, p', k, shares[i])
  {
    assert shares[..i + 1] == shares[..i] + [shares[i]];
    JudgeSharesSnoc(o, p, k, shares[..i], shares[i]);
  }

  /** Once the pool has halted, the remaining shares change nothing. */
  lemma {:induction false} JudgeSharesHalted(o: Oracle, p: PoolState, k: Uuid, shares: seq<Share>, i: nat)
    requires k in p.workers && i <= |shares|
    requires i == |shares| || JudgeShares(o, p, k, shares[..i]).halted
    ensures JudgeShares(o, p, k, shares) == JudgeShares(o, p, k, shares[..i])
    decreases |shares| - i
  {
    if i == |shares| {
      assert shares[..i] == shares;
    } else {
      assert shares[..i + 1] == shares[..i] + [shares[i]];
      JudgeSharesSnoc(o, p, k, shares[..i], shares[i]);
      JudgeSharesHalted(o, p, k, shares, i + 1);
    }
  }

  lemma {:induction false} ProcessSharesSnoc(o: Oracle, p: PoolState, order: seq<Uuid>, k: Uuid)
    ensures var p' := Stratum.ProcessShares(o, p, order);
            Stratum.ProcessShares(o, p, order + [k]) == if p'.halted then p' else Stratum.DrainWorker(o, p', k)
    decreases |order|
  {
    if order == [] {
      assert [k][1..] == [];
    } else if !p.halted {
      assert (order + [k])[1..] == order[1..] + [k];
      ProcessSharesSnoc(o, Stratum.DrainWorker(o, p, order[0]), order[1..], k);
    }
  }
}
