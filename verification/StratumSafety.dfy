/** What every step of the stratum pool keeps, and what follows for whole runs. */
module StratumSafety {
  import opened Basics
  import opened Sums
  import opened Consensus
  import opened Stratum

  // ---- Worker invariants -------------------------------------------------

  /** Ids are answered in the order they came, and there is one for every answer still owed. */
  predicate FifoInv(w: WorkerState, inHand: nat)
  {
    && w.received == w.answered + w.requestIds
    && |w.requestIds| >= inHand + |w.shares| + if w.requestedJob then 1 else 0
  }

  function Entries(rs: seq<Report>): seq<Judgement>
  {
    if rs == [] then [] else Entries(rs[..|rs| - 1]) + rs[|rs| - 1].entries
  }

  /** Accepted and stale shares never escape the tally, and are of sizes the share check lets through. */
  predicate WellTallied(js: seq<Judgement>)
  {
    forall j | j in js && j.verdict != Rejected :: j.tallied && IsPowSize(j.share.edgeBits)
  }

  /** Every judgement moved exactly one status counter. */
  predicate CountersInv(w: WorkerState)
  {
    && w.status.accepted == VerdictCount(w.judged, Accepted)
    && w.status.rejected == VerdictCount(w.judged, Rejected)
    && w.status.stale == VerdictCount(w.judged, Stale)
  }

  /** Every judgement sits in exactly one report or in the open tally, and tallies add up their judgements. */
  predicate TallyInv(w: WorkerState)
  {
    && w.judged == Entries(w.reports) + w.open
    && w.workerShares.shares == TallyOf(w.open)
    && (forall r | r in w.reports :: r.emitted.shares == TallyOf(r.entries))
    && WellTallied(w.judged)
  }

  predicate CountInv(w: WorkerState) { CountersInv(w) && TallyInv(w) }

  predicate AcceptedAt(js: seq<Judgement>, height: nat)
  {
    forall j | j in js :: j.verdict == Accepted ==> j.share.height == height
  }

  /** Accepted shares belong to the height their tally is labelled with. */
  predicate HeightInv(w: WorkerState, height: nat)
  {
    && (w.authenticated <==> w.userId != 0)
    && (w.authenticated ==> w.workerShares.height == height && AcceptedAt(w.open, height))
    && (!w.authenticated ==> w.reports == [])
    && (forall r | r in w.reports :: AcceptedAt(r.entries, r.emitted.height))
  }

  predicate WorkerInv(w: WorkerState, height: nat, inHand: nat)
  {
    FifoInv(w, inHand) && CountInv(w) && HeightInv(w, height)
  }

  lemma RespondKeeps(w: WorkerState, height: nat, inHand: nat)
    requires WorkerInv(w, height, inHand + 1)
    ensures WorkerInv(Respond(w), height, inHand)
  {
  }

  lemma EntriesAppend(rs: seq<Report>, r: Report)
    ensures Entries(rs + [r]) == Entries(rs) + r.entries
  {
    assert (rs + [r])[..|rs|] == rs;
  }

  lemma VerdictCountAppend(js: seq<Judgement>, j: Judgement, v: Verdict)
    ensures VerdictCount(js + [j], v) == VerdictCount(js, v) + if j.verdict == v then 1 else 0
  {
    assert (js + [j])[..|js|] == js;
  }

  lemma TallyAppend(js: seq<Judgement>, j: Judgement)
    ensures TallyOf(js + [j]) == if j.tallied then AddTally(TallyOf(js), j.share.edgeBits, j.verdict) else TallyOf(js)
  {
    assert (js + [j])[..|js|] == js;
  }

  /** Emitting and resetting moves the open judgements into a report. */
  lemma EmitAndResetKeeps(w: WorkerState, oldHeight: nat, height: nat, difficulty: nat, inHand: nat)
    requires WorkerInv(w, oldHeight, inHand) && w.authenticated
    ensures WorkerInv(ResetWorkerShares(EmitReport(w), height, difficulty), height, inHand)
  {
    EntriesAppend(w.reports, Report(w.workerShares, w.open));
  }

  lemma RequestedJobOwesOne(w: WorkerState, height: nat, delivered: bool, inHand: nat)
    requires WorkerInv(w, height, inHand)
    ensures WorkerInv(SendJob(w, delivered), height, inHand)
  {
    if w.requestedJob {
      RespondKeeps(w.(needsJob := false, requestedJob := false), height, inHand);
    }
  }

  lemma BroadcastKeeps(w: WorkerState, oldHeight: nat, height: nat, difficulty: nat, delivered: bool)
    requires WorkerInv(w, oldHeight, 0)
    ensures WorkerInv(BroadcastTo(w, height, difficulty, delivered), height, 0)
  {
    if w.authenticated {
      var w1 := w.(status := w.status.(difficulty := difficulty, height := height));
      EmitAndResetKeeps(w1, oldHeight, height, difficulty, 0);
      RequestedJobOwesOne(ResetWorkerShares(EmitReport(w1), height, difficulty), height, delivered, 0);
    }
  }

  lemma SendJobToKeeps(w: WorkerState, height: nat, difficulty: nat, delivered: bool)
    requires WorkerInv(w, height, 0)
    ensures WorkerInv(SendJobTo(w, height, difficulty, delivered), height, 0)
  {
    if w.needsJob && w.authenticated {
      var w1 := w.(status := w.status.(difficulty := difficulty, height := height));
      EmitAndResetKeeps(w1, height, height, difficulty, 0);
      RequestedJobOwesOne(ResetWorkerShares(EmitReport(w1), height, difficulty), height, delivered, 0);
    }
  }

  lemma BookMovesOneCounter(w: WorkerState, share: Share, x: Outcome)
    requires CountersInv(w)
    ensures CountersInv(Book(w, share, x))
  {
    var j := Judgement(share, VerdictOf(x), IsTallied(x));
    VerdictCountAppend(w.judged, j, Accepted);
    VerdictCountAppend(w.judged, j, Rejected);
    VerdictCountAppend(w.judged, j, Stale);
  }

  lemma BookTallies(w: WorkerState, share: Share, x: Outcome)
    requires TallyInv(w) && (VerdictOf(x) != Rejected ==> IsPowSize(share.edgeBits))
    ensures TallyInv(Book(w, share, x))
  {
    var j := Judgement(share, VerdictOf(x), IsTallied(x));
    TallyAppend(w.open, j);
    assert w.judged + [j] == Entries(w.reports) + (w.open + [j]);
  }

  /** Answering leaves everything but the request ids alone. */
  lemma RespondTouchesIdsOnly(w: WorkerState)
    ensures Respond(w).(requestIds := w.requestIds, answered := w.answered) == w
  {
  }

  lemma JudgeCounts(w: WorkerState, share: Share, x: Outcome)
    requires CountInv(w) && (VerdictOf(x) != Rejected ==> IsPowSize(share.edgeBits))
    ensures CountInv(Judge(w, share, x))
  {
    BookMovesOneCounter(w, share, x);
    BookTallies(w, share, x);
    var b := Book(w, share, x);
    RespondTouchesIdsOnly(b);
  }

  lemma RespondFifo(w: WorkerState, inHand: nat)
    requires FifoInv(w, inHand + 1)
    ensures FifoInv(Respond(w), inHand)
  {
  }

  lemma JudgeFifo(w: WorkerState, inHand: nat, share: Share, x: Outcome)
    requires FifoInv(w, inHand + 1)
    ensures FifoInv(Judge(w, share, x), inHand)
  {
  }

  lemma JudgeHeight(w: WorkerState, height: nat, share: Share, x: Outcome)
    requires HeightInv(w, height)
    requires x.Good? ==> share.height == height
    ensures HeightInv(Judge(w, share, x), height)
  {
  }

  lemma ReceiveKeeps(w: WorkerState, id: string, height: nat)
    requires WorkerInv(w, height, 0)
    ensures WorkerInv(Receive(w, id), height, 1)
  {
    assert w.received + [id] == w.answered + (w.requestIds + [id]);
  }

  /** A refused login changes nothing but the error flag; an accepted one is followed by a reset. */
  lemma LogInStateKeeps(w: WorkerState, login: LoginParams, height: nat, difficulty: nat)
    requires WorkerInv(w, height, 1)
    ensures var w' := LogInState(w, login);
            && FifoInv(w', 1)
            && w'.connId == w.connId
            && (w'.userId == w.userId ==> CountInv(w') && HeightInv(w', height))
            && (w'.userId != w.userId ==>
                  && CountInv(ResetWorkerShares(w', height, difficulty))
                  && HeightInv(ResetWorkerShares(w', height, difficulty), height))
  {
  }

  lemma LogInKeeps(w: WorkerState, login: LoginParams, height: nat, difficulty: nat)
    requires WorkerInv(w, height, 1)
    ensures LogIn(w, login).connId == w.connId
    ensures LogIn(w, login).userId == w.userId ==> WorkerInv(LogIn(w, login), height, 0)
    ensures LogIn(w, login).userId != w.userId ==> WorkerInv(ResetWorkerShares(LogIn(w, login), height, difficulty), height, 0)
  {
    LogInStateKeeps(w, login, height, difficulty);
    var w1 := LogInState(w, login);
    RespondFifo(w1, 0);
    RespondTouchesIdsOnly(w1);
  }

  /** Steps that touch neither tallies nor the account. */
  predicate SameBooks(w: WorkerState, w': WorkerState)
  {
    && w'.userId == w.userId && w'.connId == w.connId && w'.authenticated == w.authenticated
    && w'.status == w.status && w'.workerShares == w.workerShares
    && w'.judged == w.judged && w'.open == w.open && w'.reports == w.reports
  }

  lemma SameBooksKeep(w: WorkerState, w': WorkerState, height: nat)
    requires SameBooks(w, w') && CountInv(w) && HeightInv(w, height)
    ensures CountInv(w') && HeightInv(w', height)
  {
  }

  lemma HandleRequestKeeps(w: WorkerState, request: Request)
    requires FifoInv(w, 1) && !request.Login?
    ensures FifoInv(HandleRequest(w, request), 0) && SameBooks(w, HandleRequest(w, request))
  {
    RespondFifo(w, 0);
    RespondTouchesIdsOnly(w);
  }

  lemma HandleMessageKeeps(w: WorkerState, m: Message, height: nat)
    requires WorkerInv(w, height, 0)
    requires m.Rpc? ==> !m.request.Login?
    ensures WorkerInv(HandleMessage(w, m), height, 0)
    ensures UuidOf(HandleMessage(w, m)) == UuidOf(w)
  {
    if m.Rpc? {
      var r := Receive(w, m.id);
      ReceiveKeeps(w, m.id, height);
      HandleRequestKeeps(r, m.request);
      SameBooksKeep(r, HandleRequest(r, m.request), height);
    }
  }

  /** Reading one message keeps everything but, on login, the tally that is about to be dropped. */
  lemma ReadMessageKeeps(w: WorkerState, k: Uuid, m: Message, height: nat, difficulty: nat)
    requires WorkerInv(w, height, 0) && UuidOf(w) == k
    ensures WorkerInv(ReadMessage(w, k, m, height, difficulty), height, 0)
    ensures ReadMessage(w, k, m, height, difficulty).connId == k.connId
  {
    if m.Rpc? && m.request.Login? {
      ReceiveKeeps(w, m.id, height);
      LogInKeeps(Receive(w, m.id), m.request.login, height, difficulty);
    } else {
      HandleMessageKeeps(w, m, height);
    }
  }

  // ---- Pool invariants ---------------------------------------------------

  function LatestIssue(issued: seq<Issued>, id: nat): Option<Issued>
  {
    if issued == [] then None
    else if issued[|issued| - 1].job.jobId == id then Some(issued[|issued| - 1])
    else LatestIssue(issued[..|issued| - 1], id)
  }

  predicate WorkersInv(p: PoolState, k: Uuid, inHand: nat)
  {
    forall j | j in p.workers :: WorkerInv(p.workers[j], p.job.height, if j == k then inHand else 0)
  }

  /** Keys are the workers' own uuids, and connections are never shared. */
  predicate KeysInv(ws: map<Uuid, WorkerState>)
  {
    && (forall k | k in ws :: UuidOf(ws[k]) == k)
    && (forall k, j | k in ws && j in ws && k != j :: k.connId != j.connId)
  }

  predicate NoDuplicatesInv(p: PoolState)
  {
    && (forall i, j | 0 <= i < j < |p.accepted| :: p.accepted[i] != p.accepted[j])
    && (forall x | x in p.accepted :: x in p.duplicates)
  }

  predicate IssuedInv(issued: seq<Issued>, height: nat)
  {
    forall i | i in issued :: i.job.height == height && i.job.jobId == ComposeJobId(height, i.serverId)
  }

  /** The versions on file are the latest pre_pow issued at this height for each job id. */
  predicate VersionsInv(p: PoolState)
  {
    && IssuedInv(p.issued, p.job.height)
    && forall id | id in p.versions ::
         LatestIssue(p.issued, id).Some? && LatestIssue(p.issued, id).value.job.prePow == p.versions[id]
  }

  /** A forwarded share was checked against the latest job under its id at the height it claims. */
  predicate ForwardInv(o: Oracle, f: Forward)
  {
    && f.height == f.share.height && f.height > 0
    && IssuedInv(f.issued, f.height)
    && LatestIssue(f.issued, f.share.jobId).Some?
    && var latest := LatestIssue(f.issued, f.share.jobId).value;
    && latest.job.prePow == f.prePow
    && |f.share.pow| == PROOF_SIZE
    && o.header(f.prePow, EdgeByte(f.share), f.share.nonce, f.share.pow)
    && o.cycle(f.prePow, EdgeByte(f.share), f.share.nonce, f.share.pow)
    && f.sentId == latest.serverId % f.height
  }

  predicate PoolInv(o: Oracle, p: PoolState, k: Uuid, inHand: nat)
  {
    && WorkersInv(p, k, inHand)
    && KeysInv(p.workers)
    && NoDuplicatesInv(p)
    && VersionsInv(p)
    && forall f | f in p.forwarded :: ForwardInv(o, f)
  }

  /** The invariant between steps, when no share is in hand. */
  predicate Inv(o: Oracle, p: PoolState) { PoolInv(o, p, Uuid(0, ""), 0) }

  lemma NothingInHand(o: Oracle, p: PoolState, k: Uuid, inHand: nat)
    requires PoolInv(o, p, k, inHand)
    ensures Inv(o, p)
    ensures forall j :: PoolInv(o, p, j, 0)
  {
  }

  lemma LatestIssueIn(issued: seq<Issued>, id: nat)
    requires LatestIssue(issued, id).Some?
    ensures LatestIssue(issued, id).value in issued && LatestIssue(issued, id).value.job.jobId == id
  {
  }

  /** The height prefix comes off exactly when the server's id is below the height. */
  lemma JobIdRoundTrip(height: nat, serverId: nat)
    requires height > 0
    ensures ComposeJobId(height, serverId) % height == serverId % height
    ensures ComposeJobId(height, serverId) % height == serverId <==> serverId < height
  {
    var q, r := serverId / height, serverId % height;
    assert serverId == q * height + r;
    assert height * 1000 + serverId == (1000 + q) * height + r;
    ModUnique(ComposeJobId(height, serverId), height, 1000 + q, r);
  }

  lemma ForwardedInv(o: Oracle, p: PoolState, k: Uuid, share: Share)
    requires k in p.workers && VersionsInv(p)
    requires ClassifyIn(o, p, k, share).Good? && share.height > 0
    ensures ForwardInv(o, Forward(share, share.jobId % share.height, p.versions[share.jobId], p.job.height, p.issued))
  {
    LatestIssueIn(p.issued, share.jobId);
    JobIdRoundTrip(share.height, LatestIssue(p.issued, share.jobId).value.serverId);
  }

  lemma JudgeKeeps(w: WorkerState, height: nat, inHand: nat, share: Share, x: Outcome)
    requires WorkerInv(w, height, inHand + 1)
    requires x.Good? ==> share.height == height
    requires VerdictOf(x) != Rejected ==> IsPowSize(share.edgeBits)
    ensures WorkerInv(Judge(w, share, x), height, inHand) && UuidOf(Judge(w, share, x)) == UuidOf(w)
  {
    JudgeCounts(w, share, x);
    JudgeFifo(w, inHand, share, x);
    JudgeHeight(w, height, share, x);
  }

  lemma ReplaceWorker(p: PoolState, p': PoolState, k: Uuid, w': WorkerState, inHand: nat)
    requires k in p.workers && WorkersInv(p, k, inHand + 1) && KeysInv(p.workers)
    requires p'.workers == p.workers[k := w'] && p'.job == p.job
    requires WorkerInv(w', p.job.height, inHand) && UuidOf(w') == k
    ensures WorkersInv(p', k, inHand) && KeysInv(p'.workers)
  {
  }

  lemma JudgeShareShape(o: Oracle, p: PoolState, k: Uuid, share: Share)
    requires k in p.workers
    ensures var p', x := JudgeShare(o, p, k, share), ClassifyIn(o, p, k, share);
            && p'.workers == p.workers[k := Judge(p.workers[k], share, x)]
            && p'.job == p.job && p'.versions == p.versions && p'.issued == p.issued
  {
  }

  lemma JudgeShareWorkers(o: Oracle, p: PoolState, k: Uuid, share: Share, inHand: nat)
    requires k in p.workers && WorkersInv(p, k, inHand + 1) && KeysInv(p.workers)
    ensures WorkersInv(JudgeShare(o, p, k, share), k, inHand) && KeysInv(JudgeShare(o, p, k, share).workers)
  {
    var x := ClassifyIn(o, p, k, share);
    JudgeKeeps(p.workers[k], p.job.height, inHand, share, x);
    JudgeShareShape(o, p, k, share);
    var p' := JudgeShare(o, p, k, share);
    ReplaceWorker(p, p', k, Judge(p.workers[k], share, x), inHand);
  }

  lemma JudgeSharePool(o: Oracle, p: PoolState, k: Uuid, share: Share)
    requires k in p.workers && NoDuplicatesInv(p) && VersionsInv(p)
    requires forall f | f in p.forwarded :: ForwardInv(o, f)
    ensures NoDuplicatesInv(JudgeShare(o, p, k, share)) && VersionsInv(JudgeShare(o, p, k, share))
    ensures forall f | f in JudgeShare(o, p, k, share).forwarded :: ForwardInv(o, f)
  {
    var x := ClassifyIn(o, p, k, share);
    if x.Good? && share.height > 0 {
      ForwardedInv(o, p, k, share);
    }
  }

  lemma JudgeShareKeeps(o: Oracle, p: PoolState, k: Uuid, share: Share, inHand: nat)
    requires k in p.workers && PoolInv(o, p, k, inHand + 1)
    ensures PoolInv(o, JudgeShare(o, p, k, share), k, inHand)
    ensures JudgeShare(o, p, k, share).workers.Keys == p.workers.Keys
  {
    JudgeShareShape(o, p, k, share);
    var p' := JudgeShare(o, p, k, share);
    assert WorkersInv(p', k, inHand) && KeysInv(p'.workers) by { JudgeShareWorkers(o, p, k, share, inHand); }
    JudgeSharePool(o, p, k, share);
  }

  lemma {:induction false} JudgeSharesKeeps(o: Oracle, p: PoolState, k: Uuid, shares: seq<Share>)
    requires k in p.workers && PoolInv(o, p, k, |shares|)
    ensures Inv(o, JudgeShares(o, p, k, shares))
    ensures JudgeShares(o, p, k, shares).workers.Keys == p.workers.Keys
    decreases |shares|
  {
    if shares == [] || p.halted {
      NothingInHand(o, p, k, |shares|);
    } else {
      JudgeShareKeeps(o, p, k, shares[0], |shares| - 1);
      JudgeSharesKeeps(o, JudgeShare(o, p, k, shares[0]), k, shares[1..]);
    }
  }

  lemma TakeSharesKeeps(o: Oracle, p: PoolState, k: Uuid)
    requires Inv(o, p) && k in p.workers
    ensures PoolInv(o, TakeShares(p, k), k, |p.workers[k].shares|)
  {
    var p1 := TakeShares(p, k);
    var n := |p.workers[k].shares|;
    var w1 := p.workers[k].(shares := []);
    assert WorkerInv(w1, p.job.height, n) by { SameBooksKeep(p.workers[k], w1, p.job.height); }
    assert WorkersInv(p, k, 0);
    forall j | j in p1.workers
      ensures WorkerInv(p1.workers[j], p1.job.height, if j == k then n else 0) && UuidOf(p1.workers[j]) == j
    {
      assert j in p.workers;
    }
  }

  lemma DrainWorkerKeeps(o: Oracle, p: PoolState, k: Uuid)
    requires Inv(o, p)
    ensures Inv(o, DrainWorker(o, p, k))
    ensures DrainWorker(o, p, k).workers.Keys == p.workers.Keys
  {
    if k in p.workers {
      TakeSharesKeeps(o, p, k);
      JudgeSharesKeeps(o, TakeShares(p, k), k, p.workers[k].shares);
    }
  }

  lemma {:induction false} ProcessSharesKeeps(o: Oracle, p: PoolState, order: seq<Uuid>)
    requires Inv(o, p)
    ensures Inv(o, ProcessShares(o, p, order))
    decreases |order|
  {
    if order != [] && !p.halted {
      DrainWorkerKeeps(o, p, order[0]);
      ProcessSharesKeeps(o, DrainWorker(o, p, order[0]), order[1..]);
    }
  }

  lemma AcceptNewJobKeeps(o: Oracle, p: PoolState, undelivered: set<Uuid>)
    requires Inv(o, p)
    ensures Inv(o, AcceptNewJob(p, undelivered))
  {
    if p.job.prePow != p.serverJob.prePow {
      var p' := AcceptNewJob(p, undelivered);
      forall k | k in p'.workers
        ensures WorkerInv(p'.workers[k], p'.job.height, 0) && UuidOf(p'.workers[k]) == k
      {
        BroadcastKeeps(p.workers[k], p.job.height, p'.job.height, p.difficulty, k !in undelivered);
      }
      forall id | id in p'.versions
        ensures LatestIssue(p'.issued, id).Some? && LatestIssue(p'.issued, id).value.job.prePow == p'.versions[id]
      {
        var before := if p.job.height != p'.job.height then [] else p.issued;
        assert p'.issued[..|p'.issued| - 1] == before;
      }
    }
  }

  lemma SendJobsKeeps(o: Oracle, p: PoolState, undelivered: set<Uuid>)
    requires Inv(o, p)
    ensures Inv(o, SendJobs(p, undelivered))
  {
    var p' := SendJobs(p, undelivered);
    forall k | k in p'.workers ensures WorkerInv(p'.workers[k], p'.job.height, 0) && UuidOf(p'.workers[k]) == k {
      SendJobToKeeps(p.workers[k], p.job.height, p.difficulty, k !in undelivered);
    }
  }

  // ---- Rehashing after logins --------------------------------------------

  /** The same workers, none lost and none twice, each under its own uuid. */
  ghost predicate Rekeyed(ws: map<Uuid, WorkerState>, ws': map<Uuid, WorkerState>)
  {
    && (forall k | k in ws :: UuidOf(ws[k]) in ws' && ws'[UuidOf(ws[k])] == ws[k])
    && (forall u | u in ws' :: exists k :: k in ws && UuidOf(ws[k]) == u)
    && |ws'| == |ws|
  }

  /** Each entry is filed under its own connection, and no two share one. */
  predicate ConnectionsDistinct(ws: map<Uuid, WorkerState>)
  {
    && (forall k | k in ws :: ws[k].connId == k.connId)
    && (forall k, j | k in ws && j in ws && k != j :: k.connId != j.connId)
  }

  /** Moving one worker frees its old key and never lands on another worker. */
  lemma MoveOne(ws: map<Uuid, WorkerState>, k: Uuid)
    requires ConnectionsDistinct(ws) && k in ws && UuidOf(ws[k]) != k
    ensures UuidOf(ws[k]) !in ws
    ensures ConnectionsDistinct(RehashOne(ws, k))
    ensures |RehashOne(ws, k)| == |ws|
  {
    var u := UuidOf(ws[k]);
    assert u.connId == k.connId;
    assert RehashOne(ws, k).Keys == ws.Keys - {k} + {u};
    assert |ws.Keys - {k}| == |ws.Keys| - 1;
  }

  lemma MoveOneChanges(ws: map<Uuid, WorkerState>, k: Uuid)
    requires k in ws && UuidOf(ws[k]) != k && UuidOf(ws[k]) !in ws
    ensures ChangedKeys(RehashOne(ws, k)) == ChangedKeys(ws) - {k}
  {
  }

  lemma RekeyedBeforeMove(ws: map<Uuid, WorkerState>, k: Uuid, ws1: map<Uuid, WorkerState>, ws': map<Uuid, WorkerState>)
    requires k in ws && UuidOf(ws[k]) !in ws && |ws1| == |ws|
    requires ws1 == (ws - {k})[UuidOf(ws[k]) := ws[k]]
    requires Rekeyed(ws1, ws')
    ensures Rekeyed(ws, ws')
  {
    var u := UuidOf(ws[k]);
    forall v | v in ws' ensures exists j :: j in ws && UuidOf(ws[j]) == v {
      var j :| j in ws1 && UuidOf(ws1[j]) == v;
      var j0 := if j == u then k else j;
      assert j0 in ws && UuidOf(ws[j0]) == v;
    }
    forall j | j in ws ensures UuidOf(ws[j]) in ws' && ws'[UuidOf(ws[j])] == ws[j] {
      var j1 := if j == k then u else j;
      assert j1 in ws1 && ws1[j1] == ws[j];
    }
  }

  /** For any order of the changed keys, the second pass re-keys every worker exactly once. */
  lemma {:induction false} RehashRekeys(ws: map<Uuid, WorkerState>, order: seq<Uuid>)
    requires ConnectionsDistinct(ws)
    requires Enumerates(order, ChangedKeys(ws))
    ensures Rekeyed(ws, Rehash(ws, order))
    decreases |order|
  {
    if order == [] {
      forall k | k in ws ensures UuidOf(ws[k]) == k { assert k !in ChangedKeys(ws); }
    } else {
      var k := order[0];
      assert k in ChangedKeys(ws);
      MoveOne(ws, k);
      MoveOneChanges(ws, k);
      var ws1 := RehashOne(ws, k);
      EnumerateRest(order, ChangedKeys(ws));
      RehashRekeys(ws1, order[1..]);
      RekeyedBeforeMove(ws, k, ws1, Rehash(ws1, order[1..]));
    }
  }

  lemma EnumerateRest(order: seq<Uuid>, keys: set<Uuid>)
    requires order != [] && Enumerates(order, keys)
    ensures order[0] in keys && Enumerates(order[1..], keys - {order[0]})
  {
    assert forall k :: k in order <==> k == order[0] || k in order[1..];
  }

  /** The hash map's order does not show in the result. */
  lemma RehashOrderIrrelevant(ws: map<Uuid, WorkerState>, first: seq<Uuid>, second: seq<Uuid>)
    requires ConnectionsDistinct(ws)
    requires Enumerates(first, ChangedKeys(ws)) && Enumerates(second, ChangedKeys(ws))
    ensures Rehash(ws, first) == Rehash(ws, second)
  {
    RehashRekeys(ws, first);
    RehashRekeys(ws, second);
    RekeyedUnique(ws, Rehash(ws, first), Rehash(ws, second));
  }

  lemma RekeyedUnique(ws: map<Uuid, WorkerState>, a: map<Uuid, WorkerState>, b: map<Uuid, WorkerState>)
    requires Rekeyed(ws, a) && Rekeyed(ws, b)
    ensures a == b
  {
    RekeyedSubset(ws, a, b);
    RekeyedSubset(ws, b, a);
  }

  lemma RekeyedSubset(ws: map<Uuid, WorkerState>, a: map<Uuid, WorkerState>, b: map<Uuid, WorkerState>)
    requires Rekeyed(ws, a) && Rekeyed(ws, b)
    ensures forall u | u in a :: u in b && a[u] == b[u]
  {
    forall u | u in a ensures u in b && a[u] == b[u] {
      var k :| k in ws && UuidOf(ws[k]) == u;
    }
  }

  lemma RekeyedKeys(ws: map<Uuid, WorkerState>, ws': map<Uuid, WorkerState>)
    requires ConnectionsDistinct(ws) && Rekeyed(ws, ws')
    ensures KeysInv(ws')
  {
    forall u, v | u in ws' && v in ws' && u != v ensures u.connId != v.connId {
      var j :| j in ws && UuidOf(ws[j]) == u;
      var k :| k in ws && UuidOf(ws[k]) == v;
    }
    forall u | u in ws' ensures UuidOf(ws'[u]) == u {
      var j :| j in ws && UuidOf(ws[j]) == u;
    }
  }

  lemma ReadMessagesKeeps(o: Oracle, p: PoolState, msgs: map<Uuid, Message>, order: seq<Uuid>)
    requires Inv(o, p) && Possible(p, ReadsMessages(msgs, order))
    ensures Inv(o, ProcessWorkerMessages(p, msgs, order))
  {
    if !SomePanic(msgs) {
      var ws := ApplyAll(p.workers, Reading(p.job.height, p.difficulty, msgs));
      forall k | k in ws ensures WorkerInv(ws[k], p.job.height, 0) && ws[k].connId == k.connId {
        ReadMessageKeeps(p.workers[k], k, MessageFor(msgs, k), p.job.height, p.difficulty);
      }
      var ws' := Rehash(ws, order);
      RehashRekeys(ws, order);
      RekeyedKeys(ws, ws');
      forall u | u in ws' ensures WorkerInv(ws'[u], p.job.height, 0) {
        var k :| k in ws && UuidOf(ws[k]) == u;
      }
    }
  }

  // ---- Runs --------------------------------------------------------------

  lemma ConnectKeeps(o: Oracle, p: PoolState, connId: string)
    requires Inv(o, p) && Possible(p, Connected(connId))
    ensures Inv(o, Connect(p, connId))
  {
    var w := NewWorker(connId, p.difficulty);
    assert WorkerInv(w, p.job.height, 0);
  }

  /** Every possible step keeps the invariant. */
  lemma StepKeeps(o: Oracle, p: PoolState, e: Event)
    requires Inv(o, p) && Possible(p, e)
    ensures Inv(o, Step(o, p, e))
  {
    if !p.halted {
      match e
      case Connected(c) => ConnectKeeps(o, p, c);
      case ServerJobChanged(job) =>
      case AcceptsNewJob(undelivered) => AcceptNewJobKeeps(o, p, undelivered);
      case ReadsMessages(msgs, order) => ReadMessagesKeeps(o, p, msgs, order);
      case ProcessesShares(order) => ProcessSharesKeeps(o, p, order);
      case SendsJobs(undelivered) => SendJobsKeeps(o, p, undelivered);
      case CleansWorkers =>
    }
  }

  /** Every state of every run satisfies the invariant. */
  lemma {:induction false} RunKeeps(o: Oracle, states: seq<PoolState>, events: seq<Event>, n: nat)
    requires IsRun(o, states, events) && n < |states|
    ensures Inv(o, states[n])
    decreases n
  {
    if n > 0 {
      RunKeeps(o, states, events, n - 1);
      StepKeeps(o, states[n - 1], events[n - 1]);
    }
  }

  // ---- What follows for runs ---------------------------------------------

  /**
   * Request ids: in every reachable state the ids answered so far are a prefix of the ids received,
   * and enough unanswered ids remain for the pending shares and a requested job, so that answering
   * never finds the queue empty.
   */
  lemma ResponsesAreFifo(o: Oracle, states: seq<PoolState>, events: seq<Event>, n: nat, k: Uuid)
    requires IsRun(o, states, events) && n < |states| && k in states[n].workers
    ensures var w := states[n].workers[k];
            && w.answered <= w.received
            && w.received[|w.answered|..] == w.requestIds
            && |w.requestIds| >= |w.shares| + if w.requestedJob then 1 else 0
  {
    RunKeeps(o, states, events, n);
    var w := states[n].workers[k];
    assert w.received == w.answered + w.requestIds;
  }

  /** Between two clears of the duplicate map no proof is accepted twice, by whichever workers and in whichever order. */
  lemma AcceptedAtMostOnce(o: Oracle, states: seq<PoolState>, events: seq<Event>, n: nat)
    requires IsRun(o, states, events) && n < |states|
    ensures forall i, j | 0 <= i < j < |states[n].accepted| :: states[n].accepted[i] != states[n].accepted[j]
    ensures |states[n].accepted| <= |states[n].duplicates|
  {
    RunKeeps(o, states, events, n);
    var p := states[n];
    DistinctFits(p.accepted, p.duplicates.Keys);
  }

  lemma {:induction false} DistinctFits<T>(xs: seq<T>, s: set<T>)
    requires forall i, j | 0 <= i < j < |xs| :: xs[i] != xs[j]
    requires forall x | x in xs :: x in s
    ensures |xs| <= |s|
    decreases |xs|
  {
    if xs != [] {
      var last := xs[|xs| - 1];
      forall x | x in xs[..|xs| - 1] ensures x in s - {last} { assert x in xs; }
      DistinctFits(xs[..|xs| - 1], s - {last});
    }
  }

  /**
   * A share sent upstream was verified against the latest pre_pow issued at its height under its job
   * id, and carries the server's own id exactly when that id is below the height.
   */
  lemma ForwardedSharesAreVerified(o: Oracle, states: seq<PoolState>, events: seq<Event>, n: nat, f: Forward)
    requires IsRun(o, states, events) && n < |states| && f in states[n].forwarded
    ensures ForwardInv(o, f)
    ensures var serverId := LatestIssue(f.issued, f.share.jobId).value.serverId;
            f.sentId == serverId <==> serverId < f.height
  {
    RunKeeps(o, states, events, n);
    var latest := LatestIssue(f.issued, f.share.jobId).value;
    LatestIssueIn(f.issued, f.share.jobId);
    JobIdRoundTrip(f.height, latest.serverId);
  }

  // ---- Conservation of tallies -------------------------------------------

  function ReportedCount(rs: seq<Report>, size: nat, v: Verdict): nat
  {
    if rs == [] then 0
    else ReportedCount(rs[..|rs| - 1], size, v) + Pick(CountsFor(rs[|rs| - 1].emitted.shares, size), v)
  }

  lemma {:induction false} TallyCounts(js: seq<Judgement>, size: nat, v: Verdict)
    ensures Pick(CountsFor(TallyOf(js), size), v) == SizeCount(js, size, v)
    decreases |js|
  {
    if js != [] { TallyCounts(js[..|js| - 1], size, v); }
  }

  lemma {:induction false} SizeCountConcat(a: seq<Judgement>, b: seq<Judgement>, size: nat, v: Verdict)
    ensures SizeCount(a + b, size, v) == SizeCount(a, size, v) + SizeCount(b, size, v)
    decreases |b|
  {
    if b == [] {
      assert a + b == a;
    } else {
      assert (a + b)[..|a + b| - 1] == a + b[..|b| - 1];
      SizeCountConcat(a, b[..|b| - 1], size, v);
    }
  }

  lemma {:induction false} ReportsCount(rs: seq<Report>, size: nat, v: Verdict)
    requires forall r | r in rs :: r.emitted.shares == TallyOf(r.entries)
    ensures ReportedCount(rs, size, v) == SizeCount(Entries(rs), size, v)
    decreases |rs|
  {
    if rs != [] {
      var r := rs[|rs| - 1];
      ReportsCount(rs[..|rs| - 1], size, v);
      TallyCounts(r.entries, size, v);
      SizeCountConcat(Entries(rs[..|rs| - 1]), r.entries, size, v);
    }
  }

  /** Since login, emitted reports plus the pending tally account for everything tallied, size by size. */
  lemma TalliesAreConserved(o: Oracle, states: seq<PoolState>, events: seq<Event>, n: nat, k: Uuid, size: nat, v: Verdict)
    requires IsRun(o, states, events) && n < |states| && k in states[n].workers
    ensures var w := states[n].workers[k];
            ReportedCount(w.reports, size, v) + Pick(CountsFor(w.workerShares.shares, size), v) == SizeCount(w.judged, size, v)
  {
    RunKeeps(o, states, events, n);
    var w := states[n].workers[k];
    ReportsCount(w.reports, size, v);
    TallyCounts(w.open, size, v);
    SizeCountConcat(Entries(w.reports), w.open, size, v);
  }

  /** The sizes a list of judgements mentions. */
  function Sizes(js: seq<Judgement>): set<nat> { set j | j in js :: j.share.edgeBits }

  lemma {:induction false} SizesPartition(js: seq<Judgement>, sizes: set<nat>, v: Verdict)
    requires WellTallied(js) && v != Rejected && Sizes(js) <= sizes
    ensures SetSum(sizes, z => SizeCount(js, z, v)) == VerdictCount(js, v)
    decreases |js|
  {
    var count := z => SizeCount(js, z, v);
    if js == [] {
      SetSumZero(sizes, count);
    } else {
      var j, before := js[|js| - 1], js[..|js| - 1];
      assert forall x | x in before :: x in js;
      SizesPartition(before, sizes, v);
      assert j in js && j.share.edgeBits in Sizes(js);
      SetSumUpdate(sizes, z => SizeCount(before, z, v), count, j.share.edgeBits);
    }
  }

  /** The status counters for accepted and stale shares equal the tallies summed over all sizes. */
  lemma StatusMatchesTallies(o: Oracle, states: seq<PoolState>, events: seq<Event>, n: nat, k: Uuid)
    requires IsRun(o, states, events) && n < |states| && k in states[n].workers
    ensures var w := states[n].workers[k];
            && w.status.accepted == SetSum(Sizes(w.judged), z => SizeCount(w.judged, z, Accepted))
            && w.status.stale == SetSum(Sizes(w.judged), z => SizeCount(w.judged, z, Stale))
            && w.status.accepted + w.status.rejected + w.status.stale == |w.judged|
  {
    RunKeeps(o, states, events, n);
    var w := states[n].workers[k];
    SizesPartition(w.judged, Sizes(w.judged), Accepted);
    SizesPartition(w.judged, Sizes(w.judged), Stale);
    VerdictsPartition(w.judged);
  }

  lemma {:induction false} VerdictsPartition(js: seq<Judgement>)
    ensures VerdictCount(js, Accepted) + VerdictCount(js, Rejected) + VerdictCount(js, Stale) == |js|
    decreases |js|
  {
    if js != [] { VerdictsPartition(js[..|js| - 1]); }
  }

  // ---- Sizes that the share check refuses --------------------------------

  /** A refused size enters the tally exactly when the proof has been seen before. */
  lemma RefusedSizeIsTalliedIff(o: Oracle, p: PoolState, k: Uuid, share: Share)
    requires k in p.workers && !IsPowSize(share.edgeBits)
    ensures JudgeShare(o, p, k, share).workers[k].workerShares != p.workers[k].workerShares <==> share.pow in p.duplicates
    ensures share.pow in p.duplicates ==>
              var before := p.workers[k].workerShares.shares;
              JudgeShare(o, p, k, share).workers[k].workerShares.shares
              == before[share.edgeBits := Add(CountsFor(before, share.edgeBits), Rejected)]
  {
    JudgeShareShape(o, p, k, share);
    var before := p.workers[k].workerShares.shares;
    var after := AddTally(before, share.edgeBits, Rejected);
    assert after[share.edgeBits] != CountsFor(before, share.edgeBits);
  }

  /** In every run, reports and open tallies hold nothing but rejected shares under such a size. */
  lemma RefusedSizesAreOnlyRejected(o: Oracle, states: seq<PoolState>, events: seq<Event>, n: nat, k: Uuid, size: nat)
    requires IsRun(o, states, events) && n < |states| && k in states[n].workers && !IsPowSize(size)
    ensures forall r | r in states[n].workers[k].reports ::
              CountsFor(r.emitted.shares, size).accepted == CountsFor(r.emitted.shares, size).stale == 0
    ensures var open := CountsFor(states[n].workers[k].workerShares.shares, size);
            open.accepted == open.stale == 0
  {
    RunKeeps(o, states, events, n);
    var w := states[n].workers[k];
    OnlyRejected(w.open, size);
    forall r | r in w.reports
      ensures CountsFor(r.emitted.shares, size).accepted == CountsFor(r.emitted.shares, size).stale == 0
    {
      ReportIsJudged(w.reports, r);
      OnlyRejected(r.entries, size);
    }
  }

  lemma {:induction false} ReportIsJudged(rs: seq<Report>, r: Report)
    requires r in rs
    ensures forall j | j in r.entries :: j in Entries(rs)
    decreases |rs|
  {
    if r != rs[|rs| - 1] { ReportIsJudged(rs[..|rs| - 1], r); }
  }

  /** Well tallied judgements leave no accepted or stale share under a refused size. */
  lemma OnlyRejected(js: seq<Judgement>, size: nat)
    requires WellTallied(js) && !IsPowSize(size)
    ensures CountsFor(TallyOf(js), size).accepted == CountsFor(TallyOf(js), size).stale == 0
  {
    TallyCounts(js, size, Accepted);
    TallyCounts(js, size, Stale);
    NoneOfSize(js, size, Accepted);
    NoneOfSize(js, size, Stale);
  }

  lemma {:induction false} NoneOfSize(js: seq<Judgement>, size: nat, v: Verdict)
    requires WellTallied(js) && !IsPowSize(size) && v != Rejected
    ensures SizeCount(js, size, v) == 0
    decreases |js|
  {
    if js != [] {
      assert js[|js| - 1] in js;
      NoneOfSize(js[..|js| - 1], size, v);
    }
  }

  // ---- Every drained share is judged -------------------------------------

  function SharesOf(js: seq<Judgement>): seq<Share> { seq(|js|, i requires 0 <= i < |js| => js[i].share) }

  lemma JudgeAddsOne(w: WorkerState, share: Share, x: Outcome)
    ensures SharesOf(Judge(w, share, x).judged) == SharesOf(w.judged) + [share]
  {
  }

  /** Draining a worker judges each pending share exactly once, in order, unless the pool halts. */
  lemma {:induction false} JudgeSharesJudgesEach(o: Oracle, p: PoolState, k: Uuid, shares: seq<Share>)
    requires k in p.workers && !JudgeShares(o, p, k, shares).halted
    ensures k in JudgeShares(o, p, k, shares).workers
    ensures SharesOf(JudgeShares(o, p, k, shares).workers[k].judged) == SharesOf(p.workers[k].judged) + shares
    decreases |shares|
  {
    if shares != [] {
      var p1 := JudgeShare(o, p, k, shares[0]);
      JudgeShareJudges(o, p, k, shares[0]);
      assert JudgeShares(o, p, k, shares) == JudgeShares(o, p1, k, shares[1..]);
      JudgeSharesJudgesEach(o, p1, k, shares[1..]);
      HeadAndTail(SharesOf(p.workers[k].judged), shares);
    }
  }

  lemma HeadAndTail(before: seq<Share>, shares: seq<Share>)
    requires shares != []
    ensures (before + [shares[0]]) + shares[1..] == before + shares
  {
  }

  lemma JudgeShareJudges(o: Oracle, p: PoolState, k: Uuid, share: Share)
    requires k in p.workers
    ensures k in JudgeShare(o, p, k, share).workers
    ensures SharesOf(JudgeShare(o, p, k, share).workers[k].judged) == SharesOf(p.workers[k].judged) + [share]
  {
    JudgeShareShape(o, p, k, share);
    JudgeAddsOne(p.workers[k], share, ClassifyIn(o, p, k, share));
  }

  lemma DrainJudgesEachShare(o: Oracle, p: PoolState, k: Uuid)
    requires k in p.workers && !DrainWorker(o, p, k).halted
    ensures k in DrainWorker(o, p, k).workers
    ensures SharesOf(DrainWorker(o, p, k).workers[k].judged) == SharesOf(p.workers[k].judged) + p.workers[k].shares
  {
    JudgeSharesJudgesEach(o, TakeShares(p, k), k, p.workers[k].shares);
  }

  // ---- Halting -----------------------------------------------------------

  /** No job at height zero is on file. */
  predicate PositiveHeights(p: PoolState)
  {
    && (p.serverJob == NO_JOB || p.serverJob.height > 0)
    && (p.job == NO_JOB || p.job.height > 0)
    && (p.serverJob == NO_JOB ==> p.job == NO_JOB)
    && (p.job == NO_JOB ==> p.versions == map[])
  }

  /** Events that cannot make the main loop panic. */
  predicate Harmless(e: Event)
  {
    match e
    case ServerJobChanged(job) => job.height > 0
    case ReadsMessages(msgs, order) => !SomePanic(msgs)
    case _ => true
  }

  lemma {:induction false} JudgeSharesNeverHalts(o: Oracle, p: PoolState, k: Uuid, shares: seq<Share>)
    requires k in p.workers && PositiveHeights(p) && !p.halted
    ensures var p' := JudgeShares(o, p, k, shares); !p'.halted && PositiveHeights(p') && p'.workers.Keys == p.workers.Keys
    decreases |shares|
  {
    if shares != [] {
      JudgeShareShape(o, p, k, shares[0]);
      var x := ClassifyIn(o, p, k, shares[0]);
      JudgeSharesNeverHalts(o, JudgeShare(o, p, k, shares[0]), k, shares[1..]);
    }
  }

  lemma {:induction false} ProcessSharesNeverHalts(o: Oracle, p: PoolState, order: seq<Uuid>)
    requires PositiveHeights(p) && !p.halted
    ensures !ProcessShares(o, p, order).halted && PositiveHeights(ProcessShares(o, p, order))
    decreases |order|
  {
    if order != [] {
      if order[0] in p.workers {
        JudgeSharesNeverHalts(o, TakeShares(p, order[0]), order[0], p.workers[order[0]].shares);
      }
      ProcessSharesNeverHalts(o, DrainWorker(o, p, order[0]), order[1..]);
    }
  }

  lemma HarmlessStep(o: Oracle, p: PoolState, e: Event)
    requires !p.halted && PositiveHeights(p) && Harmless(e)
    ensures !Step(o, p, e).halted && PositiveHeights(Step(o, p, e))
  {
    match e
    case ProcessesShares(order) => ProcessSharesNeverHalts(o, p, order);
    case _ =>
  }

  /** If jobs have positive heights and submits carry parameters, neither of the two panics of the main loop's own steps occurs. */
  lemma {:induction false} HarmlessRunsNeverHalt(o: Oracle, states: seq<PoolState>, events: seq<Event>, n: nat)
    requires IsRun(o, states, events) && n < |states|
    requires forall e | e in events :: Harmless(e)
    ensures !states[n].halted && PositiveHeights(states[n])
    decreases n
  {
    if n > 0 {
      HarmlessRunsNeverHalt(o, states, events, n - 1);
      HarmlessStep(o, states[n - 1], events[n - 1]);
    }
  }

  /** One accepted share at height zero, sent upstream, does halt the pool. */
  lemma HeightZeroHalts(o: Oracle, p: PoolState, k: Uuid, share: Share)
    requires k in p.workers && !p.halted
    ensures JudgeShare(o, p, k, share).halted <==>
              ClassifyIn(o, p, k, share).Good? && share.height == 0 && ShareDifficulty(o, share) >= p.job.difficulty
  {
  }

  /** The "difficulty below one" exit of the share check is dead. */
  lemma BelowOneIsDead(o: Oracle, p: PoolState, k: Uuid, share: Share)
    requires k in p.workers
    ensures !ClassifyIn(o, p, k, share).BelowOne?
  {
  }

  /** Every accepted unit of a report is a share of the height the report is labelled with. */
  lemma ReportsAreOfOneHeight(o: Oracle, states: seq<PoolState>, events: seq<Event>, n: nat, k: Uuid, r: Report)
    requires IsRun(o, states, events) && n < |states| && k in states[n].workers
    requires r in states[n].workers[k].reports
    ensures AcceptedAt(r.entries, r.emitted.height)
    ensures forall size :: Pick(CountsFor(r.emitted.shares, size), Accepted) == SizeCount(r.entries, size, Accepted)
  {
    RunKeeps(o, states, events, n);
    forall size ensures Pick(CountsFor(r.emitted.shares, size), Accepted) == SizeCount(r.entries, size, Accepted) {
      TallyCounts(r.entries, size, Accepted);
    }
  }
}
