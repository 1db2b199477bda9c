/** Runs of the stratum pool: tallies under a size that is refused and under one that was not checked, and a panic at height zero. */
module StratumExamples {
  import opened Consensus
  import opened Stratum
  import opened StratumSafety

  const NEWCOMER := Uuid(0, "c")
  const MINER := Uuid(7, "c")

  function Asks(request: Request): map<Uuid, Message> { map[MINER := Rpc("2", request)] }

  /** The worker's first message: a login as user 7. */
  const LOGS_IN: map<Uuid, Message> := map[NEWCOMER := Rpc("1", Login(Params(1, 0, 7)))]

  /** One more step makes a longer run. */
  lemma Extend(o: Oracle, states: seq<PoolState>, events: seq<Event>, e: Event)
    requires IsRun(o, states, events) && Possible(states[|events|], e)
    ensures IsRun(o, states + [Step(o, states[|events|], e)], events + [e])
  {
    var states', events' := states + [Step(o, states[|events|], e)], events + [e];
    forall i | 0 <= i < |events'| ensures Possible(states'[i], events'[i]) && states'[i + 1] == Step(o, states'[i], events'[i]) {
      assert states'[i] == states[i];
      if i < |events| { assert events'[i] == events[i] && states'[i + 1] == states[i + 1]; }
    }
    assert states'[0] == states[0];
  }

  /** A run and the state it has led to. */
  ghost predicate Reaches(o: Oracle, states: seq<PoolState>, events: seq<Event>, p: PoolState)
  {
    IsRun(o, states, events) && states[|events|] == p
  }

  lemma Then(o: Oracle, states: seq<PoolState>, events: seq<Event>, p: PoolState, e: Event)
    returns (states': seq<PoolState>, events': seq<Event>)
    requires Reaches(o, states, events, p) && Possible(p, e)
    ensures Reaches(o, states', events', Step(o, p, e))
  {
    Extend(o, states, events, e);
    states', events' := states + [Step(o, p, e)], events + [e];
  }

  /** The worker once logged in: nothing pending, an empty tally, one id answered. */
  function LoggedInWorker(job: Job): WorkerState
  {
    NewWorker("c", 1).(
      userId := 7, authenticated := true, status := Status(0, 0, 0, 0, 0),
      workerShares := WorkerShares(MINER, job.height, 1, map[]), received := ["1"], answered := ["1"])
  }

  /** The pool once the worker is logged in. */
  function LoggedIn(job: Job): PoolState
  {
    var issued := job.(jobId := ComposeJobId(job.height, job.jobId));
    NewPool(1).(job := issued, serverJob := job, workers := map[MINER := LoggedInWorker(job)],
                versions := map[issued.jobId := job.prePow], issued := [Issued(issued, job.jobId)])
  }

  lemma JobComesIn(job: Job)
    requires job.prePow != ""
    ensures AcceptNewJob(NewPool(1).(serverJob := job), {}) == LoggedIn(job).(workers := map[])
  {
    var p := AcceptNewJob(NewPool(1).(serverJob := job), {});
    assert p.workers == map[];
  }

  lemma WorkerLogsIn(o: Oracle, job: Job)
    ensures var p := LoggedIn(job).(workers := map[NEWCOMER := NewWorker("c", 1)]);
            var e := ReadsMessages(LOGS_IN, [NEWCOMER]);
            Possible(p, e) && Step(o, p, e) == LoggedIn(job)
  {
    var p := LoggedIn(job).(workers := map[NEWCOMER := NewWorker("c", 1)]);
    var read := ApplyAll(p.workers, Reading(p.job.height, p.difficulty, LOGS_IN));
    NewcomerLogsIn(job);
    assert read == map[NEWCOMER := LoggedInWorker(job)];
    assert ChangedKeys(read) == {NEWCOMER};
    assert Enumerates([NEWCOMER], {NEWCOMER});
    assert [NEWCOMER][1..] == [];
    assert Rehash(read, [NEWCOMER]) == RehashOne(read, NEWCOMER) == map[MINER := LoggedInWorker(job)];
  }

  lemma NewcomerLogsIn(job: Job)
    ensures ReadMessage(NewWorker("c", 1), NEWCOMER, LOGS_IN[NEWCOMER], job.height, 1) == LoggedInWorker(job)
  {
    var w := Receive(NewWorker("c", 1), "1");
    assert w.requestIds == ["1"] && w.received == ["1"];
    var w1 := LogInState(w, Params(1, 0, 7));
    assert w1.userId == 7 && w1.requestIds == ["1"];
    var w2 := Respond(w1);
    assert w2.requestIds == [] && w2.answered == ["1"];
    assert HandleMessage(NewWorker("c", 1), LOGS_IN[NEWCOMER]) == w2;
  }

  /** A job comes in, a worker connects and logs in. */
  lemma OpeningRun(o: Oracle, job: Job) returns (states: seq<PoolState>, events: seq<Event>)
    requires job.prePow != ""
    ensures Reaches(o, states, events, LoggedIn(job))
  {
    var p := NewPool(1);
    states, events := [p], [];
    states, events := Then(o, states, events, p, ServerJobChanged(job));
    p := p.(serverJob := job);
    JobComesIn(job);
    states, events := Then(o, states, events, p, AcceptsNewJob({}));
    p := LoggedIn(job).(workers := map[]);
    states, events := Then(o, states, events, p, Connected("c"));
    p := LoggedIn(job).(workers := map[NEWCOMER := NewWorker("c", 1)]);
    WorkerLogsIn(o, job);
    states, events := Then(o, states, events, p, ReadsMessages(LOGS_IN, [NEWCOMER]));
  }

  /** The logged-in worker submits a share. */
  lemma Submits(o: Oracle, p: PoolState, share: Share)
    requires !p.halted && p.workers.Keys == {MINER} && UuidOf(p.workers[MINER]) == MINER
    ensures var e := ReadsMessages(Asks(Submit(Parsed(share))), []);
            var w := Receive(p.workers[MINER], "2");
            Possible(p, e) && Step(o, p, e) == p.(workers := map[MINER := w.(shares := w.shares + [share])])
  {
    var msgs := Asks(Submit(Parsed(share)));
    var w := Receive(p.workers[MINER], "2");
    var read := ApplyAll(p.workers, Reading(p.job.height, p.difficulty, msgs));
    assert read == map[MINER := w.(shares := w.shares + [share])];
    assert ChangedKeys(read) == {};
  }

  // ---- A tally under size 30 ---------------------------------------------

  const FIRST := Share(5, 5001, 0, 29, [])

  /** The same proof again, now under a size that is refused, were it looked at. */
  const AGAIN := Share(5, 5001, 0, 30, [])

  const JOB := Job(5, 1, 1, "a")
  const NEXT := Job(6, 1, 1, "b")

  /** Whatever its size, a proof seen before is tallied under it. */
  lemma DuplicateIsTallied(o: Oracle, p: PoolState, k: Uuid, share: Share)
    requires k in p.workers && share.pow in p.duplicates
    ensures var before := p.workers[k].workerShares.shares;
            JudgeShare(o, p, k, share).workers[k].workerShares.shares
            == before[share.edgeBits := Add(CountsFor(before, share.edgeBits), Rejected)]
    ensures JudgeShare(o, p, k, share).workers.Keys == p.workers.Keys && JudgeShare(o, p, k, share).halted == p.halted
    ensures JudgeShare(o, p, k, share).job == p.job && JudgeShare(o, p, k, share).serverJob == p.serverJob
    ensures JudgeShare(o, p, k, share).workers[k].authenticated == p.workers[k].authenticated
    ensures JudgeShare(o, p, k, share).workers[k].workerShares.height == p.workers[k].workerShares.height
    ensures UuidOf(JudgeShare(o, p, k, share).workers[k]) == UuidOf(p.workers[k])
  {
  }

  /** A proof of the wrong length is remembered but not tallied. */
  lemma WrongLengthIsRemembered(o: Oracle, p: PoolState, k: Uuid, share: Share)
    requires k in p.workers && share.pow !in p.duplicates && share.edgeBits == 29 && |share.pow| != PROOF_SIZE
    ensures var p' := JudgeShare(o, p, k, share);
            && share.pow in p'.duplicates && p'.workers.Keys == p.workers.Keys && p'.halted == p.halted
            && p'.job == p.job && p'.serverJob == p.serverJob
            && p'.workers[k].workerShares == p.workers[k].workerShares
            && p'.workers[k].authenticated == p.workers[k].authenticated
            && UuidOf(p'.workers[k]) == UuidOf(p.workers[k])
  {
  }

  /** Draining the two submissions leaves one rejected share under size 30. */
  lemma DrainsTheDuplicate(o: Oracle, p: PoolState)
    requires !p.halted && p.workers.Keys == {MINER} && p.duplicates == map[]
    requires p.workers[MINER].shares == [FIRST, AGAIN] && p.workers[MINER].workerShares.shares == map[]
    requires UuidOf(p.workers[MINER]) == MINER && p.workers[MINER].authenticated
    ensures var p' := ProcessShares(o, p, [MINER]);
            && !p'.halted && p'.workers.Keys == {MINER} && p'.workers[MINER].authenticated
            && p'.workers[MINER].workerShares.shares == map[30 := Counts(0, 1, 0)]
            && p'.workers[MINER].workerShares.height == p.workers[MINER].workerShares.height
            && UuidOf(p'.workers[MINER]) == MINER && p'.job == p.job && p'.serverJob == p.serverJob
  {
    var p0 := TakeShares(p, MINER);
    WrongLengthIsRemembered(o, p0, MINER, FIRST);
    var p1 := JudgeShare(o, p0, MINER, FIRST);
    DuplicateIsTallied(o, p1, MINER, AGAIN);
    var p2 := JudgeShare(o, p1, MINER, AGAIN);
    assert [FIRST, AGAIN][1..] == [AGAIN] && [AGAIN][1..] == [];
    assert JudgeShares(o, p1, MINER, [AGAIN]) == JudgeShares(o, p2, MINER, []) == p2;
    assert JudgeShares(o, p0, MINER, [FIRST, AGAIN]) == p2;
    assert [MINER][1..] == [];
    assert ProcessShares(o, p, [MINER]) == ProcessShares(o, p2, []) == p2;
  }

  /** A new job makes the worker's tally a report. */
  lemma NewJobReports(p: PoolState)
    requires p.workers.Keys == {MINER} && p.workers[MINER].authenticated && p.job.prePow != p.serverJob.prePow
    ensures var p' := AcceptNewJob(p, {});
            MINER in p'.workers && exists r :: r in p'.workers[MINER].reports && r.emitted == p.workers[MINER].workerShares
  {
    var w := p.workers[MINER];
    var r := Report(w.workerShares, w.open);
    assert r in AcceptNewJob(p, {}).workers[MINER].reports;
  }

  /**
   For every oracle there is a run in which a worker submits one proof twice, the second time under size 30, and
   a report goes out that counts a rejected share of size 30.
   */
  lemma SizeThirtyIsReported(o: Oracle) returns (states: seq<PoolState>, events: seq<Event>, r: Report)
    ensures IsRun(o, states, events)
    ensures var p := states[|events|]; MINER in p.workers && r in p.workers[MINER].reports
    ensures r.emitted.height == 5 && r.emitted.shares == map[30 := Counts(0, 1, 0)]
  {
    var p;
    states, events, p := SubmitsTwice(o);
    var e := ProcessesShares([MINER]);
    assert Enumerates([MINER], {MINER});
    states, events := Then(o, states, events, p, e);
    DrainsTheDuplicate(o, p);
    p := Step(o, p, e);
    states, events, r := JobThenReport(o, states, events, p);
  }

  lemma SubmitsTwice(o: Oracle) returns (states: seq<PoolState>, events: seq<Event>, p: PoolState)
    ensures Reaches(o, states, events, p)
    ensures !p.halted && p.workers.Keys == {MINER} && p.duplicates == map[]
    ensures p.workers[MINER].shares == [FIRST, AGAIN] && p.workers[MINER].workerShares == WorkerShares(MINER, 5, 1, map[])
    ensures UuidOf(p.workers[MINER]) == MINER && p.workers[MINER].authenticated && p.job.prePow == "a"
  {
    states, events, p := SubmitsOnce(o, JOB, FIRST);
    var e := ReadsMessages(Asks(Submit(Parsed(AGAIN))), []);
    Submits(o, p, AGAIN);
    states, events := Then(o, states, events, p, e);
    p := Step(o, p, e);
  }

  // ---- A tally under a size that was not checked -------------------------

  /**
   A good share was verified under the low byte of its size and is booked under the whole size; the two
   agree exactly for sizes below 256.
   */
  lemma CheckedAsBookedIff(o: Oracle, p: PoolState, k: Uuid, share: Share)
    requires k in p.workers && ClassifyIn(o, p, k, share).Good?
    ensures o.cycle(p.versions[share.jobId], EdgeByte(share), share.nonce, share.pow)
    ensures var before := p.workers[k].workerShares.shares;
            JudgeShare(o, p, k, share).workers[k].workerShares.shares
            == before[share.edgeBits := Add(CountsFor(before, share.edgeBits), Accepted)]
    ensures EdgeByte(share) == share.edgeBits <==> share.edgeBits < 256
  {
    JudgeShareShape(o, p, k, share);
  }

  /** Draining a worker with one pending share judges that share. */
  lemma DrainsOne(o: Oracle, p: PoolState, share: Share)
    requires !p.halted && MINER in p.workers && p.workers[MINER].shares == [share]
    ensures ProcessShares(o, p, [MINER]) == JudgeShare(o, TakeShares(p, MINER), MINER, share)
  {
    var p1 := JudgeShare(o, TakeShares(p, MINER), MINER, share);
    assert [share][1..] == [] && [MINER][1..] == [];
    assert JudgeShares(o, TakeShares(p, MINER), MINER, [share]) == p1;
    assert ProcessShares(o, p, [MINER]) == ProcessShares(o, p1, []);
  }

  /** Draining a good share above height zero books it and keeps the pool going. */
  lemma DrainsAGoodShare(o: Oracle, p: PoolState, share: Share)
    requires !p.halted && p.workers.Keys == {MINER} && p.workers[MINER].shares == [share]
    requires ClassifyIn(o, p, MINER, share).Good? && share.height > 0
    ensures var p', w := ProcessShares(o, p, [MINER]), p.workers[MINER];
            && !p'.halted && p'.workers.Keys == {MINER} && p'.job == p.job
            && p'.workers[MINER].authenticated == w.authenticated
            && p'.workers[MINER].workerShares ==
                 w.workerShares.(shares := w.workerShares.shares[share.edgeBits := Add(CountsFor(w.workerShares.shares, share.edgeBits), Accepted)])
  {
    var p0 := TakeShares(p, MINER);
    assert ClassifyIn(o, p0, MINER, share) == ClassifyIn(o, p, MINER, share);
    DrainsOne(o, p, share);
    JudgeShareShape(o, p0, MINER, share);
  }

  /**
   For every oracle that takes a proof of size 29 there is a run in which that proof is submitted under size
   285, and a report goes out that counts an accepted share of size 285.
   */
  lemma LargeSizeIsReported(o: Oracle, pow: seq<nat>) returns (states: seq<PoolState>, events: seq<Event>, r: Report)
    requires |pow| == PROOF_SIZE && o.header("a", 29, 0, pow) && o.cycle("a", 29, 0, pow)
    ensures IsRun(o, states, events)
    ensures var p := states[|events|]; MINER in p.workers && r in p.workers[MINER].reports
    ensures r.emitted == WorkerShares(MINER, 5, 1, map[285 := Counts(1, 0, 0)])
  {
    var share := Share(5, 5001, 0, 285, pow);
    var p;
    states, events, p := SubmitsOnce(o, JOB, share);
    assert ClassifyIn(o, p, MINER, share).Good?;
    var e := ProcessesShares([MINER]);
    assert Enumerates([MINER], {MINER});
    states, events := Then(o, states, events, p, e);
    DrainsAGoodShare(o, p, share);
    p := Step(o, p, e);
    states, events, r := JobThenReport(o, states, events, p);
  }

  /** A worker logs in and submits one share. */
  lemma SubmitsOnce(o: Oracle, job: Job, share: Share) returns (states: seq<PoolState>, events: seq<Event>, p: PoolState)
    requires job.prePow != ""
    ensures Reaches(o, states, events, p)
    ensures var w := Receive(LoggedInWorker(job), "2");
            p == LoggedIn(job).(workers := map[MINER := w.(shares := [share])])
  {
    states, events := OpeningRun(o, job);
    p := LoggedIn(job);
    var e := ReadsMessages(Asks(Submit(Parsed(share))), []);
    Submits(o, p, share);
    states, events := Then(o, states, events, p, e);
    p := Step(o, p, e);
    assert [] + [share] == [share];
  }

  /** The next job comes in and makes the open tally a report. */
  lemma JobThenReport(o: Oracle, states: seq<PoolState>, events: seq<Event>, p: PoolState)
    returns (states': seq<PoolState>, events': seq<Event>, r: Report)
    requires Reaches(o, states, events, p) && !p.halted
    requires p.workers.Keys == {MINER} && p.workers[MINER].authenticated && p.job.prePow == "a"
    ensures IsRun(o, states', events')
    ensures var p' := states'[|events'|]; MINER in p'.workers && r in p'.workers[MINER].reports
    ensures r.emitted == p.workers[MINER].workerShares
  {
    states', events' := Then(o, states, events, p, ServerJobChanged(NEXT));
    var p' := p.(serverJob := NEXT);
    NewJobReports(p');
    states', events' := Then(o, states', events', p', AcceptsNewJob({}));
    r :| r in AcceptNewJob(p', {}).workers[MINER].reports && r.emitted == p'.workers[MINER].workerShares;
  }

  // ---- A panic at height zero --------------------------------------------

  const ZERO := Job(0, 1, 1, "a")

  /** A job at height zero and a share that passes the checks end the main loop. */
  lemma PanicAtHeightZero(o: Oracle, pow: seq<nat>) returns (states: seq<PoolState>, events: seq<Event>)
    requires |pow| == PROOF_SIZE && o.header("a", 29, 0, pow) && o.cycle("a", 29, 0, pow)
    ensures IsRun(o, states, events) && states[|events|].halted
  {
    var good := Share(0, 1, 0, 29, pow);
    var p;
    states, events, p := SubmitsOnce(o, ZERO, good);
    GoodShareHalts(o, p, good);
    assert Enumerates([MINER], {MINER});
    states, events := Then(o, states, events, p, ProcessesShares([MINER]));
  }

  lemma GoodShareHalts(o: Oracle, p: PoolState, share: Share)
    requires !p.halted && MINER in p.workers && p.workers[MINER].shares == [share]
    requires ClassifyIn(o, p, MINER, share).Good? && share.height == 0 && ShareDifficulty(o, share) >= p.job.difficulty
    ensures ProcessShares(o, p, [MINER]).halted
  {
    var p0 := TakeShares(p, MINER);
    assert ClassifyIn(o, p0, MINER, share) == ClassifyIn(o, p, MINER, share);
    HeightZeroHalts(o, p0, MINER, share);
    DrainsOne(o, p, share);
  }
}
