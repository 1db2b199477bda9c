/**
 What sizes in the stratum pool's reports do to payouts. A size that has no share scale travels into a row, even
 with no valid share, and the payout map of every window over that row raises. One accepted share of a large
 size outweighs everything else in its window.
 */
module ReportedSizes {
  import opened Basics
  import opened WorkerShares
  import opened ShareAggr
  import SharePipeline
  import opened Sums
  import Payout
  import PayoutMap
  import Consensus
  import Stratum
  import StratumExamples

  /** The aggregator's message for a tally that was printed to the log. */
  predicate Prints(m: Message, t: Stratum.WorkerShares)
  {
    && m.height == t.height && m.worker == t.id.userId && m.difficulty == t.difficulty
    && (forall p | p in m.parts ::
          p.size in t.shares && t.shares[p.size] == Stratum.Counts(p.accepted, p.rejected, p.stale))
    && (forall z | z in t.shares :: exists p :: p in m.parts && p.size == z)
  }

  /** The share check refuses exactly the sizes that have no scale. */
  lemma RefusedSizesHaveNoScale(size: nat)
    ensures Stratum.IsPowSize(size) <==> Payout.HasScale(size)
    ensures Payout.HasScale(size) <==> forall scaling :: Payout.ShareScale(size, scaling).Some?
  {
    if !Payout.HasScale(size) { assert Payout.ShareScale(size, 0).None?; }
  }

  /** From size 31 on a share is worth what the chain weighs a graph of its size before the expiry of that size. */
  lemma ScaleIsGraphWeight(size: nat, height: nat, scaling: nat)
    requires size >= 31 && height < Pow2(size - 31) * 524160
    ensures Payout.ShareScale(size, scaling) == Some(Consensus.GraphWeight(height, size))
  {
    Consensus.FreshGraphWeight(height, size - 31);
  }

  predicate HasEntry(rows: seq<Row>, h: nat, u: nat, size: nat)
  {
    exists r :: r in rows && r.height == h && r.user == u && size in SizesOf(r.shares)
  }

  lemma AddSharesKeepsSizes(shares: seq<SizeEntry>, size: nat, difficulty: nat, t: Tally)
    ensures SizesOf(AddShares(shares, size, difficulty, t)) == SizesOf(shares) + {size}
  {
    var after := AddShares(shares, size, difficulty, t);
    var i := FindSize(shares, size, 0);
    assert after[i] in after && after[i].edgeBits == size;
    forall s | s in shares ensures s.edgeBits in SizesOf(after) {
      var j :| 0 <= j < |shares| && shares[j] == s;
      assert after[j] in after && after[j].edgeBits == s.edgeBits;
    }
  }

  /** Adding to the rows makes an entry of that size and takes none away. */
  lemma ApplyAddEntries(rows: seq<Row>, a: Add, h: nat, u: nat, size: nat)
    ensures HasEntry(ApplyAdd(rows, a), a.height, a.user, a.size)
    ensures HasEntry(rows, h, u, size) ==> HasEntry(ApplyAdd(rows, a), h, u, size)
  {
    var after := ApplyAdd(rows, a);
    var i := FindRow(rows, a.height, a.user, 0);
    AddSharesKeepsSizes(if i < |rows| then rows[i].shares else [], a.size, 1, a.tally);
    assert after[i] in after;
    if HasEntry(rows, h, u, size) {
      var r :| r in rows && r.height == h && r.user == u && size in SizesOf(r.shares);
      var j :| 0 <= j < |rows| && rows[j] == r;
      assert after[j] in after && size in SizesOf(after[j].shares);
    }
  }

  lemma {:induction false} ApplyAddsEntries(rows: seq<Row>, adds: seq<Add>, h: nat, u: nat, size: nat)
    ensures HasEntry(rows, h, u, size) ==> HasEntry(ApplyAdds(rows, adds), h, u, size)
    ensures (exists a :: a in adds && a.height == h && a.user == u && a.size == size) ==> HasEntry(ApplyAdds(rows, adds), h, u, size)
    decreases |adds|
  {
    if adds != [] {
      var before, last := adds[..|adds| - 1], adds[|adds| - 1];
      ApplyAddsEntries(rows, before, h, u, size);
      ApplyAddEntries(ApplyAdds(rows, before), last, h, u, size);
      assert forall a | a in adds :: a in before || a == last;
    }
  }

  lemma AppendKeepsEntries(rows: seq<Row>, more: seq<Row>, h: nat, u: nat, size: nat)
    requires HasEntry(rows, h, u, size)
    ensures HasEntry(rows + more, h, u, size)
  {
    var r :| r in rows && r.height == h && r.user == u && size in SizesOf(r.shares);
    assert r in rows + more;
  }

  /** No step ever takes an entry away. */
  lemma StepKeepsEntry(s: State, e: Event, h: nat, u: nat, size: nat)
    requires HasEntry(s.rows, h, u, size)
    ensures HasEntry(Step(s, e).rows, h, u, size)
  {
    match e
    case Handles(a) =>
    case CommitsKey(c, adds) => ApplyAddsEntries(s.rows, adds, h, u, size);
    case Crashes(c, adds, created) =>
      ApplyAddsEntries(s.rows, adds, h, u, size);
      if created.Some? { AppendKeepsEntries(ApplyAdds(s.rows, adds), [Row(c, created.value, [])], h, u, size); }
    case Fills(bound, nodeHeight) =>
      FillShape(s.rows, FillerStart(s.rows, nodeHeight), bound);
      var from := FillerStart(s.rows, nodeHeight);
      AppendKeepsEntries(s.rows, seq(if from < bound then bound - from else 0, i requires 0 <= i => Row(from + i, POOL_USER, [])), h, u, size);
  }

  lemma {:induction false} RunKeepsEntry(s: State, events: seq<Event>, h: nat, u: nat, size: nat)
    requires HasEntry(s.rows, h, u, size)
    ensures HasEntry(RunFrom(s, events).rows, h, u, size)
    decreases |events|
  {
    if events != [] {
      RunKeepsEntry(s, events[..|events| - 1], h, u, size);
      StepKeepsEntry(RunFrom(s, events[..|events| - 1]), events[|events| - 1], h, u, size);
    }
  }

  predicate IsCached(s: State, h: nat, u: nat, size: nat)
  {
    h in s.cache && u in s.cache[h] && size in s.cache[h][u]
  }

  /** A message caches every size it reports. */
  lemma {:induction false} MessageIsCached(s: State, m: Message, n: nat, i: nat)
    requires i < n <= |m.parts|
    ensures IsCached(RunFrom(s, SharePipeline.StepsOf(m, n)), m.height, SharePipeline.PayeeOf(m), m.parts[i].size)
    decreases n
  {
    var events, a := SharePipeline.StepsOf(m, n - 1), AddOf(m, m.parts[n - 1]);
    assert (events + [Handles(a)])[..|events|] == events;
    if i < n - 1 { MessageIsCached(s, m, n - 1, i); }
  }

  /** A committed height has an entry for every size that was cached. */
  lemma CommitStoresEntry(s: State, h: nat, adds: seq<Add>, u: nat, size: nat)
    requires IsCached(s, h, u, size) && Flattens(adds, h, s.cache[h])
    ensures HasEntry(CommitKey(s, h, adds).rows, h, u, size)
  {
    var a := Add(h, u, size, s.cache[h][u][size]);
    assert a in adds;
    ApplyAddsEntries(s.rows, adds, h, u, size);
  }

  /** Every window over a row with an entry of such a size has a size without a scale. */
  lemma WindowIsUnscaled(rows: seq<Row>, h: nat, u: nat, size: nat, height: nat, range: int)
    requires HasEntry(rows, h, u, size) && !Payout.HasScale(size) && height - range - 1 <= h <= height
    ensures !Payout.AllScaled(Payout.ShareCounts(GetByHeightRange(rows, height, range)))
  {
    var r :| r in rows && r.height == h && r.user == u && size in SizesOf(r.shares);
    BetweenIsAFilter(rows, height - range - 1, height, r);
    RowIsUnscaled(GetByHeightRange(rows, height, range), r, size);
  }

  lemma RowIsUnscaled(window: seq<Row>, r: Row, size: nat)
    requires r in window && size in SizesOf(r.shares) && !Payout.HasScale(size)
    ensures !Payout.AllScaled(Payout.ShareCounts(window))
  {
    Payout.ScaledWindow(window);
    var s :| s in r.shares && s.edgeBits == size;
  }

  /**
   Once a message that reports a size without a scale, with whatever counts, has been committed, no later event
   gives the windows over its height back a payout map.
   */
  lemma UnscaledForEver(s: State, m: Message, i: nat, adds: seq<Add>, later: seq<Event>, height: nat, range: int)
    requires i < |m.parts| && !Payout.HasScale(m.parts[i].size)
    requires var s1 := RunFrom(s, SharePipeline.StepsOf(m, |m.parts|));
             m.height in s1.cache && Flattens(adds, m.height, s1.cache[m.height])
    requires height - range - 1 <= m.height <= height
    ensures var s1 := RunFrom(s, SharePipeline.StepsOf(m, |m.parts|));
            var rows := RunFrom(CommitKey(s1, m.height, adds), later).rows;
            !Payout.AllScaled(Payout.ShareCounts(GetByHeightRange(rows, height, range)))
  {
    var s1 := RunFrom(s, SharePipeline.StepsOf(m, |m.parts|));
    var s2 := CommitKey(s1, m.height, adds);
    var u, size := SharePipeline.PayeeOf(m), m.parts[i].size;
    MessageIsCached(s, m, |m.parts|, i);
    CommitStoresEntry(s1, m.height, adds, u, size);
    RunKeepsEntry(s2, later, m.height, u, size);
    WindowIsUnscaled(RunFrom(s2, later).rows, m.height, u, size, height, range);
  }

  /**
   For every oracle there is a run of the stratum pool with a report whose message, once committed, leaves every
   window over its height without a payout map, although the report has no valid share.
   */
  lemma DuplicateStopsPayouts(o: Stratum.Oracle)
    returns (states: seq<Stratum.PoolState>, events: seq<Stratum.Event>, r: Stratum.Report, m: Message)
    ensures Stratum.IsRun(o, states, events)
    ensures var p := states[|events|];
            StratumExamples.MINER in p.workers && r in p.workers[StratumExamples.MINER].reports
    ensures Prints(m, r.emitted) && |m.parts| == 1 && m.parts[0].accepted == 0
    ensures StoresIn(START, m, [AddOf(m, m.parts[0])])
    ensures forall s, adds, height: nat, range: int ::
              StoresIn(s, m, adds) && height - range - 1 <= m.height <= height ==>
                !Payout.AllScaled(Payout.ShareCounts(GetByHeightRange(Stored(s, m, adds), height, range)))
  {
    states, events, r := StratumExamples.SizeThirtyIsReported(o);
    m := MessageOfThirty(r.emitted);
    OnePartIsStored(m);
    forall s, adds, height: nat, range: int | StoresIn(s, m, adds) && height - range - 1 <= m.height <= height
      ensures !Payout.AllScaled(Payout.ShareCounts(GetByHeightRange(Stored(s, m, adds), height, range)))
    {
      StoredIsUnscaled(s, m, adds, height, range);
    }
  }

  /** The message of a tally with one rejected share of size 30. */
  lemma MessageOfThirty(t: Stratum.WorkerShares) returns (m: Message)
    requires t.shares == map[30 := Stratum.Counts(0, 1, 0)]
    ensures Prints(m, t) && m.parts == [Part(30, 0, 1, 0)]
  {
    m := Message(t.height, t.id.userId, t.difficulty, [Part(30, 0, 1, 0)]);
    assert m.parts[0] in m.parts;
  }

  lemma StoredIsUnscaled(s: State, m: Message, adds: seq<Add>, height: nat, range: int)
    requires m.parts == [Part(30, 0, 1, 0)] && StoresIn(s, m, adds) && height - range - 1 <= m.height <= height
    ensures !Payout.AllScaled(Payout.ShareCounts(GetByHeightRange(Stored(s, m, adds), height, range)))
  {
    UnscaledForEver(s, m, 0, adds, [], height, range);
  }

  /** The message is handled in state s and its height then committed as `adds`. */
  predicate StoresIn(s: State, m: Message, adds: seq<Add>)
  {
    var s1 := RunFrom(s, SharePipeline.StepsOf(m, |m.parts|));
    m.height in s1.cache && Flattens(adds, m.height, s1.cache[m.height])
  }

  lemma OnePartIsStored(m: Message)
    requires |m.parts| == 1
    ensures StoresIn(START, m, [AddOf(m, m.parts[0])])
  {
    var a := AddOf(m, m.parts[0]);
    OneAddFlattens(a);
    assert SharePipeline.StepsOf(m, 0) == [] && SharePipeline.StepsOf(m, 1) == [Handles(a)];
    assert [Handles(a)][..0] == [];
    assert RunFrom(START, [Handles(a)]) == Step(START, Handles(a));
  }

  function Stored(s: State, m: Message, adds: seq<Add>): seq<Row>
  {
    CommitKey(RunFrom(s, SharePipeline.StepsOf(m, |m.parts|)), m.height, adds).rows
  }

  // ---- Large sizes -------------------------------------------------------

  /** A user with a valid share of a size is worth at least the scale of that size. */
  lemma OneShareIsWorth(counts: Payout.Counts, scaling: nat, u: nat, size: nat)
    requires Payout.CountAt(counts, u, size) >= 1
    ensures Payout.UserValue(counts, u, scaling) >= Payout.Weight(size, scaling)
  {
    var own := Payout.AtUser(counts, u);
    SetSumNonNegative(own.Keys, (z: nat) => Payout.SizeValue(own, scaling, z));
    Consensus.MulMonotone(1, own[size], Payout.Weight(size, scaling));
    assert Payout.SizeValue(own, scaling, size) >= Payout.Weight(size, scaling);
  }

  /**
   One valid share of size 285 weighs 2^262 * 285. As long as all others' value times the reward stays below
   that, its user is paid all but two units of the reward and nobody else is paid.
   */
  lemma LargeSizeTakesTheReward(counts: Payout.Counts, scaling: nat, net: real, u: nat)
    requires Payout.CountAt(counts, u, 285) >= 1 && net >= 0.0
    requires PayoutMap.Times(Payout.TotalValue(counts, scaling) - Payout.UserValue(counts, u, scaling), net)
             < (Pow2(262) * 285) as real
    ensures Payout.ShareScale(285, scaling) == Some(Pow2(262) * 285)
    ensures forall v | v in counts && v != u :: PayoutMap.PaymentTo(counts, scaling, net, v) == 0
    ensures net - 2.0 < PayoutMap.PaymentTo(counts, scaling, net, u) as real <= net
  {
    OneShareIsWorth(counts, scaling, u, 285);
    PayoutMap.DominantValueTakesTheReward(counts, scaling, net, u);
  }
}
