/** Pool statistics: one record per height with share counts and running totals that can be rebuilt. */
module PoolStats {
  import opened Basics
  import opened Sums
  import opened WorkerShares

  datatype Stats = Stats(counts: map<nat, Tally>, processed: nat, totalFound: nat, totalProcessed: nat, dirty: bool)

  type Table = map<nat, Stats>

  /** What the records are computed from: share rows, chain blocks, pool blocks and the window size. */
  datatype Env = Env(rows: seq<Row>, blocks: set<nat>, found: set<nat>, windowSize: int)

  function Highest(s: set<nat>): (h: nat)
    requires s != {}
    ensures h in s && forall k | k in s :: k <= h
  {
    HighestExists(s);
    var h :| h in s && forall k | k in s :: k <= h;
    h
  }

  lemma {:induction false} HighestExists(s: set<nat>)
    requires s != {}
    ensures exists h :: h in s && forall k | k in s :: k <= h
  {
    var x :| x in s;
    if s != {x} {
      HighestExists(s - {x});
      var h :| h in s - {x} && forall k | k in s - {x} :: k <= h;
      var top := if h < x then x else h;
      forall k | k in s ensures k <= top {
        if k != x { assert k in s - {x}; }
      }
      assert top in s;
    }
  }

  /** Height zero stands for the highest record. */
  function GetStats(t: Table, h: int): Option<Stats>
  {
    if h == 0 && t.Keys != {} then Some(t[Highest(t.Keys)])
    else if h > 0 && h in t then Some(t[h])
    else None
  }

  /** Likewise for pool blocks: at height zero any pool block will do. */
  predicate FoundAt(found: set<nat>, h: int)
  {
    if h == 0 then found != {} else h in found
  }

  function TallyOf(shares: seq<SizeEntry>, size: nat): Tally
  {
    Tally(NumOfSize(shares, size, Valid), NumOfSize(shares, size, Invalid), NumOfSize(shares, size, Stale))
  }

  /** Counts by size after some sizes of a row were added. */
  function AddSizes(counts: map<nat, Tally>, shares: seq<SizeEntry>, sizes: set<nat>): map<nat, Tally>
  {
    map z | z in counts.Keys + sizes :: if z in sizes then Plus(AtSize(counts, z), TallyOf(shares, z)) else AtSize(counts, z)
  }

  function CountsOf(rows: seq<Row>): map<nat, Tally>
  {
    if rows == [] then map[]
    else
      var shares := rows[|rows| - 1].shares;
      AddSizes(CountsOf(rows[..|rows| - 1]), shares, SizesOf(shares))
  }

  function ProcessedOf(rows: seq<Row>): nat
  {
    if rows == [] then 0 else ProcessedOf(rows[..|rows| - 1]) + NumShares(rows[|rows| - 1].shares)
  }

  function EarliestHeight(rows: seq<Row>): (h: nat)
    requires rows != []
    ensures forall r | r in rows :: h <= r.height
    ensures exists r | r in rows :: r.height == h
  {
    var last := rows[|rows| - 1].height;
    if |rows| == 1 then last
    else
      var before := EarliestHeight(rows[..|rows| - 1]);
      assert forall r | r in rows :: r == rows[|rows| - 1] || r in rows[..|rows| - 1];
      if last < before then assert rows[|rows| - 1] in rows; last
      else
        var r :| r in rows[..|rows| - 1] && r.height == before;
        assert r in rows;
        before
  }

  /** The graph rate estimate needs the chain blocks at both ends of the window. */
  predicate WindowHasBlocks(env: Env, h: int)
  {
    var window := GetByHeightRange(env.rows, h, env.windowSize);
    |window| < 2 || (EarliestHeight(window) in env.blocks && LatestHeight(window) in env.blocks)
  }

  /** The record of a height; None stands for a failed assertion. */
  function Calculate(env: Env, t: Table, h: nat): Option<Stats>
  {
    var prev := GetStats(t, h - 1);
    if prev.None? || h !in env.blocks || !WindowHasBlocks(env, h) then None
    else
      var rows := GetByHeight(env.rows, h);
      var processed := ProcessedOf(rows);
      Some(Stats(CountsOf(rows), processed, prev.value.totalFound + if FoundAt(env.found, h - 1) then 1 else 0,
                 prev.value.totalProcessed + processed, false))
  }

  datatype Rebuilt = Rebuilt(table: Table, ok: bool)

  /** Records from a height up to a bound, each from the one before; stops at the first failure. */
  function Rebuild(env: Env, t: Table, from: nat, bound: int): Rebuilt
    decreases bound - from
  {
    if from >= bound then Rebuilt(t, true)
    else
      match Calculate(env, t, from)
      case None => Rebuilt(t, false)
      case Some(s) => Rebuild(env, t[from := s], from + 1, bound)
  }

  // ---- Counts ------------------------------------------------------------

  /** The counts of a height hold, for each size, the sum over its rows. */
  lemma {:induction false} CountsAreSums(rows: seq<Row>, size: nat, k: Kind)
    ensures Pick(AtSize(CountsOf(rows), size), k) == SeqSum(rows, (r: Row) => NumOfSize(r.shares, size, k))
    ensures size in CountsOf(rows) <==> exists r | r in rows :: size in SizesOf(r.shares)
    decreases |rows|
  {
    if rows != [] {
      var before, last := rows[..|rows| - 1], rows[|rows| - 1];
      CountsAreSums(before, size, k);
      NoSizeNoCount(last.shares, size, k);
      assert forall r | r in rows :: r == last || r in before;
    }
  }

  /** A row's shares of one size, all kinds together. */
  ghost function TotalIn(shares: seq<SizeEntry>, z: nat): int
  {
    NumOfSize(shares, z, Valid) + NumOfSize(shares, z, Invalid) + NumOfSize(shares, z, Stale)
  }

  /** Splitting a row by size loses nothing. */
  lemma {:induction false} SizesAddUp(shares: seq<SizeEntry>, sizes: set<nat>)
    requires SizesOf(shares) <= sizes
    ensures SetSum(sizes, (z: nat) => TotalIn(shares, z)) == NumShares(shares)
    decreases |shares|
  {
    var all := (z: nat) => TotalIn(shares, z);
    if shares == [] {
      SetSumZero(sizes, all);
    } else {
      var before, last := shares[..|shares| - 1], shares[|shares| - 1];
      var rest := (z: nat) => TotalIn(before, z);
      assert SizesOf(before) <= SizesOf(shares);
      assert last in shares && last.edgeBits in SizesOf(shares);
      SizesAddUp(before, sizes);
      SetSumUpdate(sizes, rest, all, last.edgeBits);
    }
  }

  /** The shares counted under one size, all kinds together. */
  ghost function TotalAt(counts: map<nat, Tally>, z: nat): int
  {
    var t := AtSize(counts, z);
    t.valid + t.invalid + t.stale
  }

  /** All counts of all sizes. */
  ghost function CountsTotal(counts: map<nat, Tally>): int
  {
    SetSum(counts.Keys, (z: nat) => TotalAt(counts, z))
  }

  /** The per-size counts of a height add up to its shares processed. */
  lemma {:induction false} CountsAddUp(rows: seq<Row>)
    ensures CountsTotal(CountsOf(rows)) == ProcessedOf(rows)
    decreases |rows|
  {
    if rows == [] {
      assert CountsOf(rows).Keys == {};
    } else {
      CountsAddUp(rows[..|rows| - 1]);
      AddSizesTotal(CountsOf(rows[..|rows| - 1]), rows[|rows| - 1].shares);
    }
  }

  lemma AddSizesTotal(counts: map<nat, Tally>, shares: seq<SizeEntry>)
    ensures CountsTotal(AddSizes(counts, shares, SizesOf(shares))) == CountsTotal(counts) + NumShares(shares)
  {
    var after := AddSizes(counts, shares, SizesOf(shares));
    AddSizesKeys(counts, shares, SizesOf(shares));
    forall z ensures TotalAt(after, z) == TotalAt(counts, z) + TotalIn(shares, z) {
      AddSizesAt(counts, shares, z);
    }
    SetSumExtend(counts.Keys, after.Keys, (z: nat) => TotalAt(counts, z));
    SizesAddUp(shares, after.Keys);
    SetSumPlus(after.Keys, (z: nat) => TotalAt(counts, z), (z: nat) => TotalIn(shares, z), (z: nat) => TotalAt(after, z));
  }

  lemma AddSizesKeys(counts: map<nat, Tally>, shares: seq<SizeEntry>, sizes: set<nat>)
    ensures AddSizes(counts, shares, sizes).Keys == counts.Keys + sizes
  {}

  lemma AddSizesAt(counts: map<nat, Tally>, shares: seq<SizeEntry>, z: nat)
    ensures TotalAt(AddSizes(counts, shares, SizesOf(shares)), z) == TotalAt(counts, z) + TotalIn(shares, z)
  {
    NoSizeNoCount(shares, z, Valid);
    NoSizeNoCount(shares, z, Invalid);
    NoSizeNoCount(shares, z, Stale);
  }

  // ---- True totals -------------------------------------------------------

  /** The record of a height when totals are counted from the rows and blocks above a base height. */
  ghost function TrueStats(env: Env, base: nat, h: nat): Stats
  {
    var rows := GetByHeight(env.rows, h);
    Stats(CountsOf(rows), ProcessedOf(rows), FoundBetween(env.found, base, h), TotalShares(env.rows, base, h), false)
  }

  ghost function TotalShares(rows: seq<Row>, base: nat, h: nat): nat { ProcessedOf(Between(rows, base + 1, h)) }

  ghost function FoundBetween(found: set<nat>, base: nat, h: nat): nat { |set b | b in found && base <= b < h| }

  lemma {:induction false} TotalSharesStep(rows: seq<Row>, base: nat, h: nat)
    requires base < h
    ensures TotalShares(rows, base, h) == TotalShares(rows, base, h - 1) + ProcessedOf(GetByHeight(rows, h))
    decreases |rows|
  {
    if rows != [] {
      var before, last := rows[..|rows| - 1], rows[|rows| - 1];
      TotalSharesStep(before, base, h);
      ProcessedAppend(Between(before, base + 1, h), last);
      ProcessedAppend(Between(before, base + 1, h - 1), last);
      ProcessedAppend(Between(before, h, h), last);
    }
  }

  lemma ProcessedAppend(rows: seq<Row>, r: Row)
    ensures ProcessedOf(rows + [r]) == ProcessedOf(rows) + NumShares(r.shares)
    ensures ProcessedOf(rows + []) == ProcessedOf(rows)
  {
    assert (rows + [r])[..|rows|] == rows;
    assert rows + [] == rows;
  }

  lemma FoundBetweenStep(found: set<nat>, base: nat, h: nat)
    requires base < h
    ensures FoundBetween(found, base, h) == FoundBetween(found, base, h - 1) + if h - 1 in found then 1 else 0
  {
    var now := set b | b in found && base <= b < h;
    var before := set b | b in found && base <= b < h - 1;
    assert now == before + if h - 1 in found then {h - 1} else {};
  }

  /** The record that get_by_height answers for the height before `h` leads to true totals at `h`. */
  ghost predicate PreviousIsTrue(env: Env, t: Table, base: nat, h: nat)
    requires h > 0
  {
    var prev := GetStats(t, h - 1);
    && prev.Some?
    && prev.value.totalProcessed == TotalShares(env.rows, base, h - 1)
    && prev.value.totalFound + (if FoundAt(env.found, h - 1) then 1 else 0) == FoundBetween(env.found, base, h)
  }

  /** From height 2 on this says that the totals of the previous record are true. */
  lemma PreviousIsTrueMeans(env: Env, t: Table, base: nat, h: nat)
    requires h >= 2 && base < h
    ensures PreviousIsTrue(env, t, base, h) <==>
              && h - 1 in t
              && t[h - 1].totalProcessed == TrueStats(env, base, h - 1).totalProcessed
              && t[h - 1].totalFound == TrueStats(env, base, h - 1).totalFound
  {
    FoundBetweenStep(env.found, base, h);
  }

  /** One record is true exactly when the record it builds on is. */
  lemma CalculateIsTrue(env: Env, t: Table, base: nat, h: nat)
    requires base < h && Calculate(env, t, h).Some?
    ensures Calculate(env, t, h).value == TrueStats(env, base, h) <==> PreviousIsTrue(env, t, base, h)
  {
    TotalSharesStep(env.rows, base, h);
  }

  ghost predicate IsTrue(env: Env, t: Table, base: nat, h: nat)
  {
    h in t && t[h] == TrueStats(env, base, h)
  }

  ghost predicate RangeIsTrue(env: Env, t: Table, base: nat, from: nat, bound: int)
  {
    forall h | from <= h < bound :: IsTrue(env, t, base, h)
  }

  lemma RangeSplits(env: Env, t: Table, base: nat, from: nat, bound: int)
    requires from < bound
    ensures RangeIsTrue(env, t, base, from, bound) <==> IsTrue(env, t, base, from) && RangeIsTrue(env, t, base, from + 1, bound)
  {
  }

  /** One record is true exactly when the one it builds on is, and exactly then the next builds on a true one. */
  lemma BuildsOnTrue(env: Env, t: Table, base: nat, h: nat, bound: int)
    requires base < h < bound && Calculate(env, t, h).Some?
    ensures var t1 := t[h := Calculate(env, t, h).value];
            && (IsTrue(env, Rebuild(env, t, h, bound).table, base, h) <==> PreviousIsTrue(env, t, base, h))
            && (PreviousIsTrue(env, t1, base, h + 1) <==> PreviousIsTrue(env, t, base, h))
  {
    var t1 := t[h := Calculate(env, t, h).value];
    CalculateIsTrue(env, t, base, h);
    RebuildKeeps(env, t1, h + 1, bound, h);
    PreviousIsTrueMeans(env, t1, base, h + 1);
  }

  /**
   Rebuilding makes every record of its range the true one, not dirty, exactly when the record before
   the range was true.
   */
  lemma {:induction false} RebuildIsTrue(env: Env, t: Table, base: nat, from: nat, bound: int)
    requires base < from < bound && Rebuild(env, t, from, bound).ok
    ensures RangeIsTrue(env, Rebuild(env, t, from, bound).table, base, from, bound) <==> PreviousIsTrue(env, t, base, from)
    decreases bound - from
  {
    BuildsOnTrue(env, t, base, from, bound);
    RangeSplits(env, Rebuild(env, t, from, bound).table, base, from, bound);
    if from + 1 < bound {
      RebuildIsTrue(env, t[from := Calculate(env, t, from).value], base, from + 1, bound);
    }
  }

  /** After a successful rebuild its range is complete and clean. */
  lemma {:induction false} RebuildIsClean(env: Env, t: Table, from: nat, bound: int, h: nat)
    requires from <= h < bound && Rebuild(env, t, from, bound).ok
    ensures h in Rebuild(env, t, from, bound).table && !Rebuild(env, t, from, bound).table[h].dirty
    decreases bound - from
  {
    var t1 := t[from := Calculate(env, t, from).value];
    if h == from {
      RebuildKeeps(env, t1, from + 1, bound, from);
    } else {
      RebuildIsClean(env, t1, from + 1, bound, h);
    }
  }

  /** The rate estimate needs no block for a window with one row or none, else the chain blocks of its lowest and highest rows. */
  lemma WindowNeedsItsEnds(env: Env, h: nat, low: Row, high: Row)
    requires low in env.rows && high in env.rows
    requires h - env.windowSize - 1 <= low.height <= h && h - env.windowSize - 1 <= high.height <= h
    requires forall r | r in env.rows && h - env.windowSize - 1 <= r.height <= h :: low.height <= r.height <= high.height
    ensures WindowHasBlocks(env, h) <==>
              |GetByHeightRange(env.rows, h, env.windowSize)| == 1 || (low.height in env.blocks && high.height in env.blocks)
  {
    var window := GetByHeightRange(env.rows, h, env.windowSize);
    BetweenIsAFilter(env.rows, h - env.windowSize - 1, h, low);
    BetweenIsAFilter(env.rows, h - env.windowSize - 1, h, high);
    assert low in window && high in window;
    forall r | r in window ensures low.height <= r.height <= high.height {
      BetweenIsAFilter(env.rows, h - env.windowSize - 1, h, r);
    }
    assert EarliestHeight(window) == low.height && LatestHeight(window) == high.height;
  }

  lemma EmptyWindowNeedsNothing(env: Env, h: nat)
    requires forall r | r in env.rows :: r.height < h - env.windowSize - 1 || h < r.height
    ensures WindowHasBlocks(env, h)
  {
    NoneBetween(env.rows, h - env.windowSize - 1, h);
  }

  lemma {:induction false} NoneBetween(rows: seq<Row>, lo: int, hi: int)
    requires forall r | r in rows :: r.height < lo || hi < r.height
    ensures Between(rows, lo, hi) == []
    decreases |rows|
  {
    if rows != [] {
      assert rows[|rows| - 1] in rows;
      NoneBetween(rows[..|rows| - 1], lo, hi);
    }
  }

  /** A rebuild succeeds exactly when the record before it exists and no chain block is missing. */
  lemma {:induction false} RebuildSucceeds(env: Env, t: Table, from: nat, bound: int)
    ensures Rebuild(env, t, from, bound).ok <==>
              from >= bound || (GetStats(t, from - 1).Some? && forall h | from <= h < bound :: h in env.blocks && WindowHasBlocks(env, h))
    decreases bound - from
  {
    if from < bound && Calculate(env, t, from).Some? {
      RebuildSucceeds(env, t[from := Calculate(env, t, from).value], from + 1, bound);
    }
  }

  /** A failed rebuild has done the heights below the first one that cannot be calculated. */
  lemma {:induction false} RebuildStops(env: Env, t: Table, from: nat, bound: int) returns (stop: nat)
    requires !Rebuild(env, t, from, bound).ok
    ensures from <= stop < bound
    ensures Rebuild(env, t, from, stop) == Rebuilt(Rebuild(env, t, from, bound).table, true)
    ensures Calculate(env, Rebuild(env, t, from, stop).table, stop).None?
    decreases bound - from
  {
    match Calculate(env, t, from)
    case None => stop := from;
    case Some(s) => stop := RebuildStops(env, t[from := s], from + 1, bound);
  }

  /** The outcome depends on the old table only through the record before the range. */
  lemma {:induction false} RebuildDependsOnPrevious(env: Env, t: Table, u: Table, from: nat, bound: int)
    requires GetStats(t, from - 1) == GetStats(u, from - 1)
    ensures Rebuild(env, t, from, bound).ok == Rebuild(env, u, from, bound).ok
    ensures Rebuild(env, t, from, bound).ok ==>
              forall h | from <= h < bound ::
                && h in Rebuild(env, t, from, bound).table
                && h in Rebuild(env, u, from, bound).table
                && Rebuild(env, t, from, bound).table[h] == Rebuild(env, u, from, bound).table[h]
    decreases bound - from
  {
    if from < bound && Calculate(env, t, from).Some? {
      var s := Calculate(env, t, from).value;
      RebuildDependsOnPrevious(env, t[from := s], u[from := s], from + 1, bound);
      RebuildKeeps(env, t[from := s], from + 1, bound, from);
      RebuildKeeps(env, u[from := s], from + 1, bound, from);
    }
  }

  /** Records outside the range stay, whether or not the rebuild succeeds. */
  lemma {:induction false} RebuildKeeps(env: Env, t: Table, from: nat, bound: int, h: nat)
    requires h < from || h >= bound
    ensures h in Rebuild(env, t, from, bound).table <==> h in t
    ensures h in t ==> Rebuild(env, t, from, bound).table[h] == t[h]
    decreases bound - from
  {
    if from < bound && Calculate(env, t, from).Some? {
      RebuildKeeps(env, t[from := Calculate(env, t, from).value], from + 1, bound, h);
    }
  }

  /** From height 2 on a rebuild gives what a first, forward run over the same rows would give. */
  lemma RebuildEqualsForwardRun(env: Env, t: Table, from: nat, bound: int)
    requires from >= 2 && Rebuild(env, t, from, bound).ok
    ensures var forward := map h | h in t && h < from :: t[h];
            && Rebuild(env, forward, from, bound).ok
            && forall h | from <= h < bound ::
                 && h in Rebuild(env, forward, from, bound).table
                 && h in Rebuild(env, t, from, bound).table
                 && Rebuild(env, forward, from, bound).table[h] == Rebuild(env, t, from, bound).table[h]
  {
    RebuildDependsOnPrevious(env, t, map h | h in t && h < from :: t[h], from, bound);
  }

  /** A rebuild from height 1 builds on the highest record instead of the record at height 0. */
  lemma RebuildFromOneReadsTheHighest(env: Env, t: Table, bound: int)
    requires 1 < bound && Rebuild(env, t, 1, bound).ok
    ensures t.Keys != {} && 1 in Rebuild(env, t, 1, bound).table
    ensures Rebuild(env, t, 1, bound).table[1].totalProcessed
         == t[Highest(t.Keys)].totalProcessed + TotalShares(env.rows, 0, 1)
  {
    var s := Calculate(env, t, 1).value;
    RebuildKeeps(env, t[1 := s], 2, bound, 1);
    TotalSharesStep(env.rows, 0, 1);
    NothingBetween(env.rows, 1, 0);
  }

  lemma {:induction false} NothingBetween(rows: seq<Row>, lo: int, hi: int)
    requires hi < lo
    ensures Between(rows, lo, hi) == []
    decreases |rows|
  {
    if rows != [] { NothingBetween(rows[..|rows| - 1], lo, hi); }
  }

  /**
   So when all records are true, a rebuild from height 1 keeps them true exactly when the highest record
   has counted no shares, and the block check, which at height 0 takes any pool block, comes out right.
   */
  lemma RebuildFromOneIsTrue(env: Env, t: Table, bound: int)
    requires 1 < bound && Rebuild(env, t, 1, bound).ok
    requires forall h | h in t :: IsTrue(env, t, 0, h)
    ensures t.Keys != {}
    ensures var top := Highest(t.Keys);
            RangeIsTrue(env, Rebuild(env, t, 1, bound).table, 0, 1, bound) <==>
              && TotalShares(env.rows, 0, top) == 0
              && FoundBetween(env.found, 0, top) + (if env.found != {} then 1 else 0) == FoundBetween(env.found, 0, 1)
  {
    RebuildIsTrue(env, t, 0, 1, bound);
    NothingBetween(env.rows, 1, 0);
    RebuildSucceeds(env, t, 1, bound);
  }

  /**
   When the records begin with a seed at height 1 instead, a rebuild from height 1 overwrites the seed, and all
   records come out true exactly when no share and no block has been counted at all.
   */
  lemma RebuildOfSeedIsTrue(env: Env, t: Table, bound: int)
    requires 1 < bound && Rebuild(env, t, 1, bound).ok
    requires forall h | h in t :: h >= 1 && IsTrue(env, t, 1, h)
    ensures t.Keys != {}
    ensures var top := Highest(t.Keys);
            RangeIsTrue(env, Rebuild(env, t, 1, bound).table, 1, 1, bound) <==>
              && TotalShares(env.rows, 1, top) == 0 && ProcessedOf(GetByHeight(env.rows, 1)) == 0
              && FoundBetween(env.found, 1, top) == 0 && env.found == {}
  {
    RebuildSucceeds(env, t, 1, bound);
    var s := Calculate(env, t, 1).value;
    var t1 := t[1 := s];
    var t' := Rebuild(env, t, 1, bound).table;
    RebuildKeeps(env, t1, 2, bound, 1);
    RangeSplits(env, t', 1, 1, bound);
    NothingBetween(env.rows, 2, 1);
    assert FoundBetween(env.found, 1, 1) == 0 by {
      assert (set b | b in env.found && 1 <= b < 1) == {};
    }
    if 2 < bound {
      RebuildIsTrue(env, t1, 1, 2, bound);
      PreviousIsTrueMeans(env, t1, 1, 2);
    }
  }

  // ---- A rebuild from height 1 -------------------------------------------

  const SEED := Stats(map[], 0, 0, 0, false)

  /**
   A pool whose averaging range is 0 and whose first stored block is at height 0, so that its records begin at
   height 0: seven shares at height 1, and fillers.
   */
  const SMALL_POOL := Env(
    [Row(0, 1, []), Row(1, 5, [SizeEntry(29, 1, Tally(7, 0, 0))]), Row(2, 1, []), Row(3, 1, []), Row(4, 1, [])],
    {0, 1, 2, 3, 4}, {}, 0)

  /** What the forward run from the seed record makes of it, and the same after record 1 was marked dirty. */
  const FORWARD: Table := map[
    0 := SEED, 1 := Stats(map[29 := Tally(7, 0, 0)], 7, 0, 7, false), 2 := Stats(map[], 0, 0, 7, false)]

  const MARKED: Table := FORWARD[1 := FORWARD[1].(dirty := true)]

  lemma {:induction false} RowsWithBlocks(env: Env, h: nat)
    requires forall r | r in env.rows :: r.height in env.blocks
    ensures WindowHasBlocks(env, h)
  {
    var window := GetByHeightRange(env.rows, h, env.windowSize);
    forall r | r in window ensures r.height in env.blocks {
      BetweenIsAFilter(env.rows, h - env.windowSize - 1, h, r);
    }
  }

  lemma {:induction false} OneRowAt(rows: seq<Row>, h: nat, i: nat)
    requires i < |rows| && rows[i].height == h && forall j | 0 <= j < |rows| && j != i :: rows[j].height != h
    ensures GetByHeight(rows, h) == [rows[i]]
    decreases |rows|
  {
    var last := |rows| - 1;
    if i == last {
      NoneBetween(rows[..last], h, h);
    } else {
      OneRowAt(rows[..last], h, i);
    }
  }

  /** One row's record. */
  lemma CountsOfOne(r: Row)
    ensures ProcessedOf([r]) == NumShares(r.shares)
    ensures CountsOf([r]) == AddSizes(map[], r.shares, SizesOf(r.shares))
  {
    assert [r][..0] == [];
  }

  /** In the small pool, record 1 takes its totals from whatever the highest record holds, record 2 from record 1. */
  lemma SmallPoolRecords(env: Env, t: Table)
    requires env == SMALL_POOL && t.Keys != {}
    ensures Calculate(env, t, 1)
         == var top := t[Highest(t.Keys)];
            Some(Stats(map[29 := Tally(7, 0, 0)], 7, top.totalFound, top.totalProcessed + 7, false))
    ensures 1 in t ==> Calculate(env, t, 2) == Some(Stats(map[], 0, t[1].totalFound, t[1].totalProcessed, false))
  {
    RowsWithBlocks(env, 1);
    RowsWithBlocks(env, 2);
    OneRowAt(env.rows, 1, 1);
    OneRowAt(env.rows, 2, 2);
    CountsOfOne(env.rows[1]);
    CountsOfOne(env.rows[2]);
    SevenShares(env.rows[1].shares);
  }

  lemma SevenShares(shares: seq<SizeEntry>)
    requires shares == [SizeEntry(29, 1, Tally(7, 0, 0))]
    ensures NumShares(shares) == 7
    ensures AddSizes(map[], shares, SizesOf(shares)) == map[29 := Tally(7, 0, 0)]
  {
    assert shares[..0] == [];
    assert SizesOf(shares) == {29} by { assert shares[0] in shares; }
    forall k ensures NumOfSize(shares, 29, k) == Pick(Tally(7, 0, 0), k) {
      assert NumOfSize(shares[..0], 29, k) == 0;
    }
    assert TallyOf(shares, 29) == Tally(7, 0, 0);
    forall k ensures NumOfAll(shares, k) == Pick(Tally(7, 0, 0), k) {
      assert NumOfAll(shares[..0], k) == 0;
    }
  }

  lemma TwoRecords(env: Env, t: Table, bound: int)
    requires env == SMALL_POOL && t.Keys != {} && bound == 3
    ensures var top := t[Highest(t.Keys)];
            Rebuild(env, t, 1, bound) == Rebuilt(
              t[1 := Stats(map[29 := Tally(7, 0, 0)], 7, top.totalFound, top.totalProcessed + 7, false)]
               [2 := Stats(map[], 0, top.totalFound, top.totalProcessed + 7, false)], true)
  {
    SmallPoolRecords(env, t);
    var t1 := t[1 := Calculate(env, t, 1).value];
    SmallPoolRecords(env, t1);
    var t2 := t1[2 := Calculate(env, t1, 2).value];
    assert Rebuild(env, t2, 3, bound) == Rebuilt(t2, true);
    assert Rebuild(env, t1, 2, bound) == Rebuilt(t2, true);
  }

  /** The rows of the small pool let records be made below height 3. */
  lemma SmallPoolBound(env: Env)
    requires env == SMALL_POOL
    ensures LatestHeight(env.rows) - 1 == 3
  {
    assert env.rows[4] in env.rows;
  }

  lemma ForwardBelowThree(env: Env, seeded: Table, bound: int)
    requires env == SMALL_POOL && bound == 3 && seeded == map[0 := SEED]
    ensures Rebuild(env, seeded, 1, bound) == Rebuilt(FORWARD, true)
  {
    assert 0 in seeded.Keys && Highest(seeded.Keys) == 0;
    TwoRecords(env, seeded, bound);
  }

  lemma RebuildBelowThree(env: Env, marked: Table, bound: int)
    requires env == SMALL_POOL && bound == 3 && marked == MARKED
    ensures var t := Rebuild(env, marked, 1, bound);
            t.ok && t.table.Keys == {0, 1, 2} && t.table[1].totalProcessed == t.table[2].totalProcessed == 14
  {
    assert marked.Keys == {0, 1, 2};
    assert 2 in marked.Keys && Highest(marked.Keys) == 2;
    TwoRecords(env, marked, bound);
  }

  /** There the forward run from the seed record counts seven shares ... */
  lemma ForwardFromSeed(env: Env, seeded: Table, bound: int)
    requires env == SMALL_POOL && bound == LatestHeight(env.rows) - 1 && seeded == map[0 := SEED]
    ensures Rebuild(env, seeded, 1, bound) == Rebuilt(FORWARD, true)
  {
    SmallPoolBound(env);
    ForwardBelowThree(env, seeded, bound);
  }

  /** ... and the rebuild of the record marked dirty, up to the same bound, counts them twice. */
  lemma RebuildFromOneCountsTwice(env: Env, marked: Table, bound: int)
    requires env == SMALL_POOL && bound == LatestHeight(env.rows) - 1 && marked == MARKED
    ensures var t := Rebuild(env, marked, 1, bound);
            t.ok && t.table.Keys == {0, 1, 2} && t.table[1].totalProcessed == t.table[2].totalProcessed == 14
  {
    SmallPoolBound(env);
    RebuildBelowThree(env, marked, bound);
  }
}
