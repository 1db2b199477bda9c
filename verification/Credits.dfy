/** The web API's share credits and reward estimates, and its grouping of rate rows by block. */
module Credits {
  import opened Basics
  import opened Sums
  import opened WorkerShares
  import PoolStats
  import Payout
  import PayoutMap

  const BLOCK_REWARD := 60000000000

  datatype Credit = Credit(c29: int, c31: int)

  /** A share entry joined with its row and its block. */
  datatype UserRow = UserRow(edgeBits: nat, valid: nat, scaling: nat)

  /** A statistics record joined with its block; a record may have no counts. */
  datatype PoolRow = PoolRow(scaling: nat, counts: Option<map<nat, Tally>>)

  function Weight29(scaling: nat): nat { if scaling > 29 then scaling else 29 }

  function Weight31(): nat { Pow2(1 + 31 - 24) * 31 }

  function CreditWeight(size: nat, scaling: nat): nat
  {
    if size == 29 then Weight29(scaling) else if size == 31 then Weight31() else 0
  }

  /** For the two sizes they know, credits weigh shares as payouts do. */
  lemma CreditsWeighAsPayouts(size: nat, scaling: nat)
    requires size == 29 || size == 31
    ensures Payout.ShareScale(size, scaling) == Some(CreditWeight(size, scaling))
  {
  }

  function UserCredit(r: UserRow, size: nat): int
  {
    if r.edgeBits == size then r.valid * CreditWeight(size, r.scaling) else 0
  }

  function PoolCredit(r: PoolRow, size: nat): int
  {
    if r.counts.Some? && size in r.counts.value then r.counts.value[size].valid * CreditWeight(size, r.scaling) else 0
  }

  method AggregateFromUserStats(rows: seq<UserRow>) returns (credit: Credit)
    ensures credit.c29 == SeqSum(rows, (r: UserRow) => UserCredit(r, 29))
    ensures credit.c31 == SeqSum(rows, (r: UserRow) => UserCredit(r, 31))
  {
    credit := Credit(0, 0);
    var i := 0;
    while i < |rows|
      invariant 0 <= i <= |rows|
      invariant credit.c29 == SeqSum(rows[..i], (r: UserRow) => UserCredit(r, 29))
      invariant credit.c31 == SeqSum(rows[..i], (r: UserRow) => UserCredit(r, 31))
    {
      var row := rows[i];
      assert rows[..i + 1][..i] == rows[..i];
      if row.edgeBits == 29 {
        credit := credit.(c29 := credit.c29 + row.valid * Weight29(row.scaling));
      } else if row.edgeBits == 31 {
        credit := credit.(c31 := credit.c31 + row.valid * Weight31());
      }
      i := i + 1;
    }
    assert rows[..i] == rows;
  }

  method AggregateFromPoolShares(rows: seq<PoolRow>) returns (credit: Credit)
    ensures credit.c29 == SeqSum(rows, (r: PoolRow) => PoolCredit(r, 29))
    ensures credit.c31 == SeqSum(rows, (r: PoolRow) => PoolCredit(r, 31))
  {
    credit := Credit(0, 0);
    var i := 0;
    while i < |rows|
      invariant 0 <= i <= |rows|
      invariant credit.c29 == SeqSum(rows[..i], (r: PoolRow) => PoolCredit(r, 29))
      invariant credit.c31 == SeqSum(rows[..i], (r: PoolRow) => PoolCredit(r, 31))
    {
      var row := rows[i];
      assert rows[..i + 1][..i] == rows[..i];
      if row.counts.Some? {
        var counts := row.counts.value;
        if 29 in counts {
          credit := credit.(c29 := credit.c29 + counts[29].valid * Weight29(row.scaling));
        }
        if 31 in counts {
          credit := credit.(c31 := credit.c31 + counts[31].valid * Weight31());
        }
      }
      i := i + 1;
    }
    assert rows[..i] == rows;
  }

  // ---- Both read the same shares -----------------------------------------

  /** The share entries of a row, joined with the scaling of its block. */
  function Entries(shares: seq<SizeEntry>, scaling: nat): seq<UserRow>
  {
    if shares == [] then []
    else
      var s := shares[|shares| - 1];
      Entries(shares[..|shares| - 1], scaling) + [UserRow(s.edgeBits, s.tally.valid, scaling)]
  }

  /** The query for one user; `scaling` holds the blocks in the queried heights. */
  function UserRows(rows: seq<Row>, scaling: map<nat, nat>, u: nat): seq<UserRow>
  {
    if rows == [] then []
    else
      var r := rows[|rows| - 1];
      UserRows(rows[..|rows| - 1], scaling, u)
      + if r.user == u && r.height in scaling then Entries(r.shares, scaling[r.height]) else []
  }

  ghost function UserTotal(rows: seq<Row>, scaling: map<nat, nat>, u: nat, size: nat): int
  {
    SeqSum(UserRows(rows, scaling, u), (r: UserRow) => UserCredit(r, size))
  }

  /** The credit of a height in a record whose counts were calculated from the rows. */
  ghost function HeightTotal(rows: seq<Row>, scaling: map<nat, nat>, h: nat, size: nat): int
  {
    if h in scaling then HeightValid(rows, h, size) * CreditWeight(size, scaling[h]) else 0
  }

  ghost function HeightValid(rows: seq<Row>, h: nat, size: nat): nat
  {
    AtSize(PoolStats.CountsOf(GetByHeight(rows, h)), size).valid
  }

  ghost function RowTotal(r: Row, scaling: map<nat, nat>, size: nat): int
  {
    if r.height in scaling then NumOfSize(r.shares, size, Valid) * CreditWeight(size, scaling[r.height]) else 0
  }

  lemma {:induction false} EntriesTotal(shares: seq<SizeEntry>, scaling: nat, size: nat)
    ensures SeqSum(Entries(shares, scaling), (r: UserRow) => UserCredit(r, size)) == NumOfSize(shares, size, Valid) * CreditWeight(size, scaling)
    decreases |shares|
  {
    if shares != [] {
      var before, last := shares[..|shares| - 1], shares[|shares| - 1];
      EntriesTotal(before, scaling, size);
      SeqSumAppend(Entries(before, scaling), UserRow(last.edgeBits, last.tally.valid, scaling), (r: UserRow) => UserCredit(r, size));
      Distribute(NumOfSize(before, size, Valid), if last.edgeBits == size then last.tally.valid else 0, CreditWeight(size, scaling));
    }
  }

  lemma UserTotalStep(rows: seq<Row>, scaling: map<nat, nat>, u: nat, size: nat)
    requires rows != []
    ensures var r := rows[|rows| - 1];
            UserTotal(rows, scaling, u, size)
            == UserTotal(rows[..|rows| - 1], scaling, u, size) + if r.user == u then RowTotal(r, scaling, size) else 0
  {
    var r := rows[|rows| - 1];
    var before := UserRows(rows[..|rows| - 1], scaling, u);
    if r.user == u && r.height in scaling {
      SeqSumConcat(before, Entries(r.shares, scaling[r.height]), (x: UserRow) => UserCredit(x, size));
      EntriesTotal(r.shares, scaling[r.height], size);
    } else {
      assert before + [] == before;
    }
  }

  lemma HeightTotalStep(rows: seq<Row>, scaling: map<nat, nat>, h: nat, size: nat)
    requires rows != []
    ensures var r := rows[|rows| - 1];
            HeightTotal(rows, scaling, h, size)
            == HeightTotal(rows[..|rows| - 1], scaling, h, size) + if r.height == h then RowTotal(r, scaling, size) else 0
  {
    HeightValidStep(rows, h, size);
    if h in scaling {
      var before, r := rows[..|rows| - 1], rows[|rows| - 1];
      Distribute(HeightValid(before, h, size), NumOfSize(r.shares, size, Valid), CreditWeight(size, scaling[h]));
    }
  }

  lemma HeightValidStep(rows: seq<Row>, h: nat, size: nat)
    requires rows != []
    ensures var r := rows[|rows| - 1];
            HeightValid(rows, h, size)
            == HeightValid(rows[..|rows| - 1], h, size) + if r.height == h then NumOfSize(r.shares, size, Valid) else 0
  {
    var r := rows[|rows| - 1];
    var before := GetByHeight(rows[..|rows| - 1], h);
    if r.height == h {
      PoolStats.CountsAreSums(before, size, Valid);
      PoolStats.CountsAreSums(before + [r], size, Valid);
      SeqSumAppend(before, r, (x: Row) => NumOfSize(x.shares, size, Valid));
    } else {
      assert before + [] == before;
    }
  }

  lemma Distribute(a: int, b: int, c: int)
    ensures (a + b) * c == a * c + b * c
  {}

  /** Summed over all users, credits are the credits of the heights those shares were counted under. */
  lemma {:induction false} UsersTotalTheHeights(rows: seq<Row>, scaling: map<nat, nat>, users: set<nat>, heights: set<nat>, size: nat)
    requires forall r | r in rows :: r.user in users && (r.height in scaling ==> r.height in heights)
    ensures SetSum(users, (u: nat) => UserTotal(rows, scaling, u, size)) == SetSum(heights, (h: nat) => HeightTotal(rows, scaling, h, size))
    decreases |rows|
  {
    var byUser := (u: nat) => UserTotal(rows, scaling, u, size);
    var byHeight := (h: nat) => HeightTotal(rows, scaling, h, size);
    if rows == [] {
      SetSumZero(users, byUser);
      SetSumZero(heights, byHeight);
    } else {
      var before, r := rows[..|rows| - 1], rows[|rows| - 1];
      var byUser0 := (u: nat) => UserTotal(before, scaling, u, size);
      var byHeight0 := (h: nat) => HeightTotal(before, scaling, h, size);
      assert r in rows && forall x | x in before :: x in rows;
      UsersTotalTheHeights(before, scaling, users, heights, size);
      forall u ensures byUser(u) == byUser0(u) + if r.user == u then RowTotal(r, scaling, size) else 0 {
        UserTotalStep(rows, scaling, u, size);
      }
      forall h ensures byHeight(h) == byHeight0(h) + if r.height == h then RowTotal(r, scaling, size) else 0 {
        HeightTotalStep(rows, scaling, h, size);
      }
      SetSumUpdate(users, byUser0, byUser, r.user);
      if r.height in heights {
        SetSumUpdate(heights, byHeight0, byHeight, r.height);
      } else {
        SetSumCong(heights, byHeight0, byHeight);
      }
    }
  }

  ghost function SetOf(heights: seq<nat>): set<nat> { set h | h in heights }

  /** The joined records of some heights, in any order, with counts as calculated from the rows. */
  ghost predicate PoolRowsOf(poolRows: seq<PoolRow>, heights: seq<nat>, rows: seq<Row>, scaling: map<nat, nat>)
  {
    && |poolRows| == |heights|
    && (forall i, j | 0 <= i < j < |heights| :: heights[i] != heights[j])
    && (forall i | 0 <= i < |heights| ::
          && heights[i] in scaling
          && poolRows[i].scaling == scaling[heights[i]]
          && var counts := PoolStats.CountsOf(GetByHeight(rows, heights[i]));
             if poolRows[i].counts.Some? then poolRows[i].counts.value == counts else counts == map[])
  }

  lemma {:induction false} PoolRowsTotal(poolRows: seq<PoolRow>, heights: seq<nat>, rows: seq<Row>, scaling: map<nat, nat>, size: nat)
    requires PoolRowsOf(poolRows, heights, rows, scaling)
    ensures SeqSum(poolRows, (r: PoolRow) => PoolCredit(r, size)) == SetSum(SetOf(heights), (h: nat) => HeightTotal(rows, scaling, h, size))
    decreases |heights|
  {
    if heights != [] {
      var last := |heights| - 1;
      PoolRowsTotal(poolRows[..last], heights[..last], rows, scaling, size);
      SetOfLast(heights);
      SetSumAdd(SetOf(heights[..last]), (h: nat) => HeightTotal(rows, scaling, h, size), heights[last]);
      PoolRowTotal(poolRows, heights, rows, scaling, size, last);
    }
  }

  lemma SetOfLast(heights: seq<nat>)
    requires heights != [] && forall i, j | 0 <= i < j < |heights| :: heights[i] != heights[j]
    ensures var last := |heights| - 1;
            heights[last] !in SetOf(heights[..last]) && SetOf(heights) == SetOf(heights[..last]) + {heights[last]}
  {
    var last := |heights| - 1;
    assert heights == heights[..last] + [heights[last]];
  }

  lemma PoolRowTotal(poolRows: seq<PoolRow>, heights: seq<nat>, rows: seq<Row>, scaling: map<nat, nat>, size: nat, i: nat)
    requires PoolRowsOf(poolRows, heights, rows, scaling) && i < |heights|
    ensures PoolCredit(poolRows[i], size) == HeightTotal(rows, scaling, heights[i], size)
  {}

  /**
   Summed over all users, the credit of a size is the pool's, when the pool's records count the same
   rows and every queried height with rows has its record.
   */
  lemma UserCreditsMakeThePool(
      rows: seq<Row>, scaling: map<nat, nat>, users: set<nat>, poolRows: seq<PoolRow>, heights: seq<nat>, size: nat)
    requires PoolRowsOf(poolRows, heights, rows, scaling)
    requires forall r | r in rows :: r.user in users && (r.height in scaling ==> r.height in heights)
    ensures SetSum(users, (u: nat) => UserTotal(rows, scaling, u, size)) == SeqSum(poolRows, (r: PoolRow) => PoolCredit(r, size))
  {
    UsersTotalTheHeights(rows, scaling, users, SetOf(heights), size);
    PoolRowsTotal(poolRows, heights, rows, scaling, size);
  }

  /** With records missing for some heights, users' credits exceed the pool's by exactly the credit of those heights. */
  lemma MissingRecordsShortThePool(
      rows: seq<Row>, scaling: map<nat, nat>, users: set<nat>, poolRows: seq<PoolRow>, heights: seq<nat>, missing: set<nat>, size: nat)
    requires PoolRowsOf(poolRows, heights, rows, scaling) && missing !! SetOf(heights)
    requires forall r | r in rows :: r.user in users && (r.height in scaling ==> r.height in heights || r.height in missing)
    ensures SetSum(users, (u: nat) => UserTotal(rows, scaling, u, size))
         == SeqSum(poolRows, (r: PoolRow) => PoolCredit(r, size)) + SetSum(missing, (h: nat) => HeightTotal(rows, scaling, h, size))
  {
    UsersTotalTheHeights(rows, scaling, users, SetOf(heights) + missing, size);
    PoolRowsTotal(poolRows, heights, rows, scaling, size);
    SetSumSplit(SetOf(heights), missing, (h: nat) => HeightTotal(rows, scaling, h, size));
  }

  // ---- Estimates ---------------------------------------------------------

  /** The estimated reward of a user for a block. */
  function Estimate(user: int, pool: int): int
  {
    if pool == 0 || user == 0 then 0 else (user as real / pool as real * BLOCK_REWARD as real).Floor
  }

  /** When users' credits add up to the pool's, their estimates give out the reward but for less than one unit each. */
  lemma EstimatesShareTheReward(users: set<nat>, credit: nat -> int, pool: int)
    requires pool > 0 && SetSum(users, credit) == pool
    requires forall u | u in users :: credit(u) >= 0
    ensures SetSum(users, (u: nat) => Estimate(credit(u), pool)) <= 60000000000
    ensures 60000000000 - SetSum(users, (u: nat) => Estimate(credit(u), pool)) < |set u | u in users && credit(u) > 0|
  {
    var reward := BLOCK_REWARD as real;
    var part := (u: nat) => PayoutMap.Part(credit(u), pool, reward);
    var paid := (u: nat) => Estimate(credit(u), pool);
    forall u | u in users ensures part(u) >= 0.0 && paid(u) == part(u).Floor && (part(u) > 0.0 ==> credit(u) > 0) {
      PayoutMap.PaymentIsAFloor(credit(u), pool, reward);
      if credit(u) == 0 { NothingIsNoPart(pool, reward); }
    }
    PayoutMap.FloorsOfParts(users, part, paid);
    PayoutMap.PartsAddUp(users, credit, part, pool, reward);
    PayoutMap.WholeIsAPart(pool, reward);
    PayoutMap.SubsetSize((set u | u in users && part(u) > 0.0), (set u | u in users && credit(u) > 0));
  }

  lemma NothingIsNoPart(total: int, net: real)
    requires total != 0
    ensures PayoutMap.Part(0, total, net) == 0.0
  {}

  ghost function WholeCredit(rows: seq<Row>, scaling: map<nat, nat>, u: nat): int
  {
    UserTotal(rows, scaling, u, 29) + UserTotal(rows, scaling, u, 31)
  }

  /** The estimates that the API gives out for one block, over the rows the pool's records were calculated from. */
  lemma BlockEstimates(
      rows: seq<Row>, scaling: map<nat, nat>, users: set<nat>, poolRows: seq<PoolRow>, heights: seq<nat>, pool: int)
    requires PoolRowsOf(poolRows, heights, rows, scaling)
    requires forall r | r in rows :: r.user in users && (r.height in scaling ==> r.height in heights)
    requires pool == SeqSum(poolRows, (r: PoolRow) => PoolCredit(r, 29)) + SeqSum(poolRows, (r: PoolRow) => PoolCredit(r, 31))
    requires pool > 0
    ensures 60000000000 - |users| < SetSum(users, (u: nat) => Estimate(WholeCredit(rows, scaling, u), pool)) <= 60000000000
  {
    var credit := (u: nat) => WholeCredit(rows, scaling, u);
    WholeCreditsMakeThePool(rows, scaling, users, poolRows, heights);
    forall u | u in users ensures credit(u) >= 0 {
      WholeCreditNotNegative(rows, scaling, u);
    }
    EstimatesShareTheReward(users, credit, pool);
    SetSumCong(users, (u: nat) => Estimate(credit(u), pool), (u: nat) => Estimate(WholeCredit(rows, scaling, u), pool));
    PayoutMap.SubsetSize((set u | u in users && credit(u) > 0), users);
  }

  lemma WholeCreditsMakeThePool(
      rows: seq<Row>, scaling: map<nat, nat>, users: set<nat>, poolRows: seq<PoolRow>, heights: seq<nat>)
    requires PoolRowsOf(poolRows, heights, rows, scaling)
    requires forall r | r in rows :: r.user in users && (r.height in scaling ==> r.height in heights)
    ensures SetSum(users, (u: nat) => WholeCredit(rows, scaling, u))
         == SeqSum(poolRows, (r: PoolRow) => PoolCredit(r, 29)) + SeqSum(poolRows, (r: PoolRow) => PoolCredit(r, 31))
  {
    var credit := (u: nat) => WholeCredit(rows, scaling, u);
    UserCreditsMakeThePool(rows, scaling, users, poolRows, heights, 29);
    UserCreditsMakeThePool(rows, scaling, users, poolRows, heights, 31);
    SetSumPlus(users, (u: nat) => UserTotal(rows, scaling, u, 29), (u: nat) => UserTotal(rows, scaling, u, 31), credit);
  }

  lemma WholeCreditNotNegative(rows: seq<Row>, scaling: map<nat, nat>, u: nat)
    ensures WholeCredit(rows, scaling, u) >= 0
  {
    SeqSumNonNegative(UserRows(rows, scaling, u), (r: UserRow) => UserCredit(r, 29));
    SeqSumNonNegative(UserRows(rows, scaling, u), (r: UserRow) => UserCredit(r, 31));
  }

  // ---- Grouping rate rows by block ---------------------------------------

  datatype Rate = Rate(edgeBits: nat, gps: real)

  /** A block joined with one of its rates; `rest` stands for the other columns. */
  datatype RateRow = RateRow(height: nat, rest: int, rate: Rate)

  datatype BlockRates = BlockRates(height: nat, rest: int, rates: seq<Rate>)

  /** The first output row of a height; the length when there is none. */
  function FindHeight(output: seq<BlockRates>, h: nat, from: nat): (i: nat)
    requires from <= |output|
    ensures from <= i <= |output|
    ensures i < |output| ==> output[i].height == h
    ensures forall j | from <= j < i :: output[j].height != h
    decreases |output| - from
  {
    if from == |output| || output[from].height == h then from else FindHeight(output, h, from + 1)
  }

  /** The rates of a height, in input order. */
  function RatesOf(results: seq<RateRow>, h: nat): seq<Rate>
  {
    if results == [] then []
    else
      var r := results[|results| - 1];
      RatesOf(results[..|results| - 1], h) + if r.height == h then [r.rate] else []
  }

  /** Every height of the input once, with all its rates in input order and the columns of its first row. */
  ghost predicate Groups(output: seq<BlockRates>, results: seq<RateRow>)
  {
    && (forall i, j | 0 <= i < j < |output| :: output[i].height != output[j].height)
    && (forall r | r in results :: Listed(output, r.height))
    && (forall i | 0 <= i < |output| :: IsGroup(output[i], results))
  }

  ghost predicate Listed(output: seq<BlockRates>, h: nat) { exists i :: 0 <= i < |output| && output[i].height == h }

  ghost predicate IsGroup(b: BlockRates, results: seq<RateRow>)
  {
    b.rates == RatesOf(results, b.height) && exists j :: IsFirst(results, j, b)
  }

  predicate IsFirst(results: seq<RateRow>, j: int, b: BlockRates)
  {
    && 0 <= j < |results|
    && results[j].height == b.height && results[j].rest == b.rest
    && forall k | 0 <= k < j :: results[k].height != b.height
  }

  function AddRate(output: seq<BlockRates>, row: RateRow): seq<BlockRates>
  {
    var i := FindHeight(output, row.height, 0);
    if i == |output| then output + [BlockRates(row.height, row.rest, [row.rate])]
    else output[i := BlockRates(output[i].height, output[i].rest, output[i].rates + [row.rate])]
  }

  function Merged(results: seq<RateRow>): seq<BlockRates>
  {
    if results == [] then [] else AddRate(Merged(results[..|results| - 1]), results[|results| - 1])
  }

  method MergeBlocks(results: seq<RateRow>) returns (output: seq<BlockRates>)
    ensures output == Merged(results)
  {
    output := [];
    var n := 0;
    while n < |results|
      invariant 0 <= n <= |results|
      invariant output == Merged(results[..n])
    {
      assert results[..n + 1][..n] == results[..n];
      output := MergeOne(output, results[n]);
      n := n + 1;
    }
    assert results[..n] == results;
  }

  method MergeOne(before: seq<BlockRates>, row: RateRow) returns (output: seq<BlockRates>)
    ensures output == AddRate(before, row)
  {
    var i := FindHeight(before, row.height, 0);
    if i == |before| {
      output := before + [BlockRates(row.height, row.rest, [row.rate])];
    } else {
      output := before[i := before[i].(rates := before[i].rates + [row.rate])];
    }
  }

  lemma {:induction false} NoRates(results: seq<RateRow>, h: nat)
    requires forall r | r in results :: r.height != h
    ensures RatesOf(results, h) == []
    decreases |results|
  {
    if results != [] {
      assert results[|results| - 1] in results;
      NoRates(results[..|results| - 1], h);
    }
  }

  lemma GroupsOneMore(before: seq<BlockRates>, results: seq<RateRow>, row: RateRow)
    requires Groups(before, results)
    ensures Groups(AddRate(before, row), results + [row])
  {
    var after := AddRate(before, row);
    forall i, j | 0 <= i < j < |after| ensures after[i].height != after[j].height {
      if j < |before| { assert before[i].height != before[j].height; }
    }
    forall r | r in results + [row] ensures Listed(after, r.height) {
      ListedOneMore(before, row, r.height);
    }
    forall k | 0 <= k < |after| ensures IsGroup(after[k], results + [row]) {
      EachGroupOneMore(before, results, row, k);
    }
  }

  lemma ListedOneMore(before: seq<BlockRates>, row: RateRow, h: nat)
    requires h == row.height || Listed(before, h)
    ensures Listed(AddRate(before, row), h)
  {
    var after := AddRate(before, row);
    if h == row.height {
      assert after[FindHeight(before, h, 0)].height == h;
    } else {
      var k :| 0 <= k < |before| && before[k].height == h;
      assert after[k].height == h;
    }
  }

  lemma EachGroupOneMore(before: seq<BlockRates>, results: seq<RateRow>, row: RateRow, k: nat)
    requires Groups(before, results) && k < |AddRate(before, row)|
    ensures IsGroup(AddRate(before, row)[k], results + [row])
  {
    if k < |before| {
      var i := FindHeight(before, row.height, 0);
      assert k != i ==> before[k].height != row.height;
      GroupOneMore(before[k], results, row, AddRate(before, row)[k]);
    } else {
      forall r | r in results ensures r.height != row.height { assert Listed(before, r.height); }
      NewGroup(results, row);
    }
  }

  lemma GroupOneMore(b: BlockRates, results: seq<RateRow>, row: RateRow, b': BlockRates)
    requires IsGroup(b, results) && b'.height == b.height && b'.rest == b.rest
    requires b'.rates == if row.height == b.height then b.rates + [row.rate] else b.rates
    ensures IsGroup(b', results + [row])
  {
    assert (results + [row])[..|results|] == results;
    var j :| IsFirst(results, j, b);
    assert IsFirst(results + [row], j, b');
    assert b.rates + [] == b.rates;
  }

  lemma NewGroup(results: seq<RateRow>, row: RateRow)
    requires forall r | r in results :: r.height != row.height
    ensures IsGroup(BlockRates(row.height, row.rest, [row.rate]), results + [row])
  {
    assert (results + [row])[..|results|] == results;
    NoRates(results, row.height);
    assert IsFirst(results + [row], |results|, BlockRates(row.height, row.rest, [row.rate]));
  }

  lemma {:induction false} MergedGroups(results: seq<RateRow>)
    ensures Groups(Merged(results), results)
    decreases |results|
  {
    if results != [] {
      var before, last := results[..|results| - 1], results[|results| - 1];
      MergedGroups(before);
      GroupsOneMore(Merged(before), before, last);
      assert before + [last] == results;
    }
  }

  /** No rate is lost or made up. */
  lemma {:induction false} GroupsKeepEveryRate(output: seq<BlockRates>, results: seq<RateRow>)
    requires Groups(output, results)
    ensures SeqSum(output, (b: BlockRates) => |b.rates|) == |results|
  {
    forall r | r in results ensures r.height in HeightsOf(output) {
      assert Listed(output, r.height);
    }
    RatesByHeight(results, HeightsOf(output));
    OutputByHeight(output, results);
  }

  ghost function HeightsOf(output: seq<BlockRates>): set<nat> { set b | b in output :: b.height }

  lemma {:induction false} RatesByHeight(results: seq<RateRow>, heights: set<nat>)
    requires forall r | r in results :: r.height in heights
    ensures SetSum(heights, (h: nat) => |RatesOf(results, h)|) == |results|
    decreases |results|
  {
    var all := (h: nat) => |RatesOf(results, h)|;
    if results == [] {
      SetSumZero(heights, all);
    } else {
      var before := results[..|results| - 1];
      assert results[|results| - 1] in results && forall r | r in before :: r in results;
      RatesByHeight(before, heights);
      SetSumUpdate(heights, (h: nat) => |RatesOf(before, h)|, all, results[|results| - 1].height);
    }
  }

  lemma {:induction false} OutputByHeight(output: seq<BlockRates>, results: seq<RateRow>)
    requires forall i, j | 0 <= i < j < |output| :: output[i].height != output[j].height
    requires forall i | 0 <= i < |output| :: output[i].rates == RatesOf(results, output[i].height)
    ensures SeqSum(output, (b: BlockRates) => |b.rates|) == SetSum(HeightsOf(output), (h: nat) => |RatesOf(results, h)|)
    decreases |output|
  {
    if output != [] {
      var last := |output| - 1;
      OutputByHeight(output[..last], results);
      assert HeightsOf(output) == HeightsOf(output[..last]) + {output[last].height} by {
        assert output == output[..last] + [output[last]];
      }
      SetSumAdd(HeightsOf(output[..last]), (h: nat) => |RatesOf(results, h)|, output[last].height);
    }
  }
}
