/** Worker share rows: one row per height and user, with one entry per proof size. */
module WorkerShares {

  datatype Kind = Valid | Invalid | Stale

  datatype Tally = Tally(valid: nat, invalid: nat, stale: nat)

  function Pick(t: Tally, k: Kind): nat
  {
    match k
    case Valid => t.valid
    case Invalid => t.invalid
    case Stale => t.stale
  }

  function Plus(a: Tally, b: Tally): Tally
  {
    Tally(a.valid + b.valid, a.invalid + b.invalid, a.stale + b.stale)
  }

  /** The tally kept for a size in a dictionary by size. */
  function AtSize(sizes: map<nat, Tally>, size: nat): Tally { if size in sizes then sizes[size] else Tally(0, 0, 0) }

  datatype SizeEntry = SizeEntry(edgeBits: nat, difficulty: nat, tally: Tally)

  datatype Row = Row(height: nat, user: nat, shares: seq<SizeEntry>)

  /** The shares of one size: num_valid, num_invalid and num_stale with a size argument. */
  function NumOfSize(shares: seq<SizeEntry>, size: nat, k: Kind): nat
  {
    if shares == [] then 0
    else
      var s := shares[|shares| - 1];
      NumOfSize(shares[..|shares| - 1], size, k) + if s.edgeBits == size then Pick(s.tally, k) else 0
  }

  /** The shares of all sizes: num_valid, num_invalid and num_stale without an argument. */
  function NumOfAll(shares: seq<SizeEntry>, k: Kind): nat
  {
    if shares == [] then 0
    else NumOfAll(shares[..|shares| - 1], k) + Pick(shares[|shares| - 1].tally, k)
  }

  function NumShares(shares: seq<SizeEntry>): nat
  {
    NumOfAll(shares, Valid) + NumOfAll(shares, Invalid) + NumOfAll(shares, Stale)
  }

  function SizesOf(shares: seq<SizeEntry>): set<nat> { set s | s in shares :: s.edgeBits }

  /** The first entry of a size, from index `from` on. */
  function FindSize(shares: seq<SizeEntry>, size: nat, from: nat): (i: nat)
    requires from <= |shares|
    ensures from <= i <= |shares|
    ensures i < |shares| ==> shares[i].edgeBits == size
    ensures forall j | from <= j < i :: shares[j].edgeBits != size
    decreases |shares| - from
  {
    if from == |shares| || shares[from].edgeBits == size then from else FindSize(shares, size, from + 1)
  }

  /** Adds to the entry of a size, or appends a new one. */
  function AddShares(shares: seq<SizeEntry>, size: nat, difficulty: nat, t: Tally): seq<SizeEntry>
  {
    var i := FindSize(shares, size, 0);
    if i < |shares| then shares[i := shares[i].(tally := Plus(shares[i].tally, t))]
    else shares + [SizeEntry(size, difficulty, t)]
  }

  predicate UniqueSizes(shares: seq<SizeEntry>)
  {
    forall i, j | 0 <= i < j < |shares| :: shares[i].edgeBits != shares[j].edgeBits
  }

  lemma NumAppend(shares: seq<SizeEntry>, s: SizeEntry, size: nat, k: Kind)
    ensures NumOfSize(shares + [s], size, k) == NumOfSize(shares, size, k) + if s.edgeBits == size then Pick(s.tally, k) else 0
  {
    assert (shares + [s])[..|shares|] == shares;
  }

  lemma {:induction false} NumUpdate(shares: seq<SizeEntry>, i: nat, t: Tally, size: nat, k: Kind)
    requires i < |shares|
    ensures NumOfSize(shares[i := shares[i].(tally := Plus(shares[i].tally, t))], size, k)
         == NumOfSize(shares, size, k) + if shares[i].edgeBits == size then Pick(t, k) else 0
    decreases |shares|
  {
    var last := |shares| - 1;
    var shares' := shares[i := shares[i].(tally := Plus(shares[i].tally, t))];
    if i == last {
      assert shares'[..last] == shares[..last];
    } else {
      assert shares'[..last] == shares[..last][i := shares[i].(tally := Plus(shares[i].tally, t))];
      NumUpdate(shares[..last], i, t, size, k);
    }
  }

  /** Adding shares adds exactly those shares to that size, and keeps one entry per size. */
  lemma AddSharesCounts(shares: seq<SizeEntry>, size: nat, difficulty: nat, t: Tally)
    ensures forall z, k :: NumOfSize(AddShares(shares, size, difficulty, t), z, k)
                        == NumOfSize(shares, z, k) + if z == size then Pick(t, k) else 0
    ensures UniqueSizes(shares) ==> UniqueSizes(AddShares(shares, size, difficulty, t))
  {
    var i := FindSize(shares, size, 0);
    forall z, k ensures NumOfSize(AddShares(shares, size, difficulty, t), z, k)
                     == NumOfSize(shares, z, k) + if z == size then Pick(t, k) else 0 {
      if i < |shares| {
        NumUpdate(shares, i, t, z, k);
      } else {
        NumAppend(shares, SizeEntry(size, difficulty, t), z, k);
      }
    }
  }

  lemma {:induction false} NoSizeNoCount(shares: seq<SizeEntry>, size: nat, k: Kind)
    ensures size !in SizesOf(shares) ==> NumOfSize(shares, size, k) == 0
    decreases |shares|
  {
    if shares != [] {
      var before, last := shares[..|shares| - 1], shares[|shares| - 1];
      assert last in shares && last.edgeBits in SizesOf(shares);
      assert SizesOf(before) <= SizesOf(shares);
      NoSizeNoCount(before, size, k);
    }
  }

  /** The search loop of the row object. */
  class WorkerSharesRow {
    const height: nat
    const user: nat
    var shares: seq<SizeEntry>

    constructor (height: nat, user: nat)
      ensures this.height == height && this.user == user && shares == []
    {
      this.height, this.user, shares := height, user, [];
    }

    method Add(size: nat, difficulty: nat, t: Tally)
      modifies this
      ensures shares == AddShares(old(shares), size, difficulty, t)
    {
      var i := 0;
      while i < |shares|
        invariant 0 <= i <= |shares| && shares == old(shares)
        invariant FindSize(shares, size, 0) == FindSize(shares, size, i)
      {
        if shares[i].edgeBits == size {
          shares := shares[i := shares[i].(tally := Plus(shares[i].tally, t))];
          return;
        }
        i := i + 1;
      }
      shares := shares + [SizeEntry(size, difficulty, t)];
    }
  }

  // ---- Tables of rows ----------------------------------------------------

  /** The shares of a kind and size that the rows hold for a user at a height. */
  function RowCount(rows: seq<Row>, h: nat, u: nat, size: nat, k: Kind): nat
  {
    if rows == [] then 0
    else
      var r := rows[|rows| - 1];
      RowCount(rows[..|rows| - 1], h, u, size, k)
      + if r.height == h && r.user == u then NumOfSize(r.shares, size, k) else 0
  }

  predicate UniqueRows(rows: seq<Row>)
  {
    && (forall i, j | 0 <= i < j < |rows| :: rows[i].height != rows[j].height || rows[i].user != rows[j].user)
    && (forall r | r in rows :: UniqueSizes(r.shares))
  }

  /** The row of a user at a height; |rows| when there is none. */
  function FindRow(rows: seq<Row>, h: nat, u: nat, from: nat): (i: nat)
    requires from <= |rows|
    ensures from <= i <= |rows|
    ensures i < |rows| ==> rows[i].height == h && rows[i].user == u
    ensures forall j | from <= j < i :: rows[j].height != h || rows[j].user != u
    decreases |rows| - from
  {
    if from == |rows| || (rows[from].height == h && rows[from].user == u) then from else FindRow(rows, h, u, from + 1)
  }

  /** Rows by height: one height, or heights h-range-1 to h. */
  function GetByHeight(rows: seq<Row>, h: int): seq<Row>
  {
    Between(rows, h, h)
  }

  function GetByHeightRange(rows: seq<Row>, h: int, range: int): seq<Row>
  {
    Between(rows, h - range - 1, h)
  }

  function Between(rows: seq<Row>, lo: int, hi: int): seq<Row>
  {
    if rows == [] then []
    else
      var r := rows[|rows| - 1];
      Between(rows[..|rows| - 1], lo, hi) + if lo <= r.height <= hi then [r] else []
  }

  /** The greatest height of any row. */
  function LatestHeight(rows: seq<Row>): (h: nat)
    requires rows != []
    ensures forall r | r in rows :: r.height <= h
    ensures exists r | r in rows :: r.height == h
  {
    var last := rows[|rows| - 1].height;
    if |rows| == 1 then last
    else
      var before := LatestHeight(rows[..|rows| - 1]);
      assert forall r | r in rows :: r == rows[|rows| - 1] || r in rows[..|rows| - 1];
      if before < last then assert rows[|rows| - 1] in rows; last
      else
        var r :| r in rows[..|rows| - 1] && r.height == before;
        assert r in rows;
        before
  }

  lemma RowCountAppend(rows: seq<Row>, r: Row, h: nat, u: nat, size: nat, k: Kind)
    ensures RowCount(rows + [r], h, u, size, k)
         == RowCount(rows, h, u, size, k) + if r.height == h && r.user == u then NumOfSize(r.shares, size, k) else 0
  {
    assert (rows + [r])[..|rows|] == rows;
  }

  lemma {:induction false} RowCountUpdate(rows: seq<Row>, i: nat, r: Row, h: nat, u: nat, size: nat, k: Kind)
    requires i < |rows| && r.height == rows[i].height && r.user == rows[i].user
    ensures RowCount(rows[i := r], h, u, size, k) == RowCount(rows, h, u, size, k)
          + if r.height == h && r.user == u then NumOfSize(r.shares, size, k) - NumOfSize(rows[i].shares, size, k) else 0
    decreases |rows|
  {
    var last := |rows| - 1;
    if i == last {
      assert rows[i := r][..last] == rows[..last];
    } else {
      assert rows[i := r][..last] == rows[..last][i := r];
      RowCountUpdate(rows[..last], i, r, h, u, size, k);
    }
  }

  /** Looking back `range` blocks takes in range + 2 heights. */
  lemma {:induction false} BetweenIsAFilter(rows: seq<Row>, lo: int, hi: int, r: Row)
    ensures r in Between(rows, lo, hi) <==> r in rows && lo <= r.height <= hi
    decreases |rows|
  {
    if rows != [] {
      BetweenIsAFilter(rows[..|rows| - 1], lo, hi, r);
    }
  }

  /** With one row per user and height, that row's own entry holds the whole count. */
  lemma {:induction false} UniqueRowHoldsCount(rows: seq<Row>, h: nat, u: nat, size: nat, k: Kind)
    requires UniqueRows(rows)
    ensures RowCount(rows, h, u, size, k)
         == var i := FindRow(rows, h, u, 0);
            if i == |rows| then 0
            else
              var j := FindSize(rows[i].shares, size, 0);
              if j == |rows[i].shares| then 0 else Pick(rows[i].shares[j].tally, k)
  {
    var i := FindRow(rows, h, u, 0);
    if i == |rows| {
      NoRowNoCount(rows, h, u, size, k);
    } else {
      OneRowCounts(rows, i, h, u, size, k);
      assert rows[i] in rows;
      OneEntryCounts(rows[i].shares, size, k);
    }
  }

  lemma {:induction false} NoRowNoCount(rows: seq<Row>, h: nat, u: nat, size: nat, k: Kind)
    requires forall r | r in rows :: r.height != h || r.user != u
    ensures RowCount(rows, h, u, size, k) == 0
    decreases |rows|
  {
    if rows != [] {
      assert rows[|rows| - 1] in rows;
      NoRowNoCount(rows[..|rows| - 1], h, u, size, k);
    }
  }

  lemma {:induction false} OneRowCounts(rows: seq<Row>, i: nat, h: nat, u: nat, size: nat, k: Kind)
    requires i < |rows| && rows[i].height == h && rows[i].user == u
    requires forall j | 0 <= j < |rows| && j != i :: rows[j].height != h || rows[j].user != u
    ensures RowCount(rows, h, u, size, k) == NumOfSize(rows[i].shares, size, k)
    decreases |rows|
  {
    var last := |rows| - 1;
    if i == last {
      NoRowNoCount(rows[..last], h, u, size, k);
    } else {
      OneRowCounts(rows[..last], i, h, u, size, k);
    }
  }

  lemma {:induction false} NoEntryNoCount(shares: seq<SizeEntry>, size: nat, k: Kind)
    requires forall s | s in shares :: s.edgeBits != size
    ensures NumOfSize(shares, size, k) == 0
    decreases |shares|
  {
    if shares != [] {
      assert shares[|shares| - 1] in shares;
      NoEntryNoCount(shares[..|shares| - 1], size, k);
    }
  }

  lemma {:induction false} OneEntryCounts(shares: seq<SizeEntry>, size: nat, k: Kind)
    requires UniqueSizes(shares)
    ensures NumOfSize(shares, size, k)
         == var j := FindSize(shares, size, 0);
            if j == |shares| then 0 else Pick(shares[j].tally, k)
    decreases |shares|
  {
    if shares != [] {
      var last := |shares| - 1;
      if shares[last].edgeBits == size {
        NoEntryNoCount(shares[..last], size, k);
        assert FindSize(shares, size, 0) == last;
      } else {
        OneEntryCounts(shares[..last], size, k);
        var j := FindSize(shares, size, 0);
        var j' := FindSize(shares[..last], size, 0);
        assert if j == |shares| then j' == last else j' == j;
      }
    }
  }
}
