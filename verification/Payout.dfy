/** Division of a block reward: the pool fee, then floored shares of the rest in proportion to share value. */
module Payout {
  import opened Basics
  import opened Sums
  import opened WorkerShares

  /** Valid shares by user and size. */
  type Counts = map<nat, map<nat, nat>>

  // ---- Share counts ------------------------------------------------------

  function AtUser(counts: Counts, u: nat): map<nat, nat> { if u in counts then counts[u] else map[] }

  function CountAt(counts: Counts, u: nat, size: nat): nat
  {
    var sizes := AtUser(counts, u);
    if size in sizes then sizes[size] else 0
  }

  /** The counts after some sizes of a row were added. */
  function AddValid(sizes: map<nat, nat>, shares: seq<SizeEntry>, done: set<nat>): map<nat, nat>
  {
    map z | z in sizes.Keys + done ::
      (if z in sizes then sizes[z] else 0) + if z in done then NumOfSize(shares, z, Valid) else 0
  }

  function ShareCounts(window: seq<Row>): Counts
  {
    if window == [] then map[]
    else
      var r := window[|window| - 1];
      var counts := ShareCounts(window[..|window| - 1]);
      counts[r.user := AddValid(AtUser(counts, r.user), r.shares, SizesOf(r.shares))]
  }

  function ValidOf(r: Row, u: nat, size: nat): nat { if r.user == u then NumOfSize(r.shares, size, Valid) else 0 }

  /** A user has an entry per size in any of the user's rows, holding the sum of their valid shares. */
  lemma {:induction false} ShareCountsAreSums(window: seq<Row>, u: nat, size: nat)
    ensures u in ShareCounts(window) <==> exists r | r in window :: r.user == u
    ensures size in AtUser(ShareCounts(window), u) <==> exists r | r in window :: r.user == u && size in SizesOf(r.shares)
    ensures CountAt(ShareCounts(window), u, size) == SeqSum(window, r => ValidOf(r, u, size))
    decreases |window|
  {
    if window != [] {
      var before, last := window[..|window| - 1], window[|window| - 1];
      ShareCountsAreSums(before, u, size);
      assert forall r | r in window :: r == last || r in before;
      assert last in window && forall r | r in before :: r in window;
      NoSizeNoCount(last.shares, size, Valid);
    }
  }

  /** The window of range `r` at height `h` sums the table over heights h-r-1 to h: r + 2 of them. */
  lemma {:induction false} WindowSums(rows: seq<Row>, heights: set<nat>, h: int, range: int, u: nat, size: nat)
    requires forall x: nat :: x in heights <==> h - range - 1 <= x <= h
    ensures CountAt(ShareCounts(GetByHeightRange(rows, h, range)), u, size)
         == SetSum(heights, x => RowCount(rows, x, u, size, Valid))
    decreases |rows|
  {
    ShareCountsAreSums(GetByHeightRange(rows, h, range), u, size);
    var all := x => RowCount(rows, x, u, size, Valid);
    if rows == [] {
      SetSumZero(heights, all);
    } else {
      var before, last := rows[..|rows| - 1], rows[|rows| - 1];
      var rest := x => RowCount(before, x, u, size, Valid);
      var valid := r => ValidOf(r, u, size);
      WindowSums(before, heights, h, range, u, size);
      ShareCountsAreSums(GetByHeightRange(before, h, range), u, size);
      if last.height in heights {
        SeqSumAppend(GetByHeightRange(before, h, range), last, valid);
        SetSumUpdate(heights, rest, all, last.height);
      } else {
        SetSumCong(heights, rest, all);
        assert GetByHeightRange(rows, h, range) == GetByHeightRange(before, h, range);
      }
    }
  }

  /** get_share_counts: the loop over rows, and over the sizes of each row in any order. */
  method GetShareCounts(rows: seq<Row>, h: int, range: int) returns (counts: Counts)
    ensures counts == ShareCounts(GetByHeightRange(rows, h, range))
  {
    var window := GetByHeightRange(rows, h, range);
    counts := map[];
    var i := 0;
    while i < |window|
      invariant 0 <= i <= |window|
      invariant counts == ShareCounts(window[..i])
    {
      assert window[..i + 1][..i] == window[..i];
      var r := window[i];
      var sizes := AddRow(AtUser(counts, r.user), r.shares);
      counts := counts[r.user := sizes];
      i := i + 1;
    }
    assert window[..i] == window;
  }

  method AddRow(before: map<nat, nat>, shares: seq<SizeEntry>) returns (sizes: map<nat, nat>)
    ensures sizes == AddValid(before, shares, SizesOf(shares))
  {
    sizes := before;
    var all := SizesOf(shares);
    var todo := all;
    while todo != {}
      invariant todo <= all
      invariant sizes == AddValid(before, shares, all - todo)
      decreases todo
    {
      var z :| z in todo;
      if z !in sizes {
        sizes := sizes[z := 0];
      }
      sizes := sizes[z := sizes[z] + NumOfSize(shares, z, Valid)];
      todo := todo - {z};
    }
    assert all - todo == all;
  }

  // ---- Share values ------------------------------------------------------

  /** The value of one share; sizes below 31 other than 29 have none. */
  function ShareScale(size: nat, scaling: nat): Option<nat>
  {
    if size == 29 then Some(if size < scaling then scaling else size)
    else if size >= 31 then Some(Pow2(1 + size - 24) * size)
    else None
  }

  /** Size 29 is worth the chain's factor, at least 29. Size 31 is worth 7936, and a size one larger twice as much per bit. */
  lemma ScalesBySize(scaling: nat, size: nat)
    ensures ShareScale(29, scaling) == Some(if scaling > 29 then scaling else 29)
    ensures ShareScale(31, scaling) == Some(7936) && ShareScale(32, scaling) == Some(16384)
    ensures size >= 31 ==>
              && ShareScale(size, scaling).Some? && ShareScale(size + 1, scaling).Some?
              && ShareScale(size + 1, scaling).value * size == 2 * ShareScale(size, scaling).value * (size + 1)
  {
    assert Pow2(8) == 256 && Pow2(9) == 512;
    if size >= 31 {
      var p := Pow2(1 + size - 24);
      assert Pow2(1 + (size + 1) - 24) == 2 * p;
      Regrouped(p, size);
    }
  }

  lemma Regrouped(p: nat, size: nat)
    ensures (2 * p) * (size + 1) * size == 2 * (p * size) * (size + 1)
  {
    var q := p * size;
    assert (2 * p) * (size + 1) * size == 2 * (size + 1) * q;
  }

  predicate HasScale(size: nat) { size == 29 || size >= 31 }

  ghost function Weight(size: nat, scaling: nat): nat
  {
    var s := ShareScale(size, scaling);
    if s.None? then 0 else s.value
  }

  ghost function SizeValue(sizes: map<nat, nat>, scaling: nat, size: nat): nat
  {
    if size in sizes then Weight(size, scaling) * sizes[size] else 0
  }

  ghost function WorkerValue(sizes: map<nat, nat>, scaling: nat): int
  {
    SetSum(sizes.Keys, z => SizeValue(sizes, scaling, z))
  }

  ghost function UserValue(counts: Counts, u: nat, scaling: nat): int { WorkerValue(AtUser(counts, u), scaling) }

  ghost function TotalValue(counts: Counts, scaling: nat): int
  {
    SetSum(counts.Keys, u => UserValue(counts, u, scaling))
  }

  predicate AllScaled(counts: Counts) { forall u, z | u in counts && z in counts[u] :: HasScale(z) }

  /** Every size in the window has a scale exactly when every entry of its rows has. */
  lemma ScaledWindow(window: seq<Row>)
    ensures AllScaled(ShareCounts(window)) <==> forall r, s | r in window && s in r.shares :: HasScale(s.edgeBits)
  {
    var counts := ShareCounts(window);
    forall u, z ensures z in AtUser(counts, u) <==> exists r | r in window :: r.user == u && z in SizesOf(r.shares) {
      ShareCountsAreSums(window, u, z);
    }
    if AllScaled(counts) {
      forall r, s | r in window && s in r.shares ensures HasScale(s.edgeBits) {
        assert s.edgeBits in SizesOf(r.shares);
        assert s.edgeBits in AtUser(counts, r.user);
      }
    }
  }

  lemma WorkerValueNonNegative(sizes: map<nat, nat>, scaling: nat)
    ensures WorkerValue(sizes, scaling) >= 0
  {
    SetSumNonNegative(sizes.Keys, z => SizeValue(sizes, scaling, z));
  }

  lemma TotalValueBounds(counts: Counts, scaling: nat)
    ensures TotalValue(counts, scaling) >= 0
    ensures forall u | u in counts :: 0 <= UserValue(counts, u, scaling) <= TotalValue(counts, scaling)
  {
    var f := u => UserValue(counts, u, scaling);
    forall u | u in counts ensures f(u) >= 0 {
      WorkerValueNonNegative(counts[u], scaling);
    }
    SetSumNonNegative(counts.Keys, f);
  }

  /** calculate_worker_shares_value; None stands for the type error on a size without a scale. */
  method CalculateWorkerSharesValue(sizes: map<nat, nat>, scaling: nat) returns (r: Option<int>)
    ensures r == if forall z | z in sizes :: HasScale(z) then Some(WorkerValue(sizes, scaling)) else None
  {
    ghost var f := z => SizeValue(sizes, scaling, z);
    var value := 0;
    var todo := sizes.Keys;
    while todo != {}
      invariant todo <= sizes.Keys
      invariant value + SetSum(todo, f) == WorkerValue(sizes, scaling)
      invariant forall z | z in sizes && z !in todo :: HasScale(z)
      decreases todo
    {
      var z :| z in todo;
      var scale := ShareScale(z, scaling);
      if scale.None? { return None; }
      SetSumRemove(todo, f, z);
      var added := scale.value * sizes[z];
      assert added == f(z);
      value := value + added;
      todo := todo - {z};
    }
    r := Some(value);
  }

  /** calculate_total_share_value. */
  method CalculateTotalShareValue(counts: Counts, scaling: nat) returns (r: Option<int>)
    ensures r == if AllScaled(counts) then Some(TotalValue(counts, scaling)) else None
  {
    ghost var f := u => UserValue(counts, u, scaling);
    var value := 0;
    var todo := counts.Keys;
    while todo != {}
      invariant todo <= counts.Keys
      invariant value + SetSum(todo, f) == TotalValue(counts, scaling)
      invariant forall u, z | u in counts && u !in todo && z in counts[u] :: HasScale(z)
      decreases todo
    {
      var u :| u in todo;
      var w := CalculateWorkerSharesValue(counts[u], scaling);
      if w.None? { return None; }
      SetSumRemove(todo, f, u);
      value := value + w.value;
      todo := todo - {u};
    }
    r := Some(value);
  }
}
