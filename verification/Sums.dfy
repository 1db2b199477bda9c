/** Finite sums over sets and sequences, independent of any order of summation. */
module Sums {

  /** What is done grows by what is taken from what is to do. */
  lemma TakenIsDone<T>(all: set<T>, todo: set<T>, x: T)
    requires x in todo && todo <= all
    ensures all - (todo - {x}) == all - todo + {x}
  {
    forall y ensures y in all - (todo - {x}) <==> y in all - todo + {x} {}
  }

  /** The sum of `f` over a finite set; SetSumRemove shows that no order matters. */
  ghost function SetSum<T>(s: set<T>, f: T -> int): int
  {
    if s == {} then 0
    else
      var x :| x in s;
      f(x) + SetSum(s - {x}, f)
  }

  lemma {:induction false} SetSumRemove<T>(s: set<T>, f: T -> int, x: T)
    requires x in s
    ensures SetSum(s, f) == f(x) + SetSum(s - {x}, f)
    decreases s
  {
    var y :| y in s && SetSum(s, f) == f(y) + SetSum(s - {y}, f);
    if y != x {
      SetSumRemove(s - {y}, f, x);
      SetSumRemove(s - {x}, f, y);
      assert s - {y} - {x} == s - {x} - {y};
    }
  }

  lemma {:induction false} SetSumAdd<T>(s: set<T>, f: T -> int, x: T)
    requires x !in s
    ensures SetSum(s + {x}, f) == f(x) + SetSum(s, f)
  {
    SetSumRemove(s + {x}, f, x);
    assert s + {x} - {x} == s;
  }

  lemma {:induction false} SetSumCong<T>(s: set<T>, f: T -> int, g: T -> int)
    requires forall x | x in s :: f(x) == g(x)
    ensures SetSum(s, f) == SetSum(s, g)
    decreases s
  {
    if s != {} {
      var x :| x in s;
      SetSumRemove(s, f, x);
      SetSumRemove(s, g, x);
      SetSumCong(s - {x}, f, g);
    }
  }

  lemma {:induction false} SetSumPlus<T>(s: set<T>, f: T -> int, g: T -> int, h: T -> int)
    requires forall x | x in s :: h(x) == f(x) + g(x)
    ensures SetSum(s, h) == SetSum(s, f) + SetSum(s, g)
    decreases s
  {
    if s != {} {
      var x :| x in s;
      SetSumRemove(s, f, x);
      SetSumRemove(s, g, x);
      SetSumRemove(s, h, x);
      SetSumPlus(s - {x}, f, g, h);
    }
  }

  lemma {:induction false} SetSumZero<T>(s: set<T>, f: T -> int)
    requires forall x | x in s :: f(x) == 0
    ensures SetSum(s, f) == 0
    decreases s
  {
    if s != {} {
      var x :| x in s;
      SetSumRemove(s, f, x);
      SetSumZero(s - {x}, f);
    }
  }

  /** Enlarging the set by points where `f` is zero changes nothing. */
  lemma {:induction false} SetSumExtend<T>(s: set<T>, t: set<T>, f: T -> int)
    requires s <= t
    requires forall x | x in t - s :: f(x) == 0
    ensures SetSum(s, f) == SetSum(t, f)
    decreases t - s
  {
    if t - s == {} {
      assert forall x | x in t :: x in s || x in t - s;
      assert s == t;
    } else {
      var x :| x in t - s;
      SetSumAdd(s, f, x);
      SetSumExtend(s + {x}, t, f);
    }
  }

  /** Summing a function that changed at one point only. */
  lemma SetSumUpdate<T>(s: set<T>, f: T -> int, g: T -> int, x: T)
    requires x in s
    requires forall y | y in s && y != x :: f(y) == g(y)
    ensures SetSum(s, g) == SetSum(s, f) - f(x) + g(x)
  {
    SetSumRemove(s, f, x);
    SetSumRemove(s, g, x);
    SetSumCong(s - {x}, f, g);
  }

  lemma {:induction false} SetSumNonNegative<T>(s: set<T>, f: T -> int)
    requires forall x | x in s :: f(x) >= 0
    ensures SetSum(s, f) >= 0
    ensures forall x | x in s :: f(x) <= SetSum(s, f)
    decreases s
  {
    if s != {} {
      forall x | x in s ensures 0 <= f(x) <= SetSum(s, f) {
        SetSumRemove(s, f, x);
        SetSumNonNegative(s - {x}, f);
      }
    }
  }

  lemma {:induction false} SetSumSplit<T>(s: set<T>, t: set<T>, f: T -> int)
    requires s !! t
    ensures SetSum(s + t, f) == SetSum(s, f) + SetSum(t, f)
    decreases s
  {
    if s == {} {
      assert s + t == t;
    } else {
      var x :| x in s;
      SetSumRemove(s, f, x);
      SetSumSplit(s - {x}, t, f);
      SetSumAdd(s - {x} + t, f, x);
      assert s - {x} + t + {x} == s + t;
    }
  }

  lemma {:induction false} SetSumScale<T>(s: set<T>, f: T -> int, g: T -> int, c: int)
    requires forall x | x in s :: g(x) == c * f(x)
    ensures SetSum(s, g) == c * SetSum(s, f)
    decreases s
  {
    if s != {} {
      var x :| x in s;
      SetSumRemove(s, f, x);
      SetSumRemove(s, g, x);
      SetSumScale(s - {x}, f, g, c);
      assert c * (f(x) + SetSum(s - {x}, f)) == c * f(x) + c * SetSum(s - {x}, f);
    }
  }

  /** Exchanging the two sums of a double sum, summed by rows and by columns. */
  lemma {:induction false} SetSumSwap<S, T>(
      s: set<S>, t: set<T>, f: S -> T -> int, g: T -> S -> int, row: S -> int, col: T -> int)
    requires forall x, y | x in s && y in t :: f(x)(y) == g(y)(x)
    requires forall x | x in s :: row(x) == SetSum(t, f(x))
    requires forall y | y in t :: col(y) == SetSum(s, g(y))
    ensures SetSum(s, row) == SetSum(t, col)
    decreases s
  {
    if s == {} {
      SetSumZero(t, col);
    } else {
      var x0 :| x0 in s;
      var rest := y => SetSum(s - {x0}, g(y));
      SetSumRemove(s, row, x0);
      SetSumSwap(s - {x0}, t, f, g, row, rest);
      forall y | y in t ensures col(y) == f(x0)(y) + rest(y) {
        SetSumRemove(s, g(y), x0);
      }
      SetSumPlus(t, f(x0), rest, col);
    }
  }

  /** The sum of `f` over the elements of a sequence. */
  ghost function SeqSum<T>(xs: seq<T>, f: T -> int): int
  {
    if xs == [] then 0 else SeqSum(xs[..|xs| - 1], f) + f(xs[|xs| - 1])
  }

  lemma SeqSumAppend<T>(xs: seq<T>, x: T, f: T -> int)
    ensures SeqSum(xs + [x], f) == SeqSum(xs, f) + f(x)
  {
    assert (xs + [x])[..|xs|] == xs;
  }

  lemma {:induction false} SeqSumConcat<T>(xs: seq<T>, ys: seq<T>, f: T -> int)
    ensures SeqSum(xs + ys, f) == SeqSum(xs, f) + SeqSum(ys, f)
    decreases |ys|
  {
    if ys == [] {
      assert xs + ys == xs;
    } else {
      var last := |ys| - 1;
      assert (xs + ys)[..|xs + ys| - 1] == xs + ys[..last];
      SeqSumConcat(xs, ys[..last], f);
    }
  }

  lemma {:induction false} SeqSumNonNegative<T>(xs: seq<T>, f: T -> int)
    requires forall i | 0 <= i < |xs| :: f(xs[i]) >= 0
    ensures SeqSum(xs, f) >= 0
    ensures forall i | 0 <= i < |xs| :: f(xs[i]) <= SeqSum(xs, f)
    decreases |xs|
  {
    if xs != [] {
      SeqSumNonNegative(xs[..|xs| - 1], f);
      var ys := xs[..|xs| - 1];
      forall i | 0 <= i < |xs| ensures f(xs[i]) <= SeqSum(xs, f) {
        if i < |ys| { assert ys[i] == xs[i]; }
      }
    }
  }
}
