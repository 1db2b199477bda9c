/** The payout map of a block: what it pays in all, and how it treats its users. */
module PayoutMap {
  import opened Basics
  import opened Sums
  import opened WorkerShares
  import opened Payout

  // ---- The map -----------------------------------------------------------

  /** What a user's share value earns: a floored part of the reward left after the fee. */
  function Payment(value: int, total: int, net: real): int
  {
    if total != 0 && total as real * net > 0.0 then (value as real / total as real * net).Floor else 0
  }

  ghost function PaymentTo(counts: Counts, scaling: nat, net: real, u: nat): int
  {
    Payment(UserValue(counts, u, scaling), TotalValue(counts, scaling), net)
  }

  /** What a user receives: the admin the fee, and each user with shares the payment for them. */
  ghost function Receives(counts: Counts, scaling: nat, theFee: real, net: real, admin: nat, done: set<nat>, u: nat): real
  {
    (if u == admin then theFee else 0.0) + if u in done then PaymentTo(counts, scaling, net, u) as real else 0.0
  }

  ghost function PayoutsFor(counts: Counts, scaling: nat, theFee: real, net: real, admin: nat, done: set<nat>): map<nat, real>
  {
    map u | u in done + {admin} :: Receives(counts, scaling, theFee, net, admin, done, u)
  }

  function FeeOf(reward: real, fee: real): real { reward * fee }

  ghost function Payouts(counts: Counts, scaling: nat, reward: real, fee: real, admin: nat): map<nat, real>
  {
    PayoutsFor(counts, scaling, FeeOf(reward, fee), reward - FeeOf(reward, fee), admin, counts.Keys)
  }

  datatype BlockState = New | Unlocked | OtherState

  datatype ChainBlock = ChainBlock(fee: int, scaling: nat)

  /** Raised stands for an exception: a chain block or a share scale is missing. */
  datatype Outcome = Paid(payouts: map<nat, real>) | Raised

  /** calculate_block_payout_map, iterating over users in any order. */
  method CalculateBlockPayoutMap(
      rows: seq<Row>, height: nat, range: int, fee: real, admin: nat, estimate: bool,
      poolBlock: Option<BlockState>, chainBlock: Option<ChainBlock>, baseReward: real)
    returns (r: Outcome)
    ensures !estimate && poolBlock != Some(Unlocked) ==> r == Paid(map[])
    ensures (estimate || poolBlock == Some(Unlocked)) ==>
              var counts := ShareCounts(GetByHeightRange(rows, height, range));
              r == if chainBlock.None? || !AllScaled(counts) then Raised
                   else Paid(Payouts(counts, chainBlock.value.scaling, baseReward + chainBlock.value.fee as real, fee, admin))
  {
    if !estimate && (poolBlock.None? || poolBlock.value != Unlocked) { return Paid(map[]); }
    var reward := if chainBlock.None? then 0.0 else baseReward + chainBlock.value.fee as real;
    var theFee := FeeOf(reward, fee);
    if chainBlock.None? { return Raised; }
    var counts := GetShareCounts(rows, height, range);
    var total := CalculateTotalShareValue(counts, chainBlock.value.scaling);
    if total.None? { return Raised; }
    var payouts := PayUsers(counts, chainBlock.value.scaling, total.value, theFee, reward - theFee, admin);
    assert payouts == Payouts(counts, chainBlock.value.scaling, reward, fee, admin);
    r := Paid(payouts);
  }

  method PayUsers(counts: Counts, scaling: nat, total: int, theFee: real, net: real, admin: nat) returns (payouts: map<nat, real>)
    requires AllScaled(counts) && total == TotalValue(counts, scaling)
    ensures payouts == PayoutsFor(counts, scaling, theFee, net, admin, counts.Keys)
  {
    payouts := map[admin := theFee];
    var todo := counts.Keys;
    while todo != {}
      invariant todo <= counts.Keys
      invariant payouts == PayoutsFor(counts, scaling, theFee, net, admin, counts.Keys - todo)
      decreases todo
    {
      var u :| u in todo;
      var value := CalculateWorkerSharesValue(counts[u], scaling);
      var payment := Payment(value.value, total, net);
      PayOneMore(counts, scaling, theFee, net, admin, counts.Keys - todo, u);
      payouts := payouts[u := (if u in payouts then payouts[u] else 0.0) + payment as real];
      TakenIsDone(counts.Keys, todo, u);
      todo := todo - {u};
    }
    assert counts.Keys - todo == counts.Keys;
  }

  lemma PayOneMore(counts: Counts, scaling: nat, theFee: real, net: real, admin: nat, done: set<nat>, u: nat)
    requires u !in done
    ensures var payouts := PayoutsFor(counts, scaling, theFee, net, admin, done);
            PayoutsFor(counts, scaling, theFee, net, admin, done + {u}) ==
            payouts[u := (if u in payouts then payouts[u] else 0.0) + PaymentTo(counts, scaling, net, u) as real]
  {
    var payouts := PayoutsFor(counts, scaling, theFee, net, admin, done);
    var payouts' := PayoutsFor(counts, scaling, theFee, net, admin, done + {u});
    assert payouts'.Keys == payouts.Keys + {u};
    forall v | v in payouts' && v != u ensures payouts'[v] == payouts[v] {
      assert v in payouts;
    }
  }

  // ---- Sums of reals -----------------------------------------------------

  ghost function RealSum(s: set<nat>, f: nat -> real): real
  {
    if s == {} then 0.0
    else
      var x :| x in s;
      f(x) + RealSum(s - {x}, f)
  }

  lemma {:induction false} RealSumRemove(s: set<nat>, f: nat -> real, x: nat)
    requires x in s
    ensures RealSum(s, f) == f(x) + RealSum(s - {x}, f)
    decreases s
  {
    var y :| y in s && RealSum(s, f) == f(y) + RealSum(s - {y}, f);
    if y != x {
      RealSumRemove(s - {y}, f, x);
      RealSumRemove(s - {x}, f, y);
      assert s - {x} - {y} == s - {y} - {x};
    }
  }

  lemma {:induction false} RealSumOfInts(s: set<nat>, f: nat -> real, g: nat -> int)
    requires forall x | x in s :: f(x) == g(x) as real
    ensures RealSum(s, f) == SetSum(s, g) as real
    decreases s
  {
    if s != {} {
      var x :| x in s;
      RealSumRemove(s, f, x);
      SetSumRemove(s, g, x);
      RealSumOfInts(s - {x}, f, g);
    }
  }

  ghost function Times(v: int, q: real): real { v as real * q }

  lemma {:induction false} RealSumScale(s: set<nat>, f: nat -> real, g: nat -> int, q: real)
    requires forall x | x in s :: f(x) == Times(g(x), q)
    ensures RealSum(s, f) == Times(SetSum(s, g), q)
    decreases s
  {
    if s != {} {
      var x :| x in s;
      RealSumRemove(s, f, x);
      SetSumRemove(s, g, x);
      RealSumScale(s - {x}, f, g, q);
      Distribute(g(x), SetSum(s - {x}, g), q);
    }
  }

  lemma Distribute(v: int, w: int, q: real)
    ensures Times(v + w, q) == Times(v, q) + Times(w, q)
  {
    assert (v + w) as real == v as real + w as real;
  }

  /** Floors add up to at most the whole, and to less than one short of it for each positive part. */
  lemma {:induction false} FloorsOfParts(s: set<nat>, part: nat -> real, paid: nat -> int)
    requires forall x | x in s :: part(x) >= 0.0 && paid(x) == part(x).Floor
    ensures SetSum(s, paid) as real <= RealSum(s, part)
    ensures RealSum(s, part) - SetSum(s, paid) as real <= |set x | x in s && part(x) > 0.0| as real
    ensures RealSum(s, part) > 0.0 ==> RealSum(s, part) - SetSum(s, paid) as real < |set x | x in s && part(x) > 0.0| as real
    decreases s
  {
    if s != {} {
      var x :| x in s;
      RealSumRemove(s, part, x);
      SetSumRemove(s, paid, x);
      FloorsOfParts(s - {x}, part, paid);
      PositiveParts(s, part, x);
    }
  }

  lemma PositiveParts(s: set<nat>, part: nat -> real, x: nat)
    requires x in s
    ensures |set y | y in s && part(y) > 0.0| == |set y | y in s - {x} && part(y) > 0.0| + if part(x) > 0.0 then 1 else 0
  {
    var some := set y | y in s && part(y) > 0.0;
    var rest := set y | y in s - {x} && part(y) > 0.0;
    assert some == rest + if part(x) > 0.0 then {x} else {};
  }

  /** All the map pays out. */
  ghost function PaidInAll(payouts: map<nat, real>): real
  {
    RealSum(payouts.Keys, (u: nat) => if u in payouts then payouts[u] else 0.0)
  }

  // ---- The sum of the map ------------------------------------------------

  /** The part of the net reward that a value earns before it is floored. */
  ghost function Part(value: int, total: int, net: real): real
    requires total != 0
  {
    value as real / total as real * net
  }

  lemma PaymentIsAFloor(value: int, total: int, net: real)
    requires total > 0 && net >= 0.0 && value >= 0
    ensures Part(value, total, net) >= 0.0
    ensures Part(value, total, net) > 0.0 ==> value > 0
    ensures Payment(value, total, net) == Part(value, total, net).Floor
  {
    var v, t := value as real, total as real;
    assert v / t >= 0.0;
    if net > 0.0 { assert t * net > 0.0; }
  }

  lemma PartsAddUp(s: set<nat>, value: nat -> int, part: nat -> real, total: int, net: real)
    requires total != 0 && forall x | x in s :: part(x) == Part(value(x), total, net)
    ensures RealSum(s, part) == Part(SetSum(s, value), total, net)
  {
    var q := Rate(total, net);
    forall x | x in s ensures part(x) == Times(value(x), q) {
      PartIsAProduct(value(x), total, net);
    }
    RealSumScale(s, part, value, q);
    PartIsAProduct(SetSum(s, value), total, net);
  }

  ghost function Rate(total: int, net: real): real
    requires total != 0
  {
    net / total as real
  }

  lemma PartIsAProduct(value: int, total: int, net: real)
    requires total != 0
    ensures Part(value, total, net) == Times(value, Rate(total, net))
  {
    Regroup(value as real, total as real, net);
  }

  lemma Regroup(v: real, t: real, n: real)
    requires t != 0.0
    ensures v / t * n == v * (n / t)
  {
    var x, y := v / t, n / t;
    assert v == x * t && n == y * t;
    assert x * (y * t) == (x * t) * y;
  }

  lemma WholeIsAPart(total: int, net: real)
    requires total != 0
    ensures Part(total, total, net) == net
  {
    assert total as real / total as real == 1.0;
  }

  lemma FeeBounds(reward: real, fee: real)
    requires reward >= 0.0 && 0.0 <= fee <= 1.0
    ensures 0.0 <= FeeOf(reward, fee) <= reward
  {
    assert reward * fee >= 0.0;
    assert reward * (1.0 - fee) >= 0.0;
  }

  /** The users who have share value. */
  ghost function Earners(counts: Counts, scaling: nat): set<nat>
  {
    set u | u in counts && UserValue(counts, u, scaling) > 0
  }

  /** The map pays the fee and every user's payment, whether or not the admin has shares too. */
  lemma PaidInAllSplits(counts: Counts, scaling: nat, theFee: real, net: real, admin: nat)
    ensures PaidInAll(PayoutsFor(counts, scaling, theFee, net, admin, counts.Keys))
         == theFee + SetSum(counts.Keys, (u: nat) => PaymentTo(counts, scaling, net, u)) as real
  {
    var payouts := PayoutsFor(counts, scaling, theFee, net, admin, counts.Keys);
    var f := (u: nat) => if u in payouts then payouts[u] else 0.0;
    var paid := (u: nat) => PaymentTo(counts, scaling, net, u);
    assert PaidInAll(payouts) == RealSum(payouts.Keys, f);
    RealSumRemove(payouts.Keys, f, admin);
    var others := counts.Keys - {admin};
    assert payouts.Keys - {admin} == others;
    RealSumOfInts(others, f, paid);
    if admin in counts {
      SetSumRemove(counts.Keys, paid, admin);
    } else {
      assert others == counts.Keys;
    }
  }

  /** The payments for a set of users against their parts of the net reward. */
  lemma PaymentsOfParts(counts: Counts, scaling: nat, net: real, users: set<nat>)
    requires users <= counts.Keys && net >= 0.0 && TotalValue(counts, scaling) > 0
    ensures var whole := Part(SetSum(users, (u: nat) => UserValue(counts, u, scaling)), TotalValue(counts, scaling), net);
            var paid := SetSum(users, (u: nat) => PaymentTo(counts, scaling, net, u)) as real;
            && paid <= whole
            && (whole > 0.0 ==> whole - paid < |users * Earners(counts, scaling)| as real)
  {
    var total := TotalValue(counts, scaling);
    var value := (u: nat) => UserValue(counts, u, scaling);
    var paid := (u: nat) => PaymentTo(counts, scaling, net, u);
    var part := (u: nat) => Part(UserValue(counts, u, scaling), total, net);
    TotalValueBounds(counts, scaling);
    forall u | u in users ensures part(u) >= 0.0 && paid(u) == part(u).Floor && (part(u) > 0.0 ==> value(u) > 0) {
      PaymentIsAFloor(value(u), total, net);
    }
    FloorsOfParts(users, part, paid);
    PartsAddUp(users, value, part, total, net);
    SubsetSize((set u | u in users && part(u) > 0.0), users * Earners(counts, scaling));
  }

  lemma {:induction false} SubsetSize(s: set<nat>, t: set<nat>)
    requires s <= t
    ensures |s| <= |t|
    decreases s
  {
    if s != {} {
      var x :| x in s;
      SubsetSize(s - {x}, t - {x});
    }
  }

  /**
   With a fee rate between 0 and 1 and some share value, the map pays at most the reward of the block and
   falls short of it by less than one unit for each user with share value.
   */
  lemma PaysTheReward(counts: Counts, scaling: nat, reward: real, fee: real, admin: nat)
    requires reward >= 0.0 && 0.0 <= fee <= 1.0 && TotalValue(counts, scaling) > 0
    ensures PaidInAll(Payouts(counts, scaling, reward, fee, admin)) <= reward
    ensures reward - PaidInAll(Payouts(counts, scaling, reward, fee, admin)) < |Earners(counts, scaling)| as real
  {
    var net := reward - FeeOf(reward, fee);
    FeeBounds(reward, fee);
    PaidInAllSplits(counts, scaling, FeeOf(reward, fee), net, admin);
    PaymentsOfParts(counts, scaling, net, counts.Keys);
    WholeIsAPart(TotalValue(counts, scaling), net);
    assert counts.Keys * Earners(counts, scaling) == Earners(counts, scaling);
    SomeoneEarns(counts, scaling);
    PaymentsNotNegative(counts, scaling, net, counts.Keys);
  }

  lemma SomeoneEarns(counts: Counts, scaling: nat)
    requires TotalValue(counts, scaling) > 0
    ensures |Earners(counts, scaling)| > 0
  {
    if forall u | u in counts :: UserValue(counts, u, scaling) <= 0 {
      TotalValueBounds(counts, scaling);
      SetSumZero(counts.Keys, (u: nat) => UserValue(counts, u, scaling));
    } else {
      var u :| u in counts && UserValue(counts, u, scaling) > 0;
      assert u in Earners(counts, scaling);
    }
  }

  /** The admin is paid the fee rate's part of the reward, on top of what the admin's own shares earn. */
  lemma AdminIsPaidTheFee(counts: Counts, scaling: nat, reward: real, fee: real, admin: nat)
    ensures admin in Payouts(counts, scaling, reward, fee, admin)
    ensures Payouts(counts, scaling, reward, fee, admin)[admin]
         == reward * fee + if admin in counts then PaymentTo(counts, scaling, reward - reward * fee, admin) as real else 0.0
  {
  }

  /** What is left after the fee is the users': every user gets the floor of the user's part of it. */
  lemma UsersArePaidTheRest(counts: Counts, scaling: nat, reward: real, fee: real, admin: nat, u: nat)
    requires reward >= 0.0 && 0.0 <= fee <= 1.0 && TotalValue(counts, scaling) > 0 && u in counts
    ensures u in Payouts(counts, scaling, reward, fee, admin)
    ensures u != admin ==>
              Payouts(counts, scaling, reward, fee, admin)[u]
              == Part(UserValue(counts, u, scaling), TotalValue(counts, scaling), reward * (1.0 - fee)).Floor as real
  {
    NetReward(reward, fee);
    FeeBounds(reward, fee);
    TotalValueBounds(counts, scaling);
    PaymentIsAFloor(UserValue(counts, u, scaling), TotalValue(counts, scaling), reward - FeeOf(reward, fee));
  }

  lemma NetReward(reward: real, fee: real)
    ensures reward - FeeOf(reward, fee) == reward * (1.0 - fee)
  {
  }

  /** All payments for shares add up to at most the reward less the fee, and to less than one short of it for each user with share value. */
  lemma UsersShareTheRest(counts: Counts, scaling: nat, reward: real, fee: real, admin: nat)
    requires reward >= 0.0 && 0.0 <= fee <= 1.0 && TotalValue(counts, scaling) > 0
    ensures var paid := PaidInAll(Payouts(counts, scaling, reward, fee, admin)) - reward * fee;
            reward * (1.0 - fee) - |Earners(counts, scaling)| as real < paid <= reward * (1.0 - fee)
  {
    NetReward(reward, fee);
    PaysTheReward(counts, scaling, reward, fee, admin);
  }

  /** Without share value only the fee is paid. */
  lemma PaysOnlyTheFee(counts: Counts, scaling: nat, reward: real, fee: real, admin: nat)
    requires TotalValue(counts, scaling) == 0
    ensures PaidInAll(Payouts(counts, scaling, reward, fee, admin)) == reward * fee
  {
    PaidInAllSplits(counts, scaling, FeeOf(reward, fee), reward - FeeOf(reward, fee), admin);
    SetSumZero(counts.Keys, (u: nat) => PaymentTo(counts, scaling, reward - FeeOf(reward, fee), u));
  }

  // ---- Fairness ----------------------------------------------------------

  /** The part earned never shrinks when value is gained and the rest of the total stays. */
  lemma GrowingPart(a: int, s: int, b: int, t: int, net: real)
    requires 0 <= a <= s && a <= b && s - a <= t - b + (b - a) && t - b <= s - a && net >= 0.0 && b <= t
    ensures Payment(a, s, net) <= Payment(b, t, net)
  {
    if s > 0 && t > 0 {
      PaymentIsAFloor(a, s, net);
      PaymentIsAFloor(b, t, net);
      GrowingFraction(a as real, s as real, b as real, t as real);
      ScaledOrder(a as real / s as real, b as real / t as real, net);
    } else if t > 0 {
      PaymentIsAFloor(b, t, net);
    }
  }

  lemma ScaledOrder(x: real, y: real, c: real)
    requires x <= y && c >= 0.0
    ensures x * c <= y * c
  {}

  lemma GrowingFraction(a: real, s: real, b: real, t: real)
    requires 0.0 <= a <= b && a <= s && b <= t && s > 0.0 && t > 0.0 && t - b <= s - a
    ensures a / s <= b / t
  {
    assert s * t > 0.0;
    GrowingOver(a, s, b, t, s * t);
  }

  lemma GrowingOver(a: real, s: real, b: real, t: real, c: real)
    requires 0.0 <= a <= b && a <= s && b <= t && s > 0.0 && t > 0.0 && t - b <= s - a
    requires c == s * t && c > 0.0
    ensures a / s <= b / t
  {
    CrossOrder(a, s, b, t);
    CrossMultiply(a, s, t, c);
    CrossMultiply(b, t, s, c);
    CancelFactor(a / s, b / t, c);
  }

  lemma CrossOrder(a: real, s: real, b: real, t: real)
    requires 0.0 <= a <= b && b <= t && t - b <= s - a
    ensures a * t <= b * s
  {
    assert a * (t - b) <= b * (t - b);
    assert b * (t - b) <= b * (s - a);
    assert a * (t - b) == a * t - a * b;
  }

  lemma CrossMultiply(a: real, s: real, t: real, c: real)
    requires s != 0.0 && c == s * t
    ensures a / s * c == a * t
  {
    var f := a / s;
    assert f * s == a;
    assert f * (s * t) == (f * s) * t;
  }

  lemma CancelFactor(f: real, g: real, c: real)
    requires c > 0.0 && f * c <= g * c
    ensures f <= g
  {
    assert (f - g) * c <= 0.0;
  }

  /** Within one map, more share value never earns less. */
  lemma MoreValueEarnsNoLess(counts: Counts, scaling: nat, reward: real, fee: real, admin: nat, u: nat, v: nat)
    requires reward >= 0.0 && 0.0 <= fee <= 1.0
    requires u in counts && v in counts && u != admin
    requires UserValue(counts, u, scaling) <= UserValue(counts, v, scaling)
    ensures Payouts(counts, scaling, reward, fee, admin)[u] <= Payouts(counts, scaling, reward, fee, admin)[v]
  {
    var a, b, total := UserValue(counts, u, scaling), UserValue(counts, v, scaling), TotalValue(counts, scaling);
    TotalValueBounds(counts, scaling);
    FeeBounds(reward, fee);
    GrowingPart(a, total, b, total, reward - FeeOf(reward, fee));
  }

  /** A user who gains share value while all others keep theirs never earns less. */
  lemma GainingValueEarnsNoLess(before: Counts, after: Counts, scaling: nat, reward: real, fee: real, admin: nat, u: nat)
    requires reward >= 0.0 && 0.0 <= fee <= 1.0
    requires u in before && before.Keys == after.Keys
    requires forall v | v in before && v != u :: before[v] == after[v]
    requires UserValue(before, u, scaling) <= UserValue(after, u, scaling)
    ensures Payouts(before, scaling, reward, fee, admin)[u] <= Payouts(after, scaling, reward, fee, admin)[u]
  {
    TotalValueBounds(before, scaling);
    TotalValueBounds(after, scaling);
    FeeBounds(reward, fee);
    SetSumUpdate(before.Keys, (v: nat) => UserValue(before, v, scaling), (v: nat) => UserValue(after, v, scaling), u);
    GrowingPart(UserValue(before, u, scaling), TotalValue(before, scaling), UserValue(after, u, scaling),
                TotalValue(after, scaling), reward - FeeOf(reward, fee));
  }

  /** A user worth more than everybody else together times the reward is paid all but two units of it, and the others nothing. */
  lemma DominantValueTakesTheReward(counts: Counts, scaling: nat, net: real, u: nat)
    requires u in counts && net >= 0.0 && UserValue(counts, u, scaling) > 0
    requires Times(TotalValue(counts, scaling) - UserValue(counts, u, scaling), net) < UserValue(counts, u, scaling) as real
    ensures forall v | v in counts && v != u :: PaymentTo(counts, scaling, net, v) == 0
    ensures net - 2.0 < PaymentTo(counts, scaling, net, u) as real <= net
  {
    var total, value := TotalValue(counts, scaling), UserValue(counts, u, scaling);
    TotalValueBounds(counts, scaling);
    DominantPart(value, total, net);
    PaymentIsAFloor(value, total, net);
    var part := Part(value, total, net);
    assert PaymentTo(counts, scaling, net, u) == part.Floor;
    assert part - 1.0 < part.Floor as real <= part;
    forall v | v in counts && v != u ensures PaymentTo(counts, scaling, net, v) == 0 {
      OtherValue(counts, scaling, u, v);
      SmallPart(UserValue(counts, v, scaling), value, total, net);
      PaymentIsAFloor(UserValue(counts, v, scaling), total, net);
    }
  }

  lemma OtherValue(counts: Counts, scaling: nat, u: nat, v: nat)
    requires u in counts && v in counts && u != v
    ensures UserValue(counts, v, scaling) <= TotalValue(counts, scaling) - UserValue(counts, u, scaling)
  {
    var f := (w: nat) => UserValue(counts, w, scaling);
    SetSumRemove(counts.Keys, f, u);
    forall w | w in counts.Keys - {u} ensures f(w) >= 0 {
      WorkerValueNonNegative(counts[w], scaling);
    }
    SetSumNonNegative(counts.Keys - {u}, f);
    assert v in counts.Keys - {u} && f(v) <= SetSum(counts.Keys - {u}, f);
  }

  lemma DominantPart(value: int, total: int, net: real)
    requires 0 < value <= total && net >= 0.0 && Times(total - value, net) < value as real
    ensures net - 1.0 < Part(value, total, net) <= net
  {
    PartIsAProduct(value, total, net);
    PartIsAProduct(total - value, total, net);
    PartIsAProduct(total, total, net);
    WholeIsAPart(total, net);
    Distribute(value, total - value, Rate(total, net));
    SmallPart(total - value, value, total, net);
  }

  lemma SmallPart(v: int, value: int, total: int, net: real)
    requires 0 <= v <= total - value && 0 < value && net >= 0.0 && Times(total - value, net) < value as real
    ensures 0.0 <= Part(v, total, net) < 1.0
  {
    TimesMonotone(v, total - value, net);
    SmallQuotient(v, net, total);
  }

  lemma TimesMonotone(v: int, w: int, q: real)
    requires v <= w && q >= 0.0
    ensures Times(v, q) <= Times(w, q)
  {
    ScaledOrder(v as real, w as real, q);
  }

  lemma SmallQuotient(v: int, net: real, total: int)
    requires total > 0 && v >= 0 && net >= 0.0 && Times(v, net) < total as real
    ensures 0.0 <= Part(v, total, net) < 1.0
  {
    PaymentIsAFloor(v, total, net);
    PartTimesTotal(v as real, total as real, net);
    BelowOne(Part(v, total, net), total as real);
  }

  ghost function Product(a: real, b: real): real { a * b }

  lemma PartTimesTotal(v: real, t: real, net: real)
    requires t != 0.0
    ensures Product(v / t * net, t) == v * net
  {
    var x := v / t;
    assert x * t == v;
    assert x * net * t == x * t * net;
  }

  lemma BelowOne(y: real, t: real)
    requires t > 0.0 && Product(y, t) < t
    ensures y < 1.0
  {
    assert (1.0 - y) * t > 0.0;
  }

  /** The shares of one user, divided over other accounts size by size. */
  ghost predicate Splits(before: Counts, after: Counts, u: nat, accounts: set<nat>)
  {
    && u in before
    && accounts !! (before.Keys - {u})
    && after.Keys == before.Keys - {u} + accounts
    && (forall v | v in before && v != u :: after[v] == before[v])
    && (forall z :: SetSum(accounts, (a: nat) => CountAt(after, a, z)) == CountAt(before, u, z))
  }

  ghost function Weighted(counts: Counts, scaling: nat, u: nat, z: nat): int
  {
    Weight(z, scaling) * CountAt(counts, u, z)
  }

  /** A user's value as a sum over any set with all the user's sizes. */
  lemma ValueOverSizes(counts: Counts, u: nat, scaling: nat, sizes: set<nat>)
    requires AtUser(counts, u).Keys <= sizes
    ensures UserValue(counts, u, scaling) == SetSum(sizes, (z: nat) => Weighted(counts, scaling, u, z))
  {
    var own := AtUser(counts, u);
    var g := (z: nat) => Weighted(counts, scaling, u, z);
    SetSumCong(own.Keys, (z: nat) => SizeValue(own, scaling, z), g);
    forall z | z in sizes - own.Keys ensures g(z) == 0 {
      assert CountAt(counts, u, z) == 0;
    }
    SetSumExtend(own.Keys, sizes, g);
  }

  /** The accounts together are worth what the user was, so the total value stays. */
  lemma SplittingKeepsValue(before: Counts, after: Counts, u: nat, accounts: set<nat>, scaling: nat)
    requires Splits(before, after, u, accounts)
    ensures SetSum(accounts, (a: nat) => UserValue(after, a, scaling)) == UserValue(before, u, scaling)
    ensures TotalValue(after, scaling) == TotalValue(before, scaling)
  {
    var sizes := before[u].Keys + set a, z | a in accounts && z in after[a] :: z;
    forall a | a in accounts ensures AtUser(after, a).Keys <= sizes {}
    ValuesOverSizes(after, accounts, scaling, sizes);
    AccountsBySize(before, after, u, accounts, scaling, sizes);
    ValueOverSizes(before, u, scaling, sizes);
    TotalOfSplit(before, after, u, accounts, scaling);
  }

  lemma AccountsBySize(before: Counts, after: Counts, u: nat, accounts: set<nat>, scaling: nat, sizes: set<nat>)
    requires Splits(before, after, u, accounts)
    ensures SetSum(accounts, (a: nat) => SetSum(sizes, (z: nat) => Weighted(after, scaling, a, z)))
         == SetSum(sizes, (z: nat) => Weighted(before, scaling, u, z))
  {
    var f := (a: nat) => (z: nat) => Weighted(after, scaling, a, z);
    var g := (z: nat) => (a: nat) => Weighted(after, scaling, a, z);
    var row := (a: nat) => SetSum(sizes, (z: nat) => Weighted(after, scaling, a, z));
    var col := (z: nat) => Weighted(before, scaling, u, z);
    forall a | a in accounts ensures row(a) == SetSum(sizes, f(a)) {
      SetSumCong(sizes, (z: nat) => Weighted(after, scaling, a, z), f(a));
    }
    forall z | z in sizes ensures col(z) == SetSum(accounts, g(z)) {
      SetSumScale(accounts, (a: nat) => CountAt(after, a, z), g(z), Weight(z, scaling));
    }
    SetSumSwap(accounts, sizes, f, g, row, col);
  }

  lemma ValuesOverSizes(counts: Counts, users: set<nat>, scaling: nat, sizes: set<nat>)
    requires forall a | a in users :: AtUser(counts, a).Keys <= sizes
    ensures SetSum(users, (a: nat) => UserValue(counts, a, scaling))
         == SetSum(users, (a: nat) => SetSum(sizes, (z: nat) => Weighted(counts, scaling, a, z)))
  {
    forall a | a in users
      ensures UserValue(counts, a, scaling) == SetSum(sizes, (z: nat) => Weighted(counts, scaling, a, z))
    {
      ValueOverSizes(counts, a, scaling, sizes);
    }
    SetSumCong(users, (a: nat) => UserValue(counts, a, scaling), (a: nat) => SetSum(sizes, (z: nat) => Weighted(counts, scaling, a, z)));
  }

  lemma TotalOfSplit(before: Counts, after: Counts, u: nat, accounts: set<nat>, scaling: nat)
    requires Splits(before, after, u, accounts)
    ensures TotalValue(after, scaling) - SetSum(accounts, (a: nat) => UserValue(after, a, scaling))
         == TotalValue(before, scaling) - UserValue(before, u, scaling)
  {
    var others := before.Keys - {u};
    SetSumRemove(before.Keys, (v: nat) => UserValue(before, v, scaling), u);
    SetSumSplit(others, accounts, (v: nat) => UserValue(after, v, scaling));
    SetSumCong(others, (v: nat) => UserValue(before, v, scaling), (v: nat) => UserValue(after, v, scaling));
  }

  /**
   Splitting the shares of a user who is not the admin over `k` accounts that are not either never pays
   more in total, and loses less than `k` units.
   */
  lemma SplittingNeverPays(before: Counts, after: Counts, u: nat, accounts: set<nat>, scaling: nat, reward: real, fee: real, admin: nat)
    requires Splits(before, after, u, accounts) && accounts != {}
    requires u != admin && admin !in accounts
    requires reward >= 0.0 && 0.0 <= fee <= 1.0
    ensures forall a | a in accounts :: a in Payouts(after, scaling, reward, fee, admin)
    ensures var payouts := Payouts(after, scaling, reward, fee, admin);
            var together := RealSum(accounts, (a: nat) => if a in payouts then payouts[a] else 0.0);
            together <= Payouts(before, scaling, reward, fee, admin)[u] < together + |accounts| as real
  {
    var net := reward - FeeOf(reward, fee);
    var payouts := Payouts(after, scaling, reward, fee, admin);
    FeeBounds(reward, fee);
    forall a | a in accounts ensures a in payouts && payouts[a] == PaymentTo(after, scaling, net, a) as real {
      assert a in after;
    }
    RealSumOfInts(accounts, (a: nat) => if a in payouts then payouts[a] else 0.0, (a: nat) => PaymentTo(after, scaling, net, a));
    assert Payouts(before, scaling, reward, fee, admin)[u] == PaymentTo(before, scaling, net, u) as real;
    SplitPayments(before, after, u, accounts, scaling, net);
  }

  lemma SplitPayments(before: Counts, after: Counts, u: nat, accounts: set<nat>, scaling: nat, net: real)
    requires Splits(before, after, u, accounts) && accounts != {} && net >= 0.0
    ensures var together := SetSum(accounts, (a: nat) => PaymentTo(after, scaling, net, a));
            together <= PaymentTo(before, scaling, net, u) < together + |accounts|
  {
    SplittingKeepsValue(before, after, u, accounts, scaling);
    TotalValueBounds(before, scaling);
    var total, value := TotalValue(before, scaling), UserValue(before, u, scaling);
    var together := SetSum(accounts, (a: nat) => PaymentTo(after, scaling, net, a));
    if total == 0 {
      SetSumZero(accounts, (a: nat) => PaymentTo(after, scaling, net, a));
    } else {
      PaymentsOfParts(after, scaling, net, accounts);
      PaymentIsAFloor(value, total, net);
      SubsetSize(accounts * Earners(after, scaling), accounts);
      PaymentsNotNegative(after, scaling, net, accounts);
    }
  }

  lemma PaymentsNotNegative(counts: Counts, scaling: nat, net: real, users: set<nat>)
    requires users <= counts.Keys && net >= 0.0
    ensures SetSum(users, (u: nat) => PaymentTo(counts, scaling, net, u)) >= 0
  {
    TotalValueBounds(counts, scaling);
    forall u | u in users ensures PaymentTo(counts, scaling, net, u) >= 0 {
      if TotalValue(counts, scaling) > 0 {
        PaymentIsAFloor(UserValue(counts, u, scaling), TotalValue(counts, scaling), net);
      }
    }
    SetSumNonNegative(users, (u: nat) => PaymentTo(counts, scaling, net, u));
  }
}
