/** What every step of the money services keeps, and what follows for whole runs. */
module LedgerSafety {
  import opened Basics
  import opened Sums
  import opened Ledger

  // ---- Sums over the tables ----------------------------------------------

  function Cost(p: Payment): int { p.amount + p.fee }

  /** What a user's payments took, leaving out the payments in `settled`. */
  function Owed(payments: seq<Payment>, settled: set<nat>, u: User): int
  {
    if payments == [] then 0
    else
      var last := |payments| - 1;
      Owed(payments[..last], settled, u)
      + if payments[last].user == u && last !in settled then Cost(payments[last]) else 0
  }

  /** The sum of the amounts of all of a user's payments. */
  function Issued(payments: seq<Payment>, u: User): int
  {
    if payments == [] then 0
    else
      var last := |payments| - 1;
      Issued(payments[..last], u) + if payments[last].user == u then payments[last].amount else 0
  }

  /** What the first n entries of a payout map give to a user. */
  function Given(entries: seq<Entry>, n: nat, u: User): nat
    requires n <= |entries|
  {
    if n == 0 then 0 else Given(entries, n - 1, u) + if entries[n - 1].user == u then entries[n - 1].amount else 0
  }

  function GivenBy(r: CreditRecord, u: User): nat
  {
    if r.applied <= |r.entries| then Given(r.entries, r.applied, u) else 0
  }

  /** All credits a user has received. */
  function Received(credits: seq<CreditRecord>, u: User): nat
  {
    if credits == [] then 0 else Received(credits[..|credits| - 1], u) + GivenBy(credits[|credits| - 1], u)
  }

  lemma OwedAppend(payments: seq<Payment>, p: Payment, settled: set<nat>, u: User)
    ensures Owed(payments + [p], settled, u)
         == Owed(payments, settled, u) + if p.user == u && |payments| !in settled then Cost(p) else 0
    ensures Issued(payments + [p], u) == Issued(payments, u) + if p.user == u then p.amount else 0
  {
    assert (payments + [p])[..|payments|] == payments;
  }

  lemma ReceivedAppend(credits: seq<CreditRecord>, r: CreditRecord, u: User)
    ensures Received(credits + [r], u) == Received(credits, u) + GivenBy(r, u)
  {
    assert (credits + [r])[..|credits|] == credits;
  }

  /** The same payments, whatever their states. */
  predicate SameMoney(a: seq<Payment>, b: seq<Payment>)
  {
    |a| == |b| && forall i | 0 <= i < |a| :: a[i] == b[i].(state := a[i].state)
  }

  lemma {:induction false} SameMoneySums(a: seq<Payment>, b: seq<Payment>, settled: set<nat>, u: User)
    requires SameMoney(a, b)
    ensures Owed(a, settled, u) == Owed(b, settled, u) && Issued(a, u) == Issued(b, u)
    decreases |a|
  {
    if a != [] {
      SameMoneySums(a[..|a| - 1], b[..|b| - 1], settled, u);
    }
  }

  /** Settling one more payment takes its cost off the sum. */
  lemma {:induction false} OwedSettle(payments: seq<Payment>, settled: set<nat>, i: nat, u: User)
    requires i !in settled
    ensures Owed(payments, settled + {i}, u)
         == Owed(payments, settled, u) - if i < |payments| && payments[i].user == u then Cost(payments[i]) else 0
    decreases |payments|
  {
    if payments != [] {
      OwedSettle(payments[..|payments| - 1], settled, i, u);
    }
  }

  /** Settled indices beyond the table do not matter. */
  lemma {:induction false} OwedNobody(payments: seq<Payment>, settled: set<nat>, u: User)
    requires forall p | p in payments :: p.user != u
    ensures Owed(payments, settled, u) == 0 && Issued(payments, u) == 0
    decreases |payments|
  {
    if payments != [] {
      OwedNobody(payments[..|payments| - 1], settled, u);
    }
  }

  /**
   * With positive amounts, settling more never raises the sum, and keeps it only if nothing of the
   * user's was settled.
   */
  lemma {:induction false} OwedMonotone(payments: seq<Payment>, few: set<nat>, many: set<nat>, u: User)
    requires few <= many
    requires forall p | p in payments :: p.amount > 0
    ensures Owed(payments, many, u) <= Owed(payments, few, u)
    ensures Owed(payments, many, u) == Owed(payments, few, u) <==>
              forall i | 0 <= i < |payments| && i in many && i !in few :: payments[i].user != u
    decreases |payments|
  {
    if payments != [] {
      var last := |payments| - 1;
      var rest := payments[..last];
      OwedMonotone(rest, few, many, u);
      assert forall i | 0 <= i < last :: payments[i] == rest[i];
      assert payments[last] in payments;
    }
  }

  // ---- The invariant -----------------------------------------------------

  function SetOf(xs: seq<nat>): set<nat> { set x | x in xs }

  predicate Distinct(xs: seq<nat>) { forall i, j | 0 <= i < j < |xs| :: xs[i] != xs[j] }

  /** Balances are credits received less everything paid out and not given back. */
  predicate BalanceOf(db: Db, refunded: set<nat>, u: User)
  {
    if u in db.utxos then
      && db.utxos[u].amount == Received(db.credits, u) - Owed(db.payments, refunded, u)
      && db.utxos[u].total == Issued(db.payments, u)
    else
      && Received(db.credits, u) == 0
      && forall p | p in db.payments :: p.user != u
  }

  ghost predicate BalanceInv(db: Db, refunded: set<nat>) { forall u: User :: BalanceOf(db, refunded, u) }

  /** Slate ids name payments, and every payment's slate is known to the wallet. */
  predicate SlatesInv(w: World)
  {
    && (forall i, j | 0 <= i < j < |w.db.payments| ::
          w.db.payments[j].slate != w.db.payments[i].slate && w.db.payments[j].slate != w.db.payments[i].address)
    && (forall p | p in w.db.payments ::
          && p.slate in w.wallet
          && p.amount >= MINIMUM_PAYOUT
          && !(HTTP <= p.slate))
  }

  /** A payment that can never again be finalized. */
  predicate Dead(w: World, i: nat)
  {
    i < |w.db.payments| && !CanFinalize(w.wallet, w.db.payments[i].slate)
  }

  /** An expired payment is dead, and every refund was for an expired payment, once. */
  predicate RefundsInv(w: World)
  {
    && Distinct(w.refunds)
    && (forall i | i in w.refunds :: i < |w.db.payments| && w.db.payments[i].state == Expired)
    && (forall i | 0 <= i < |w.db.payments| && w.db.payments[i].state == Expired :: Dead(w, i))
  }

  predicate TidyInv(w: World)
  {
    match w.tidy
    case Idle => true
    case Confirming(todo) =>
      && Distinct(todo)
      && forall i | i in todo :: i < |w.db.payments| && w.db.payments[i].state in {Posted, Confirmed}
    case Cancelling(todo, dirty) =>
      && Distinct(todo)
      && (forall i | i in todo ::
            && i < |w.db.payments|
            && w.db.payments[i].state != Expired
            && IssuedAsSlate(w.db.payments[i])
            && i !in dirty)
      && (forall i | i in dirty :: Dead(w, i) && w.db.payments[i].state != Expired && IssuedAsSlate(w.db.payments[i]))
  }

  /** Only payments issued as slates are ever sent or expired. */
  predicate SentInv(w: World)
  {
    forall p | p in w.db.payments && p.state in {Sent, Expired} :: IssuedAsSlate(p)
  }

  /** No balance is below minus a fee that its user was charged. */
  predicate FloorInv(db: Db)
  {
    forall u | u in db.utxos :: db.utxos[u].amount >= 0 || FeeCovers(db.payments, u, db.utxos[u].amount)
  }

  predicate FeeCovers(payments: seq<Payment>, u: User, amount: int)
  {
    exists p | p in payments :: p.user == u && amount >= -(p.fee as int)
  }

  predicate EvidenceInv(h: nat, b: Block)
  {
    b.state in {Unlocked, Paid} ==>
      && b.evidence.Some?
      && var e := b.evidence.value;
      && e.nodeNonce == b.nonce
      && e.latest - e.expiretime <= h < e.latest - e.locktime
  }

  predicate RecordsPay(db: Db)
  {
    && (forall i, j | 0 <= i < j < |db.credits| :: db.credits[i].block != db.credits[j].block)
    && (forall r | r in db.credits ::
          r.applied <= |r.entries| && r.block in db.blocks && db.blocks[r.block].state == Paid)
  }

  predicate PaidHasRecord(db: Db, h: nat) { exists r | r in db.credits :: r.block == h }

  /** A block is paid exactly when it has a credits record, and then exactly one. */
  predicate BlocksInv(db: Db)
  {
    && RecordsPay(db)
    && (forall h | h in db.blocks && db.blocks[h].state == Paid :: PaidHasRecord(db, h))
    && (forall h | h in db.blocks :: EvidenceInv(h, db.blocks[h]))
  }

  ghost predicate Inv(w: World)
  {
    && BalanceInv(w.db, SetOf(w.refunds))
    && SlatesInv(w)
    && SentInv(w)
    && RefundsInv(w)
    && TidyInv(w)
    && FloorInv(w.db)
    && BlocksInv(w.db)
  }

  // ---- Crediting a block -------------------------------------------------

  function BaseUtxo(db: Db, u: User): Utxo { if u in db.utxos then db.utxos[u] else Utxo(0, 0, 0) }

  /** x is db with the block paid, its record stored, and the first j entries credited. */
  ghost predicate CreditedUpTo(db: Db, height: nat, entries: seq<Entry>, x: Db, j: nat)
    requires height in db.blocks
  {
    && j <= |entries|
    && x.payments == db.payments
    && x.blocks == db.blocks[height := db.blocks[height].(state := Paid)]
    && x.credits == db.credits + [CreditRecord(height, entries, j)]
    && db.utxos.Keys <= x.utxos.Keys
    && (forall i | 0 <= i < j :: entries[i].user in x.utxos)
    && (forall u | u in x.utxos ::
          x.utxos[u] == BaseUtxo(db, u).(amount := BaseUtxo(db, u).amount + Given(entries, j, u)))
  }

  ghost predicate SomePrefix(db: Db, height: nat, entries: seq<Entry>, x: Db)
    requires height in db.blocks
  {
    exists j: nat :: CreditedUpTo(db, height, entries, x, j)
  }

  /** The two outcomes of a payment round: nothing, or a paid block with a prefix credited. */
  ghost predicate PayOutcome(db: Db, height: nat, entries: seq<Entry>, x: Db)
    requires height in db.blocks
  {
    x == db || SomePrefix(db, height, entries, x)
  }

  lemma AddRowKeepsPrefix(db: Db, height: nat, entries: seq<Entry>, x: Db, j: nat, u: User)
    requires height in db.blocks && CreditedUpTo(db, height, entries, x, j)
    requires u !in x.utxos
    ensures CreditedUpTo(db, height, entries, x.(utxos := x.utxos[u := Utxo(0, 0, 0)]), j)
  {
    GivenNobody(entries, j, u);
  }

  lemma {:induction false} GivenNobody(entries: seq<Entry>, n: nat, u: User)
    requires n <= |entries|
    requires forall i | 0 <= i < n :: entries[i].user != u
    ensures Given(entries, n, u) == 0
    decreases n
  {
    if n > 0 { GivenNobody(entries, n - 1, u); }
  }

  lemma AddCreditExtendsPrefix(db: Db, height: nat, entries: seq<Entry>, x: Db, j: nat)
    requires height in db.blocks && CreditedUpTo(db, height, entries, x, j)
    requires j < |entries| && entries[j].user in x.utxos
    ensures CreditedUpTo(db, height, entries, AddCredit(x, entries[j]), j + 1)
  {
    var last := |x.credits| - 1;
    assert x.credits[last := CreditRecord(height, entries, j + 1)] == db.credits + [CreditRecord(height, entries, j + 1)];
  }

  lemma CreditWorkerKeeps(db: Db, height: nat, entries: seq<Entry>, s: Session, j: nat, fault: Fault)
    requires height in db.blocks && j < |entries|
    requires PayOutcome(db, height, entries, s.committed) && CreditedUpTo(db, height, entries, s.pending, j)
    ensures var r := CreditWorker(s, entries[j], fault);
            && PayOutcome(db, height, entries, r.session.committed)
            && (r.Fine? ==> CreditedUpTo(db, height, entries, r.session.pending, j + 1))
  {
    var u := entries[j].user;
    if !fault.LookupFails? {
      if u in s.pending.utxos {
        AddCreditExtendsPrefix(db, height, entries, s.pending, j);
      } else if !fault.CreateFails? {
        AddRowKeepsPrefix(db, height, entries, s.pending, j, u);
        var x := s.pending.(utxos := s.pending.utxos[u := Utxo(0, 0, 0)]);
        assert CreateUtxo(s, u, true) == Session(x, x);
        AddCreditExtendsPrefix(db, height, entries, x, j);
      }
    }
  }

  lemma {:induction false} CreditAllKeeps(db: Db, height: nat, entries: seq<Entry>, s: Session, i: nat, faults: map<nat, Fault>)
    requires height in db.blocks && i <= |entries|
    requires PayOutcome(db, height, entries, s.committed) && CreditedUpTo(db, height, entries, s.pending, i)
    ensures var r := CreditAll(s, entries, i, faults);
            && PayOutcome(db, height, entries, r.session.committed)
            && (r.Fine? ==> CreditedUpTo(db, height, entries, r.session.pending, |entries|))
    decreases |entries| - i
  {
    if i < |entries| {
      CreditWorkerKeeps(db, height, entries, s, i, FaultAt(faults, i));
      var r := CreditWorker(s, entries[i], FaultAt(faults, i));
      if r.Fine? { CreditAllKeeps(db, height, entries, r.session, i + 1, faults); }
    }
  }

  lemma OpenRecordIsEmptyPrefix(db: Db, height: nat, entries: seq<Entry>)
    requires height in db.blocks
    ensures CreditedUpTo(db, height, entries, OpenRecord(db, height, entries), 0)
  {
  }

  /** However a round ends, the block is untouched, or paid with one record and a prefix of it credited. */
  lemma PayBlockOutcome(db: Db, height: nat, entries: seq<Entry>, faults: map<nat, Fault>, commits: bool)
    requires height in db.blocks
    ensures PayOutcome(db, height, entries, PayBlock(db, height, entries, faults, commits))
  {
    OpenRecordIsEmptyPrefix(db, height, entries);
    CreditAllKeeps(db, height, entries, Session(db, OpenRecord(db, height, entries)), 0, faults);
  }

  lemma {:induction false} CreditAllWithoutFaults(s: Session, entries: seq<Entry>, i: nat, faults: map<nat, Fault>)
    requires i <= |entries| && s.pending.credits != []
    requires forall k | k in faults :: faults[k] == NoFault
    ensures CreditAll(s, entries, i, faults).Fine?
    decreases |entries| - i
  {
    if i < |entries| {
      var r := CreditWorker(s, entries[i], FaultAt(faults, i));
      CreditAllWithoutFaults(r.session, entries, i + 1, faults);
    }
  }

  /** A round without failures credits every entry in full. */
  lemma PayBlockComplete(db: Db, height: nat, entries: seq<Entry>, faults: map<nat, Fault>)
    requires height in db.blocks
    requires forall k | k in faults :: faults[k] == NoFault
    ensures CreditedUpTo(db, height, entries, PayBlock(db, height, entries, faults, true), |entries|)
  {
    var s := Session(db, OpenRecord(db, height, entries));
    OpenRecordIsEmptyPrefix(db, height, entries);
    CreditAllKeeps(db, height, entries, s, 0, faults);
    CreditAllWithoutFaults(s, entries, 0, faults);
  }

  lemma {:induction false} CreditAllNoNewRows(db: Db, s: Session, entries: seq<Entry>, i: nat, faults: map<nat, Fault>)
    requires i <= |entries| && s.pending.credits != []
    requires s.committed == db && forall e | e in entries :: e.user in s.pending.utxos
    ensures CreditAll(s, entries, i, faults).session.committed == db
    decreases |entries| - i
  {
    if i < |entries| {
      assert entries[i] in entries;
      var r := CreditWorker(s, entries[i], FaultAt(faults, i));
      if r.Fine? { CreditAllNoNewRows(db, r.session, entries, i + 1, faults); }
    }
  }

  /** When every user already has a balance row, a round that fails leaves no trace. */
  lemma PayBlockAtomic(db: Db, height: nat, entries: seq<Entry>, faults: map<nat, Fault>, commits: bool)
    requires height in db.blocks
    requires forall e | e in entries :: e.user in db.utxos
    ensures PayBlock(db, height, entries, faults, commits) == db
         || CreditedUpTo(db, height, entries, PayBlock(db, height, entries, faults, commits), |entries|)
  {
    var s := Session(db, OpenRecord(db, height, entries));
    OpenRecordIsEmptyPrefix(db, height, entries);
    CreditAllKeeps(db, height, entries, s, 0, faults);
    CreditAllNoNewRows(db, s, entries, 0, faults);
  }

  /** Crediting users who have rows goes on without a commit until the first user who has none. */
  lemma {:induction false} CreditAllUpTo(
      db: Db, height: nat, entries: seq<Entry>, s: Session, i: nat, k: nat, faults: map<nat, Fault>)
    requires height in db.blocks && i <= k < |entries|
    requires CreditedUpTo(db, height, entries, s.pending, i)
    requires forall j | i <= j < k :: entries[j].user in s.pending.utxos
    requires entries[k].user !in s.pending.utxos
    requires faults == map[k := FailsAfterCreate]
    ensures CreditAll(s, entries, i, faults).Failed?
    ensures CreditedUpTo(db, height, entries, CreditAll(s, entries, i, faults).session.committed, k)
    decreases k - i
  {
    if i < k {
      var r := CreditWorker(s, entries[i], NoFault);
      AddCreditExtendsPrefix(db, height, entries, s.pending, i);
      assert r == Fine(s.(pending := AddCredit(s.pending, entries[i])));
      CreditAllUpTo(db, height, entries, r.session, i + 1, k, faults);
      assert CreditAll(s, entries, i, faults) == CreditAll(r.session, entries, i + 1, faults);
    } else {
      DiesAtNewRow(db, height, entries, s, k);
      assert CreditAll(s, entries, i, faults) == CreditWorker(s, entries[k], FailsAfterCreate);
    }
  }

  /** A failure after the row was created leaves what was pending committed. */
  lemma DiesAtNewRow(db: Db, height: nat, entries: seq<Entry>, s: Session, k: nat)
    requires height in db.blocks && k < |entries|
    requires CreditedUpTo(db, height, entries, s.pending, k) && entries[k].user !in s.pending.utxos
    ensures CreditWorker(s, entries[k], FailsAfterCreate).Failed?
    ensures CreditedUpTo(db, height, entries, CreditWorker(s, entries[k], FailsAfterCreate).session.committed, k)
  {
    AddRowKeepsPrefix(db, height, entries, s.pending, k, entries[k].user);
  }

  /** The first entry for a user without a balance row. */
  function FirstWithoutRow(db: Db, entries: seq<Entry>, from: nat): (k: nat)
    requires from <= |entries| && exists j | from <= j < |entries| :: entries[j].user !in db.utxos
    ensures from <= k < |entries| && entries[k].user !in db.utxos
    ensures forall j | from <= j < k :: entries[j].user in db.utxos
    decreases |entries| - from
  {
    if entries[from].user !in db.utxos then from else FirstWithoutRow(db, entries, from + 1)
  }

  /** A user without a row lets the round die with the block paid and only the entries before that user credited. */
  lemma MissingRowAllowsPartialPayment(db: Db, height: nat, entries: seq<Entry>)
    requires height in db.blocks && exists j | 0 <= j < |entries| :: entries[j].user !in db.utxos
    ensures var k := FirstWithoutRow(db, entries, 0);
            CreditedUpTo(db, height, entries, PayBlock(db, height, entries, map[k := FailsAfterCreate], true), k)
  {
    var k := FirstWithoutRow(db, entries, 0);
    OpenRecordIsEmptyPrefix(db, height, entries);
    CreditAllUpTo(db, height, entries, Session(db, OpenRecord(db, height, entries)), 0, k, map[k := FailsAfterCreate]);
  }

  /** A round pays all or nothing, wherever it fails. */
  ghost predicate PaysAllOrNothing(db: Db, height: nat, entries: seq<Entry>)
    requires height in db.blocks
  {
    forall faults, commits :: AllOrNothing(db, height, entries, PayBlock(db, height, entries, faults, commits))
  }

  ghost predicate AllOrNothing(db: Db, height: nat, entries: seq<Entry>, x: Db)
    requires height in db.blocks
  {
    x == db || CreditedUpTo(db, height, entries, x, |entries|)
  }

  /** Payment is atomic exactly when every user of the payout map already has a balance row. */
  lemma PayBlockAtomicIff(db: Db, height: nat, entries: seq<Entry>)
    requires height in db.blocks
    ensures PaysAllOrNothing(db, height, entries) <==> forall e | e in entries :: e.user in db.utxos
  {
    if forall e | e in entries :: e.user in db.utxos {
      forall faults, commits ensures AllOrNothing(db, height, entries, PayBlock(db, height, entries, faults, commits)) {
        PayBlockAtomic(db, height, entries, faults, commits);
      }
    } else {
      var e :| e in entries && e.user !in db.utxos;
      var j :| 0 <= j < |entries| && entries[j] == e;
      var k := FirstWithoutRow(db, entries, 0);
      MissingRowAllowsPartialPayment(db, height, entries);
      var x := PayBlock(db, height, entries, map[k := FailsAfterCreate], true);
      assert x.credits[|db.credits|].applied == k;
      assert !AllOrNothing(db, height, entries, x);
    }
  }

  lemma CreditedKeepsBalances(db: Db, height: nat, entries: seq<Entry>, x: Db, j: nat, refunded: set<nat>)
    requires height in db.blocks && CreditedUpTo(db, height, entries, x, j)
    requires BalanceInv(db, refunded)
    ensures BalanceInv(x, refunded)
  {
    forall u: User ensures BalanceOf(x, refunded, u) {
      assert BalanceOf(db, refunded, u);
      ReceivedAppend(db.credits, CreditRecord(height, entries, j), u);
      if u !in db.utxos {
        OwedNobody(db.payments, refunded, u);
        if u !in x.utxos { GivenNobody(entries, j, u); }
      }
    }
  }

  lemma CreditedKeepsFloor(db: Db, height: nat, entries: seq<Entry>, x: Db, j: nat)
    requires height in db.blocks && CreditedUpTo(db, height, entries, x, j)
    requires FloorInv(db)
    ensures FloorInv(x)
  {
    forall u | u in x.utxos ensures x.utxos[u].amount >= 0 || FeeCovers(x.payments, u, x.utxos[u].amount) {
      if u in db.utxos && x.utxos[u].amount < 0 {
        var p :| p in db.payments && p.user == u && db.utxos[u].amount >= -(p.fee as int);
      }
    }
  }

  lemma CreditedKeepsBlocks(db: Db, height: nat, entries: seq<Entry>, x: Db, j: nat)
    requires height in db.blocks && CreditedUpTo(db, height, entries, x, j)
    requires BlocksInv(db) && db.blocks[height].state == Unlocked
    ensures BlocksInv(x)
  {
    var r := CreditRecord(height, entries, j);
    assert r in x.credits && r.block == height;
    forall h | h in x.blocks && x.blocks[h].state == Paid ensures PaidHasRecord(x, h) {
      if h != height {
        var q :| q in db.credits && q.block == h;
        assert q in x.credits;
      }
    }
  }

  // ---- Issuing payments --------------------------------------------------

  /** A fresh slate joins the wallet; nothing already there changes. */
  predicate WalletGrows(wallet: map<SlateId, Slate>, wallet': map<SlateId, Slate>)
  {
    forall s | s in wallet :: s in wallet' && wallet'[s] == wallet[s]
  }

  lemma RecordPaymentBalances(db: Db, user: User, address: Address, slate: SlateId, fee: nat, state: PaymentState, refunded: set<nat>)
    requires CanPay(db, user) && BalanceInv(db, refunded)
    requires forall i | i in refunded :: i < |db.payments|
    ensures BalanceInv(RecordPayment(db, user, address, slate, fee, state), refunded)
  {
    var x := RecordPayment(db, user, address, slate, fee, state);
    var p := x.payments[|db.payments|];
    assert BalanceOf(db, refunded, user);
    forall u: User ensures BalanceOf(x, refunded, u) {
      assert BalanceOf(db, refunded, u);
      OwedAppend(db.payments, p, refunded, u);
    }
  }

  lemma RecordPaymentFloor(db: Db, user: User, address: Address, slate: SlateId, fee: nat, state: PaymentState)
    requires CanPay(db, user) && FloorInv(db)
    ensures FloorInv(RecordPayment(db, user, address, slate, fee, state))
  {
    var x := RecordPayment(db, user, address, slate, fee, state);
    forall u | u in x.utxos ensures x.utxos[u].amount >= 0 || FeeCovers(x.payments, u, x.utxos[u].amount) {
      if u == user {
        var p := x.payments[|db.payments|];
        assert p in x.payments && p.user == u && x.utxos[u].amount >= -(p.fee as int);
      } else if x.utxos[u].amount < 0 {
        var p :| p in db.payments && p.user == u && db.utxos[u].amount >= -(p.fee as int);
        assert p in x.payments;
      }
    }
  }

  lemma RecordPaymentKeeps(w: World, w': World, user: User, address: Address, slate: SlateId, fee: nat, state: PaymentState)
    requires Inv(w) && CanPay(w.db, user) && FreshSlate(w, slate)
    requires state in {Sent, Posted} && (state == Sent ==> address == slate)
    requires w'.db == RecordPayment(w.db, user, address, slate, fee, state)
    requires slate in w'.wallet && WalletGrows(w.wallet, w'.wallet)
    requires w'.tidy == w.tidy && w'.refunds == w.refunds
    ensures Inv(w')
  {
    RecordPaymentBalances(w.db, user, address, slate, fee, state, SetOf(w.refunds));
    RecordPaymentFloor(w.db, user, address, slate, fee, state);
    RecordPaymentSlates(w, w', user, address, slate, fee, state);
    var n := |w.db.payments|;
    assert forall i | 0 <= i < n :: w'.db.payments[i] == w.db.payments[i];
    assert w'.db.payments[n].state == state;
  }

  lemma RecordPaymentSlates(w: World, w': World, user: User, address: Address, slate: SlateId, fee: nat, state: PaymentState)
    requires SlatesInv(w) && SentInv(w) && CanPay(w.db, user) && FreshSlate(w, slate)
    requires state in {Sent, Posted} && (state == Sent ==> address == slate)
    requires w'.db == RecordPayment(w.db, user, address, slate, fee, state)
    requires slate in w'.wallet && WalletGrows(w.wallet, w'.wallet)
    ensures SlatesInv(w') && SentInv(w')
  {
    var n := |w.db.payments|;
    assert forall i | 0 <= i < n :: w'.db.payments[i] == w.db.payments[i] && w.db.payments[i] in w.db.payments;
  }

  lemma WalletOnlyKeeps(w: World, wallet': map<SlateId, Slate>)
    requires Inv(w) && WalletGrows(w.wallet, wallet')
    ensures Inv(w.(wallet := wallet'))
  {
    var w' := w.(wallet := wallet');
    assert forall i | 0 <= i < |w.db.payments| :: w.db.payments[i] in w.db.payments;
  }

  lemma IssueKeeps(w: World, user: User, slate: SlateId, fee: nat, x: IssueOutcome)
    requires Inv(w) && FreshSlate(w, slate)
    ensures Inv(IssueSlate(w, user, slate, fee, x))
  {
    var w' := IssueSlate(w, user, slate, fee, x);
    if CanPay(w.db, user) && !x.InitFails? {
      if x.RecordFails? {
        WalletOnlyKeeps(w, w'.wallet);
      } else {
        RecordPaymentKeeps(w, w', user, slate, slate, fee, Sent);
      }
    }
  }

  lemma SendKeeps(w: World, user: User, destination: string, slate: SlateId, fee: nat, x: SendOutcome)
    requires Inv(w) && FreshSlate(w, slate)
    ensures Inv(SendAtomically(w, user, destination, slate, fee, x))
  {
    var w' := SendAtomically(w, user, destination, slate, fee, x);
    if CanPay(w.db, user) {
      if x.Delivered? {
        RecordPaymentKeeps(w, w', user, destination, slate, fee, Posted);
      } else {
        WalletOnlyKeeps(w, w'.wallet);
      }
    }
  }

  // ---- Changing the state of a payment -----------------------------------

  lemma SameMoneyBalances(db: Db, db': Db, refunded: set<nat>)
    requires BalanceInv(db, refunded)
    requires SameMoney(db.payments, db'.payments) && db'.credits == db.credits
    requires db'.utxos.Keys == db.utxos.Keys
    requires forall u | u in db.utxos :: db'.utxos[u] == db.utxos[u].(failures := db'.utxos[u].failures)
    ensures BalanceInv(db', refunded)
  {
    forall u: User ensures BalanceOf(db', refunded, u) {
      assert BalanceOf(db, refunded, u);
      SameMoneySums(db.payments, db'.payments, refunded, u);
      assert forall i | 0 <= i < |db.payments| :: db'.payments[i].user == db.payments[i].user && db.payments[i] in db.payments;
    }
  }

  lemma SameMoneyFloor(db: Db, db': Db)
    requires FloorInv(db) && SameMoney(db.payments, db'.payments)
    requires db'.utxos.Keys == db.utxos.Keys
    requires forall u | u in db.utxos :: db'.utxos[u].amount >= db.utxos[u].amount
    ensures FloorInv(db')
  {
    forall u | u in db'.utxos ensures db'.utxos[u].amount >= 0 || FeeCovers(db'.payments, u, db'.utxos[u].amount) {
      if db'.utxos[u].amount < 0 {
        var i :| 0 <= i < |db.payments| && db.payments[i].user == u && db.utxos[u].amount >= -(db.payments[i].fee as int);
        assert db'.payments[i] in db'.payments;
      }
    }
  }

  /** Everything but balances, for steps that only move payments between states. */
  ghost predicate BooksInv(w: World)
  {
    SlatesInv(w) && SentInv(w) && RefundsInv(w) && TidyInv(w) && BlocksInv(w.db)
  }

  lemma ClearFailuresKeeps(w: World, user: User)
    requires Inv(w) && user in w.db.utxos
    ensures Inv(w.(db := ClearFailures(w.db, user)))
  {
    var w' := w.(db := ClearFailures(w.db, user));
    SameMoneyBalances(w.db, w'.db, SetOf(w.refunds));
    SameMoneyFloor(w.db, w'.db);
  }

  lemma SubmitKeeps(w: World, user: User, slate: SlateId, x: SubmitOutcome)
    requires Inv(w) && (!x.FinalizeFails? ==> CanFinalize(w.wallet, slate))
    ensures Inv(SubmitSlate(w, user, slate, x))
  {
    var found := FindPayment(w.db.payments, slate);
    if user in w.db.utxos && found.Some? && x.Finalized? {
      var p := w.db.payments[found.value];
      assert p in w.db.payments;
      SubmitSparesExpired(w, user, slate, x);
      ClearFailuresKeeps(w, user);
      StateOnlyKeeps(w.(db := ClearFailures(w.db, user)), found.value, Posted);
    }
  }

  lemma ConfirmKeeps(w: World, x: ConfirmOutcome)
    requires Inv(w) && w.tidy.Confirming? && w.tidy.todo != []
    ensures Inv(ConfirmNext(w, x))
  {
    var todo := w.tidy.todo;
    var w1 := w.(tidy := Confirming(todo[1..]));
    assert forall i | i in todo[1..] :: i in todo;
    assert todo[0] in todo;
    if x.OnChain? {
      StateOnlyKeeps(w1, todo[0], Confirmed);
    }
  }

  lemma StateOnlySlates(w: World, w': World, i: nat, state: PaymentState)
    requires SlatesInv(w) && SentInv(w) && w'.wallet == w.wallet && w'.db == SetState(w.db, i, state)
    requires i < |w.db.payments| && state in {Posted, Confirmed}
    ensures SlatesInv(w') && SentInv(w')
  {
    forall p | p in w'.db.payments
      ensures p.slate in w'.wallet && p.amount >= MINIMUM_PAYOUT && !(HTTP <= p.slate)
      ensures p.state in {Sent, Expired} ==> IssuedAsSlate(p)
    {
      var k :| 0 <= k < |w'.db.payments| && w'.db.payments[k] == p;
      assert w.db.payments[k] in w.db.payments;
    }
  }

  lemma StateOnlyRefunds(w: World, w': World, i: nat, state: PaymentState)
    requires RefundsInv(w) && w'.wallet == w.wallet && w'.refunds == w.refunds && w'.db == SetState(w.db, i, state)
    requires i < |w.db.payments| && w.db.payments[i].state != Expired && state in {Posted, Confirmed}
    ensures RefundsInv(w')
  {}

  lemma StateOnlyTidy(w: World, w': World, i: nat, state: PaymentState)
    requires TidyInv(w) && w'.wallet == w.wallet && w'.tidy == w.tidy && w'.db == SetState(w.db, i, state)
    requires i < |w.db.payments| && w.db.payments[i].state != Expired && state in {Posted, Confirmed}
    ensures TidyInv(w')
  {}

  lemma StateOnlyBooks(w: World, i: nat, state: PaymentState)
    requires BooksInv(w)
    requires i < |w.db.payments| && w.db.payments[i].state != Expired && state in {Posted, Confirmed}
    ensures BooksInv(w.(db := SetState(w.db, i, state)))
  {
    var w' := w.(db := SetState(w.db, i, state));
    StateOnlySlates(w, w', i, state);
    StateOnlyRefunds(w, w', i, state);
    StateOnlyTidy(w, w', i, state);
  }

  /** Moving a live payment forward, with nothing else. */
  lemma StateOnlyKeeps(w: World, i: nat, state: PaymentState)
    requires Inv(w)
    requires i < |w.db.payments| && w.db.payments[i].state != Expired && state in {Posted, Confirmed}
    ensures Inv(w.(db := SetState(w.db, i, state)))
  {
    var w' := w.(db := SetState(w.db, i, state));
    SameMoneyBalances(w.db, w'.db, SetOf(w.refunds));
    SameMoneyFloor(w.db, w'.db);
    StateOnlyBooks(w, i, state);
  }

  // ---- Cancelling --------------------------------------------------------

  /** The slate of a sent payment leads back to that payment. */
  lemma TargetIsSelf(w: World, i: nat)
    requires SlatesInv(w) && i < |w.db.payments| && IssuedAsSlate(w.db.payments[i])
    ensures CancelTarget(w.db, i) == Some(i)
  {
    var slate := w.db.payments[i].slate;
    assert w.db.payments[i] in w.db.payments;
    var r := FindPayment(w.db.payments, slate);
    if r.Some? { assert w.db.payments[r.value] in w.db.payments; }
  }

  lemma CancelInWalletKills(wallet: map<SlateId, Slate>, slate: SlateId)
    ensures !CanFinalize(CancelInWallet(wallet, slate), slate)
    ensures forall s | !CanFinalize(wallet, s) :: !CanFinalize(CancelInWallet(wallet, slate), s)
    ensures CancelInWallet(wallet, slate).Keys == wallet.Keys
  {
  }

  /** Wallets that still know every slate and finalize no more than before. */
  predicate WalletShrinks(wallet: map<SlateId, Slate>, wallet': map<SlateId, Slate>)
  {
    && wallet.Keys == wallet'.Keys
    && forall s | s in wallet && CanFinalize(wallet', s) :: CanFinalize(wallet, s)
  }

  /** One entry of the list is dealt with, the wallet may have cancelled slates, and marks may be left behind. */
  lemma CancelProgressKeeps(w: World, wallet': map<SlateId, Slate>, dirty': set<nat>)
    requires Inv(w) && w.tidy.Cancelling? && w.tidy.todo != []
    requires WalletShrinks(w.wallet, wallet')
    requires var w' := w.(wallet := wallet', tidy := Cancelling(w.tidy.todo[1..], dirty'));
             forall i | i in dirty' && i !in w.tidy.dirty :: i == w.tidy.todo[0] && Dead(w', i)
    ensures Inv(w.(wallet := wallet', tidy := Cancelling(w.tidy.todo[1..], dirty')))
  {
    var w' := w.(wallet := wallet', tidy := Cancelling(w.tidy.todo[1..], dirty'));
    var todo := w.tidy.todo;
    assert forall i | i in todo[1..] :: i in todo && i != todo[0];
    assert forall i | 0 <= i < |w.db.payments| :: w.db.payments[i] in w.db.payments;
  }

  lemma RefundBalances(db: Db, marked: set<nat>, i: nat, refunded: set<nat>)
    requires BalanceInv(db, refunded) && i !in refunded
    requires i < |db.payments| && db.payments[i].user in db.utxos
    ensures BalanceInv(Refund(MarkAll(db, marked), i), refunded + {i})
  {
    var x := Refund(MarkAll(db, marked), i);
    assert SameMoney(db.payments, x.payments);
    forall u: User ensures BalanceOf(x, refunded + {i}, u) {
      assert BalanceOf(db, refunded, u);
      SameMoneySums(db.payments, x.payments, refunded + {i}, u);
      OwedSettle(db.payments, refunded, i, u);
      assert forall k | 0 <= k < |db.payments| :: x.payments[k].user == db.payments[k].user && db.payments[k] in db.payments;
    }
  }

  /** A completed cancellation: marks are committed, the head of the list is refunded. */
  lemma RefundKeeps(w: World, wallet': map<SlateId, Slate>)
    requires Inv(w) && w.tidy.Cancelling? && w.tidy.todo != []
    requires WalletShrinks(w.wallet, wallet')
    requires Dead(w.(wallet := wallet'), w.tidy.todo[0])
    requires w.db.payments[w.tidy.todo[0]].user in w.db.utxos
    ensures var i := w.tidy.todo[0];
            Inv(World(Refund(MarkAll(w.db, w.tidy.dirty + {i}), i), wallet', Cancelling(w.tidy.todo[1..], {}), w.refunds + [i]))
  {
    var i, todo := w.tidy.todo[0], w.tidy.todo;
    var w' := World(Refund(MarkAll(w.db, w.tidy.dirty + {i}), i), wallet', Cancelling(todo[1..], {}), w.refunds + [i]);
    assert i !in w.refunds;
    RefundBalances(w.db, w.tidy.dirty + {i}, i, SetOf(w.refunds));
    assert SetOf(w'.refunds) == SetOf(w.refunds) + {i};
    SameMoneyFloor(w.db, w'.db);
    RefundBooks(w, w');
  }

  /** The books after a refund, one table at a time. */
  lemma RefundBooks(w: World, w': World)
    requires BooksInv(w) && w.tidy.Cancelling? && w.tidy.todo != []
    requires WalletShrinks(w.wallet, w'.wallet)
    requires Dead(w.(wallet := w'.wallet), w.tidy.todo[0])
    requires w.tidy.todo[0] !in w.refunds
    requires w'.refunds == w.refunds + [w.tidy.todo[0]]
    requires w'.tidy == Cancelling(w.tidy.todo[1..], {})
    requires w'.db.payments == MarkAll(w.db, w.tidy.dirty + {w.tidy.todo[0]}).payments
    requires w'.db.blocks == w.db.blocks && w'.db.credits == w.db.credits
    ensures BooksInv(w')
  {
    RefundSlates(w, w', w.tidy.dirty + {w.tidy.todo[0]});
    assert RefundsInv(w') by { RefundDead(w, w'); }
    assert TidyInv(w') by {
      var todo := w.tidy.todo;
      assert forall k | k in todo[1..] :: k in todo && k != todo[0];
    }
  }

  lemma RefundSlates(w: World, w': World, marked: set<nat>)
    requires SlatesInv(w) && SentInv(w) && WalletShrinks(w.wallet, w'.wallet)
    requires forall k | k in marked :: k < |w.db.payments| && IssuedAsSlate(w.db.payments[k])
    requires w'.db.payments == MarkAll(w.db, marked).payments
    ensures SlatesInv(w') && SentInv(w')
  {
    assert forall k | 0 <= k < |w.db.payments| :: w.db.payments[k] in w.db.payments;
  }

  lemma RefundDead(w: World, w': World)
    requires RefundsInv(w) && TidyInv(w) && w.tidy.Cancelling? && w.tidy.todo != []
    requires WalletShrinks(w.wallet, w'.wallet)
    requires forall p | p in w.db.payments :: p.slate in w.wallet
    requires Dead(w.(wallet := w'.wallet), w.tidy.todo[0])
    requires w.tidy.todo[0] !in w.refunds
    requires w'.refunds == w.refunds + [w.tidy.todo[0]]
    requires w'.db.payments == MarkAll(w.db, w.tidy.dirty + {w.tidy.todo[0]}).payments
    ensures RefundsInv(w')
  {
    forall k | 0 <= k < |w'.db.payments| && w'.db.payments[k].state == Expired ensures Dead(w', k) {
      assert w.db.payments[k] in w.db.payments;
      if k != w.tidy.todo[0] && k !in w.tidy.dirty { assert w.db.payments[k].state == Expired; }
    }
  }

  /** What is known of the payment at the head of the list. */
  lemma HeadOfList(w: World)
    requires Inv(w) && w.tidy.Cancelling? && w.tidy.todo != []
    ensures var i := w.tidy.todo[0];
            && i < |w.db.payments| && CancelTarget(w.db, i) == Some(i)
            && w.db.payments[i].slate in w.wallet && w.db.payments[i].user in w.db.utxos
            && WalletShrinks(w.wallet, CancelInWallet(w.wallet, w.db.payments[i].slate))
  {
    var i := w.tidy.todo[0];
    assert i in w.tidy.todo;
    TargetIsSelf(w, i);
    var p := w.db.payments[i];
    assert p in w.db.payments && BalanceOf(w.db, SetOf(w.refunds), p.user);
    CancelInWalletKills(w.wallet, p.slate);
  }

  /** The wallet after the head's slate was cancelled, unless it already was or is unknown. */
  function WalletAfter(w: World, says: WalletSays): map<SlateId, Slate>
    requires w.tidy.Cancelling? && w.tidy.todo != [] && w.tidy.todo[0] < |w.db.payments|
  {
    if says.Live? then CancelInWallet(w.wallet, w.db.payments[w.tidy.todo[0]].slate) else w.wallet
  }

  /** Once the wallet has answered, the head can never be finalized again. */
  lemma HeadIsDead(w: World, says: WalletSays)
    requires Inv(w) && w.tidy.Cancelling? && w.tidy.todo != [] && w.tidy.todo[0] < |w.db.payments|
    requires MaySay(w.wallet, w.db.payments[w.tidy.todo[0]].slate, says)
    ensures WalletShrinks(w.wallet, WalletAfter(w, says))
    ensures Dead(w.(wallet := WalletAfter(w, says)), w.tidy.todo[0])
  {
    CancelInWalletKills(w.wallet, w.db.payments[w.tidy.todo[0]].slate);
  }

  lemma CancelNotBegunKeeps(w: World, says: WalletSays, x: CancelOutcome)
    requires Inv(w) && w.tidy.Cancelling? && w.tidy.todo != [] && (x.TooYoung? || x.FailsBeforeMark?)
    ensures Inv(CancelNext(w, says, x))
  {
    HeadOfList(w);
    var cancelled := CancelInWallet(w.wallet, w.db.payments[w.tidy.todo[0]].slate);
    CancelProgressKeeps(w, if x.FailsBeforeMark? && says.Live? && x.cancelled then cancelled else w.wallet, w.tidy.dirty);
  }

  lemma CancelHalfDoneKeeps(w: World, says: WalletSays, x: CancelOutcome)
    requires Inv(w) && w.tidy.Cancelling? && w.tidy.todo != [] && (x.FailsAfterMark? || x.CancelCommitFails?)
    requires Possible(w, TidyCancels(says, x))
    ensures Inv(CancelNext(w, says, x))
  {
    HeadOfList(w);
    HeadIsDead(w, says);
    CancelProgressKeeps(w, WalletAfter(w, says), if x.FailsAfterMark? then w.tidy.dirty + {w.tidy.todo[0]} else {});
  }

  lemma CancelDoneKeeps(w: World, says: WalletSays)
    requires Inv(w) && w.tidy.Cancelling? && w.tidy.todo != []
    requires Possible(w, TidyCancels(says, Cancelled))
    ensures Inv(CancelNext(w, says, Cancelled))
  {
    HeadOfList(w);
    HeadIsDead(w, says);
    RefundKeeps(w, WalletAfter(w, says));
  }

  lemma CancelKeeps(w: World, says: WalletSays, x: CancelOutcome)
    requires Inv(w) && w.tidy.Cancelling? && w.tidy.todo != []
    requires Possible(w, TidyCancels(says, x))
    ensures Inv(CancelNext(w, says, x))
  {
    if x.TooYoung? || x.FailsBeforeMark? {
      CancelNotBegunKeeps(w, says, x);
    } else if x.Cancelled? {
      CancelDoneKeeps(w, says);
    } else {
      CancelHalfDoneKeeps(w, says, x);
    }
  }

  // ---- Runs --------------------------------------------------------------

  lemma FindBlockKeeps(w: World, height: nat, nonce: nat)
    requires Inv(w)
    ensures Inv(w.(db := FindBlock(w.db, height, nonce)))
  {
    var w' := w.(db := FindBlock(w.db, height, nonce));
    assert BalanceInv(w'.db, SetOf(w.refunds)) by {
      forall u: User ensures BalanceOf(w'.db, SetOf(w.refunds), u) { assert BalanceOf(w.db, SetOf(w.refunds), u); }
    }
    forall h | h in w'.db.blocks && w'.db.blocks[h].state == Paid ensures PaidHasRecord(w'.db, h) {
      assert PaidHasRecord(w.db, h);
    }
  }

  lemma UnlockKeeps(w: World, latest: int, locktime: int, expiretime: int, node: map<nat, nat>)
    requires Inv(w)
    ensures Inv(w.(db := UnlockBlocks(w.db, latest, locktime, expiretime, node)))
  {
    var w' := w.(db := UnlockBlocks(w.db, latest, locktime, expiretime, node));
    assert BalanceInv(w'.db, SetOf(w.refunds)) by {
      forall u: User ensures BalanceOf(w'.db, SetOf(w.refunds), u) { assert BalanceOf(w.db, SetOf(w.refunds), u); }
    }
    forall h | h in w'.db.blocks && w'.db.blocks[h].state == Paid ensures PaidHasRecord(w'.db, h) {
      assert PaidHasRecord(w.db, h);
    }
  }

  lemma PayKeeps(w: World, height: nat, entries: seq<Entry>, faults: map<nat, Fault>, commits: bool)
    requires Inv(w) && Possible(w, PaysBlock(height, entries, faults, commits))
    ensures Inv(w.(db := PayBlock(w.db, height, entries, faults, commits)))
  {
    var x := PayBlock(w.db, height, entries, faults, commits);
    PayBlockOutcome(w.db, height, entries, faults, commits);
    if x != w.db {
      var j: nat :| CreditedUpTo(w.db, height, entries, x, j);
      CreditedKeepsBalances(w.db, height, entries, x, j, SetOf(w.refunds));
      CreditedKeepsFloor(w.db, height, entries, x, j);
      CreditedKeepsBlocks(w.db, height, entries, x, j);
    }
  }

  lemma TidyListKeeps(w: World, e: Event)
    requires Inv(w) && Possible(w, e) && (e.TidyStarts? || e.TidyListsSent? || e.TidyEnds?)
    ensures Inv(Step(w, e))
  {
    var w' := Step(w, e);
    assert forall i | 0 <= i < |w.db.payments| :: w.db.payments[i] in w.db.payments;
    assert TidyInv(w');
  }

  /** Every possible step keeps the invariant. */
  lemma StepKeeps(w: World, e: Event)
    requires Inv(w) && Possible(w, e)
    ensures Inv(Step(w, e))
  {
    match e
    case BlockFound(height, nonce) => FindBlockKeeps(w, height, nonce);
    case UnlocksBlocks(latest, locktime, expiretime, node, commits) =>
      if commits { UnlockKeeps(w, latest, locktime, expiretime, node); }
    case PaysBlock(height, entries, faults, commits) => PayKeeps(w, height, entries, faults, commits);
    case IssuesSlate(user, slate, fee, x) => IssueKeeps(w, user, slate, fee, x);
    case SendsAtomically(user, destination, slate, fee, x) => SendKeeps(w, user, destination, slate, fee, x);
    case SubmitsSlate(user, slate, x) => SubmitKeeps(w, user, slate, x);
    case TidyStarts(posted) => TidyListKeeps(w, e);
    case TidyConfirms(x) => if w.tidy.Confirming? && w.tidy.todo != [] { ConfirmKeeps(w, x); }
    case TidyListsSent(sent) => TidyListKeeps(w, e);
    case TidyCancels(says, x) => if w.tidy.Cancelling? && w.tidy.todo != [] { CancelKeeps(w, says, x); }
    case TidyEnds => TidyListKeeps(w, e);
  }

  lemma StartInv()
    ensures Inv(START)
  {
    forall u: User ensures BalanceOf(START.db, SetOf(START.refunds), u) { }
  }

  lemma {:induction false} RunKeeps(states: seq<World>, events: seq<Event>, n: nat)
    requires IsRun(states, events) && n < |states|
    ensures Inv(states[n])
    decreases n
  {
    if n == 0 {
      StartInv();
    } else {
      RunKeeps(states, events, n - 1);
      StepKeeps(states[n - 1], events[n - 1]);
    }
  }

  // ---- Balances over runs ------------------------------------------------

  function ExpiredSet(db: Db): set<nat> { set i | 0 <= i < |db.payments| && db.payments[i].state == Expired }

  /** Payments marked expired without having been refunded. */
  function Lost(w: World): set<nat> { ExpiredSet(w.db) - SetOf(w.refunds) }

  /** In every reachable state a balance is what was credited less what was paid out and never refunded. */
  lemma BalancesAddUp(states: seq<World>, events: seq<Event>, n: nat, u: User)
    requires IsRun(states, events) && n < |states| && u in states[n].db.utxos
    ensures var w := states[n];
            && w.db.utxos[u].amount == Received(w.db.credits, u) - Owed(w.db.payments, SetOf(w.refunds), u)
            && w.db.utxos[u].total == Issued(w.db.payments, u)
  {
    RunKeeps(states, events, n);
    assert BalanceOf(states[n].db, SetOf(states[n].refunds), u);
  }

  /** A completed cancellation whose commit also carries marks of cancellations that failed half-way. */
  predicate CommitsStrayMarks(w: World, e: Event)
  {
    e.TidyCancels? && e.cancel.Cancelled? && w.tidy.Cancelling? && w.tidy.todo != [] && w.tidy.dirty != {}
  }

  lemma LostGrowsBy(w: World, e: Event)
    requires Inv(w) && Possible(w, e)
    ensures Lost(Step(w, e)) == Lost(w) + if CommitsStrayMarks(w, e) then w.tidy.dirty else {}
    ensures ExpiredSet(w.db) <= ExpiredSet(Step(w, e).db)
  {
    if e.TidyCancels? {
      LostGrowsByCancel(w, e.says, e.cancel);
    } else {
      OnlyCancelsExpire(w, e);
    }
  }

  /** No other step expires or refunds a payment. */
  lemma OnlyCancelsExpire(w: World, e: Event)
    requires Inv(w) && Possible(w, e) && !e.TidyCancels?
    ensures ExpiredSet(Step(w, e).db) == ExpiredSet(w.db) && Step(w, e).refunds == w.refunds
  {
    match e
    case SubmitsSlate(user, slate, x) => SubmitSparesExpired(w, user, slate, x);
    case PaysBlock(height, entries, faults, commits) => PayBlockOutcome(w.db, height, entries, faults, commits);
    case TidyConfirms(x) =>
      if w.tidy.Confirming? && w.tidy.todo != [] {
        assert w.tidy.todo[0] in w.tidy.todo;
      }
    case _ =>
  }

  lemma LostGrowsByCancel(w: World, says: WalletSays, x: CancelOutcome)
    requires Inv(w)
    ensures var e := TidyCancels(says, x);
            && Lost(Step(w, e)) == Lost(w) + (if CommitsStrayMarks(w, e) then w.tidy.dirty else {})
            && ExpiredSet(w.db) <= ExpiredSet(Step(w, e).db)
  {
    var w' := Step(w, TidyCancels(says, x));
    if w.tidy.Cancelling? && w.tidy.todo != [] && x.Cancelled? {
      assert w' == CancelNext(w, says, Cancelled);
      DoneCancelLoses(w, says);
    } else {
      OnlyDoneCancelsCommit(w, says, x);
      SameTablesLoseNothing(w, w');
    }
  }

  lemma SameTablesLoseNothing(w: World, w': World)
    requires w'.db == w.db && w'.refunds == w.refunds
    ensures ExpiredSet(w'.db) == ExpiredSet(w.db) && Lost(w') == Lost(w) == Lost(w) + {}
  {}

  lemma SubmitSparesExpired(w: World, user: User, slate: SlateId, x: SubmitOutcome)
    requires Inv(w) && (!x.FinalizeFails? ==> CanFinalize(w.wallet, slate))
    ensures ExpiredSet(SubmitSlate(w, user, slate, x).db) == ExpiredSet(w.db)
  {
    var found := FindPayment(w.db.payments, slate);
    if user in w.db.utxos && found.Some? && x.Finalized? {
      assert w.db.payments[found.value] in w.db.payments;
    }
  }

  /** A cancellation that does not complete commits nothing. */
  lemma OnlyDoneCancelsCommit(w: World, says: WalletSays, x: CancelOutcome)
    requires w.tidy.Cancelling? && w.tidy.todo != [] ==> !x.Cancelled?
    ensures var w' := Step(w, TidyCancels(says, x)); w'.db == w.db && w'.refunds == w.refunds
  {
  }

  /** One that completes expires the marked payments and its own, and refunds its own. */
  lemma DoneCancelLoses(w: World, says: WalletSays)
    requires Inv(w) && w.tidy.Cancelling? && w.tidy.todo != []
    ensures var w' := CancelNext(w, says, Cancelled);
            ExpiredSet(w.db) <= ExpiredSet(w'.db) && Lost(w') == Lost(w) + w.tidy.dirty
  {
    HeadOfList(w);
    var i := w.tidy.todo[0];
    var w' := CancelNext(w, says, Cancelled);
    assert i in w.tidy.todo;
    MarkedExpire(w, w', i);
  }

  lemma MarkedExpire(w: World, w': World, i: nat)
    requires RefundsInv(w) && TidyInv(w) && w.tidy.Cancelling? && i in w.tidy.todo
    requires w'.db.payments == MarkAll(w.db, w.tidy.dirty + {i}).payments && w'.refunds == w.refunds + [i]
    ensures ExpiredSet(w.db) <= ExpiredSet(w'.db) && Lost(w') == Lost(w) + w.tidy.dirty
  {
    assert ExpiredSet(w'.db) == ExpiredSet(w.db) + w.tidy.dirty + {i};
    assert SetOf(w'.refunds) == SetOf(w.refunds) + {i};
    assert i !in w.tidy.dirty && i !in ExpiredSet(w.db);
    assert forall k | k in w.tidy.dirty :: k !in SetOf(w.refunds);
  }

  lemma {:induction false} LostOverRun(states: seq<World>, events: seq<Event>, n: nat)
    requires IsRun(states, events) && n < |states|
    ensures Lost(states[n]) == {} <==> forall m | 0 <= m < n :: !CommitsStrayMarks(states[m], events[m])
    decreases n
  {
    if n > 0 {
      LostOverRun(states, events, n - 1);
      RunKeeps(states, events, n - 1);
      var w, e := states[n - 1], events[n - 1];
      LostGrowsBy(w, e);
    }
  }

  /** The balance identity of the ledger, in terms of the payments that are not expired. */
  predicate AddsUpWithoutExpired(db: Db, u: User)
    requires u in db.utxos
  {
    db.utxos[u].amount == Received(db.credits, u) - Owed(db.payments, ExpiredSet(db), u)
  }

  lemma LostMoney(w: World, u: User)
    requires Inv(w) && u in w.db.utxos
    ensures w.db.utxos[u].amount <= Received(w.db.credits, u) - Owed(w.db.payments, ExpiredSet(w.db), u)
    ensures AddsUpWithoutExpired(w.db, u) <==> forall i | i in Lost(w) :: w.db.payments[i].user != u
  {
    assert BalanceOf(w.db, SetOf(w.refunds), u);
    OwedMonotone(w.db.payments, SetOf(w.refunds), ExpiredSet(w.db), u);
  }

  /**
   * "Credits received minus all payments that are not expired" is every user's balance in exactly those
   * runs in which no completed cancellation commits marks that an earlier, half-failed one had left in
   * the session. In the other runs somebody's balance is too low.
   */
  lemma NonExpiredIdentity(states: seq<World>, events: seq<Event>, n: nat)
    requires IsRun(states, events) && n < |states|
    ensures (forall u | u in states[n].db.utxos :: AddsUpWithoutExpired(states[n].db, u))
       <==> (forall m | 0 <= m < n :: !CommitsStrayMarks(states[m], events[m]))
  {
    var w := states[n];
    RunKeeps(states, events, n);
    LostOverRun(states, events, n);
    forall u | u in w.db.utxos
      ensures AddsUpWithoutExpired(w.db, u) <==> forall i | i in Lost(w) :: w.db.payments[i].user != u
    {
      LostMoney(w, u);
    }
    forall i | i in Lost(w) ensures w.db.payments[i].user in w.db.utxos {
      assert w.db.payments[i] in w.db.payments;
      assert BalanceOf(w.db, SetOf(w.refunds), w.db.payments[i].user);
    }
    if Lost(w) != {} {
      var i :| i in Lost(w);
      assert !AddsUpWithoutExpired(w.db, w.db.payments[i].user);
    }
  }

  // ---- Refunds over runs -------------------------------------------------

  /** Expired is for ever: an expired payment is never posted or confirmed again. */
  lemma ExpiredForEver(states: seq<World>, events: seq<Event>, n: nat, m: nat, i: nat)
    requires IsRun(states, events) && n <= m < |states| && i in ExpiredSet(states[n].db)
    ensures i in ExpiredSet(states[m].db)
  {
    forall k | 0 <= k < m ensures ExpiredSet(states[k].db) <= ExpiredSet(states[k + 1].db) {
      RunKeepsExpired(states, events, k);
    }
    ExpiredGrows(states, n, m, i);
  }

  lemma {:induction false} ExpiredGrows(states: seq<World>, n: nat, m: nat, i: nat)
    requires n <= m < |states| && i in ExpiredSet(states[n].db)
    requires forall k | 0 <= k < m :: ExpiredSet(states[k].db) <= ExpiredSet(states[k + 1].db)
    ensures i in ExpiredSet(states[m].db)
    decreases m
  {
    if n < m {
      ExpiredGrows(states, n, m - 1, i);
      assert ExpiredSet(states[m - 1].db) <= ExpiredSet(states[m].db);
    }
  }

  lemma RunKeepsExpired(states: seq<World>, events: seq<Event>, m: nat)
    requires IsRun(states, events) && m < |events|
    ensures ExpiredSet(states[m].db) <= ExpiredSet(states[m + 1].db)
  {
    RunKeeps(states, events, m);
    StepKeepsExpired(states[m], events[m]);
  }

  lemma StepKeepsExpired(w: World, e: Event)
    requires Inv(w) && Possible(w, e)
    ensures ExpiredSet(w.db) <= ExpiredSet(Step(w, e).db)
  {
    LostGrowsBy(w, e);
  }

  /** A payment is refunded at most once, and once refunded it stays expired. */
  lemma RefundedOnce(states: seq<World>, events: seq<Event>, n: nat, m: nat, i: nat)
    requires IsRun(states, events) && n <= m < |states| && i in states[n].refunds
    ensures Distinct(states[m].refunds)
    ensures i < |states[m].db.payments| && states[m].db.payments[i].state == Expired
  {
    RunKeeps(states, events, n);
    RunKeeps(states, events, m);
    assert i in ExpiredSet(states[n].db);
    ExpiredForEver(states, events, n, m, i);
    assert i in ExpiredSet(states[m].db);
  }

  // ---- Which posted payments can still be refunded -----------------------

  /** Not waiting for its slate to come back, and not on the cancellation list. */
  predicate OffTheList(w: World, i: nat)
  {
    && i < |w.db.payments|
    && w.db.payments[i].state != Sent
    && i !in w.refunds
    && (w.tidy.Cancelling? ==> i !in w.tidy.todo)
  }

  lemma OffTheListStep(w: World, e: Event, i: nat)
    requires Inv(w) && Possible(w, e) && OffTheList(w, i)
    ensures OffTheList(Step(w, e), i)
  {
    match e
    case PaysBlock(height, entries, faults, commits) => PayBlockOutcome(w.db, height, entries, faults, commits);
    case TidyCancels(says, x) => OffTheListOfCancel(w, says, x, i);
    case _ =>
  }

  /** A cancellation expires at most the head of the list and what is marked, and refunds at most the head. */
  lemma CancelShape(w: World, says: WalletSays, x: CancelOutcome)
    requires Inv(w) && w.tidy.Cancelling? && w.tidy.todo != []
    ensures var w', i := CancelNext(w, says, x), w.tidy.todo[0];
            && |w'.db.payments| == |w.db.payments|
            && (forall k | 0 <= k < |w.db.payments| && k !in w.tidy.dirty && k != i :: w'.db.payments[k] == w.db.payments[k])
            && (forall k | 0 <= k < |w.db.payments| :: w'.db.payments[k].state in {w.db.payments[k].state, Expired})
            && w'.refunds in {w.refunds, w.refunds + [i]}
            && w'.tidy.Cancelling? && w'.tidy.todo == w.tidy.todo[1..] && w'.tidy.dirty <= w.tidy.dirty + {i}
  {
    HeadOfList(w);
    if x.Cancelled? {
      DoneCancelShape(w, says);
    } else {
      OnlyDoneCancelsCommit(w, says, x);
    }
  }

  lemma DoneCancelShape(w: World, says: WalletSays)
    requires w.tidy.Cancelling? && w.tidy.todo != [] && w.tidy.todo[0] < |w.db.payments|
    requires CancelTarget(w.db, w.tidy.todo[0]) == Some(w.tidy.todo[0]) && w.db.payments[w.tidy.todo[0]].user in w.db.utxos
    ensures var w', i := CancelNext(w, says, Cancelled), w.tidy.todo[0];
            && w'.db.payments == MarkAll(w.db, w.tidy.dirty + {i}).payments
            && w'.refunds == w.refunds + [i] && w'.tidy == Cancelling(w.tidy.todo[1..], {})
  {
  }

  lemma OffTheListOfCancel(w: World, says: WalletSays, x: CancelOutcome, i: nat)
    requires Inv(w) && OffTheList(w, i)
    ensures OffTheList(Step(w, TidyCancels(says, x)), i)
  {
    var w' := Step(w, TidyCancels(says, x));
    if w.tidy.Cancelling? && w.tidy.todo != [] {
      CancelShape(w, says, x);
      assert w.tidy.todo[0] in w.tidy.todo;
      assert w'.db.payments[i].state in {w.db.payments[i].state, Expired};
    } else {
      assert w' == w;
    }
  }

  lemma {:induction false} OffTheListStays(w: World, events: seq<Event>, i: nat)
    requires Inv(w) && CanHappen(w, events) && OffTheList(w, i)
    ensures OffTheList(After(w, events), i)
    decreases |events|
  {
    if events != [] {
      OffTheListStep(w, events[0], i);
      StepKeeps(w, events[0]);
      OffTheListStays(Step(w, events[0]), events[1..], i);
    }
  }

  /** A posted payment that is neither listed nor marked. */
  predicate OutOfReach(w: World, i: nat)
  {
    && OffTheList(w, i)
    && w.db.payments[i].state in {Posted, Confirmed}
    && (w.tidy.Cancelling? ==> i !in w.tidy.dirty)
  }

  lemma OutOfReachStep(w: World, e: Event, i: nat)
    requires Inv(w) && Possible(w, e) && OutOfReach(w, i)
    ensures OutOfReach(Step(w, e), i)
  {
    OffTheListStep(w, e, i);
    if e.TidyCancels? {
      CancelSparesOthers(w, e.says, e.cancel, i);
    } else {
      OnlyCancelsExpire(w, e);
      assert i !in ExpiredSet(w.db);
    }
  }

  /** A cancellation neither marks nor moves a payment that is off the list and unmarked. */
  lemma CancelSparesOthers(w: World, says: WalletSays, x: CancelOutcome, i: nat)
    requires Inv(w) && OutOfReach(w, i)
    ensures var w' := Step(w, TidyCancels(says, x));
            i < |w'.db.payments| && w'.db.payments[i].state == w.db.payments[i].state && (w'.tidy.Cancelling? ==> i !in w'.tidy.dirty)
  {
    var w' := Step(w, TidyCancels(says, x));
    if w.tidy.Cancelling? && w.tidy.todo != [] {
      CancelShape(w, says, x);
      assert w.tidy.todo[0] in w.tidy.todo;
      assert w'.db.payments[i] == w.db.payments[i];
    } else {
      assert w' == w;
    }
  }

  /** A payment that is posted while it is not on the cancellation list and unmarked is never refunded, and never expires. */
  lemma {:induction false} PostedIsNotRefunded(states: seq<World>, events: seq<Event>, n: nat, m: nat, i: nat)
    requires IsRun(states, events) && n <= m < |states| && OutOfReach(states[n], i)
    ensures OutOfReach(states[m], i)
    decreases m
  {
    if n < m {
      PostedIsNotRefunded(states, events, n, m - 1, i);
      RunKeeps(states, events, m - 1);
      OutOfReachStep(states[m - 1], events[m - 1], i);
    }
  }

  /** How the tidy process gets from the head of its list to payment i and cancels it. */
  lemma {:induction false} ListedCanBeRefunded(w: World, i: nat) returns (events: seq<Event>)
    requires Inv(w) && w.tidy.Cancelling? && i in w.tidy.todo
    ensures CanHappen(w, events) && i in After(w, events).refunds
    decreases if w.tidy.Cancelling? then |w.tidy.todo| else 0
  {
    var head := w.tidy.todo[0];
    assert head in w.tidy.todo;
    TargetIsSelf(w, head);
    if head == i {
      var p := w.db.payments[i];
      assert p in w.db.payments && BalanceOf(w.db, SetOf(w.refunds), p.user);
      events := [TidyCancels(Live, Cancelled)];
      assert events[1..] == [];
      assert i in Step(w, events[0]).refunds;
      assert CanHappen(Step(w, events[0]), events[1..]);
    } else {
      var e := TidyCancels(Live, TooYoung);
      StepKeeps(w, e);
      var rest := ListedCanBeRefunded(Step(w, e), i);
      events := [e] + rest;
      assert events[1..] == rest;
    }
  }

  ghost predicate CanBeRefunded(w: World, i: nat)
  {
    exists events :: CanHappen(w, events) && i in After(w, events).refunds
  }

  /** A payment that has been posted can still be refunded exactly while it is on the cancellation list. */
  lemma PostedCanBeRefundedIff(w: World, i: nat)
    requires Inv(w) && i < |w.db.payments| && w.db.payments[i].state in {Posted, Confirmed}
    ensures CanBeRefunded(w, i) <==> w.tidy.Cancelling? && i in w.tidy.todo
  {
    if w.tidy.Cancelling? && i in w.tidy.todo {
      var events := ListedCanBeRefunded(w, i);
    } else if CanBeRefunded(w, i) {
      var events :| CanHappen(w, events) && i in After(w, events).refunds;
      OffTheListStays(w, events, i);
      assert false;
    }
  }

  /** No balance ever falls below minus the largest fee charged to its user. */
  lemma BalanceFloor(states: seq<World>, events: seq<Event>, n: nat, u: User)
    requires IsRun(states, events) && n < |states| && u in states[n].db.utxos
    ensures states[n].db.utxos[u].amount >= 0 || FeeCovers(states[n].db.payments, u, states[n].db.utxos[u].amount)
  {
    RunKeeps(states, events, n);
  }

  // ---- Blocks over runs --------------------------------------------------

  /** How many credits records a block has. */
  function RecordCount(credits: seq<CreditRecord>, h: nat): nat
  {
    if credits == [] then 0
    else RecordCount(credits[..|credits| - 1], h) + if credits[|credits| - 1].block == h then 1 else 0
  }

  lemma {:induction false} RecordCountIs(credits: seq<CreditRecord>, h: nat)
    requires forall i, j | 0 <= i < j < |credits| :: credits[i].block != credits[j].block
    ensures RecordCount(credits, h) == if exists r | r in credits :: r.block == h then 1 else 0
    decreases |credits|
  {
    if credits != [] {
      var last := |credits| - 1;
      RecordCountIs(credits[..last], h);
      if credits[last].block == h {
        assert credits[last] in credits;
        assert forall i | 0 <= i < last :: credits[..last][i].block != h;
      } else {
        assert forall r | r in credits && r.block == h :: r in credits[..last];
        assert forall r | r in credits[..last] :: r in credits;
      }
    }
  }

  /**
   * A block has exactly one credits record if and only if it is paid (and none otherwise); nobody was
   * credited more from it than that record says; and when it was unlocked its nonce matched the node's
   * and its depth was inside the lock and expiry window.
   */
  lemma BlocksArePaidOnce(states: seq<World>, events: seq<Event>, n: nat, h: nat)
    requires IsRun(states, events) && n < |states|
    ensures var db := states[n].db;
            && RecordCount(db.credits, h) == (if h in db.blocks && db.blocks[h].state == Paid then 1 else 0)
            && (h in db.blocks ==> EvidenceInv(h, db.blocks[h]))
    ensures forall r, u: User | r in states[n].db.credits :: GivenBy(r, u) <= Given(r.entries, |r.entries|, u)
  {
    RunKeeps(states, events, n);
    var db := states[n].db;
    RecordCountIs(db.credits, h);
    if h in db.blocks && db.blocks[h].state == Paid { assert PaidHasRecord(db, h); }
    forall r, u: User | r in db.credits ensures GivenBy(r, u) <= Given(r.entries, |r.entries|, u) {
      GivenMonotone(r.entries, r.applied, |r.entries|, u);
    }
  }

  lemma {:induction false} GivenMonotone(entries: seq<Entry>, m: nat, n: nat, u: User)
    requires m <= n <= |entries|
    ensures Given(entries, m, u) <= Given(entries, n, u)
    decreases n
  {
    if m < n { GivenMonotone(entries, m, n - 1, u); }
  }

  // ---- Liability ---------------------------------------------------------

  function OwedByAll(payments: seq<Payment>, settled: set<nat>): int
  {
    if payments == [] then 0
    else
      var last := |payments| - 1;
      OwedByAll(payments[..last], settled) + if last !in settled then Cost(payments[last]) else 0
  }

  function GivenToAll(entries: seq<Entry>, n: nat): nat
    requires n <= |entries|
  {
    if n == 0 then 0 else GivenToAll(entries, n - 1) + entries[n - 1].amount
  }

  function ReceivedByAll(credits: seq<CreditRecord>): nat
  {
    if credits == [] then 0
    else
      var r := credits[|credits| - 1];
      ReceivedByAll(credits[..|credits| - 1]) + if r.applied <= |r.entries| then GivenToAll(r.entries, r.applied) else 0
  }

  /** The sum of all balances. */
  ghost function Liability(db: Db): int
  {
    SetSum(db.utxos.Keys, u => if u in db.utxos then db.utxos[u].amount else 0)
  }

  lemma {:induction false} OwedOverUsers(payments: seq<Payment>, settled: set<nat>, users: set<User>)
    requires forall p | p in payments :: p.user in users
    ensures SetSum(users, u => Owed(payments, settled, u)) == OwedByAll(payments, settled)
    decreases |payments|
  {
    if payments == [] {
      SetSumZero(users, u => Owed(payments, settled, u));
    } else {
      var last := |payments| - 1;
      var rest := payments[..last];
      assert forall p | p in rest :: p in payments;
      OwedOverUsers(rest, settled, users);
      assert payments[last] in payments;
      SetSumUpdate(users, u => Owed(rest, settled, u), u => Owed(payments, settled, u), payments[last].user);
    }
  }

  lemma {:induction false} GivenOverUsers(entries: seq<Entry>, n: nat, users: set<User>)
    requires n <= |entries| && forall e | e in entries :: e.user in users
    ensures SetSum(users, u => Given(entries, n, u)) == GivenToAll(entries, n)
    decreases n
  {
    if n == 0 {
      SetSumZero(users, u => Given(entries, n, u));
    } else {
      GivenOverUsers(entries, n - 1, users);
      assert entries[n - 1] in entries;
      SetSumUpdate(users, u => Given(entries, n - 1, u), u => Given(entries, n, u), entries[n - 1].user);
    }
  }

  lemma {:induction false} ReceivedOverUsers(credits: seq<CreditRecord>, users: set<User>)
    requires forall r, e | r in credits && e in r.entries :: e.user in users
    ensures SetSum(users, u => Received(credits, u)) == ReceivedByAll(credits)
    decreases |credits|
  {
    if credits == [] {
      SetSumZero(users, u => Received(credits, u));
    } else {
      var rest, r := credits[..|credits| - 1], credits[|credits| - 1];
      assert forall q | q in rest :: q in credits;
      assert r in credits;
      ReceivedOverUsers(rest, users);
      if r.applied <= |r.entries| {
        GivenOverUsers(r.entries, r.applied, users);
        SetSumCong(users, u => GivenBy(r, u), u => Given(r.entries, r.applied, u));
      } else {
        SetSumZero(users, u => GivenBy(r, u));
      }
      SetSumPlus(users, u => Received(rest, u), u => GivenBy(r, u), u => Received(credits, u));
    }
  }

  function CreditedUsers(credits: seq<CreditRecord>): set<User>
  {
    set r, e | r in credits && e in r.entries :: e.user
  }

  /** The pool's liability is all credits handed out less all payments not refunded. */
  lemma LiabilityIsTheTotal(states: seq<World>, events: seq<Event>, n: nat)
    requires IsRun(states, events) && n < |states|
    ensures var w := states[n];
            Liability(w.db) == ReceivedByAll(w.db.credits) - OwedByAll(w.db.payments, SetOf(w.refunds))
  {
    RunKeeps(states, events, n);
    var db, settled := states[n].db, SetOf(states[n].refunds);
    var known, all := db.utxos.Keys, db.utxos.Keys + CreditedUsers(db.credits);
    var received, owed := u => Received(db.credits, u), u => Owed(db.payments, settled, u);
    var amount := u => if u in db.utxos then db.utxos[u].amount else 0;
    forall u: User ensures BalanceOf(db, settled, u) { }
    forall p | p in db.payments ensures p.user in known { assert BalanceOf(db, settled, p.user); }
    OwedOverUsers(db.payments, settled, known);
    ReceivedOverUsers(db.credits, all);
    forall u | u in all - known ensures received(u) == 0 { assert BalanceOf(db, settled, u); }
    SetSumExtend(known, all, received);
    forall u | u in known ensures received(u) == amount(u) + owed(u) { assert BalanceOf(db, settled, u); }
    SetSumPlus(known, amount, owed, received);
  }
}
