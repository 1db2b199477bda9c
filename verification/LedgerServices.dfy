/** The money services as they run: a database session, the wallet and the tidy process, updated in place. */
module LedgerServices {
  import opened Basics
  import opened Ledger

  /** A database session: reads and writes go to `pending` until a commit. */
  class DbSession {
    var committed: Db
    var pending: Db

    ghost function View(): Session
      reads this
    {
      Session(committed, pending)
    }

    constructor (db: Db)
      ensures View() == Begin(db)
    {
      committed, pending := db, db;
    }

    method Commit()
      modifies this
      ensures View() == Ledger.Commit(old(View()))
    {
      committed := pending;
    }

    method Rollback()
      modifies this
      ensures View() == Ledger.Rollback(old(View()))
    {
      pending := committed;
    }

    /** Adds a balance row and commits; when the commit fails, rolls back and raises. */
    method CreateDataObj(user: User, ok: bool) returns (raised: bool)
      modifies this
      ensures View() == CreateUtxo(old(View()), user, ok) && raised == !ok
    {
      pending := pending.(utxos := pending.utxos[user := Utxo(0, 0, 0)]);
      if ok {
        Commit();
      } else {
        Rollback();
      }
      raised := !ok;
    }

    method CreditWorker(e: Entry, fault: Fault) returns (raised: bool)
      requires pending.credits != []
      modifies this
      ensures View() == Ledger.CreditWorker(old(View()), e, fault).session
      ensures raised <==> Ledger.CreditWorker(old(View()), e, fault).Failed?
      ensures !raised ==> pending.credits != []
    {
      if fault.LookupFails? {
        return true;
      }
      if e.user !in pending.utxos {
        raised := CreateDataObj(e.user, !fault.CreateFails?);
        if raised {
          return;
        }
        if fault.FailsAfterCreate? {
          return true;
        }
      }
      var u := pending.utxos[e.user];
      pending := pending.(utxos := pending.utxos[e.user := u.(amount := u.amount + e.amount)]);
      var last := |pending.credits| - 1;
      pending := pending.(credits := pending.credits[last := pending.credits[last].(applied := pending.credits[last].applied + 1)]);
      return false;
    }

    /** One block of the payment maker's loop, with its rollback on any exception. */
    method PayBlock(height: nat, entries: seq<Entry>, faults: map<nat, Fault>, commits: bool)
      requires height in committed.blocks && pending == committed
      modifies this
      ensures View() == Begin(Ledger.PayBlock(old(committed), height, entries, faults, commits))
    {
      pending := pending.(credits := pending.credits + [CreditRecord(height, entries, 0)]);
      pending := pending.(blocks := pending.blocks[height := pending.blocks[height].(state := Paid)]);
      ghost var start := View();
      assert start == Session(old(committed), OpenRecord(old(committed), height, entries));
      var i, raised := 0, false;
      while i < |entries| && !raised
        invariant 0 <= i <= |entries|
        invariant !raised ==> pending.credits != [] && CreditAll(start, entries, 0, faults) == CreditAll(View(), entries, i, faults)
        invariant raised ==> CreditAll(start, entries, 0, faults) == Failed(View())
        decreases |entries| - i, !raised
      {
        raised := CreditWorker(entries[i], FaultAt(faults, i));
        if !raised {
          i := i + 1;
        }
      }
      if !raised && commits {
        Commit();
      } else {
        Rollback();
      }
    }

    /** The unlocker: every new block is looked at once, in any order, then one commit. */
    method UnlockPoolBlocks(latest: int, locktime: int, expiretime: int, node: map<nat, nat>)
      requires pending == committed
      modifies this
      ensures View() == Begin(UnlockBlocks(old(committed), latest, locktime, expiretime, node))
    {
      var todo := set h | h in pending.blocks && pending.blocks[h].state == New;
      while todo != {}
        invariant todo <= pending.blocks.Keys
        invariant pending == old(committed).(blocks := pending.blocks) && committed == old(committed)
        invariant pending.blocks.Keys == committed.blocks.Keys
        invariant forall h | h in todo :: pending.blocks[h] == committed.blocks[h] && committed.blocks[h].state == New
        invariant forall h | h in committed.blocks && h !in todo ::
                    pending.blocks[h] == UnlockOne(h, committed.blocks[h], latest, locktime, expiretime, node)
        decreases todo
      {
        var h :| h in todo;
        var b := pending.blocks[h];
        todo := todo - {h};
        if h < latest - expiretime {
          b := b.(state := TooOld);
        } else if h in node {
          if node[h] != b.nonce {
            b := b.(state := Orphan);
          } else if h < latest - locktime {
            b := b.(state := Unlocked, evidence := Some(Evidence(latest, locktime, expiretime, node[h])));
          }
        }
        pending := pending.(blocks := pending.blocks[h := b]);
      }
      Commit();
    }
  }

  lemma {:induction false} MarksKeepAddresses(db: Db, dirty: set<nat>, address: Address, from: nat)
    requires from <= |db.payments|
    ensures FindAddress(MarkAll(db, dirty).payments, address, from) == FindAddress(db.payments, address, from)
    decreases |db.payments| - from
  {
    if from < |db.payments| { MarksKeepAddresses(db, dirty, address, from + 1); }
  }

  lemma MarksKeepPayments(db: Db, dirty: set<nat>, id: SlateId)
    ensures FindPayment(MarkAll(db, dirty).payments, id) == FindPayment(db.payments, id)
  {
    MarksKeepAddresses(db, dirty, id, 0);
    MarksKeepAddresses(db, dirty, HTTP + id, 0);
  }

  /** How many of the first `n` payments are in a state. */
  function InState(payments: seq<Payment>, state: PaymentState, n: nat): nat
    requires n <= |payments|
  {
    if n == 0 then 0 else InState(payments, state, n - 1) + if payments[n - 1].state == state then 1 else 0
  }

  /** All payments in a state, each once, in the order of the table. */
  predicate ListsAll(db: Db, found: seq<nat>, state: PaymentState)
  {
    && Lists(db, found, state)
    && (forall i | 0 <= i < |db.payments| && db.payments[i].state == state ::
          InState(db.payments, state, i) < |found| && found[InState(db.payments, state, i)] == i)
  }

  /** The payments after the first `n` posted ones were dealt with. */
  function ConfirmedUpTo(payments: seq<Payment>, outcomes: nat -> ConfirmOutcome, n: nat): seq<Payment>
  {
    seq(|payments|, i requires 0 <= i < |payments| =>
      var place := InState(payments, Posted, i);
      if payments[i].state == Posted && place < n && outcomes(place).OnChain?
      then payments[i].(state := Confirmed) else payments[i])
  }

  lemma ConfirmedOneMore(db: Db, posted: seq<nat>, outcomes: nat -> ConfirmOutcome, n: nat)
    requires ListsAll(db, posted, Posted) && n < |posted|
    ensures posted[n] < |db.payments|
    ensures var before, i := ConfirmedUpTo(db.payments, outcomes, n), posted[n];
            ConfirmedUpTo(db.payments, outcomes, n + 1)
            == if outcomes(n).OnChain? then before[i := before[i].(state := Confirmed)] else before
  {
    PlaceInList(db, posted, n);
    var before, after, i := ConfirmedUpTo(db.payments, outcomes, n), ConfirmedUpTo(db.payments, outcomes, n + 1), posted[n];
    forall j | 0 <= j < |db.payments|
      ensures after[j] == if j == i && outcomes(n).OnChain? then before[j].(state := Confirmed) else before[j]
    {
    }
  }

  /** The n-th listed payment, and no other in the state, has n such payments before it. */
  lemma PlaceInList(db: Db, listed: seq<nat>, n: nat)
    requires ListsAll(db, listed, Posted) && n < |listed|
    ensures listed[n] < |db.payments| && db.payments[listed[n]].state == Posted && InState(db.payments, Posted, listed[n]) == n
    ensures forall j | 0 <= j < |db.payments| && db.payments[j].state == Posted && j != listed[n] :: InState(db.payments, Posted, j) != n
  {
    assert listed[n] in listed;
  }

  /** No payment has a place beyond the list. */
  lemma ConfirmedAll(db: Db, posted: seq<nat>, outcomes: nat -> ConfirmOutcome)
    requires ListsAll(db, posted, Posted)
    ensures forall i | 0 <= i < |db.payments| ::
              ConfirmedUpTo(db.payments, outcomes, |posted|)[i]
              == if db.payments[i].state == Posted && outcomes(InState(db.payments, Posted, i)).OnChain?
                 then db.payments[i].(state := Confirmed) else db.payments[i]
  {
  }

  lemma {:induction false} InStateGrows(payments: seq<Payment>, state: PaymentState, m: nat, n: nat)
    requires m < n <= |payments| && payments[m].state == state
    ensures InState(payments, state, m) < InState(payments, state, n)
    decreases n
  {
    if m < n - 1 { InStateGrows(payments, state, m, n - 1); }
  }

  lemma MarkOneMore(db: Db, dirty: set<nat>, i: nat)
    requires i < |db.payments|
    ensures MarkAll(db, dirty + {i})
         == MarkAll(db, dirty).(payments := MarkAll(db, dirty).payments[i := db.payments[i].(state := Expired)])
  {
  }

  /** Payments and the wallet over the committed database, and how far the tidy process is (history). */
  class PaymentService {
    var db: Db
    var wallet: map<SlateId, Slate>
    ghost var tidy: Tidy
    ghost var refunds: seq<nat>

    ghost function View(): World
      reads this
    {
      World(db, wallet, tidy, refunds)
    }

    constructor ()
      ensures View() == START
    {
      db, wallet := Db(map[], [], map[], []), map[];
      tidy, refunds := Idle, [];
    }

    /** Writes the payment row and empties the balance, in the caller's session. */
    static method CreatePayment(session: Db, user: User, address: Address, slate: SlateId, fee: nat, state: PaymentState)
      returns (pending: Db)
      requires user in session.utxos
      ensures pending == RecordPayment(session, user, address, slate, fee, state)
    {
      pending := session;
      var utxo := pending.utxos[user];
      var amount := utxo.amount;
      pending := pending.(payments := pending.payments + [Payment(user, address, slate, amount, fee, utxo.failures, state)]);
      utxo := utxo.(amount := fee * -1);
      utxo := utxo.(total := utxo.total + amount);
      pending := pending.(utxos := pending.utxos[user := utxo]);
    }

    method GetTxSlate(user: User, slate: SlateId, fee: nat, x: IssueOutcome) returns (ok: bool)
      modifies this
      ensures View() == IssueSlate(old(View()), user, slate, fee, x)
      ensures ok <==> CanPay(old(db), user) && x.Issued?
    {
      if user !in db.utxos || db.utxos[user].amount < MINIMUM_PAYOUT || x.InitFails? {
        return false;
      }
      wallet := wallet[slate := Slate(false, false)];
      var pending := CreatePayment(db, user, slate, slate, fee, Sent);
      if x.RecordFails? {
        return false;
      }
      db := pending;
      if x.LockFails? {
        wallet := wallet[slate := Slate(x.locked, false)];
        return false;
      }
      wallet := wallet[slate := Slate(true, false)];
      return true;
    }

    method AtomicSend(user: User, destination: string, slate: SlateId, fee: nat, x: SendOutcome) returns (ok: bool)
      modifies this
      ensures View() == SendAtomically(old(View()), user, destination, slate, fee, x)
      ensures ok <==> CanPay(old(db), user) && x.Delivered?
    {
      if user !in db.utxos || db.utxos[user].amount < MINIMUM_PAYOUT {
        return false;
      }
      if x.SendFails? {
        if x.created {
          wallet := wallet[slate := Slate(true, false)];
        }
        return false;
      }
      wallet := wallet[slate := Slate(true, false)];
      var pending := CreatePayment(db, user, destination, slate, fee, Posted);
      if x.SendRecordFails? {
        return false;
      }
      db := pending;
      return true;
    }

    /** The query for a slate id, and again for it as a web address. */
    static method GetByAddress(payments: seq<Payment>, id: SlateId) returns (found: Option<nat>)
      ensures found == FindPayment(payments, id)
    {
      found := FirstAt(payments, id);
      if found.None? {
        found := FirstAt(payments, HTTP + id);
      }
    }

    static method FirstAt(payments: seq<Payment>, address: Address) returns (found: Option<nat>)
      ensures found == FindAddress(payments, address, 0)
    {
      var i := 0;
      while i < |payments|
        invariant 0 <= i <= |payments|
        invariant FindAddress(payments, address, 0) == FindAddress(payments, address, i)
      {
        if payments[i].address == address {
          return Some(i);
        }
        i := i + 1;
      }
      return None;
    }

    method SubmitTxSlate(user: User, slate: SlateId, x: SubmitOutcome) returns (ok: bool)
      modifies this
      ensures View() == SubmitSlate(old(View()), user, slate, x)
      ensures ok <==> user in old(db).utxos && FindPayment(old(db).payments, slate).Some? && x.Finalized?
    {
      if user !in db.utxos {
        return false;
      }
      var pending := db.(utxos := db.utxos[user := db.utxos[user].(failures := 0)]);
      var found := GetByAddress(db.payments, slate);
      if found.None? {
        return false;
      }
      var i := found.value;
      pending := pending.(payments := pending.payments[i := pending.payments[i].(state := Posted)]);
      if !x.Finalized? {
        return false;
      }
      db := pending;
      return true;
    }

    /** The query for the payments in a state. */
    static method GetByState(db: Db, state: PaymentState) returns (found: seq<nat>)
      ensures ListsAll(db, found, state)
    {
      found := [];
      for i := 0 to |db.payments|
        invariant forall k | 0 <= k < |found| :: found[k] < i
        invariant Lists(db, found, state)
        invariant |found| == InState(db.payments, state, i)
        invariant forall k | 0 <= k < i && db.payments[k].state == state ::
                    InState(db.payments, state, k) < |found| && found[InState(db.payments, state, k)] == k
      {
        if db.payments[i].state == state {
          found := found + [i];
        }
      }
    }

    /**
     The confirmation pass: lists the posted payments, then asks the wallet about each. Exactly the posted
     payments that it has on the chain, with a commit that succeeds, are confirmed afterwards.
     */
    method ConfirmTx(outcomes: nat -> ConfirmOutcome) returns (ghost events: seq<Event>)
      requires tidy.Idle?
      modifies this`db, this`tidy
      ensures CanHappen(old(View()), events) && View() == After(old(View()), events)
      ensures exists posted ::
                && ListsAll(old(db), posted, Posted)
                && events == [TidyStarts(posted)] + seq(|posted|, k requires 0 <= k => TidyConfirms(outcomes(k)))
      ensures |db.payments| == |old(db).payments|
      ensures forall i | 0 <= i < |old(db).payments| ::
                db.payments[i] == if old(db).payments[i].state == Posted && outcomes(InState(old(db).payments, Posted, i)).OnChain?
                                  then old(db).payments[i].(state := Confirmed) else old(db).payments[i]
      ensures db.utxos == old(db).utxos && db.blocks == old(db).blocks && db.credits == old(db).credits
    {
      var posted := GetByState(db, Posted);
      ghost var first := View();
      AfterOneMore(first, [], TidyStarts(posted));
      tidy := Confirming(posted);
      events := ConfirmAll(posted, outcomes, first);
      ConfirmedAll(first.db, posted, outcomes);
    }

    method ConfirmAll(posted: seq<nat>, outcomes: nat -> ConfirmOutcome, ghost first: World) returns (ghost events: seq<Event>)
      requires ListsAll(db, posted, Posted) && tidy == Confirming(posted)
      requires CanHappen(first, [] + [TidyStarts(posted)]) && View() == After(first, [] + [TidyStarts(posted)])
      modifies this`db, this`tidy
      ensures db == old(db).(payments := ConfirmedUpTo(old(db).payments, outcomes, |posted|))
      ensures CanHappen(first, events) && View() == After(first, events)
      ensures events == [TidyStarts(posted)] + seq(|posted|, k requires 0 <= k => TidyConfirms(outcomes(k)))
    {
      events := [] + [TidyStarts(posted)];
      assert ConfirmedUpTo(db.payments, outcomes, 0) == db.payments;
      for n := 0 to |posted|
        invariant tidy == Confirming(posted[n..])
        invariant db == old(db).(payments := ConfirmedUpTo(old(db).payments, outcomes, n))
        invariant events == [TidyStarts(posted)] + seq(n, k requires 0 <= k => TidyConfirms(outcomes(k)))
        invariant CanHappen(first, events) && View() == After(first, events)
      {
        AfterOneMore(first, events, TidyConfirms(outcomes(n)));
        ConfirmedOneMore(old(db), posted, outcomes, n);
        ConfirmOne(posted[n], outcomes(n));
        events := events + [TidyConfirms(outcomes(n))];
      }
    }

    method ConfirmOne(i: nat, x: ConfirmOutcome)
      requires tidy.Confirming? && tidy.todo != [] && tidy.todo[0] == i
      modifies this`db, this`tidy
      ensures View() == ConfirmNext(old(View()), x)
    {
      tidy := Confirming(tidy.todo[1..]);
      if x.OnChain? && i < |db.payments| {
        db := db.(payments := db.payments[i := db.payments[i].(state := Confirmed)]);
      }
    }

    /** The session holds the database as committed, under the marks of cancellations that failed half-way. */
    ghost predicate HoldsMarks(session: DbSession)
      reads this, session
    {
      tidy.Cancelling? && session.View() == Session(db, MarkAll(db, tidy.dirty))
    }

    /** Cancels one slate in the tidy process's session; nothing here rolls back what an exception leaves pending. */
    method CancelTxSlate(session: DbSession, i: nat, says: WalletSays, x: CancelOutcome)
      requires HoldsMarks(session) && i < |db.payments|
      modifies this, session
      ensures View() == CancelSlate(old(View()), i, says, x)
      ensures HoldsMarks(session)
    {
      var p := session.pending.payments[i];
      if says.Live? && (x.FailsBeforeMark? ==> x.cancelled) {
        CancelTx(p.slate);
      }
      if x.FailsBeforeMark? {
        return;
      }
      Mark(session, i);
      if x.FailsAfterMark? || p.user !in session.pending.utxos {
        return;
      }
      CreditBack(session, p);
      if x.CancelCommitFails? {
        session.Rollback();
        tidy := tidy.(dirty := {});
        MarkNothing(db);
        return;
      }
      session.Commit();
      db := session.committed;
      tidy := tidy.(dirty := {});
      refunds := refunds + [i];
      MarkNothing(db);
    }

    /** Marks a payment expired, in the session only. */
    method Mark(session: DbSession, i: nat)
      requires HoldsMarks(session) && i < |db.payments|
      modifies this`tidy, session`pending
      ensures tidy == old(tidy).(dirty := old(tidy).dirty + {i})
      ensures HoldsMarks(session)
    {
      MarkOneMore(db, tidy.dirty, i);
      session.pending := session.pending.(payments := session.pending.payments[i := session.pending.payments[i].(state := Expired)]);
      tidy := tidy.(dirty := tidy.dirty + {i});
    }

    method CancelTx(slate: SlateId)
      modifies this`wallet
      ensures wallet == CancelInWallet(old(wallet), slate)
    {
      if slate in wallet {
        wallet := wallet[slate := wallet[slate].(cancelled := true)];
      }
    }

    static method CreditBack(session: DbSession, p: Payment)
      requires p.user in session.pending.utxos
      modifies session`pending
      ensures var u := old(session.pending).utxos[p.user];
              session.pending == old(session.pending).(utxos := old(session.pending).utxos[p.user :=
                Utxo(u.amount + p.amount + p.fee, u.total, u.failures + p.failures + 1)])
    {
      var u := session.pending.utxos[p.user];
      u := u.(amount := u.amount + p.amount + p.fee);
      u := u.(failures := u.failures + p.failures + 1);
      session.pending := session.pending.(utxos := session.pending.utxos[p.user := u]);
    }

    /** One payment of the list of sent ones, if it has timed out. */
    method CancelOne(session: DbSession, listed: nat, says: WalletSays, x: CancelOutcome)
      requires HoldsMarks(session) && tidy.todo != [] && tidy.todo[0] == listed
      modifies this, session
      ensures View() == CancelNext(old(View()), says, x)
      ensures HoldsMarks(session)
    {
      tidy := Cancelling(tidy.todo[1..], tidy.dirty);
      if x.TooYoung? || listed >= |db.payments| {
        return;
      }
      var slate := session.pending.payments[listed].slate;
      MarksKeepPayments(db, tidy.dirty, slate);
      assert slate == db.payments[listed].slate;
      var found := GetByAddress(session.pending.payments, slate);
      if found.Some? {
        CancelTxSlate(session, found.value, says, x);
      }
    }

    /** The wallet's answer about a slate: the one given, unless it would be a lie. */
    method RetrieveTxs(slate: SlateId, wish: WalletSays) returns (says: WalletSays)
      ensures MaySay(wallet, slate, says) && (MaySay(wallet, slate, wish) ==> says == wish)
    {
      says := wish;
      if wish.NoRecord? && slate in wallet && wallet[slate].locked {
        says := Live;
      } else if wish.AlreadyCancelled? && (slate !in wallet || !wallet[slate].cancelled) {
        says := Live;
      }
    }

    /** One payment of the list as a step that the wallet allows. */
    method CancelStep(session: DbSession, listed: nat, wish: WalletSays, x: CancelOutcome) returns (ghost e: Event)
      requires HoldsMarks(session) && tidy.todo != [] && tidy.todo[0] == listed
      modifies this, session
      ensures e.TidyCancels? && e.cancel == x
      ensures Possible(old(View()), e) && View() == Step(old(View()), e)
      ensures HoldsMarks(session) && tidy.todo == old(tidy.todo)[1..]
    {
      var says := wish;
      if listed < |db.payments| {
        says := RetrieveTxs(db.payments[listed].slate, wish);
      }
      e := TidyCancels(says, x);
      CancelOne(session, listed, says, x);
    }

    /** A list of cancellations with these outcomes, whatever the wallet says. */
    static ghost predicate Cancels(events: seq<Event>, outcomes: nat -> CancelOutcome)
    {
      forall k | 0 <= k < |events| :: events[k].TidyCancels? && events[k].cancel == outcomes(k)
    }

    /** The expiry pass: lists the sent payments and cancels each that has timed out, going on after every exception. */
    method CancelExpiredTx(session: DbSession, wishes: nat -> WalletSays, outcomes: nat -> CancelOutcome)
      returns (ghost events: seq<Event>)
      requires tidy.Confirming? && session.View() == Begin(db)
      modifies this, session
      ensures CanHappen(old(View()), events) && View() == After(old(View()), events) && HoldsMarks(session)
      ensures exists sent ::
                && ListsAll(old(db), sent, Sent)
                && |events| == |sent| + 1 && events[0] == TidyListsSent(sent) && Cancels(events[1..], outcomes)
    {
      var sent := GetByState(db, Sent);
      ghost var first := View();
      AfterOneMore(first, [], TidyListsSent(sent));
      tidy := Cancelling(sent, {});
      MarkNothing(db);
      events := CancelAll(session, sent, wishes, outcomes, first, TidyListsSent(sent));
    }

    method CancelAll(
        session: DbSession, sent: seq<nat>, wishes: nat -> WalletSays, outcomes: nat -> CancelOutcome,
        ghost first: World, ghost start: Event)
      returns (ghost events: seq<Event>)
      requires HoldsMarks(session) && tidy.todo == sent
      requires CanHappen(first, [] + [start]) && View() == After(first, [] + [start])
      modifies this, session
      ensures CanHappen(first, events) && View() == After(first, events) && HoldsMarks(session)
      ensures |events| == |sent| + 1 && events[0] == start && Cancels(events[1..], outcomes)
    {
      events := [] + [start];
      for n := 0 to |sent|
        invariant HoldsMarks(session) && tidy.todo == sent[n..]
        invariant |events| == n + 1 && events[0] == start && Cancels(events[1..], outcomes)
        invariant CanHappen(first, events) && View() == After(first, events)
      {
        ghost var e := CancelStep(session, sent[n], wishes(n), outcomes(n));
        AfterOneMore(first, events, e);
        assert (events + [e])[1..] == events[1..] + [e];
        events := events + [e];
      }
    }
  }

  lemma MarkNothing(db: Db)
    ensures MarkAll(db, {}) == db
  {
    assert MarkAll(db, {}).payments == db.payments;
  }
}
