/**
 What each step of the money services achieves, told from the tables before and after it and from the literal
 conditions of the services.
 */
module LedgerLaws {
  import opened Basics
  import opened Ledger
  import opened LedgerSafety

  // ---- Blocks ------------------------------------------------------------

  /** A pool block is on file as new once it is reported, and a second report of its height changes nothing. */
  lemma FindingOutcome(db: Db, height: nat, nonce: nat)
    ensures height in db.blocks ==> FindBlock(db, height, nonce) == db
    ensures height !in db.blocks ==> FindBlock(db, height, nonce) == db.(blocks := db.blocks[height := Block(nonce, New, None)])
  {
  }

  /** One state for each way the unlocker can find a new block; all other blocks stay. */
  lemma UnlockingOutcome(db: Db, latest: int, locktime: int, expiretime: int, node: map<nat, nat>, h: nat)
    requires h in db.blocks
    ensures UnlockBlocks(db, latest, locktime, expiretime, node).blocks.Keys == db.blocks.Keys
    ensures UnlockBlocks(db, latest, locktime, expiretime, node).utxos == db.utxos
    ensures UnlockBlocks(db, latest, locktime, expiretime, node).payments == db.payments
    ensures UnlockBlocks(db, latest, locktime, expiretime, node).credits == db.credits
    ensures var b, b' := db.blocks[h], UnlockBlocks(db, latest, locktime, expiretime, node).blocks[h];
            && b'.nonce == b.nonce
            && (b.state != New ==> b' == b)
            && (b.state == New ==>
                  && (b'.state == TooOld <==> h < latest - expiretime)
                  && (b'.state == Orphan <==> h >= latest - expiretime && h in node && node[h] != b.nonce)
                  && (b'.state == Unlocked <==>
                        h >= latest - expiretime && h in node && node[h] == b.nonce && h < latest - locktime)
                  && (b'.state == New <==>
                        h >= latest - expiretime && (h !in node || (node[h] == b.nonce && h >= latest - locktime))))
  {
  }

  // ---- Paying out --------------------------------------------------------

  /** A balance of at least one coin, in billionths. */
  predicate HasCoin(db: Db, user: User) { user in db.utxos && db.utxos[user].amount >= 1000000000 }

  /** The whole balance has become a payment, the last one; the fee is what the user now owes. */
  predicate HasPaid(db: Db, db': Db, user: User, address: Address, slate: SlateId, fee: nat, state: PaymentState)
    requires user in db.utxos
  {
    var u := db.utxos[user];
    && db'.payments == db.payments + [Payment(user, address, slate, u.amount, fee, u.failures, state)]
    && db'.utxos.Keys == db.utxos.Keys
    && db'.utxos[user] == Utxo(-(fee as int), u.total + u.amount, u.failures)
    && (forall v | v in db.utxos && v != user :: db'.utxos[v] == db.utxos[v])
    && db'.blocks == db.blocks && db'.credits == db.credits
  }

  /** A slate is issued and paid for exactly when the balance suffices and neither the wallet nor the database fails before that. */
  lemma IssuingOutcome(w: World, user: User, slate: SlateId, fee: nat, x: IssueOutcome)
    ensures var w' := IssueSlate(w, user, slate, fee, x);
            && w'.tidy == w.tidy && w'.refunds == w.refunds
            && (if HasCoin(w.db, user) && (x.LockFails? || x.Issued?)
                then HasPaid(w.db, w'.db, user, slate, slate, fee, Sent)
                else w'.db == w.db)
            && (if HasCoin(w.db, user) && !x.InitFails?
                then w'.wallet == w.wallet[slate := Slate(x.Issued? || (x.LockFails? && x.locked), false)]
                else w'.wallet == w.wallet)
  {
  }

  /** An atomic send is booked as posted exactly when the balance suffices and the send and its booking succeed. */
  lemma SendingOutcome(w: World, user: User, destination: string, slate: SlateId, fee: nat, x: SendOutcome)
    ensures var w' := SendAtomically(w, user, destination, slate, fee, x);
            && w'.tidy == w.tidy && w'.refunds == w.refunds
            && (if HasCoin(w.db, user) && x.Delivered?
                then HasPaid(w.db, w'.db, user, destination, slate, fee, Posted)
                else w'.db == w.db)
            && (if HasCoin(w.db, user) && (x.SendFails? ==> x.created)
                then w'.wallet == w.wallet[slate := Slate(true, false)]
                else w'.wallet == w.wallet)
  {
  }

  /** The payment a slate id leads to: the first under the id itself, else the first under it as a web address. */
  lemma PaymentFound(payments: seq<Payment>, id: SlateId)
    ensures match FindPayment(payments, id)
            case None => forall k | 0 <= k < |payments| :: payments[k].address != id && payments[k].address != "http://" + id
            case Some(i) =>
              && i < |payments|
              && (payments[i].address == id ||
                    (payments[i].address == "http://" + id && forall k | 0 <= k < |payments| :: payments[k].address != id))
              && forall k | 0 <= k < i :: payments[k].address != payments[i].address
  {
  }

  /** A returned slate posts the payment it leads to and clears its user's failures, exactly when it was finalized and committed. */
  lemma SubmittingOutcome(w: World, user: User, slate: SlateId, x: SubmitOutcome)
    ensures var w', found := SubmitSlate(w, user, slate, x), FindPayment(w.db.payments, slate);
            if user in w.db.utxos && found.Some? && x.Finalized?
            then w' == w.(db := w.db.(payments := w.db.payments[found.value := w.db.payments[found.value].(state := Posted)],
                                      utxos := w.db.utxos[user := w.db.utxos[user].(failures := 0)]))
            else w' == w
  {
  }

  // ---- The tidy process --------------------------------------------------

  /** The next listed payment is confirmed exactly when the wallet has it on the chain and the commit succeeds. */
  lemma ConfirmingOutcome(w: World, x: ConfirmOutcome)
    requires w.tidy.Confirming? && w.tidy.todo != []
    ensures var w', i := ConfirmNext(w, x), w.tidy.todo[0];
            && w'.wallet == w.wallet && w'.refunds == w.refunds && w'.tidy == Confirming(w.tidy.todo[1..])
            && w'.db == if x.OnChain? && i < |w.db.payments|
                        then w.db.(payments := w.db.payments[i := w.db.payments[i].(state := Confirmed)])
                        else w.db
  {
  }

  /**
   The next listed payment is cancelled: only a completed cancellation changes the tables. It expires the payment
   and all those marked before it, and gives the payment's amount and fee back to its user.
   */
  lemma CancellingOutcome(w: World, says: WalletSays, x: CancelOutcome)
    requires Inv(w) && w.tidy.Cancelling? && w.tidy.todo != []
    ensures w.tidy.todo[0] < |w.db.payments| && w.db.payments[w.tidy.todo[0]].user in w.db.utxos
    ensures var w', i := CancelNext(w, says, x), w.tidy.todo[0];
            var p := w.db.payments[i];
            if x.Cancelled?
            then Marked(w.db.payments, w'.db.payments, w.tidy.dirty, i) && GivenBack(w.db, w'.db, p) && w'.refunds == w.refunds + [i]
            else w'.db == w.db && w'.refunds == w.refunds
  {
    HeadOfList(w);
    if x.Cancelled? {
      CancelDone(w, says);
    } else {
      OnlyDoneCancelsCommit(w, says, x);
    }
  }

  lemma CancelDone(w: World, says: WalletSays)
    requires w.tidy.Cancelling? && w.tidy.todo != [] && w.tidy.todo[0] < |w.db.payments|
    requires CancelTarget(w.db, w.tidy.todo[0]) == Some(w.tidy.todo[0]) && w.db.payments[w.tidy.todo[0]].user in w.db.utxos
    ensures var db', i := CancelNext(w, says, Cancelled).db, w.tidy.todo[0];
            var p := w.db.payments[i];
            Marked(w.db.payments, db'.payments, w.tidy.dirty, i) && GivenBack(w.db, db', p)
    ensures CancelNext(w, says, Cancelled).refunds == w.refunds + [w.tidy.todo[0]]
  {
    var i := w.tidy.todo[0];
    CancelDoneIs(w, says);
    RefundAfterMarks(w.db, w.tidy.dirty, i);
  }

  lemma RefundAfterMarks(db: Db, dirty: set<nat>, i: nat)
    requires i < |db.payments| && db.payments[i].user in db.utxos
    ensures var db' := Refund(MarkAll(db, dirty + {i}), i);
            Marked(db.payments, db'.payments, dirty, i) && GivenBack(db, db', db.payments[i])
  {
    var marked := MarkAll(db, dirty + {i});
    MarkedPayments(db, dirty, i);
    MarksKeepMoney(db, dirty + {i}, i);
    RefundIs(marked, i);
    SameRefund(db, marked, Refund(marked, i), db.payments[i], marked.payments[i]);
  }

  lemma MarksKeepMoney(db: Db, marked: set<nat>, i: nat)
    requires i < |db.payments|
    ensures var db' := MarkAll(db, marked);
            && db'.utxos == db.utxos && db'.blocks == db.blocks && db'.credits == db.credits && |db'.payments| == |db.payments|
            && db'.payments[i] == db.payments[i].(state := db'.payments[i].state)
  {
  }

  lemma SameRefund(db: Db, marked: Db, db': Db, p: Payment, q: Payment)
    requires marked.utxos == db.utxos && marked.blocks == db.blocks && marked.credits == db.credits
    requires p.user in db.utxos && q == p.(state := q.state) && GivenBack(marked, db', q)
    ensures GivenBack(db, db', p)
  {
  }

  /** Exactly payment i and the marked ones are expired. */
  predicate Marked(before: seq<Payment>, after: seq<Payment>, dirty: set<nat>, i: nat)
  {
    && |after| == |before|
    && forall k | 0 <= k < |before| :: after[k] == if k == i || k in dirty then before[k].(state := Expired) else before[k]
  }

  /** The user has the amount and the fee back, and one failure more than the payment had; nothing else has changed. */
  predicate GivenBack(db: Db, db': Db, p: Payment)
    requires p.user in db.utxos
  {
    var u := db.utxos[p.user];
    && db'.utxos == db.utxos[p.user := Utxo(u.amount + p.amount + p.fee, u.total, u.failures + p.failures + 1)]
    && db'.blocks == db.blocks && db'.credits == db.credits
  }

  lemma CancelDoneIs(w: World, says: WalletSays)
    requires w.tidy.Cancelling? && w.tidy.todo != [] && w.tidy.todo[0] < |w.db.payments|
    requires CancelTarget(w.db, w.tidy.todo[0]) == Some(w.tidy.todo[0]) && w.db.payments[w.tidy.todo[0]].user in w.db.utxos
    ensures var w', i := CancelNext(w, says, Cancelled), w.tidy.todo[0];
            && w'.db == Refund(MarkAll(w.db, w.tidy.dirty + {i}), i) && w'.refunds == w.refunds + [i]
  {
  }

  lemma MarkedPayments(db: Db, dirty: set<nat>, i: nat)
    requires i < |db.payments|
    ensures Marked(db.payments, MarkAll(db, dirty + {i}).payments, dirty, i)
  {
  }

  lemma RefundIs(db: Db, i: nat)
    requires i < |db.payments| && db.payments[i].user in db.utxos
    ensures GivenBack(db, Refund(db, i), db.payments[i]) && Refund(db, i).payments == db.payments
  {
  }

  /** What a cancellation leaves pending in the session, and when it cancels the slate in the wallet. */
  lemma CancellingLeaves(w: World, says: WalletSays, x: CancelOutcome)
    requires Inv(w) && w.tidy.Cancelling? && w.tidy.todo != []
    ensures w.tidy.todo[0] < |w.db.payments| && w.db.payments[w.tidy.todo[0]].slate in w.wallet
    ensures var w', i := CancelNext(w, says, x), w.tidy.todo[0];
            var slate := w.db.payments[i].slate;
            && w'.tidy == Cancelling(w.tidy.todo[1..],
                 match x
                 case FailsAfterMark => w.tidy.dirty + {i}
                 case CancelCommitFails => {}
                 case Cancelled => {}
                 case _ => w.tidy.dirty)
            && w'.wallet == if says.Live? && !x.TooYoung? && (x.FailsBeforeMark? ==> x.cancelled)
                            then w.wallet[slate := w.wallet[slate].(cancelled := true)]
                            else w.wallet
  {
    HeadOfList(w);
  }

  /** In a run each event is the operation that the laws above describe. */
  lemma EventsAreOperations(w: World)
    ensures forall height, nonce :: Step(w, BlockFound(height, nonce)) == w.(db := FindBlock(w.db, height, nonce))
    ensures forall latest, locktime, expiretime, node, commits ::
              Step(w, UnlocksBlocks(latest, locktime, expiretime, node, commits))
              == if commits then w.(db := UnlockBlocks(w.db, latest, locktime, expiretime, node)) else w
    ensures forall height, entries, faults, commits | height in w.db.blocks ::
              Step(w, PaysBlock(height, entries, faults, commits)) == w.(db := PayBlock(w.db, height, entries, faults, commits))
    ensures forall user, slate, fee, x :: Step(w, IssuesSlate(user, slate, fee, x)) == IssueSlate(w, user, slate, fee, x)
    ensures forall user, to, slate, fee, x :: Step(w, SendsAtomically(user, to, slate, fee, x)) == SendAtomically(w, user, to, slate, fee, x)
    ensures forall user, slate, x :: Step(w, SubmitsSlate(user, slate, x)) == SubmitSlate(w, user, slate, x)
    ensures forall posted :: Step(w, TidyStarts(posted)) == w.(tidy := Confirming(posted))
    ensures forall sent :: Step(w, TidyListsSent(sent)) == w.(tidy := Cancelling(sent, {}))
    ensures w.tidy.Confirming? && w.tidy.todo != [] ==> forall x :: Step(w, TidyConfirms(x)) == ConfirmNext(w, x)
    ensures w.tidy.Cancelling? && w.tidy.todo != [] ==> forall says, x :: Step(w, TidyCancels(says, x)) == CancelNext(w, says, x)
    ensures Step(w, TidyEnds) == w.(tidy := Idle)
  {
  }
}
