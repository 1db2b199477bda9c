/**
 The pool's money: balances, payments, pool blocks and credit records, changed by services that can
 fail part of the way through. A ledger value is the contents of the database; a session is the
 committed ledger and the pending one.
 */
module Ledger {
  import opened Basics

  type User = nat
  type SlateId = string

  const MINIMUM_PAYOUT := 1000000000

  // ---- Rows --------------------------------------------------------------

  datatype Utxo = Utxo(amount: int, total: int, failures: nat)

  datatype PaymentState = Sent | Posted | Confirmed | Expired

  /** A payment is filed under its slate id, or under the destination of an atomic send. */
  type Address = string

  /** A payment filed under its own slate id. */
  predicate IssuedAsSlate(p: Payment) { p.address == p.slate }

  datatype Payment = Payment(
    user: User, address: Address, slate: SlateId, amount: int, fee: nat, failures: nat, state: PaymentState)

  datatype BlockState = New | Unlocked | Orphan | TooOld | Paid

  /** What the unlocker had seen when it released a block (history). */
  datatype Evidence = Evidence(latest: int, locktime: int, expiretime: int, nodeNonce: nat)

  datatype Block = Block(nonce: nat, state: BlockState, evidence: Option<Evidence>)

  datatype Entry = Entry(user: User, amount: nat)

  /** A stored payout map; `applied` counts the entries that reached a balance (history). */
  datatype CreditRecord = CreditRecord(block: nat, entries: seq<Entry>, applied: nat)

  datatype Db = Db(
    utxos: map<User, Utxo>,
    payments: seq<Payment>,
    blocks: map<nat, Block>,
    credits: seq<CreditRecord>)

  // ---- Sessions ----------------------------------------------------------

  datatype Session = Session(committed: Db, pending: Db)

  function Begin(db: Db): Session { Session(db, db) }

  function Commit(s: Session): Session { Session(s.pending, s.pending) }

  function Rollback(s: Session): Session { Session(s.committed, s.committed) }

  /** Adding a balance row commits everything pending with it; a failure rolls everything back. */
  function CreateUtxo(s: Session, user: User, ok: bool): Session
  {
    if ok then Commit(s.(pending := s.pending.(utxos := s.pending.utxos[user := Utxo(0, 0, 0)])))
    else Rollback(s)
  }

  // ---- Crediting a block -------------------------------------------------

  /** Where the crediting of one user stops: nowhere, at the look-up, or at the creation of the row. */
  datatype Fault = NoFault | LookupFails | CreateFails | FailsAfterCreate

  datatype Raised = Fine(session: Session) | Failed(session: Session)

  function AddCredit(db: Db, e: Entry): Db
    requires e.user in db.utxos && db.credits != []
  {
    var last := |db.credits| - 1;
    var u := db.utxos[e.user];
    db.(utxos := db.utxos[e.user := u.(amount := u.amount + e.amount)],
        credits := db.credits[last := db.credits[last].(applied := db.credits[last].applied + 1)])
  }

  function CreditWorker(s: Session, e: Entry, fault: Fault): Raised
    requires s.pending.credits != []
  {
    if fault.LookupFails? then Failed(s)
    else if e.user in s.pending.utxos then Fine(s.(pending := AddCredit(s.pending, e)))
    else if fault.CreateFails? then Failed(CreateUtxo(s, e.user, false))
    else
      var s1 := CreateUtxo(s, e.user, true);
      if fault.FailsAfterCreate? then Failed(s1)
      else Fine(s1.(pending := AddCredit(s1.pending, e)))
  }

  function FaultAt(faults: map<nat, Fault>, i: nat): Fault { if i in faults then faults[i] else NoFault }

  /** Credit the entries from index i on; the first failure ends the loop. */
  function CreditAll(s: Session, entries: seq<Entry>, i: nat, faults: map<nat, Fault>): Raised
    requires i <= |entries| && s.pending.credits != []
    decreases |entries| - i
  {
    if i == |entries| then Fine(s)
    else
      match CreditWorker(s, entries[i], FaultAt(faults, i))
      case Failed(s1) => Failed(s1)
      case Fine(s1) => CreditAll(s1, entries, i + 1, faults)
  }

  function OpenRecord(db: Db, height: nat, entries: seq<Entry>): Db
    requires height in db.blocks
  {
    db.(credits := db.credits + [CreditRecord(height, entries, 0)],
        blocks := db.blocks[height := db.blocks[height].(state := Paid)])
  }

  /** One round of the payment maker: any failure rolls back what has not been committed on the way. */
  function PayBlock(db: Db, height: nat, entries: seq<Entry>, faults: map<nat, Fault>, commits: bool): Db
    requires height in db.blocks
  {
    var s := Session(db, OpenRecord(db, height, entries));
    match CreditAll(s, entries, 0, faults)
    case Failed(s1) => Rollback(s1).committed
    case Fine(s1) => if commits then Commit(s1).committed else Rollback(s1).committed
  }

  // ---- Unlocking blocks --------------------------------------------------

  /** The unlocker's treatment of one new block; `node` is what the node answers. */
  function UnlockOne(height: nat, b: Block, latest: int, locktime: int, expiretime: int, node: map<nat, nat>): Block
  {
    if b.state != New then b
    else if height < latest - expiretime then b.(state := TooOld)
    else if height !in node then b
    else if node[height] != b.nonce then b.(state := Orphan)
    else if height < latest - locktime then
      b.(state := Unlocked, evidence := Some(Evidence(latest, locktime, expiretime, node[height])))
    else b
  }

  function UnlockBlocks(db: Db, latest: int, locktime: int, expiretime: int, node: map<nat, nat>): Db
  {
    db.(blocks := map h | h in db.blocks :: UnlockOne(h, db.blocks[h], latest, locktime, expiretime, node))
  }

  // ---- Payments ----------------------------------------------------------

  predicate CanPay(db: Db, user: User)
  {
    user in db.utxos && db.utxos[user].amount >= MINIMUM_PAYOUT
  }

  /** Moves the whole balance into a payment and leaves the fee owing. */
  function RecordPayment(db: Db, user: User, address: Address, slate: SlateId, fee: nat, state: PaymentState): Db
    requires user in db.utxos
  {
    var u := db.utxos[user];
    db.(payments := db.payments + [Payment(user, address, slate, u.amount, fee, u.failures, state)],
        utxos := db.utxos[user := u.(amount := -(fee as int), total := u.total + u.amount)])
  }

  /** The first payment filed under an address, looked for from index `from` on. */
  function FindAddress(payments: seq<Payment>, address: Address, from: nat): (r: Option<nat>)
    requires from <= |payments|
    ensures r.Some? ==>
              && from <= r.value < |payments| && payments[r.value].address == address
              && forall i | from <= i < r.value :: payments[i].address != address
    ensures r.None? ==> forall i | from <= i < |payments| :: payments[i].address != address
    decreases |payments| - from
  {
    if from == |payments| then None
    else if payments[from].address == address then Some(from)
    else FindAddress(payments, address, from + 1)
  }

  const HTTP := "http://"

  /** The payment that a slate id leads to; an address without its protocol will do. */
  function FindPayment(payments: seq<Payment>, id: SlateId): (r: Option<nat>)
    ensures r.Some? ==> r.value < |payments| && payments[r.value].address in {id, HTTP + id}
  {
    var r := FindAddress(payments, id, 0);
    if r.Some? then r else FindAddress(payments, HTTP + id, 0)
  }

  function SetState(db: Db, i: nat, state: PaymentState): Db
  {
    if i < |db.payments| then db.(payments := db.payments[i := db.payments[i].(state := state)]) else db
  }

  function ClearFailures(db: Db, user: User): Db
    requires user in db.utxos
  {
    db.(utxos := db.utxos[user := db.utxos[user].(failures := 0)])
  }

  /** Gives a payment back to its user. */
  function Refund(db: Db, i: nat): Db
    requires i < |db.payments| && db.payments[i].user in db.utxos
  {
    var p := db.payments[i];
    var u := db.utxos[p.user];
    db.(utxos := db.utxos[p.user := u.(amount := u.amount + p.amount + p.fee, failures := u.failures + p.failures + 1)])
  }

  /** Marks left pending by cancellations that failed half-way. */
  function MarkAll(db: Db, dirty: set<nat>): Db
  {
    db.(payments := seq(|db.payments|, i requires 0 <= i < |db.payments| =>
      if i in dirty then db.payments[i].(state := Expired) else db.payments[i]))
  }

  // ---- The wallet --------------------------------------------------------

  datatype Slate = Slate(locked: bool, cancelled: bool)

  /** The wallet finalizes a slate only while its outputs are locked and it has not been cancelled. */
  predicate CanFinalize(wallet: map<SlateId, Slate>, slate: SlateId)
  {
    slate in wallet && wallet[slate].locked && !wallet[slate].cancelled
  }

  function CancelInWallet(wallet: map<SlateId, Slate>, slate: SlateId): map<SlateId, Slate>
  {
    if slate in wallet then wallet[slate := wallet[slate].(cancelled := true)] else wallet
  }

  /** What the wallet answers about a slate when a payment is to be cancelled. */
  datatype WalletSays = NoRecord | AlreadyCancelled | Live

  // ---- The world ---------------------------------------------------------

  /** The tidy process walks over a list of posted, then over a list of sent payments, in one session. */
  datatype Tidy =
    | Idle
    | Confirming(todo: seq<nat>)
    | Cancelling(todo: seq<nat>, dirty: set<nat>)

  datatype World = World(
    db: Db,
    wallet: map<SlateId, Slate>,
    tidy: Tidy,
    refunds: seq<nat>)       // payments refunded so far, in order (history)

  datatype IssueOutcome = InitFails | RecordFails | LockFails(locked: bool) | Issued

  datatype SendOutcome = SendFails(created: bool) | SendRecordFails | Delivered

  datatype SubmitOutcome = FinalizeFails | SubmitCommitFails | Finalized

  datatype ConfirmOutcome = NotYet | ConfirmCommitFails | OnChain

  datatype CancelOutcome =
    | TooYoung
    | FailsBeforeMark(cancelled: bool)
    | FailsAfterMark
    | CancelCommitFails
    | Cancelled

  datatype Event =
    | BlockFound(height: nat, nonce: nat)
    | UnlocksBlocks(latest: int, locktime: int, expiretime: int, node: map<nat, nat>, commits: bool)
    | PaysBlock(height: nat, entries: seq<Entry>, faults: map<nat, Fault>, commits: bool)
    | IssuesSlate(user: User, slate: SlateId, fee: nat, issue: IssueOutcome)
    | SendsAtomically(user: User, destination: string, slate: SlateId, fee: nat, send: SendOutcome)
    | SubmitsSlate(user: User, slate: SlateId, submit: SubmitOutcome)
    | TidyStarts(posted: seq<nat>)
    | TidyConfirms(confirm: ConfirmOutcome)
    | TidyListsSent(sent: seq<nat>)
    | TidyCancels(says: WalletSays, cancel: CancelOutcome)
    | TidyEnds

  /** The pool block is added once; a second report of the same height is ignored. */
  function FindBlock(db: Db, height: nat, nonce: nat): Db
  {
    if height in db.blocks then db else db.(blocks := db.blocks[height := Block(nonce, New, None)])
  }

  function IssueSlate(w: World, user: User, slate: SlateId, fee: nat, x: IssueOutcome): World
  {
    if !CanPay(w.db, user) || x.InitFails? then w
    else if x.RecordFails? then w.(wallet := w.wallet[slate := Slate(false, false)])
    else
      w.(db := RecordPayment(w.db, user, slate, slate, fee, Sent),
         wallet := w.wallet[slate := Slate(if x.LockFails? then x.locked else true, false)])
  }

  function SendAtomically(w: World, user: User, destination: string, slate: SlateId, fee: nat, x: SendOutcome): World
  {
    if !CanPay(w.db, user) then w
    else if x.SendFails? then (if x.created then w.(wallet := w.wallet[slate := Slate(true, false)]) else w)
    else
      var w1 := w.(wallet := w.wallet[slate := Slate(true, false)]);
      if x.SendRecordFails? then w1
      else w1.(db := RecordPayment(w.db, user, destination, slate, fee, Posted))
  }

  function SubmitSlate(w: World, user: User, slate: SlateId, x: SubmitOutcome): World
  {
    var found := FindPayment(w.db.payments, slate);
    if user !in w.db.utxos || found.None? || !x.Finalized? then w
    else w.(db := SetState(ClearFailures(w.db, user), found.value, Posted))
  }

  function ConfirmNext(w: World, x: ConfirmOutcome): World
    requires w.tidy.Confirming? && w.tidy.todo != []
  {
    var w1 := w.(tidy := Confirming(w.tidy.todo[1..]));
    if x.OnChain? then w1.(db := SetState(w.db, w.tidy.todo[0], Confirmed)) else w1
  }

  /** The payment a cancellation acts on: the first one filed under the slate in the payment's data. */
  function CancelTarget(db: Db, i: nat): (r: Option<nat>)
    ensures r.Some? ==> r.value < |db.payments|
  {
    if i < |db.payments| then FindPayment(db.payments, db.payments[i].slate) else None
  }

  /** Cancel the slate of payment i: wallet first, then the mark, then the refund, then the commit. */
  function CancelSlate(w: World, i: nat, says: WalletSays, x: CancelOutcome): World
    requires w.tidy.Cancelling? && i < |w.db.payments|
  {
    var slate := w.db.payments[i].slate;
    var dirty := w.tidy.dirty + {i};
    var cancels := says.Live? && (x.FailsBeforeMark? ==> x.cancelled);
    var w1 := w.(wallet := if cancels then CancelInWallet(w.wallet, slate) else w.wallet);
    if x.FailsBeforeMark? then w1
    else if x.FailsAfterMark? || w.db.payments[i].user !in w.db.utxos then w1.(tidy := w.tidy.(dirty := dirty))
    else if x.CancelCommitFails? then w1.(tidy := w.tidy.(dirty := {}))
    else
      w1.(tidy := w.tidy.(dirty := {}),
          db := Refund(MarkAll(w.db, dirty), i),
          refunds := w.refunds + [i])
  }

  function CancelNext(w: World, says: WalletSays, x: CancelOutcome): World
    requires w.tidy.Cancelling? && w.tidy.todo != []
  {
    var w1 := w.(tidy := w.tidy.(todo := w.tidy.todo[1..]));
    var target := CancelTarget(w.db, w.tidy.todo[0]);
    if x.TooYoung? || target.None? then w1 else CancelSlate(w1, target.value, says, x)
  }

  function Step(w: World, e: Event): World
  {
    match e
    case BlockFound(height, nonce) => w.(db := FindBlock(w.db, height, nonce))
    case UnlocksBlocks(latest, locktime, expiretime, node, commits) =>
      if commits then w.(db := UnlockBlocks(w.db, latest, locktime, expiretime, node)) else w
    case PaysBlock(height, entries, faults, commits) =>
      if height in w.db.blocks then w.(db := PayBlock(w.db, height, entries, faults, commits)) else w
    case IssuesSlate(user, slate, fee, x) => IssueSlate(w, user, slate, fee, x)
    case SendsAtomically(user, destination, slate, fee, x) => SendAtomically(w, user, destination, slate, fee, x)
    case SubmitsSlate(user, slate, x) => SubmitSlate(w, user, slate, x)
    case TidyStarts(posted) => w.(tidy := Confirming(posted))
    case TidyConfirms(x) => if w.tidy.Confirming? && w.tidy.todo != [] then ConfirmNext(w, x) else w
    case TidyListsSent(sent) => w.(tidy := Cancelling(sent, {}))
    case TidyCancels(says, x) => if w.tidy.Cancelling? && w.tidy.todo != [] then CancelNext(w, says, x) else w
    case TidyEnds => w.(tidy := Idle)
  }

  /** A query result: the payments in a state, each once, in any order. */
  predicate Lists(db: Db, todo: seq<nat>, state: PaymentState)
  {
    && (forall i, j | 0 <= i < j < |todo| :: todo[i] != todo[j])
    && (forall i | i in todo :: i < |db.payments| && db.payments[i].state == state)
  }

  /** The wallet forgets no locked slate, and calls only cancelled ones cancelled. */
  predicate MaySay(wallet: map<SlateId, Slate>, slate: SlateId, says: WalletSays)
  {
    && (says.NoRecord? ==> slate in wallet ==> !wallet[slate].locked)
    && (says.AlreadyCancelled? ==> slate in wallet && wallet[slate].cancelled)
  }

  /** A new slate id: known to nobody, not an address yet, and no web address itself. */
  predicate FreshSlate(w: World, slate: SlateId)
  {
    slate !in w.wallet && !(HTTP <= slate) && forall p | p in w.db.payments :: p.slate != slate && p.address != slate
  }

  /**
   * What the outside world may do: slate ids are fresh, the payment maker pays unlocked blocks with a
   * payout map, the wallet finalizes only what it can and knows every locked slate, and one tidy
   * process runs at a time.
   */
  predicate Possible(w: World, e: Event)
  {
    match e
    case PaysBlock(height, entries, faults, commits) =>
      && height in w.db.blocks && w.db.blocks[height].state == Unlocked
      && (forall i, j | 0 <= i < j < |entries| :: entries[i].user != entries[j].user)
    case IssuesSlate(user, slate, fee, x) => FreshSlate(w, slate)
    case SendsAtomically(user, destination, slate, fee, x) => FreshSlate(w, slate)
    case SubmitsSlate(user, slate, x) => !x.FinalizeFails? ==> CanFinalize(w.wallet, slate)
    case TidyStarts(posted) => w.tidy.Idle? && Lists(w.db, posted, Posted)
    case TidyListsSent(sent) => w.tidy.Confirming? && Lists(w.db, sent, Sent)
    case TidyCancels(says, x) =>
      w.tidy.Cancelling? && w.tidy.todo != [] && w.tidy.todo[0] < |w.db.payments| ==>
        MaySay(w.wallet, w.db.payments[w.tidy.todo[0]].slate, says)
    case _ => true
  }

  const START := World(Db(map[], [], map[], []), map[], Idle, [])

  predicate IsRun(states: seq<World>, events: seq<Event>)
  {
    && |states| == |events| + 1
    && states[0] == START
    && forall i | 0 <= i < |events| :: Possible(states[i], events[i]) && states[i + 1] == Step(states[i], events[i])
  }

  /** The world after some events, from any state. */
  function After(w: World, events: seq<Event>): World
    decreases |events|
  {
    if events == [] then w else After(Step(w, events[0]), events[1..])
  }

  /** Each of the events is possible when its turn comes. */
  predicate CanHappen(w: World, events: seq<Event>)
    decreases |events|
  {
    events == [] || (Possible(w, events[0]) && CanHappen(Step(w, events[0]), events[1..]))
  }

  lemma {:induction false} AfterOneMore(w: World, events: seq<Event>, e: Event)
    ensures After(w, events + [e]) == Step(After(w, events), e)
    ensures CanHappen(w, events + [e]) <==> CanHappen(w, events) && Possible(After(w, events), e)
    decreases |events|
  {
    if events == [] {
      assert [e][1..] == [];
    } else {
      assert (events + [e])[1..] == events[1..] + [e];
      AfterOneMore(Step(w, events[0]), events[1..], e);
    }
  }
}
