/** Two runs of the money services that end where a tidier account would not expect them. */
module LedgerExamples {
  import opened Basics
  import opened Ledger
  import opened LedgerSafety

  const RICH := 2000000000

  const PAID_DB := Db(
    map[1 := Utxo(RICH, 0, 0), 2 := Utxo(RICH, 0, 0)],
    [],
    map[1 := Block(7, Paid, Some(Evidence(100, 10, 1000, 7)))],
    [CreditRecord(1, [Entry(1, RICH), Entry(2, RICH)], 2)])

  const OPENING: seq<Event> := [
    BlockFound(1, 7),
    UnlocksBlocks(100, 10, 1000, map[1 := 7], true),
    PaysBlock(1, [Entry(1, RICH), Entry(2, RICH)], map[], true)]

  lemma OpeningRun(states: seq<World>)
    requires |states| >= 4 && states[0] == START
    requires forall i | 0 <= i < 3 :: states[i + 1] == Step(states[i], OPENING[i])
    ensures states[3] == World(PAID_DB, map[], Idle, [])
    ensures forall i | 0 <= i < 3 :: Possible(states[i], OPENING[i])
  {
    assert states[1].db == Db(map[], [], map[1 := Block(7, New, None)], []);
    var unlocked := Db(map[], [], map[1 := Block(7, Unlocked, Some(Evidence(100, 10, 1000, 7)))], []);
    assert states[2].db == unlocked;
    var entries := [Entry(1, RICH), Entry(2, RICH)];
    var s0 := Session(unlocked, OpenRecord(unlocked, 1, entries));
    var s1 := CreditWorker(s0, entries[0], NoFault).session;
    var s2 := CreditWorker(s1, entries[1], NoFault).session;
    assert CreditAll(s0, entries, 0, map[]) == CreditAll(s1, entries, 1, map[]) == CreditAll(s2, entries, 2, map[]) == Fine(s2);
    assert s2.pending.utxos == PAID_DB.utxos;
    assert s2.pending == PAID_DB;
    assert states[3].db == PAID_DB;
  }

  /** The states a list of events leads through. */
  function StatesFrom(w: World, events: seq<Event>): (states: seq<World>)
    ensures |states| == |events| + 1 && states[0] == w
    ensures forall i | 0 <= i < |events| :: states[i + 1] == Step(states[i], events[i])
    decreases |events|
  {
    if events == [] then [w]
    else
      var rest := StatesFrom(Step(w, events[0]), events[1..]);
      assert forall i | 1 <= i < |events| :: events[1..][i - 1] == events[i];
      [w] + rest
  }

  const TWO_SLATES: seq<Event> := OPENING + [
    IssuesSlate(1, "a", 5, Issued),
    IssuesSlate(2, "b", 5, Issued),
    TidyStarts([]),
    TidyListsSent([0, 1])]

  const FIRST := Payment(1, "a", "a", RICH, 5, 0, Sent)
  const SECOND := Payment(2, "b", "b", RICH, 5, 0, Sent)

  const SLATES_DB := PAID_DB.(
    utxos := map[1 := Utxo(-5, RICH, 0), 2 := Utxo(-5, RICH, 0)],
    payments := [FIRST, SECOND])

  const LISTED := World(SLATES_DB, map["a" := Slate(true, false), "b" := Slate(true, false)], Cancelling([0, 1], {}), [])

  const ONE_SLATE := World(
    PAID_DB.(utxos := map[1 := Utxo(-5, RICH, 0), 2 := Utxo(RICH, 0, 0)], payments := [FIRST]),
    map["a" := Slate(true, false)], Idle, [])

  lemma IssueFirst(w: World)
    requires w == World(PAID_DB, map[], Idle, [])
    ensures Possible(w, IssuesSlate(1, "a", 5, Issued)) && Step(w, IssuesSlate(1, "a", 5, Issued)) == ONE_SLATE
  {
    var w' := Step(w, IssuesSlate(1, "a", 5, Issued));
    assert w'.db.utxos == ONE_SLATE.db.utxos;
  }

  lemma IssueSecond(w: World)
    requires w == ONE_SLATE
    ensures Possible(w, IssuesSlate(2, "b", 5, Issued))
    ensures Step(w, IssuesSlate(2, "b", 5, Issued)) == LISTED.(tidy := Idle)
  {
    var w' := Step(w, IssuesSlate(2, "b", 5, Issued));
    assert w'.db.utxos == SLATES_DB.utxos;
    assert w'.wallet == LISTED.wallet;
  }

  lemma ListSent(w: World)
    requires w == LISTED.(tidy := Idle)
    ensures Possible(w, TidyStarts([])) && Possible(Step(w, TidyStarts([])), TidyListsSent([0, 1]))
    ensures Step(Step(w, TidyStarts([])), TidyListsSent([0, 1])) == LISTED
  {
  }

  lemma TwoSlatesRun(states: seq<World>)
    requires |states| >= 8 && states[0] == START
    requires forall i | 0 <= i < 7 :: states[i + 1] == Step(states[i], TWO_SLATES[i])
    ensures states[7] == LISTED
    ensures forall i | 0 <= i < 7 :: Possible(states[i], TWO_SLATES[i])
  {
    assert forall i | 0 <= i < 3 :: TWO_SLATES[i] == OPENING[i];
    OpeningRun(states);
    assert TWO_SLATES[3] == IssuesSlate(1, "a", 5, Issued);
    IssueFirst(states[3]);
    assert TWO_SLATES[4] == IssuesSlate(2, "b", 5, Issued);
    IssueSecond(states[4]);
    assert TWO_SLATES[5] == TidyStarts([]) && TWO_SLATES[6] == TidyListsSent([0, 1]);
    ListSent(states[5]);
  }

  const MARKED := LISTED.(wallet := map["a" := Slate(true, true), "b" := Slate(true, false)], tidy := Cancelling([1], {0}))

  lemma MarkFirst()
    ensures Possible(LISTED, TidyCancels(Live, FailsAfterMark)) && Step(LISTED, TidyCancels(Live, FailsAfterMark)) == MARKED
  {
    assert CancelTarget(SLATES_DB, 0) == Some(0);
    var w' := Step(LISTED, TidyCancels(Live, FailsAfterMark));
    assert w'.wallet == MARKED.wallet;
    assert w'.tidy == MARKED.tidy;
  }

  lemma CancelSecond()
    ensures Possible(MARKED, TidyCancels(Live, Cancelled)) && CommitsStrayMarks(MARKED, TidyCancels(Live, Cancelled))
    ensures Step(MARKED, TidyCancels(Live, Cancelled)).refunds == [1]
    ensures Step(MARKED, TidyCancels(Live, Cancelled)).db.payments == [FIRST.(state := Expired), SECOND.(state := Expired)]
    ensures 1 in Step(MARKED, TidyCancels(Live, Cancelled)).db.utxos
  {
    assert CancelTarget(SLATES_DB, 1) == Some(1);
  }

  lemma FirstIsLost(w: World)
    requires Inv(w) && w.refunds == [1] && 1 in w.db.utxos
    requires w.db.payments == [FIRST.(state := Expired), SECOND.(state := Expired)]
    ensures 0 in Lost(w) && !AddsUpWithoutExpired(w.db, 1)
  {
    assert 0 in Lost(w) && w.db.payments[0].user == 1;
    LostMoney(w, 1);
  }

  /**
   * A cancellation that fails after marking its payment, followed by one that completes in the same
   * session: the first payment is expired, never refunded, and its user's balance no longer adds up.
   */
  lemma StrayMarkLosesARefund()
    ensures exists states: seq<World>, events: seq<Event> ::
              && IsRun(states, events) && |events| == 9
              && CommitsStrayMarks(states[8], events[8])
              && 0 in Lost(states[9])
              && 1 in states[9].db.utxos && !AddsUpWithoutExpired(states[9].db, 1)
  {
    var last := [TidyCancels(Live, FailsAfterMark), TidyCancels(Live, Cancelled)];
    var events := TWO_SLATES + last;
    var states := StatesFrom(START, events);
    assert forall i | 0 <= i < 7 :: events[i] == TWO_SLATES[i];
    TwoSlatesRun(states);
    assert events[7] == last[0] && events[8] == last[1];
    MarkFirst();
    CancelSecond();
    assert IsRun(states, events) && |states| == 10;
    RunKeeps(states, events, 9);
    assert states[9] == Step(MARKED, TidyCancels(Live, Cancelled));
    FirstIsLost(states[9]);
  }

  const POSTED := LISTED.(db := SLATES_DB.(payments := [FIRST.(state := Posted), SECOND]))

  lemma PostFirst()
    ensures Possible(LISTED, SubmitsSlate(1, "a", Finalized)) && Step(LISTED, SubmitsSlate(1, "a", Finalized)) == POSTED
  {
    assert FindPayment(SLATES_DB.payments, "a") == Some(0);
    assert Step(LISTED, SubmitsSlate(1, "a", Finalized)).db.utxos == SLATES_DB.utxos;
  }

  lemma CancelFirst()
    ensures Possible(POSTED, TidyCancels(Live, Cancelled)) && Step(POSTED, TidyCancels(Live, Cancelled)).refunds == [0]
  {
    assert CancelTarget(POSTED.db, 0) == Some(0);
  }

  /** A payment posted while it is on the cancellation list can still be refunded. */
  lemma ListedPaymentPostedThenRefunded()
    ensures exists states: seq<World>, events: seq<Event> ::
              && IsRun(states, events) && |events| == 9
              && |states[8].db.payments| == 2 && states[8].db.payments[0].state == Posted
              && 0 in states[9].refunds
  {
    var last := [SubmitsSlate(1, "a", Finalized), TidyCancels(Live, Cancelled)];
    var events := TWO_SLATES + last;
    var states := StatesFrom(START, events);
    assert forall i | 0 <= i < 7 :: events[i] == TWO_SLATES[i];
    TwoSlatesRun(states);
    assert events[7] == last[0] && events[8] == last[1];
    PostFirst();
    CancelFirst();
    assert IsRun(states, events);
  }
}
