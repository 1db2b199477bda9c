/**
 The share aggregator: messages accumulate in a cache keyed by height, user and size; commit passes
 move heights that are old enough into rows and add filler rows.
 */
module ShareAggr {
  import opened Basics
  import opened WorkerShares

  type Cache = map<nat, map<nat, map<nat, Tally>>>

  const POOL_USER := 1

  /** Shares of one size to be added for a user at a height. */
  datatype Add = Add(height: nat, user: nat, size: nat, tally: Tally)

  /** One size of a share message, before weighting. */
  datatype Part = Part(size: nat, accepted: nat, rejected: nat, stale: nat)

  datatype Message = Message(height: nat, worker: nat, difficulty: nat, parts: seq<Part>)

  /** Worker zero is booked to the pool user; counts are weighted by the share difficulty. */
  function AddOf(m: Message, p: Part): Add
  {
    Add(m.height, if m.worker == 0 then POOL_USER else m.worker, p.size,
        Tally(p.accepted * m.difficulty, p.rejected * m.difficulty, p.stale * m.difficulty))
  }

  function AtHeight(cache: Cache, h: nat): map<nat, map<nat, Tally>> { if h in cache then cache[h] else map[] }

  function AtUser(users: map<nat, map<nat, Tally>>, u: nat): map<nat, Tally> { if u in users then users[u] else map[] }

  function Cached(cache: Cache, h: nat, u: nat, size: nat): Tally
  {
    AtSize(AtUser(AtHeight(cache, h), u), size)
  }

  function Merge(cache: Cache, a: Add): Cache
  {
    var users := AtHeight(cache, a.height);
    var sizes := AtUser(users, a.user);
    cache[a.height := users[a.user := sizes[a.size := Plus(AtSize(sizes, a.size), a.tally)]]]
  }

  function ApplyAdd(rows: seq<Row>, a: Add): seq<Row>
  {
    var i := FindRow(rows, a.height, a.user, 0);
    if i < |rows| then rows[i := rows[i].(shares := AddShares(rows[i].shares, a.size, 1, a.tally))]
    else rows + [Row(a.height, a.user, AddShares([], a.size, 1, a.tally))]
  }

  function ApplyAdds(rows: seq<Row>, adds: seq<Add>): seq<Row>
  {
    if adds == [] then rows else ApplyAdd(ApplyAdds(rows, adds[..|adds| - 1]), adds[|adds| - 1])
  }

  /** Some of the cached entries of one height, none twice. */
  predicate PartOf(adds: seq<Add>, h: nat, users: map<nat, map<nat, Tally>>)
  {
    && (forall i, j | 0 <= i < j < |adds| :: adds[i].user != adds[j].user || adds[i].size != adds[j].size)
    && (forall a | a in adds :: a.height == h && a.user in users && a.size in users[a.user] && a.tally == users[a.user][a.size])
  }

  /** All cached entries of one height, each once, in any order. */
  predicate Flattens(adds: seq<Add>, h: nat, users: map<nat, map<nat, Tally>>)
  {
    && PartOf(adds, h, users)
    && (forall u, z | u in users && z in users[u] :: Add(h, u, z, users[u][z]) in adds)
  }

  /** Empty rows for the pool user, from a height up to a bound. */
  function Fill(rows: seq<Row>, from: nat, bound: int): seq<Row>
    decreases bound - from
  {
    if from < bound then Fill(rows + [Row(from, POOL_USER, [])], from + 1, bound) else rows
  }

  function FillerStart(rows: seq<Row>, nodeHeight: nat): nat
  {
    if rows == [] then nodeHeight + 1 else LatestHeight(rows) + 1
  }

  // ---- State -------------------------------------------------------------

  datatype State = State(
    cache: Cache,
    rows: seq<Row>,
    handled: seq<Add>)     // everything received so far (history)

  const START := State(map[], [], [])

  function Handle(s: State, a: Add): State
  {
    s.(cache := Merge(s.cache, a), handled := s.handled + [a])
  }

  function CommitKey(s: State, h: nat, adds: seq<Add>): State
  {
    s.(rows := ApplyAdds(s.rows, adds), cache := s.cache - {h})
  }

  /** The rows after a row for the user at the height was created, if there was none. */
  function WithRow(rows: seq<Row>, h: nat, u: nat): seq<Row>
  {
    if FindRow(rows, h, u, 0) < |rows| then rows else rows + [Row(h, u, [])]
  }

  function OpenRow(rows: seq<Row>, h: nat, created: Option<nat>): seq<Row>
  {
    if created.None? then rows else WithRow(rows, h, created.value)
  }

  /** The pass dies after some adds of a key have reached the rows, and perhaps one row that is still empty; the key stays cached. */
  function CrashInKey(s: State, h: nat, adds: seq<Add>, created: Option<nat>): State
  {
    s.(rows := OpenRow(ApplyAdds(s.rows, adds), h, created))
  }

  function Filler(s: State, bound: int, nodeHeight: nat): State
  {
    s.(rows := Fill(s.rows, FillerStart(s.rows, nodeHeight), bound))
  }

  datatype Event =
    | Handles(a: Add)
    | CommitsKey(h: nat, adds: seq<Add>)
    | Crashes(h: nat, adds: seq<Add>, created: Option<nat>)
    | Fills(bound: int, nodeHeight: nat)

  predicate Possible(s: State, e: Event)
  {
    match e
    case CommitsKey(h, adds) => h in s.cache && Flattens(adds, h, s.cache[h])
    case Crashes(h, adds, created) => h in s.cache && PartOf(adds, h, s.cache[h])
    case _ => true
  }

  function Step(s: State, e: Event): State
  {
    match e
    case Handles(a) => Handle(s, a)
    case CommitsKey(h, adds) => CommitKey(s, h, adds)
    case Crashes(h, adds, created) => CrashInKey(s, h, adds, created)
    case Fills(bound, nodeHeight) => Filler(s, bound, nodeHeight)
  }

  predicate IsRun(states: seq<State>, events: seq<Event>)
  {
    && |states| == |events| + 1
    && states[0] == START
    && forall i | 0 <= i < |events| :: Possible(states[i], events[i]) && states[i + 1] == Step(states[i], events[i])
  }

  /** The state after a sequence of steps from any state. */
  function RunFrom(s: State, events: seq<Event>): State
  {
    if events == [] then s else Step(RunFrom(s, events[..|events| - 1]), events[|events| - 1])
  }

  predicate AllPossible(s: State, events: seq<Event>)
  {
    events == [] || (AllPossible(s, events[..|events| - 1]) && Possible(RunFrom(s, events[..|events| - 1]), events[|events| - 1]))
  }

  lemma RunFromAppend(s: State, events: seq<Event>, e: Event)
    requires AllPossible(s, events) && Possible(RunFrom(s, events), e)
    ensures AllPossible(s, events + [e])
    ensures RunFrom(s, events + [e]) == Step(RunFrom(s, events), e)
  {
    assert (events + [e])[..|events|] == events;
  }

  lemma IsRunAppend(states: seq<State>, events: seq<Event>, e: Event)
    requires IsRun(states, events) && Possible(states[|events|], e)
    ensures IsRun(states + [Step(states[|events|], e)], events + [e])
  {
    var states', events' := states + [Step(states[|events|], e)], events + [e];
    forall i | 0 <= i < |events'| ensures Possible(states'[i], events'[i]) && states'[i + 1] == Step(states'[i], events'[i]) {
      assert states'[i] == states[i];
      if i < |events| { assert events'[i] == events[i] && states'[i + 1] == states[i + 1]; }
    }
  }

  /** Steps taken after a run make a longer run. */
  lemma {:induction false} RunExtends(states: seq<State>, events: seq<Event>, more: seq<Event>) returns (states': seq<State>)
    requires IsRun(states, events) && AllPossible(states[|events|], more)
    ensures IsRun(states', events + more) && states'[|events + more|] == RunFrom(states[|events|], more)
    decreases |more|
  {
    if more == [] {
      states' := states;
      assert events + more == events;
    } else {
      var before, e := more[..|more| - 1], more[|more| - 1];
      var states0 := RunExtends(states, events, before);
      IsRunAppend(states0, events + before, e);
      states' := states0 + [Step(states0[|events + before|], e)];
      assert events + more == events + before + [e];
    }
  }

  // ---- Counting ----------------------------------------------------------

  function Matches(a: Add, h: nat, u: nat, size: nat): bool { a.height == h && a.user == u && a.size == size }

  function AddsCount(adds: seq<Add>, h: nat, u: nat, size: nat, k: Kind): nat
  {
    if adds == [] then 0
    else
      var a := adds[|adds| - 1];
      AddsCount(adds[..|adds| - 1], h, u, size, k) + if Matches(a, h, u, size) then Pick(a.tally, k) else 0
  }

  lemma {:induction false} AddsCountConcat(xs: seq<Add>, ys: seq<Add>, h: nat, u: nat, size: nat, k: Kind)
    ensures AddsCount(xs + ys, h, u, size, k) == AddsCount(xs, h, u, size, k) + AddsCount(ys, h, u, size, k)
    decreases |ys|
  {
    if ys == [] {
      assert xs + ys == xs;
    } else {
      assert (xs + ys)[..|xs + ys| - 1] == xs + ys[..|ys| - 1];
      AddsCountConcat(xs, ys[..|ys| - 1], h, u, size, k);
    }
  }

  lemma ApplyAddCounts(rows: seq<Row>, a: Add, h: nat, u: nat, size: nat, k: Kind)
    ensures RowCount(ApplyAdd(rows, a), h, u, size, k)
         == RowCount(rows, h, u, size, k) + if Matches(a, h, u, size) then Pick(a.tally, k) else 0
  {
    var i := FindRow(rows, a.height, a.user, 0);
    if i < |rows| {
      var r := rows[i].(shares := AddShares(rows[i].shares, a.size, 1, a.tally));
      AddSharesCounts(rows[i].shares, a.size, 1, a.tally);
      RowCountUpdate(rows, i, r, h, u, size, k);
    } else {
      AddSharesCounts([], a.size, 1, a.tally);
      RowCountAppend(rows, Row(a.height, a.user, AddShares([], a.size, 1, a.tally)), h, u, size, k);
    }
  }

  lemma {:induction false} ApplyAddsCounts(rows: seq<Row>, adds: seq<Add>, h: nat, u: nat, size: nat, k: Kind)
    ensures RowCount(ApplyAdds(rows, adds), h, u, size, k) == RowCount(rows, h, u, size, k) + AddsCount(adds, h, u, size, k)
    decreases |adds|
  {
    if adds != [] {
      ApplyAddsCounts(rows, adds[..|adds| - 1], h, u, size, k);
      ApplyAddCounts(ApplyAdds(rows, adds[..|adds| - 1]), adds[|adds| - 1], h, u, size, k);
    }
  }

  lemma {:induction false} NoMatchNoCount(adds: seq<Add>, h: nat, u: nat, size: nat, k: Kind)
    requires forall a | a in adds :: !Matches(a, h, u, size)
    ensures AddsCount(adds, h, u, size, k) == 0
    decreases |adds|
  {
    if adds != [] {
      assert adds[|adds| - 1] in adds;
      NoMatchNoCount(adds[..|adds| - 1], h, u, size, k);
    }
  }

  lemma {:induction false} OneMatch(adds: seq<Add>, i: nat, h: nat, u: nat, size: nat, k: Kind)
    requires i < |adds| && Matches(adds[i], h, u, size)
    requires forall j | 0 <= j < |adds| && j != i :: !Matches(adds[j], h, u, size)
    ensures AddsCount(adds, h, u, size, k) == Pick(adds[i].tally, k)
    decreases |adds|
  {
    var last := |adds| - 1;
    if i == last {
      NoMatchNoCount(adds[..last], h, u, size, k);
    } else {
      OneMatch(adds[..last], i, h, u, size, k);
    }
  }

  /** A flattening holds exactly the cached counts, whatever its order. */
  lemma FlatteningCounts(adds: seq<Add>, h: nat, users: map<nat, map<nat, Tally>>, h': nat, u: nat, size: nat, k: Kind)
    requires Flattens(adds, h, users)
    ensures AddsCount(adds, h', u, size, k) == if h' == h then Pick(AtSize(AtUser(users, u), size), k) else 0
  {
    if h' == h && u in users && size in users[u] {
      var i :| 0 <= i < |adds| && adds[i] == Add(h, u, size, users[u][size]);
      OneMatch(adds, i, h, u, size, k);
    } else {
      NoMatchNoCount(adds, h', u, size, k);
    }
  }

  lemma {:induction false} FillCounts(rows: seq<Row>, from: nat, bound: int, h: nat, u: nat, size: nat, k: Kind)
    ensures RowCount(Fill(rows, from, bound), h, u, size, k) == RowCount(rows, h, u, size, k)
    decreases bound - from
  {
    if from < bound {
      RowCountAppend(rows, Row(from, POOL_USER, []), h, u, size, k);
      FillCounts(rows + [Row(from, POOL_USER, [])], from + 1, bound, h, u, size, k);
    }
  }

  // ---- Conservation ------------------------------------------------------

  /** What the first `n` events stored without taking it out of the cache. */
  function CrashedCount(events: seq<Event>, n: nat, h: nat, u: nat, size: nat, k: Kind): nat
    requires n <= |events|
  {
    if n == 0 then 0 else CrashedCount(events, n - 1, h, u, size, k) + StoredByCrash(events[n - 1], h, u, size, k)
  }

  function StoredByCrash(e: Event, h: nat, u: nat, size: nat, k: Kind): nat
  {
    if e.Crashes? then AddsCount(e.adds, h, u, size, k) else 0
  }

  /** Rows plus cache grow by what is handled and by what a dying pass stores. */
  lemma StepConserves(s: State, e: Event, h: nat, u: nat, size: nat, k: Kind)
    requires Possible(s, e)
    ensures var s' := Step(s, e);
            RowCount(s'.rows, h, u, size, k) + Pick(Cached(s'.cache, h, u, size), k) - AddsCount(s'.handled, h, u, size, k)
            == RowCount(s.rows, h, u, size, k) + Pick(Cached(s.cache, h, u, size), k) - AddsCount(s.handled, h, u, size, k)
             + StoredByCrash(e, h, u, size, k)
  {
    match e
    case Handles(a) => assert (s.handled + [a])[..|s.handled|] == s.handled;
    case CommitsKey(c, adds) =>
      ApplyAddsCounts(s.rows, adds, h, u, size, k);
      FlatteningCounts(adds, c, s.cache[c], h, u, size, k);
    case Crashes(c, adds, created) =>
      ApplyAddsCounts(s.rows, adds, h, u, size, k);
      OpeningAddsNothing(ApplyAdds(s.rows, adds), c, created, h, u, size, k);
    case Fills(bound, nodeHeight) => FillCounts(s.rows, FillerStart(s.rows, nodeHeight), bound, h, u, size, k);
  }

  lemma OpeningAddsNothing(rows: seq<Row>, c: nat, created: Option<nat>, h: nat, u: nat, size: nat, k: Kind)
    ensures RowCount(OpenRow(rows, c, created), h, u, size, k) == RowCount(rows, h, u, size, k)
  {
    if created.Some? { RowCountAppend(rows, Row(c, created.value, []), h, u, size, k); }
  }

  /** Conservation over every run, for every height, user, size and kind, with late messages and dying passes in any order. */
  lemma {:induction false} RunConserves(states: seq<State>, events: seq<Event>, n: nat, h: nat, u: nat, size: nat, k: Kind)
    requires IsRun(states, events) && n < |states|
    ensures RowCount(states[n].rows, h, u, size, k) + Pick(Cached(states[n].cache, h, u, size), k)
         == AddsCount(states[n].handled, h, u, size, k) + CrashedCount(events, n, h, u, size, k)
    decreases n
  {
    if n > 0 {
      RunConserves(states, events, n - 1, h, u, size, k);
      StepConserves(states[n - 1], events[n - 1], h, u, size, k);
    }
  }

  /** Rows plus cache equal the messages exactly when no pass of the run died after storing any of these shares. */
  lemma ConservedIffNoneStoredTwice(states: seq<State>, events: seq<Event>, n: nat, h: nat, u: nat, size: nat, k: Kind)
    requires IsRun(states, events) && n < |states|
    ensures RowCount(states[n].rows, h, u, size, k) + Pick(Cached(states[n].cache, h, u, size), k)
              == AddsCount(states[n].handled, h, u, size, k)
       <==> forall i | 0 <= i < n && events[i].Crashes? :: AddsCount(events[i].adds, h, u, size, k) == 0
  {
    RunConserves(states, events, n, h, u, size, k);
    CrashedCountZero(events, n, h, u, size, k);
  }

  lemma {:induction false} CrashedCountZero(events: seq<Event>, n: nat, h: nat, u: nat, size: nat, k: Kind)
    requires n <= |events|
    ensures CrashedCount(events, n, h, u, size, k) == 0
       <==> forall i | 0 <= i < n && events[i].Crashes? :: AddsCount(events[i].adds, h, u, size, k) == 0
    decreases n
  {
    if n > 0 { CrashedCountZero(events, n - 1, h, u, size, k); }
  }

  /** Counting does not depend on the order of the adds. */
  lemma {:induction false} AddsCountPermutation(xs: seq<Add>, ys: seq<Add>, h: nat, u: nat, size: nat, k: Kind)
    requires multiset(xs) == multiset(ys)
    ensures AddsCount(xs, h, u, size, k) == AddsCount(ys, h, u, size, k)
    decreases |xs|
  {
    if xs == [] {
      assert |ys| == |multiset(ys)| == 0;
    } else {
      var last := |xs| - 1;
      var i := WithoutLast(xs, ys);
      AddsCountPermutation(xs[..last], ys[..i] + ys[i + 1..], h, u, size, k);
      AddsCountWithout(ys, i, h, u, size, k);
    }
  }

  lemma WithoutLast(xs: seq<Add>, ys: seq<Add>) returns (i: nat)
    requires xs != [] && multiset(xs) == multiset(ys)
    ensures i < |ys| && ys[i] == xs[|xs| - 1]
    ensures multiset(xs[..|xs| - 1]) == multiset(ys[..i] + ys[i + 1..])
  {
    var last := |xs| - 1;
    var a := xs[last];
    assert a in multiset(ys);
    i :| 0 <= i < |ys| && ys[i] == a;
    assert xs == xs[..last] + [a];
    assert ys == ys[..i] + [a] + ys[i + 1..];
    assert multiset(xs) == multiset(xs[..last]) + multiset{a};
    assert multiset(ys) == multiset(ys[..i]) + multiset{a} + multiset(ys[i + 1..]);
    assert multiset(ys[..i] + ys[i + 1..]) == multiset(ys) - multiset{a};
    assert multiset(xs[..last]) == multiset(xs) - multiset{a};
  }

  lemma AddsCountWithout(ys: seq<Add>, i: nat, h: nat, u: nat, size: nat, k: Kind)
    requires i < |ys|
    ensures AddsCount(ys, h, u, size, k)
         == AddsCount(ys[..i] + ys[i + 1..], h, u, size, k) + if Matches(ys[i], h, u, size) then Pick(ys[i].tally, k) else 0
  {
    AddsCountConcat(ys[..i + 1], ys[i + 1..], h, u, size, k);
    AddsCountConcat(ys[..i], ys[i + 1..], h, u, size, k);
    assert ys[..i + 1] + ys[i + 1..] == ys;
    assert ys[..i + 1][..i] == ys[..i];
  }

  /**
   Two runs without crashes that handled the same adds in any order, with any interleaving of commit
   passes, agree on every count of a height once neither has it cached.
   */
  lemma CommittedIsOrderIndependent(
      first: seq<State>, es: seq<Event>, n: nat, second: seq<State>, fs: seq<Event>, m: nat, h: nat, u: nat, size: nat, k: Kind)
    requires IsRun(first, es) && n < |first| && IsRun(second, fs) && m < |second|
    requires forall i | 0 <= i < n :: !es[i].Crashes?
    requires forall i | 0 <= i < m :: !fs[i].Crashes?
    requires multiset(first[n].handled) == multiset(second[m].handled)
    requires h !in first[n].cache && h !in second[m].cache
    ensures RowCount(first[n].rows, h, u, size, k) == RowCount(second[m].rows, h, u, size, k)
  {
    CrashedCountZero(es, n, h, u, size, k);
    CrashedCountZero(fs, m, h, u, size, k);
    RunConserves(first, es, n, h, u, size, k);
    RunConserves(second, fs, m, h, u, size, k);
    AddsCountPermutation(first[n].handled, second[m].handled, h, u, size, k);
  }

  /** Two orders of the same cached height leave rows with the same counts. */
  lemma CommitOrderIrrelevant(rows: seq<Row>, h: nat, users: map<nat, map<nat, Tally>>, first: seq<Add>, second: seq<Add>)
    requires Flattens(first, h, users) && Flattens(second, h, users)
    ensures forall h', u, size, k ::
              RowCount(ApplyAdds(rows, first), h', u, size, k) == RowCount(ApplyAdds(rows, second), h', u, size, k)
  {
    forall h', u, size, k
      ensures RowCount(ApplyAdds(rows, first), h', u, size, k) == RowCount(ApplyAdds(rows, second), h', u, size, k)
    {
      ApplyAddsCounts(rows, first, h', u, size, k);
      ApplyAddsCounts(rows, second, h', u, size, k);
      FlatteningCounts(first, h, users, h', u, size, k);
      FlatteningCounts(second, h, users, h', u, size, k);
    }
  }

  /** Two keys can be committed in either order. */
  lemma KeyOrderIrrelevant(rows: seq<Row>, first: seq<Add>, second: seq<Add>, h: nat, u: nat, size: nat, k: Kind)
    ensures RowCount(ApplyAdds(ApplyAdds(rows, first), second), h, u, size, k)
         == RowCount(ApplyAdds(ApplyAdds(rows, second), first), h, u, size, k)
  {
    ApplyAddsCounts(rows, first, h, u, size, k);
    ApplyAddsCounts(rows, second, h, u, size, k);
    ApplyAddsCounts(ApplyAdds(rows, first), second, h, u, size, k);
    ApplyAddsCounts(ApplyAdds(rows, second), first, h, u, size, k);
  }

  // ---- Uniqueness of rows ------------------------------------------------

  lemma ApplyAddUnique(rows: seq<Row>, a: Add)
    requires UniqueRows(rows)
    ensures UniqueRows(ApplyAdd(rows, a))
  {
    var i := FindRow(rows, a.height, a.user, 0);
    AddSharesCounts([], a.size, 1, a.tally);
    if i < |rows| {
      assert rows[i] in rows;
      AddSharesCounts(rows[i].shares, a.size, 1, a.tally);
    }
  }

  lemma {:induction false} ApplyAddsUnique(rows: seq<Row>, adds: seq<Add>)
    requires UniqueRows(rows)
    ensures UniqueRows(ApplyAdds(rows, adds))
    decreases |adds|
  {
    if adds != [] {
      ApplyAddsUnique(rows, adds[..|adds| - 1]);
      ApplyAddUnique(ApplyAdds(rows, adds[..|adds| - 1]), adds[|adds| - 1]);
    }
  }

  lemma OpenRowUnique(rows: seq<Row>, h: nat, created: Option<nat>)
    requires UniqueRows(rows)
    ensures UniqueRows(OpenRow(rows, h, created))
  {
    assert forall i | 0 <= i < |rows| :: rows[i] in rows;
  }

  lemma {:induction false} FillUnique(rows: seq<Row>, from: nat, bound: int)
    requires UniqueRows(rows) && forall r | r in rows :: r.height < from
    ensures UniqueRows(Fill(rows, from, bound))
    decreases bound - from
  {
    if from < bound {
      var rows' := rows + [Row(from, POOL_USER, [])];
      assert forall i | 0 <= i < |rows| :: rows[i] in rows && rows'[i] == rows[i];
      FillUnique(rows', from + 1, bound);
    }
  }

  /** In every reachable state a height and user have one row, and a row has one entry per size. */
  lemma {:induction false} RowsStayUnique(states: seq<State>, events: seq<Event>, n: nat)
    requires IsRun(states, events) && n < |states|
    ensures UniqueRows(states[n].rows)
    decreases n
  {
    if n > 0 {
      RowsStayUnique(states, events, n - 1);
      var s := states[n - 1];
      match events[n - 1]
      case Handles(a) =>
      case CommitsKey(h, adds) => ApplyAddsUnique(s.rows, adds);
      case Crashes(h, adds, created) =>
        ApplyAddsUnique(s.rows, adds);
        OpenRowUnique(ApplyAdds(s.rows, adds), h, created);
      case Fills(bound, nodeHeight) => FillUnique(s.rows, FillerStart(s.rows, nodeHeight), bound);
    }
  }

  // ---- Difficulty of entries ---------------------------------------------

  /** Counts are weighted when they are cached, so every entry is stored with difficulty 1. */
  predicate AllOnes(rows: seq<Row>)
  {
    forall r, s | r in rows && s in r.shares :: s.difficulty == 1
  }

  lemma AddKeepsOnes(rows: seq<Row>, a: Add)
    requires AllOnes(rows)
    ensures AllOnes(ApplyAdd(rows, a))
  {
    var i := FindRow(rows, a.height, a.user, 0);
    var shares := if i < |rows| then rows[i].shares else [];
    var after := AddShares(shares, a.size, 1, a.tally);
    assert i < |rows| ==> rows[i] in rows;
    forall s | s in after ensures s.difficulty == 1 {
      var j := FindSize(shares, a.size, 0);
      var k :| 0 <= k < |after| && after[k] == s;
      assert k < |shares| ==> shares[k] in shares;
    }
  }

  lemma {:induction false} AddsKeepOnes(rows: seq<Row>, adds: seq<Add>)
    requires AllOnes(rows)
    ensures AllOnes(ApplyAdds(rows, adds))
    decreases |adds|
  {
    if adds != [] {
      AddsKeepOnes(rows, adds[..|adds| - 1]);
      AddKeepsOnes(ApplyAdds(rows, adds[..|adds| - 1]), adds[|adds| - 1]);
    }
  }

  lemma {:induction false} EntriesHaveDifficultyOne(states: seq<State>, events: seq<Event>, n: nat)
    requires IsRun(states, events) && n < |states|
    ensures AllOnes(states[n].rows)
    decreases n
  {
    if n > 0 {
      EntriesHaveDifficultyOne(states, events, n - 1);
      var s := states[n - 1];
      match events[n - 1]
      case Handles(a) =>
      case CommitsKey(h, adds) => AddsKeepOnes(s.rows, adds);
      case Crashes(h, adds, created) => AddsKeepOnes(s.rows, adds);
      case Fills(bound, nodeHeight) => FillShape(s.rows, FillerStart(s.rows, nodeHeight), bound);
    }
  }

  // ---- Fillers -----------------------------------------------------------

  /** Filling adds one empty row for each missing height, and nothing else. */
  lemma {:induction false} FillShape(rows: seq<Row>, from: nat, bound: int)
    ensures Fill(rows, from, bound)
         == rows + seq(if from < bound then bound - from else 0, i requires 0 <= i => Row(from + i, 1, []))
    decreases bound - from
  {
    if from < bound {
      FillShape(rows + [Row(from, POOL_USER, [])], from + 1, bound);
    }
  }

  /** After the filler loop the latest row is at the bound or beyond, unless there was no row to start from. */
  lemma FillerReaches(rows: seq<Row>, bound: int, nodeHeight: nat)
    ensures var rows' := Fill(rows, FillerStart(rows, nodeHeight), bound);
            (rows' != [] && LatestHeight(rows') >= bound - 1) <==>
              rows != [] || (nodeHeight + 1 < bound)
  {
    var from := FillerStart(rows, nodeHeight);
    var rows' := Fill(rows, from, bound);
    FillShape(rows, from, bound);
    if from < bound {
      var last := rows'[|rows'| - 1];
      assert last == Row(bound - 1, POOL_USER, []) && last in rows';
    } else {
      assert rows' == rows;
    }
  }

  /** A height below the latest row that has no row gets none: only the top is filled. */
  lemma EarlierGapsStay(rows: seq<Row>, bound: int, nodeHeight: nat, h: nat)
    requires rows != [] && h < LatestHeight(rows)
    requires forall r | r in rows :: r.height != h
    ensures forall r | r in Fill(rows, FillerStart(rows, nodeHeight), bound) :: r.height != h
  {
    FillShape(rows, FillerStart(rows, nodeHeight), bound);
  }

  lemma FillOneMore(rows: seq<Row>, from: nat, to: nat)
    requires from <= to
    ensures Fill(rows, from, to + 1) == Fill(rows, from, to) + [Row(to, POOL_USER, [])]
  {
    FillShape(rows, from, to);
    FillShape(rows, from, to + 1);
  }

  // ---- Stored twice ------------------------------------------------------

  /** A pass that dies once its shares are stored, and one that does not. */
  function DyingRun(a: Add): seq<Event> { [Handles(a), Crashes(a.height, [a], None), CommitsKey(a.height, [a])] }

  function DyingStates(a: Add): seq<State>
  {
    var s1 := Step(START, DyingRun(a)[0]);
    var s2 := Step(s1, DyingRun(a)[1]);
    [START, s1, s2, Step(s2, DyingRun(a)[2])]
  }

  lemma OneAddFlattens(a: Add)
    ensures Step(START, Handles(a)).cache == map[a.height := map[a.user := map[a.size := a.tally]]]
    ensures Flattens([a], a.height, map[a.user := map[a.size := a.tally]])
  {
    assert Plus(Tally(0, 0, 0), a.tally) == a.tally;
    assert a in [a];
  }

  /** Whatever is handled once, the two passes store twice. */
  lemma DyingPassStoresTwice(a: Add, k: Kind)
    ensures IsRun(DyingStates(a), DyingRun(a))
    ensures AddsCount(DyingStates(a)[3].handled, a.height, a.user, a.size, k) == Pick(a.tally, k)
    ensures RowCount(DyingStates(a)[3].rows, a.height, a.user, a.size, k) == 2 * Pick(a.tally, k)
  {
    var states, events := DyingStates(a), DyingRun(a);
    OneAddFlattens(a);
    assert Possible(states[1], events[1]) && Possible(states[2], events[2]);
    assert IsRun(states, events);
    assert states[3].cache == map[];
    assert states[3].handled == [a];
    OneAddCounts(a, k);
    RunConserves(states, events, 3, a.height, a.user, a.size, k);
    CrashedOnce(a, k);
  }

  lemma OneAddCounts(a: Add, k: Kind)
    ensures AddsCount([a], a.height, a.user, a.size, k) == Pick(a.tally, k)
  {
    assert [a][..0] == [];
  }

  lemma CrashedOnce(a: Add, k: Kind)
    ensures CrashedCount(DyingRun(a), 3, a.height, a.user, a.size, k) == Pick(a.tally, k)
  {
    OneAddCounts(a, k);
    assert CrashedCount(DyingRun(a), 1, a.height, a.user, a.size, k) == 0;
    assert CrashedCount(DyingRun(a), 2, a.height, a.user, a.size, k) == Pick(a.tally, k);
  }
}
