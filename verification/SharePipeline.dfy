/** The aggregator process: the share cache, the table of rows and one commit pass, updated in place. */
module SharePipeline {
  import opened Basics
  import opened Sums
  import opened WorkerShares
  import opened ShareAggr

  /** The steps a message makes: one for each of its first `n` sizes. */
  function StepsOf(m: Message, n: nat): (events: seq<Event>)
    requires n <= |m.parts|
  {
    if n == 0 then [] else StepsOf(m, n - 1) + [Handles(AddOf(m, m.parts[n - 1]))]
  }

  function CountOf(p: Part, k: Kind): nat
  {
    match k
    case Valid => p.accepted
    case Invalid => p.rejected
    case Stale => p.stale
  }

  function PayeeOf(m: Message): nat { if m.worker == 0 then POOL_USER else m.worker }

  /** The unweighted shares of a kind that one part of a message reports for a height, user and size. */
  function PartFor(m: Message, p: Part, h: nat, u: nat, size: nat, k: Kind): nat
  {
    if m.height == h && PayeeOf(m) == u && p.size == size then CountOf(p, k) else 0
  }

  /** Likewise for the first `n` parts. */
  function Reported(m: Message, n: nat, h: nat, u: nat, size: nat, k: Kind): nat
    requires n <= |m.parts|
  {
    if n == 0 then 0 else Reported(m, n - 1, h, u, size, k) + PartFor(m, m.parts[n - 1], h, u, size, k)
  }

  function Weighed(m: Message, count: nat): nat { count * m.difficulty }

  /** The first parts of a message are handled as their counts, weighed. */
  lemma {:induction false} PartsAreWeighed(s: State, m: Message, n: nat, h: nat, u: nat, size: nat, k: Kind)
    requires n <= |m.parts|
    ensures AddsCount(RunFrom(s, StepsOf(m, n)).handled, h, u, size, k)
         == AddsCount(s.handled, h, u, size, k) + Weighed(m, Reported(m, n, h, u, size, k))
    decreases n
  {
    if n == 0 {
      assert Weighed(m, 0) == 0;
    } else {
      PartsAreWeighed(s, m, n - 1, h, u, size, k);
      LastPartIsAdded(s, m, n, h, u, size, k);
      WeighedSum(m, Reported(m, n - 1, h, u, size, k), PartFor(m, m.parts[n - 1], h, u, size, k));
    }
  }

  /** The shares of a kind that a message reports under a size. */
  function SharesUnder(m: Message, n: nat, size: nat, k: Kind): nat
    requires n <= |m.parts|
  {
    if n == 0 then 0
    else
      var p := m.parts[n - 1];
      SharesUnder(m, n - 1, size, k)
      + if p.size != size then 0 else if k == Valid then p.accepted else if k == Invalid then p.rejected else p.stale
  }

  lemma {:induction false} ReportedIsForThePayee(m: Message, n: nat, h: nat, u: nat, size: nat, k: Kind)
    requires n <= |m.parts|
    ensures Reported(m, n, h, u, size, k)
         == if m.height == h && u == (if m.worker == 0 then 1 else m.worker) then SharesUnder(m, n, size, k) else 0
    decreases n
  {
    if n > 0 { ReportedIsForThePayee(m, n - 1, h, u, size, k); }
  }

  /**
   A message is handled as its counts times its difficulty, for its own height and its own worker, or user 1
   when the worker is 0, and for nobody else.
   */
  lemma MessageIsWeighted(s: State, m: Message, h: nat, u: nat, size: nat, k: Kind)
    ensures AddsCount(RunFrom(s, StepsOf(m, |m.parts|)).handled, h, u, size, k)
         == AddsCount(s.handled, h, u, size, k)
          + if m.height == h && u == (if m.worker == 0 then 1 else m.worker)
            then SharesUnder(m, |m.parts|, size, k) * m.difficulty else 0
  {
    PartsAreWeighed(s, m, |m.parts|, h, u, size, k);
    ReportedIsForThePayee(m, |m.parts|, h, u, size, k);
  }

  /** A message that is delivered again after its handler died is booked once exactly when the first try booked none of these shares. */
  lemma RedeliveredIsBookedOnceIff(s: State, m: Message, n: nat, h: nat, u: nat, size: nat, k: Kind)
    requires n <= |m.parts|
    ensures var s' := RunFrom(RunFrom(s, StepsOf(m, n)), StepsOf(m, |m.parts|));
            && AddsCount(s'.handled, h, u, size, k)
               == AddsCount(s.handled, h, u, size, k) + Weighed(m, Reported(m, n, h, u, size, k)) + Weighed(m, Reported(m, |m.parts|, h, u, size, k))
            && (AddsCount(s'.handled, h, u, size, k)
                == AddsCount(s.handled, h, u, size, k) + Weighed(m, Reported(m, |m.parts|, h, u, size, k))
                <==> m.difficulty == 0 || Reported(m, n, h, u, size, k) == 0)
  {
    PartsAreWeighed(s, m, n, h, u, size, k);
    PartsAreWeighed(RunFrom(s, StepsOf(m, n)), m, |m.parts|, h, u, size, k);
    WeighedZero(m, Reported(m, n, h, u, size, k));
  }

  lemma WeighedZero(m: Message, count: nat)
    ensures Weighed(m, count) == 0 <==> m.difficulty == 0 || count == 0
  {}

  lemma WeighedSum(m: Message, a: nat, b: nat)
    ensures Weighed(m, a + b) == Weighed(m, a) + Weighed(m, b)
  {}

  lemma LastPartIsAdded(s: State, m: Message, n: nat, h: nat, u: nat, size: nat, k: Kind)
    requires 0 < n <= |m.parts|
    ensures AddsCount(RunFrom(s, StepsOf(m, n)).handled, h, u, size, k)
         == AddsCount(RunFrom(s, StepsOf(m, n - 1)).handled, h, u, size, k) + Weighed(m, PartFor(m, m.parts[n - 1], h, u, size, k))
  {
    var events, a := StepsOf(m, n - 1), AddOf(m, m.parts[n - 1]);
    assert (events + [Handles(a)])[..|events|] == events;
    var handled := RunFrom(s, events).handled;
    assert (handled + [a])[..|handled|] == handled;
    assert Pick(a.tally, k) == Weighed(m, CountOf(m.parts[n - 1], k));
    assert Weighed(m, 0) == 0;
  }

  /** No user is cached without a size. */
  predicate Inhabited(users: map<nat, map<nat, Tally>>) { forall u | u in users :: users[u].Keys != {} }

  /** All cached entries of one user, each once. */
  predicate FlattensUser(adds: seq<Add>, h: nat, u: nat, sizes: map<nat, Tally>, done: set<nat>)
  {
    && (forall i, j | 0 <= i < j < |adds| :: adds[i].size != adds[j].size)
    && (forall a | a in adds :: a.height == h && a.user == u && a.size in done && a.size in sizes && a.tally == sizes[a.size])
    && (forall z | z in sizes && z in done :: Add(h, u, z, sizes[z]) in adds)
  }

  /** All cached entries of a set of users, each once. */
  predicate FlattensUsers(adds: seq<Add>, h: nat, users: map<nat, map<nat, Tally>>, done: set<nat>)
  {
    && PartOf(adds, h, users)
    && (forall a | a in adds :: a.user in done)
    && (forall u, z | u in users && u in done && z in users[u] :: Add(h, u, z, users[u][z]) in adds)
  }

  lemma {:induction false} ApplyAddsConcat(rows: seq<Row>, xs: seq<Add>, ys: seq<Add>)
    ensures ApplyAdds(rows, xs + ys) == ApplyAdds(ApplyAdds(rows, xs), ys)
    decreases |ys|
  {
    if ys == [] {
      assert xs + ys == xs;
    } else {
      assert (xs + ys)[..|xs + ys| - 1] == xs + ys[..|ys| - 1];
      ApplyAddsConcat(rows, xs, ys[..|ys| - 1]);
    }
  }

  /** Creating the row first and then adding to it is adding to the table. */
  lemma AddToCreatedRow(rows: seq<Row>, a: Add)
    ensures var rows' := WithRow(rows, a.height, a.user);
            var i := FindRow(rows', a.height, a.user, 0);
            && i < |rows'|
            && ApplyAdd(rows, a) == rows'[i := rows'[i].(shares := AddShares(rows'[i].shares, a.size, 1, a.tally))]
            && WithRow(ApplyAdd(rows, a), a.height, a.user) == ApplyAdd(rows, a)
  {
    var rows' := WithRow(rows, a.height, a.user);
    var i := FindRow(rows', a.height, a.user, 0);
    if FindRow(rows, a.height, a.user, 0) == |rows| {
      assert rows'[|rows|] == Row(a.height, a.user, []);
      assert i == |rows|;
    }
    var after := ApplyAdd(rows, a);
    assert after[i].height == a.height && after[i].user == a.user;
  }

  lemma FlattenOneMore(adds: seq<Add>, h: nat, u: nat, sizes: map<nat, Tally>, done: set<nat>, size: nat)
    requires FlattensUser(adds, h, u, sizes, done) && size in sizes && size !in done
    ensures FlattensUser(adds + [Add(h, u, size, sizes[size])], h, u, sizes, done + {size})
  {
    var all := adds + [Add(h, u, size, sizes[size])];
    forall i, j | 0 <= i < j < |all| ensures all[i].size != all[j].size {
      assert all[i] in adds;
    }
    assert all[|adds|] in all;
  }

  /** Adding the sizes of one more user, all of them or all but `rest`. */
  lemma JoinFlattenings(
      adds: seq<Add>, more: seq<Add>, h: nat, users: map<nat, map<nat, Tally>>, done: set<nat>, u: nat, rest: set<nat>)
    requires FlattensUsers(adds, h, users, done) && u in users && u !in done
    requires FlattensUser(more, h, u, users[u], users[u].Keys - rest)
    ensures PartOf(adds + more, h, users)
    ensures rest == {} ==> FlattensUsers(adds + more, h, users, done + {u})
  {
    var all := adds + more;
    forall i, j | 0 <= i < j < |all| ensures all[i].user != all[j].user || all[i].size != all[j].size {
      if j < |adds| {
      } else if i < |adds| {
        assert all[i] in adds && all[j] in more;
      }
    }
    if rest == {} {
      forall v, z | v in users && v in done + {u} && z in users[v] ensures Add(h, v, z, users[v][z]) in all {
        if v == u { assert Add(h, u, z, users[u][z]) in more; }
      }
    }
  }

  /** Every prefix of a partial flattening is one. */
  lemma PrefixIsPart(adds: seq<Add>, firm: seq<Add>, h: nat, users: map<nat, map<nat, Tally>>)
    requires PartOf(adds, h, users) && firm <= adds
    ensures PartOf(firm, h, users)
  {
    assert forall a | a in firm :: a in adds;
  }

  /** `committed` is what the session has committed: a prefix of the adds, and the row created last. */
  ghost predicate Committed(committed: seq<Row>, first: seq<Row>, h: nat, adds: seq<Add>, firm: seq<Add>, created: Option<nat>)
  {
    firm <= adds && committed == OpenRow(ApplyAdds(first, firm), h, created)
  }

  /** How much a pass can still do before it dies; a pass without a limit does not die. */
  predicate CanGoOn(left: Option<nat>) { left.None? || left.value > 0 }

  function Spend(left: Option<nat>): Option<nat>
    requires CanGoOn(left)
  {
    if left.None? then None else Some(left.value - 1)
  }

  class Aggregator {
    var cache: Cache
    var rows: seq<Row>        // as the session sees them
    var committed: seq<Row>
    ghost var handled: seq<Add>
    ghost var states: seq<State>
    ghost var events: seq<Event>

    ghost function View(): State
      reads this
    {
      State(cache, rows, handled)
    }

    ghost predicate Sound()
      reads this
    {
      forall h | h in cache :: Inhabited(cache[h])
    }

    /** Nothing is pending, and the object is where a run of the specification has led. */
    ghost predicate Valid()
      reads this
    {
      && Sound() && committed == rows
      && IsRun(states, events) && states[|events|] == View()
    }

    constructor ()
      ensures Valid() && View() == START
    {
      cache, rows, committed, handled := map[], [], [], [];
      states, events := [START], [];
    }

    /**
     A share message: every size it reports is merged into the cached record of its height, unless the handler
     dies after some of them. Then the message is not acknowledged and will be delivered again.
     */
    method AddWorkerShares(m: Message, budget: nat) returns (acknowledged: bool)
      requires Valid()
      modifies this
      ensures Valid() && (acknowledged <==> |m.parts| <= budget)
      ensures var steps := StepsOf(m, if |m.parts| <= budget then |m.parts| else budget);
              events == old(events) + steps && View() == RunFrom(old(View()), steps)
    {
      var n := if |m.parts| <= budget then |m.parts| else budget;
      MergeParts(m, n);
      states := RunExtends(states, events, StepsOf(m, n));
      events := events + StepsOf(m, n);
      acknowledged := n == |m.parts|;
    }

    /** The first `n` sizes of a message. */
    method MergeParts(m: Message, n: nat)
      requires Sound() && n <= |m.parts|
      modifies this`cache, this`handled
      ensures Sound()
      ensures AllPossible(old(View()), StepsOf(m, n))
      ensures View() == RunFrom(old(View()), StepsOf(m, n))
    {
      var i := 0;
      while i < n
        invariant 0 <= i <= n && Sound()
        invariant AllPossible(old(View()), StepsOf(m, i)) && View() == RunFrom(old(View()), StepsOf(m, i))
      {
        var p := m.parts[i];
        var worker := if m.worker == 0 then POOL_USER else m.worker;
        var t := Tally(p.accepted * m.difficulty, p.rejected * m.difficulty, p.stale * m.difficulty);
        MergeIn(m.height, worker, p.size, t);
        RunFromAppend(old(View()), StepsOf(m, i), Handles(AddOf(m, p)));
        i := i + 1;
      }
    }

    /** The nested dictionary update of one size. */
    method MergeIn(h: nat, u: nat, size: nat, t: Tally)
      requires Sound()
      modifies this`cache, this`handled
      ensures Sound()
      ensures View() == Handle(old(View()), Add(h, u, size, t))
    {
      var users: map<nat, map<nat, Tally>> := if h in cache then cache[h] else map[];
      var sizes: map<nat, Tally> := if u in users then users[u] else map[];
      if size !in sizes {
        sizes := sizes[size := Tally(0, 0, 0)];
      }
      sizes := sizes[size := Plus(sizes[size], t)];
      users := users[u := sizes];
      cache := cache[h := users];
      handled := handled + [Add(h, u, size, t)];
      assert AtUser(AtHeight(old(cache), h), u)[size := sizes[size]] == sizes;
    }

    /** Finds the user's row or creates it, which commits all that is pending. */
    method FindOrCreate(h: nat, u: nat) returns (created: bool)
      modifies this`rows, this`committed
      ensures rows == WithRow(old(rows), h, u)
      ensures committed == if created then rows else old(committed)
    {
      created := FindRow(rows, h, u, 0) == |rows|;
      if created {
        rows := rows + [Row(h, u, [])];
        committed := rows;
      }
    }

    /** The sizes of a user, as many as can be stored, added to the user's row. */
    method StoreSizes(h: nat, u: nat, sizes: map<nat, Tally>, budget: Option<nat>, ghost first: seq<Row>)
      returns (done: bool, left: Option<nat>, ghost todo: set<nat>, ghost adds: seq<Add>)
      requires rows == WithRow(first, h, u)
      modifies this`rows
      ensures done <==> todo == {}
      ensures FlattensUser(adds, h, u, sizes, sizes.Keys - todo)
      ensures budget.None? ==> done && left.None?
      ensures rows == WithRow(ApplyAdds(first, adds), h, u)
      ensures done && sizes.Keys != {} ==> rows == ApplyAdds(first, adds)
    {
      adds, left := [], budget;
      var rest := sizes.Keys;
      while rest != {} && CanGoOn(left)
        invariant rest <= sizes.Keys
        invariant FlattensUser(adds, h, u, sizes, sizes.Keys - rest)
        invariant rows == WithRow(ApplyAdds(first, adds), h, u)
        invariant rest == sizes.Keys || rows == ApplyAdds(first, adds)
        invariant budget.None? ==> left.None?
        decreases rest
      {
        var size :| size in rest;
        StoreSize(h, u, size, sizes[size], first, adds);
        FlattenOneMore(adds, h, u, sizes, sizes.Keys - rest, size);
        adds := adds + [Add(h, u, size, sizes[size])];
        TakenIsDone(sizes.Keys, rest, size);
        rest, left := rest - {size}, Spend(left);
      }
      done, todo := rest == {}, rest;
    }

    /** add_shares on the user's row. */
    method StoreSize(h: nat, u: nat, size: nat, t: Tally, ghost first: seq<Row>, ghost adds: seq<Add>)
      requires rows == WithRow(ApplyAdds(first, adds), h, u)
      modifies this`rows
      ensures rows == ApplyAdds(first, adds + [Add(h, u, size, t)]) == WithRow(rows, h, u)
    {
      ghost var a := Add(h, u, size, t);
      AddToCreatedRow(ApplyAdds(first, adds), a);
      assert (adds + [a])[..|adds|] == adds;
      var i := FindRow(rows, h, u, 0);
      rows := rows[i := rows[i].(shares := AddShares(rows[i].shares, size, 1, t))];
    }

    /** One user of a cached height: the row first, then the sizes. */
    method StoreUser(
        h: nat, u: nat, sizes: map<nat, Tally>, budget: Option<nat>,
        ghost first: seq<Row>, ghost adds: seq<Add>, ghost firm: seq<Add>, ghost created: Option<nat>)
      returns (done: bool, left: Option<nat>, ghost todo: set<nat>, ghost more: seq<Add>, ghost firm': seq<Add>, ghost created': Option<nat>)
      requires sizes.Keys != {} && rows == ApplyAdds(first, adds)
      requires Committed(committed, first, h, adds, firm, created)
      modifies this`rows, this`committed
      ensures done <==> todo == {}
      ensures FlattensUser(more, h, u, sizes, sizes.Keys - todo)
      ensures budget.None? ==> done && left.None?
      ensures rows == if done then ApplyAdds(first, adds + more) else WithRow(ApplyAdds(first, adds + more), h, u)
      ensures Committed(committed, first, h, adds + more, firm', created')
    {
      firm', created' := firm, created;
      var isNew := FindOrCreate(h, u);
      if isNew {
        firm', created' := adds, Some(u);
      }
      done, left, todo, more := StoreSizes(h, u, sizes, budget, old(rows));
      ApplyAddsConcat(first, adds, more);
    }

    /**
     The users of a cached height in any order, until what can be done runs out. `firm` are the adds committed
     on the way; `half` is a user whose row has been opened and may not hold all sizes yet.
     */
    method StoreUsers(h: nat, users: map<nat, map<nat, Tally>>, budget: Option<nat>)
      returns (ok: bool, left: Option<nat>, ghost adds: seq<Add>, ghost half: Option<nat>, ghost firm: seq<Add>, ghost created: Option<nat>)
      requires Inhabited(users) && committed == rows
      modifies this`rows, this`committed
      ensures PartOf(adds, h, users)
      ensures ok ==> half == None && Flattens(adds, h, users)
      ensures budget.None? ==> ok && left.None?
      ensures rows == OpenRow(ApplyAdds(old(rows), adds), h, half)
      ensures Committed(committed, old(rows), h, adds, firm, created)
    {
      left, adds, half, firm, created := budget, [], None, [], None;
      var todo := users.Keys;
      while todo != {} && CanGoOn(left)
        invariant todo <= users.Keys
        invariant FlattensUsers(adds, h, users, users.Keys - todo)
        invariant rows == ApplyAdds(old(rows), adds)
        invariant Committed(committed, old(rows), h, adds, firm, created)
        invariant budget.None? ==> left.None?
        decreases todo
      {
        var u :| u in todo;
        var done;
        ghost var rest, more;
        done, left, rest, more, firm, created := StoreUser(h, u, users[u], Spend(left), old(rows), adds, firm, created);
        JoinFlattenings(adds, more, h, users, users.Keys - todo, u, rest);
        adds := adds + more;
        if !done {
          half := Some(u);
          return false, left, adds, half, firm, created;
        }
        TakenIsDone(users.Keys, todo, u);
        todo := todo - {u};
      }
      ok := todo == {};
      if ok { assert users.Keys - todo == users.Keys; }
    }

    /**
     One cached height. The pass dies when what it can still do runs out. Then either the pending shares are
     committed after all, or a failed commit rolls them back to the row created last. Only a complete height
     leaves the cache.
     */
    method CommitHeight(h: nat, budget: Option<nat>, rollsBack: bool) returns (ok: bool, left: Option<nat>, ghost e: Event)
      requires Sound() && committed == rows && h in cache
      modifies this`cache, this`rows, this`committed
      ensures Sound() && committed == rows
      ensures (if ok then e.CommitsKey? else e.Crashes?) && e.h == h
      ensures Possible(old(View()), e) && View() == Step(old(View()), e)
      ensures budget.None? ==> ok && left.None?
      ensures ok ==> |rows| >= |old(rows)|
    {
      var users := cache[h];
      ghost var adds, half, firm, created;
      ok, left, adds, half, firm, created := StoreUsers(h, users, budget);
      ok := ok && CanGoOn(left);
      if ok {
        ApplyAddsGrows(old(rows), adds);
        committed := rows;
        e := CommitsKey(h, adds);
        cache := cache - {h};
        left := Spend(left);
      } else if rollsBack {
        PrefixIsPart(adds, firm, h, users);
        rows := committed;
        e := Crashes(h, firm, created);
      } else {
        committed := rows;
        e := Crashes(h, adds, half);
      }
    }

    /** Empty rows above the latest one, each committed, up to the bound or until the pass dies. */
    method FillRows(bound: int, nodeHeight: nat, budget: Option<nat>) returns (ok: bool, ghost reached: int)
      requires committed == rows
      modifies this`rows, this`committed
      ensures committed == rows == Fill(old(rows), FillerStart(old(rows), nodeHeight), reached)
      ensures ok ==> reached == bound
      ensures budget.None? ==> ok
    {
      var left := budget;
      var height := if rows == [] then nodeHeight else LatestHeight(rows);
      height := height + 1;
      ghost var start := height;
      while height < bound && CanGoOn(left)
        invariant start <= height && (height <= bound || height == start)
        invariant committed == rows == Fill(old(rows), start, height)
        invariant budget.None? ==> left.None?
        decreases bound - height
      {
        FillOneMore(old(rows), start, height);
        rows := rows + [Row(height, POOL_USER, [])];
        committed := rows;
        height, left := height + 1, Spend(left);
      }
      ok := height >= bound;
      reached := if ok then bound else height;
    }

    /**
     One commit pass: the cached heights below the bound, in any order, then the fillers. Whether it
     finishes or dies, it is a sequence of steps of the specification; without a limit it finishes.
     */
    method CommitPass(chainHeight: nat, maxLag: nat, nodeHeight: nat, budget: Option<nat>, rollsBack: bool) returns (ok: bool, ghost steps: seq<Event>)
      requires Valid()
      modifies this
      ensures Valid() && events == old(events) + steps
      ensures View() == RunFrom(old(View()), steps)
      ensures budget.None? ==> ok
      ensures handled == old(handled) && (ok ==> forall e | e in steps :: !e.Crashes?)
      ensures cache.Keys <= old(cache.Keys)
      ensures forall h | h in old(cache) && h >= chainHeight - maxLag :: h in cache && cache[h] == old(cache)[h]
      ensures ok ==> forall h | h in cache :: h >= chainHeight - maxLag
      ensures ok && (old(rows) != [] || nodeHeight + 1 < chainHeight - maxLag) ==>
                rows != [] && LatestHeight(rows) >= chainHeight - maxLag - 1
    {
      ok, steps := CommitAndFill(chainHeight - maxLag, nodeHeight, budget, rollsBack);
      states := RunExtends(states, events, steps);
      events := events + steps;
    }

    method CommitAndFill(bound: int, nodeHeight: nat, budget: Option<nat>, rollsBack: bool) returns (ok: bool, ghost steps: seq<Event>)
      requires Sound() && committed == rows
      modifies this`cache, this`rows, this`committed
      ensures Sound() && committed == rows
      ensures AllPossible(old(View()), steps) && View() == RunFrom(old(View()), steps)
      ensures budget.None? ==> ok
      ensures ok ==> forall e | e in steps :: !e.Crashes?
      ensures cache.Keys <= old(cache.Keys)
      ensures forall h | h in old(cache) && h >= bound :: h in cache && cache[h] == old(cache)[h]
      ensures ok ==> forall h | h in cache :: h >= bound
      ensures ok && (old(rows) != [] || nodeHeight + 1 < bound) ==> rows != [] && LatestHeight(rows) >= bound - 1
    {
      var left;
      ok, left, steps := CommitBelow(bound, budget, rollsBack);
      if ok {
        ok, steps := FillTop(bound, nodeHeight, left, old(View()), steps);
      }
    }

    method FillTop(bound: int, nodeHeight: nat, budget: Option<nat>, ghost first: State, ghost steps: seq<Event>)
      returns (ok: bool, ghost steps': seq<Event>)
      requires Sound() && committed == rows
      requires AllPossible(first, steps) && View() == RunFrom(first, steps)
      modifies this`rows, this`committed
      ensures committed == rows && |steps'| == |steps| + 1 && steps'[..|steps|] == steps && steps'[|steps|].Fills?
      ensures AllPossible(first, steps') && View() == RunFrom(first, steps')
      ensures budget.None? ==> ok
      ensures ok && (old(rows) != [] || nodeHeight + 1 < bound) ==> rows != [] && LatestHeight(rows) >= bound - 1
    {
      ghost var reached;
      FillerReaches(rows, bound, nodeHeight);
      ok, reached := FillRows(bound, nodeHeight, budget);
      RunFromAppend(first, steps, Fills(reached, nodeHeight));
      steps' := steps + [Fills(reached, nodeHeight)];
    }

    /** The cached heights below the bound, until one dies. */
    method CommitBelow(bound: int, budget: Option<nat>, rollsBack: bool) returns (ok: bool, left: Option<nat>, ghost steps: seq<Event>)
      requires Sound() && committed == rows
      modifies this`cache, this`rows, this`committed
      ensures Sound() && committed == rows
      ensures AllPossible(old(View()), steps) && View() == RunFrom(old(View()), steps)
      ensures ok ==> |rows| >= |old(rows)| && forall e | e in steps :: !e.Crashes?
      ensures budget.None? ==> ok && left.None?
      ensures cache.Keys <= old(cache.Keys)
      ensures forall h | h in old(cache) && h >= bound :: h in cache && cache[h] == old(cache)[h]
      ensures ok ==> forall h | h in cache :: h >= bound
    {
      ok, left, steps := true, budget, [];
      var todo := set h | h in cache && h < bound;
      while todo != {}
        invariant todo <= cache.Keys <= old(cache.Keys)
        invariant forall h | h in cache && h < bound :: h in todo
        invariant forall h | h in cache :: cache[h] == old(cache)[h]
        invariant forall h | h in old(cache) && h >= bound :: h in cache
        invariant Sound() && committed == rows
        invariant AllPossible(old(View()), steps) && View() == RunFrom(old(View()), steps)
        invariant |rows| >= |old(rows)| && forall e | e in steps :: !e.Crashes?
        invariant budget.None? ==> left.None?
        decreases todo
      {
        var h :| h in todo;
        ghost var e;
        ok, left, e := CommitHeight(h, left, rollsBack);
        RunFromAppend(old(View()), steps, e);
        steps := steps + [e];
        if !ok { return; }
        todo := todo - {h};
      }
    }
  }

  /**
   Whatever messages and passes an aggregator has seen: its rows are unique, and rows and cache hold all it
   handled, plus what its dying passes stored.
   */
  lemma AggregatorConserves(a: Aggregator, h: nat, u: nat, size: nat, k: Kind)
    requires a.Valid()
    ensures UniqueRows(a.rows)
    ensures RowCount(a.rows, h, u, size, k) + Pick(Cached(a.cache, h, u, size), k)
         == AddsCount(a.handled, h, u, size, k) + CrashedCount(a.events, |a.events|, h, u, size, k)
  {
    RowsStayUnique(a.states, a.events, |a.events|);
    RunConserves(a.states, a.events, |a.events|, h, u, size, k);
  }

  lemma {:induction false} ApplyAddsGrows(rows: seq<Row>, adds: seq<Add>)
    ensures |ApplyAdds(rows, adds)| >= |rows|
    decreases |adds|
  {
    if adds != [] { ApplyAddsGrows(rows, adds[..|adds| - 1]); }
  }
}
