/** The statistics process: the record table of a database session, extended and rebuilt in place. */
module PoolStatsService {
  import opened Basics
  import opened WorkerShares
  import opened PoolStats

  /** A rebuild that reached a height and can calculate it is a longer rebuild. */
  lemma {:induction false} RebuildOneMore(env: Env, t: Table, from: nat, stop: nat)
    requires from <= stop && Rebuild(env, t, from, stop).ok
    ensures var done := Rebuild(env, t, from, stop).table;
            var next := Calculate(env, done, stop);
            Rebuild(env, t, from, stop + 1) == if next.None? then Rebuilt(done, false) else Rebuilt(done[stop := next.value], true)
    decreases stop - from
  {
    if from < stop {
      RebuildOneMore(env, t[from := Calculate(env, t, from).value], from + 1, stop);
    }
  }

  /** Records are committed with those of every tenth height, and one by one near the chain's height. */
  predicate EndsBatch(h: int, chainHeight: nat) { h % 10 == 0 || h >= chainHeight - 10 }

  class StatsTable {
    var committed: Table
    var records: Table      // as the session sees them

    /** The record of a height; None where an assertion fails. */
    method CalculateRecord(env: Env, h: nat) returns (r: Option<Stats>)
      ensures r == Calculate(env, records, h)
    {
      var prev := GetStats(records, h - 1);
      if prev.None? || h !in env.blocks || !WindowHasBlocks(env, h) { return None; }
      var rows := GetByHeight(env.rows, h);
      var processed, counts := CountRows(rows);
      var found := prev.value.totalFound;
      if FoundAt(env.found, h - 1) {
        found := found + 1;
      }
      r := Some(Stats(counts, processed, found, prev.value.totalProcessed + processed, false));
    }

    /** The loop over the rows of a height. */
    static method CountRows(rows: seq<Row>) returns (processed: nat, counts: map<nat, Tally>)
      ensures processed == ProcessedOf(rows) && counts == CountsOf(rows)
    {
      processed, counts := 0, map[];
      var i := 0;
      while i < |rows|
        invariant 0 <= i <= |rows|
        invariant processed == ProcessedOf(rows[..i]) && counts == CountsOf(rows[..i])
      {
        assert rows[..i + 1][..i] == rows[..i];
        processed := processed + NumShares(rows[i].shares);
        counts := CountRow(counts, rows[i].shares);
        i := i + 1;
      }
      assert rows[..i] == rows;
    }

    /** The loop over the sizes of one row, in any order. */
    static method CountRow(before: map<nat, Tally>, shares: seq<SizeEntry>) returns (counts: map<nat, Tally>)
      ensures counts == AddSizes(before, shares, SizesOf(shares))
    {
      counts := before;
      var sizes := SizesOf(shares);
      var todo := sizes;
      assert counts == AddSizes(before, shares, {});
      assert sizes - todo == {};
      while todo != {}
        invariant todo <= sizes
        invariant counts == AddSizes(before, shares, sizes - todo)
        decreases todo
      {
        var size :| size in todo;
        if size !in counts {
          counts := counts[size := Tally(0, 0, 0)];
        }
        counts := counts[size := Plus(counts[size], TallyOf(shares, size))];
        todo := todo - {size};
      }
      assert sizes - todo == sizes;
    }

    /** Overwrites or creates every record from a height to the last but one share height, committing each. */
    method Recalculate(env: Env, start: nat) returns (ok: bool)
      requires records == committed
      modifies this
      ensures records == committed
      ensures env.rows == [] ==> !ok && records == old(records)
      ensures env.rows != [] ==> Rebuilt(records, ok) == Rebuild(env, old(records), start, LatestHeight(env.rows) - 1)
    {
      if env.rows == [] { return false; }
      var bound := LatestHeight(env.rows) - 1;
      var h := start;
      while bound > h
        invariant records == committed
        invariant Rebuild(env, records, h, bound) == Rebuild(env, old(records), start, bound)
        decreases bound - h
      {
        var r := CalculateRecord(env, h);
        if r.None? { return false; }
        if h in records {
          var s := r.value;
          records := records[h := records[h].(counts := s.counts, processed := s.processed, totalFound := s.totalFound,
                                              totalProcessed := s.totalProcessed, dirty := false)];
        } else {
          records := records[h := r.value];
        }
        committed := records;
        h := h + 1;
      }
      ok := true;
    }

    /**
     The forward run: new records above the highest one, committed at every tenth height and within ten of the
     chain's height. A failure rolls back to the last commit, which is the result of a shorter run.
     `reached` is where the run ended, `stop` is just above the last height committed.
     */
    method Extend(env: Env, chainHeight: nat) returns (ok: bool, ghost reached: nat, ghost stop: nat)
      requires records.Keys != {} && env.rows != []
      modifies this
      ensures var from := Highest(old(records).Keys) + 1;
              && from <= stop <= reached
              && (ok ==> Rebuilt(records, true) == Rebuild(env, old(records), from, LatestHeight(env.rows) - 1))
              && (ok <==> reached as int >= LatestHeight(env.rows) - 1)
              && (!ok ==> records == committed && Calculate(env, Rebuild(env, old(records), from, reached).table, reached).None?)
              && (stop == from ==> committed == old(committed))
              && (stop > from ==> Rebuilt(committed, true) == Rebuild(env, old(records), from, stop))
              && (stop > from ==> EndsBatch(stop - 1, chainHeight))
              && forall h | stop <= h < reached :: !EndsBatch(h, chainHeight)
    {
      ghost var old' := records;
      var from := Highest(records.Keys) + 1;
      var bound := LatestHeight(env.rows) - 1;
      var h := from;
      stop := from;
      while bound > h
        invariant from <= stop <= h && (h <= bound || h == from)
        invariant Rebuilt(records, true) == Rebuild(env, old', from, h)
        invariant stop == from ==> committed == old(committed)
        invariant stop > from ==> Rebuilt(committed, true) == Rebuild(env, old', from, stop)
        invariant stop > from ==> EndsBatch(stop - 1, chainHeight)
        invariant forall k | stop <= k < h :: !EndsBatch(k, chainHeight)
        decreases bound - h
      {
        RebuildOneMore(env, old', from, h);
        var r := CalculateRecord(env, h);
        if r.None? {
          records := committed;
          return false, h, stop;
        }
        records := records[h := r.value];
        if h % 10 == 0 || h >= chainHeight - 10 {
          committed := records;
          stop := h + 1;
        }
        h := h + 1;
      }
      ok, reached := true, h;
    }
  }
}
