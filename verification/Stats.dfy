// Counters kept in memory and flushed to the database as deltas: callers update the fields
// one by one under a lock, the writer copies them one by one without it.
module Stats {
  import opened Common

  // The fields of one record, in a fixed order.
  type Values = seq<int>

  // statsUpdate inside its lock: the amounts to add, and how many fields are done.
  datatype Update = Update(add: Values, done: nat)

  datatype Flush =
    | Idle
    | Copying(copy: Values)   // Write's copy of the counters so far
    | Wrote(copy: Values)     // the database has the delta, onDisk not yet

  // late: updates between their unlock and their Dirty(). History: what was there at the start,
  // what all updates were to add, whether a write with something to add has failed and none
  // succeeded since.
  datatype Sys = Sys(memory: Values, onDisk: Values, stored: Values, dirty: bool, inside: Option<Update>, late: nat,
                     flush: Flush, start: Values, begun: Values, failed: bool)

  datatype Step =
    | Lock(add: Values)
    | Add
    | Unlock
    | Dirty
    | Tick          // the period is over and the flag is set
    | Copy
    | WriteDb
    | WriteFails
    | Finish

  function Init(values: Values): Sys {
    Sys(values, values, values, false, None, 0, Idle, values, Zeros(|values|), false)
  }

  // All these records have the same fields.
  predicate SameFields(s: Sys) {
    && |s.onDisk| == |s.stored| == |s.start| == |s.begun| == |s.memory|
    && (s.inside.Some? ==> |s.inside.value.add| == |s.memory|)
    && (s.flush.Copying? ==> |s.flush.copy| <= |s.memory|) && (s.flush.Wrote? ==> |s.flush.copy| == |s.memory|)
  }

  predicate Enabled(s: Sys, st: Step) {
    SameFields(s) &&
    match st
    case Lock(add) => s.inside.None? && |add| == |s.memory| && AtLeast(add, Zeros(|add|))
    case Add => s.inside.Some? && s.inside.value.done < |s.memory|
    case Unlock => s.inside.Some? && s.inside.value.done == |s.memory|
    case Dirty => s.late > 0
    case Tick => s.flush.Idle? && s.dirty
    case Copy => s.flush.Copying? && |s.flush.copy| < |s.memory|
    case WriteDb => s.flush.Copying? && |s.flush.copy| == |s.memory|
    case WriteFails => s.flush.Copying? && |s.flush.copy| == |s.memory|
    case Finish => s.flush.Wrote?
  }

  predicate AtLeast(a: Values, b: Values) { |a| == |b| && forall f :: 0 <= f < |a| ==> b[f] <= a[f] }

  function Zeros(n: nat): Values { seq(n, _ => 0) }

  function Plus(a: Values, b: Values): Values
    requires |a| == |b|
  {
    seq(|a|, f requires 0 <= f < |a| => a[f] + b[f])
  }

  function Minus(a: Values, b: Values): Values
    requires |a| == |b|
  {
    seq(|a|, f requires 0 <= f < |a| => a[f] - b[f])
  }

  function Apply(s: Sys, st: Step): Sys
    requires Enabled(s, st)
  {
    match st
    case Lock(add) => s.(inside := Some(Update(add, 0)), begun := Plus(s.begun, add))
    case Add =>
      var u := s.inside.value;
      s.(memory := s.memory[u.done := s.memory[u.done] + u.add[u.done]], inside := Some(u.(done := u.done + 1)))
    case Unlock => s.(inside := None, late := s.late + 1)
    case Dirty => s.(dirty := true, late := s.late - 1)
    case Tick => s.(dirty := false, flush := Copying([]))
    case Copy => s.(flush := Copying(s.flush.copy + [s.memory[|s.flush.copy|]]))
    case WriteDb => s.(stored := Plus(s.stored, Minus(s.flush.copy, s.onDisk)), flush := Wrote(s.flush.copy))
    case WriteFails => s.(flush := Idle, failed := s.flush.copy != s.onDisk)
    case Finish => s.(onDisk := s.flush.copy, flush := Idle, failed := false)
  }

  ghost predicate Next(s: Sys, t: Sys) {
    exists st :: Enabled(s, st) && t == Apply(s, st)
  }

  ghost predicate IsRun(run: seq<Sys>) {
    && |run| > 0 && run[0] == Init(run[0].start)
    && forall i :: 0 <= i < |run| - 1 ==> Next(run[i], run[i + 1])
  }

  ghost predicate Reachable(s: Sys) {
    exists run :: IsRun(run) && s == run[|run| - 1]
  }

  // --- what every state keeps ---

  // What the update inside the lock has still to add to a field.
  function Owed(s: Sys, f: nat): int
    requires SameFields(s) && f < |s.memory|
  {
    if s.inside.Some? && s.inside.value.done <= f then s.inside.value.add[f] else 0
  }

  // An update is under way or has not set the flag yet, or the flag is set.
  predicate Noted(s: Sys) { s.dirty || s.inside.Some? || s.late > 0 }

  // One counter.
  predicate CounterOk(s: Sys, f: nat)
    requires SameFields(s) && f < |s.memory|
  {
    && s.memory[f] + Owed(s, f) == s.start[f] + s.begun[f] && Owed(s, f) >= 0
    && s.start[f] <= s.onDisk[f] <= s.memory[f]
    && match s.flush {
         case Idle => s.stored[f] == s.onDisk[f] && (s.memory[f] != s.onDisk[f] ==> Noted(s) || s.failed)
         case Copying(copy) =>
           && s.stored[f] == s.onDisk[f]
           && (f < |copy| ==> s.onDisk[f] <= copy[f] <= s.memory[f] && (s.memory[f] != copy[f] ==> Noted(s)))
         case Wrote(copy) =>
           && s.stored[f] == copy[f] && s.onDisk[f] <= copy[f] <= s.memory[f] && (s.memory[f] != copy[f] ==> Noted(s))
       }
  }

  ghost predicate FieldOk(s: Sys, f: nat)
    requires SameFields(s)
  {
    f < |s.memory| ==> CounterOk(s, f)
  }

  // Some counter in memory is ahead of the database.
  ghost predicate Behind(s: Sys)
    requires SameFields(s)
  {
    exists f :: 0 <= f < |s.memory| && s.onDisk[f] < s.memory[f]
  }

  ghost predicate Inv(s: Sys) {
    && SameFields(s)
    && (s.inside.Some? ==> AtLeast(s.inside.value.add, Zeros(|s.memory|)) && s.inside.value.done <= |s.memory|)
    && (s.failed ==> Behind(s))
    && forall f: nat {:trigger FieldOk(s, f)} :: FieldOk(s, f)
  }

  // --- one step, one counter ---

  lemma UpdateCounter(s: Sys, st: Step, f: nat)
    requires Inv(s) && Enabled(s, st) && (st.Lock? || st.Add? || st.Unlock? || st.Dirty?) && f < |s.memory|
    ensures SameFields(Apply(s, st)) && |Apply(s, st).memory| == |s.memory| && CounterOk(Apply(s, st), f)
    ensures Apply(s, st).onDisk == s.onDisk && Apply(s, st).memory[f] >= s.memory[f]
  {
    assert FieldOk(s, f);
  }

  lemma FlushCounter(s: Sys, st: Step, f: nat)
    requires Inv(s) && Enabled(s, st) && (st.Tick? || st.Copy? || st.WriteDb? || st.Finish?) && f < |s.memory|
    ensures SameFields(Apply(s, st)) && Apply(s, st).memory == s.memory && CounterOk(Apply(s, st), f)
  {
    assert FieldOk(s, f);
  }

  // A failed write that had something to add leaves memory ahead.
  lemma FailCounter(s: Sys, f: nat)
    requires Inv(s) && Enabled(s, WriteFails) && f < |s.memory|
    ensures CounterOk(Apply(s, WriteFails), f) && s.onDisk[f] <= s.flush.copy[f] <= s.memory[f]
  {
    assert FieldOk(s, f);
  }

  lemma FailLeavesBehind(s: Sys)
    requires Inv(s) && Enabled(s, WriteFails)
    ensures s.flush.copy != s.onDisk ==> Behind(s)
  {
    if s.flush.copy != s.onDisk {
      var f :| 0 <= f < |s.memory| && s.flush.copy[f] != s.onDisk[f];
      FailCounter(s, f);
    }
  }

  lemma StaysBehind(s: Sys, st: Step)
    requires Inv(s) && Enabled(s, st) && (st.Lock? || st.Add? || st.Unlock? || st.Dirty?) && Behind(s)
    ensures SameFields(Apply(s, st)) && Behind(Apply(s, st))
  {
    var f :| 0 <= f < |s.memory| && s.onDisk[f] < s.memory[f];
    UpdateCounter(s, st, f);
  }

  lemma {:induction false} StepKeepsInv(s: Sys, st: Step)
    requires Inv(s) && Enabled(s, st)
    ensures Inv(Apply(s, st))
  {
    var t := Apply(s, st);
    forall f: nat ensures SameFields(t) && FieldOk(t, f) {
      if f < |s.memory| {
        if st.WriteFails? { FailCounter(s, f); }
        else if st.Tick? || st.Copy? || st.WriteDb? || st.Finish? { FlushCounter(s, st, f); }
        else { UpdateCounter(s, st, f); }
      }
    }
    if st.WriteFails? {
      FailLeavesBehind(s);
    } else if s.failed && (st.Lock? || st.Add? || st.Unlock? || st.Dirty?) {
      StaysBehind(s, st);
    }
  }

  lemma {:induction false} RunKeepsInv(run: seq<Sys>, i: nat)
    requires IsRun(run) && i < |run|
    ensures Inv(run[i])
  {
    if i > 0 {
      RunKeepsInv(run, i - 1);
      assert Next(run[i - 1], run[i - 1 + 1]);
      var st :| Enabled(run[i - 1], st) && run[i] == Apply(run[i - 1], st);
      StepKeepsInv(run[i - 1], st);
    }
  }

  lemma ReachableInv(s: Sys)
    requires Reachable(s)
    ensures Inv(s)
  {
    var run :| IsRun(run) && s == run[|run| - 1];
    RunKeepsInv(run, |run| - 1);
  }

  // Nothing is counted twice or lost: between writes the database has what onDisk says, and
  // that with what memory is ahead by, and what an update is still to add, makes all updates.
  lemma Conservation(s: Sys, f: nat)
    requires Reachable(s) && f < |s.memory|
    ensures SameFields(s)
    ensures s.stored[f] == if s.flush.Wrote? then s.flush.copy[f] else s.onDisk[f]
    ensures !s.flush.Wrote? ==> s.stored[f] + (s.memory[f] - s.onDisk[f]) + Owed(s, f) == s.start[f] + s.begun[f]
    ensures s.start[f] <= s.stored[f] <= s.memory[f] <= s.start[f] + s.begun[f]
  {
    ReachableInv(s);
    assert FieldOk(s, f);
  }

  // The deltas that go to the database are never negative.
  lemma DeltasGrow(s: Sys)
    requires Reachable(s) && Enabled(s, WriteDb)
    ensures AtLeast(s.flush.copy, s.onDisk)
  {
    ReachableInv(s);
    forall f | 0 <= f < |s.memory| ensures s.onDisk[f] <= s.flush.copy[f] { assert FieldOk(s, f); }
  }

  // Between writes, with no update under way and the flag not set, memory and database agree
  // exactly when no write with something to add has failed without a successful one since.
  lemma QuietIsFlushed(s: Sys)
    requires Reachable(s) && s.flush.Idle? && !Noted(s)
    ensures SameFields(s) && s.memory == Plus(s.start, s.begun) && s.stored == s.onDisk
    ensures s.memory == s.stored <==> !s.failed
  {
    ReachableInv(s);
    forall f | 0 <= f < |s.memory|
      ensures s.memory[f] == s.start[f] + s.begun[f] && s.stored[f] == s.onDisk[f]
              && (!s.failed ==> s.memory[f] == s.stored[f])
    {
      assert FieldOk(s, f);
    }
  }

  // A failing write that no update overlaps leaves the database behind exactly when it had
  // something to add.
  lemma FailedWriteExactly(s: Sys)
    requires Reachable(s) && Enabled(s, WriteFails) && !Noted(s)
    ensures var t := Apply(s, WriteFails);
            && t.flush.Idle? && !Noted(t)
            && (t.memory == t.stored <==> s.flush.copy == s.onDisk)
  {
    ReachableInv(s);
    forall f | 0 <= f < |s.memory| ensures s.memory[f] == s.flush.copy[f] && s.stored[f] == s.onDisk[f] {
      assert FieldOk(s, f);
    }
  }

  // In such a state the flusher never moves: only a new update can come, and its lock brings
  // nothing to the database.
  lemma WaitsForAnUpdate(s: Sys, st: Step)
    requires Reachable(s) && s.flush.Idle? && !Noted(s) && Enabled(s, st)
    ensures st.Lock? && Apply(s, st).memory == s.memory && Apply(s, st).stored == s.stored
  {
  }

  // A successful write that no update overlaps brings the database up to date, whatever
  // failed before it.
  lemma SuccessCatchesUp(s: Sys)
    requires Reachable(s) && s.flush.Wrote? && !Noted(s)
    ensures SameFields(s) && s.stored == s.memory == Plus(s.start, s.begun)
  {
    ReachableInv(s);
    forall f | 0 <= f < |s.memory| ensures s.stored[f] == s.memory[f] == s.start[f] + s.begun[f] {
      assert FieldOk(s, f);
    }
  }

  lemma ReachNext(s: Sys, st: Step)
    requires Reachable(s) && Enabled(s, st)
    ensures Reachable(Apply(s, st))
  {
    var run :| IsRun(run) && s == run[|run| - 1];
    var more := run + [Apply(s, st)];
    assert Next(s, Apply(s, st));
    forall i | 0 <= i < |more| - 1 ensures Next(more[i], more[i + 1]) {
      if i < |run| - 1 { assert Next(run[i], run[i + 1]); }
    }
    assert IsRun(more);
  }

  lemma InitReachable(values: Values)
    ensures Reachable(Init(values))
  {
    var run := [Init(values)];
    assert IsRun(run) && run[|run| - 1] == Init(values);
  }

  // One update of one field, from its lock to its Dirty().
  lemma OneUpdate() returns (s: Sys)
    ensures Reachable(s) && s == Sys([1], [0], [0], true, None, 0, Idle, [0], [1], false)
  {
    s := OneAdd();
    ReachNext(s, Unlock);
    s := Apply(s, Unlock);
    ReachNext(s, Dirty);
    s := Apply(s, Dirty);
  }

  lemma OneAdd() returns (s: Sys)
    ensures Reachable(s) && s == Sys([1], [0], [0], false, Some(Update([1], 1)), 0, Idle, [0], [1], false)
  {
    s := OneLock();
    ReachNext(s, Add);
    assert s.memory[0 := 1] == [1];
    s := Apply(s, Add);
  }

  lemma OneLock() returns (s: Sys)
    ensures Reachable(s) && s == Sys([0], [0], [0], false, Some(Update([1], 0)), 0, Idle, [0], [1], false)
  {
    s := Sys([0], [0], [0], false, None, 0, Idle, [0], [0], false);
    assert Zeros(1) == [0] && s == Init([0]);
    InitReachable([0]);
    ReachNext(s, Lock([1]));
    assert Plus([0], [1]) == [1];
    s := Apply(s, Lock([1]));
  }

  // A failed write has cleared the flag all the same: its updates wait in memory until some
  // later update sets the flag again.
  lemma FailedWriteForgets()
    ensures exists s :: Reachable(s) && s.flush.Idle? && !Noted(s) && s.failed && s.memory == [1] && s.stored == [0]
  {
    var s := OneUpdate();
    ReachNext(s, Tick);
    s := Apply(s, Tick);
    ReachNext(s, Copy);
    s := Apply(s, Copy);
    ReachNext(s, WriteFails);
    s := Apply(s, WriteFails);
  }

  // A write that works brings it to the database.
  lemma OneUpdateStored()
    ensures exists s :: Reachable(s) && s.flush.Idle? && !Noted(s) && !s.failed && s.memory == s.stored == [1]
  {
    var s := OneUpdate();
    ReachNext(s, Tick);
    s := Apply(s, Tick);
    ReachNext(s, Copy);
    s := Apply(s, Copy);
    ReachNext(s, WriteDb);
    s := Apply(s, WriteDb);
    ReachNext(s, Finish);
    s := Apply(s, Finish);
  }

  // --- the rows of getStats and getCallStats ---

  datatype Record = Record(values: Values, till: int)

  // What happened between two records; the oldest row has no beginning.
  datatype Row = Row(values: Values, till: int, from: Option<int>)

  function Sum(rows: seq<Row>, f: nat): int {
    if rows == [] then 0 else (if f < |rows[0].values| then rows[0].values[f] else 0) + Sum(rows[1..], f)
  }

  // One row for every archived record, and one for what is before.
  function Rows(current: Record, archive: seq<Record>): seq<Row>
    requires forall i :: 0 <= i < |archive| ==> |archive[i].values| == |current.values|
    decreases |archive|
  {
    if archive == [] then [Row(current.values, current.till, None)]
    else
      var row := Row(Minus(current.values, archive[0].values), current.till, Some(archive[0].till));
      [row] + Rows(archive[0], archive[1..])
  }

  // The rows add up to the current totals, whatever the archive holds.
  lemma {:induction false} RowsAddUp(current: Record, archive: seq<Record>, f: nat)
    requires forall i :: 0 <= i < |archive| ==> |archive[i].values| == |current.values|
    requires f < |current.values|
    ensures Sum(Rows(current, archive), f) == current.values[f]
    decreases |archive|
  {
    var rows := Rows(current, archive);
    if archive == [] {
      assert rows[1..] == [];
    } else {
      RowsAddUp(archive[0], archive[1..], f);
      assert rows[1..] == Rows(archive[0], archive[1..]);
    }
  }

  // They adjoin: each begins where the next older one ends.
  lemma {:induction false} RowsAdjoin(current: Record, archive: seq<Record>, i: nat)
    requires forall k :: 0 <= k < |archive| ==> |archive[k].values| == |current.values|
    requires i <= |archive|
    ensures var rows := Rows(current, archive);
            && |rows| == |archive| + 1
            && rows[i].till == (if i == 0 then current.till else archive[i - 1].till)
            && rows[i].from == (if i == |archive| then None else Some(rows[i + 1].till))
    decreases |archive|
  {
    if archive != [] {
      var more := Rows(archive[0], archive[1..]);
      RowsAdjoin(archive[0], archive[1..], if i > 0 then i - 1 else 0);
      assert Rows(current, archive)[1..] == more;
    }
  }

  function Asked(archived: nat, periods: int): nat {
    if periods <= 0 then 0 else if periods < archived then periods else archived
  }

  // Each row says what was counted between its two records, field by field; the last one what
  // the oldest record says.
  lemma {:induction false} RowsMean(current: Record, archive: seq<Record>)
    requires forall k :: 0 <= k < |archive| ==> |archive[k].values| == |current.values|
    ensures |Rows(current, archive)| == |archive| + 1
    ensures forall i :: 0 <= i <= |archive| ==> RowMeans(Rows(current, archive)[i], current, archive, i)
    decreases |archive|
  {
    var rows := Rows(current, archive);
    if archive != [] {
      RowsMean(archive[0], archive[1..]);
      forall i | 0 <= i <= |archive| ensures RowMeans(rows[i], current, archive, i) {
        if i > 0 { assert RowMeans(rows[i], archive[0], archive[1..], i - 1); }
      }
    }
  }

  ghost predicate RowMeans(row: Row, current: Record, archive: seq<Record>, i: nat)
    requires i <= |archive|
    requires forall k :: 0 <= k < |archive| ==> |archive[k].values| == |current.values|
  {
    && row.till == NewerThan(current, archive, i).till
    && row.from == (if i < |archive| then Some(archive[i].till) else None)
    && |row.values| == |current.values| == |NewerThan(current, archive, i).values|
    && forall f :: 0 <= f < |current.values| ==>
         row.values[f]
         == NewerThan(current, archive, i).values[f] - (if i < |archive| then archive[i].values[f] else 0)
  }

  // The record before the i-th archived one: the current one before the first.
  function NewerThan(current: Record, archive: seq<Record>, i: nat): Record
    requires i <= |archive|
  {
    if i == 0 then current else archive[i - 1]
  }

  // The loop: as many archived records as were asked for, newest first.
  method GetStats(current: Record, archive: seq<Record>, periods: int) returns (rows: seq<Row>)
    requires forall i :: 0 <= i < |archive| ==> |archive[i].values| == |current.values|
    ensures rows == Rows(current, archive[..Asked(|archive|, periods)])
    // between two records each field's difference, and before the oldest what that says
    ensures var n := if periods <= 0 then 0 else if periods < |archive| then periods else |archive|;
            && |rows| == n + 1
            && forall i :: 0 <= i <= n ==> RowMeans(rows[i], current, archive[..n], i)
  {
    rows := [];
    var prev := current;
    ghost var n := Asked(|archive|, periods);
    ghost var asked := archive[..n];
    assert asked[0..] == asked;
    assert [] + Rows(current, asked) == Rows(current, asked);
    if periods > 0 {
      var i := 0;
      while i < periods && i < |archive|
        invariant 0 <= i <= n && |prev.values| == |current.values|
        invariant rows + Rows(prev, asked[i..]) == Rows(current, asked)
      {
        var cur := archive[i];
        assert asked[i] == cur && asked[i..][1..] == asked[i + 1..];
        var row := Row(Minus(prev.values, cur.values), prev.till, Some(cur.till));
        assert rows + ([row] + Rows(cur, asked[i + 1..])) == rows + [row] + Rows(cur, asked[i + 1..]);
        rows := rows + [row];
        prev := cur;
        i := i + 1;
      }
      assert asked[i..] == [];
    }
    rows := rows + [Row(prev.values, prev.till, None)];
    RowsMean(current, asked);
  }
}
