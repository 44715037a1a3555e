// Two concrete interleavings in which the store does less than a caller may expect.
module S3Races {
  import opened Common
  import opened Ledger
  import opened S3Db
  import opened S3Store
  import opened S3Safety

  // These steps lead from r to s.
  ghost predicate Path(lim: Limits, r: Sys, steps: seq<Step>, s: Sys)
    decreases |steps|
  {
    if steps == [] then r == s
    else Enabled(r, steps[0]) && Path(lim, Apply(lim, r, steps[0]), steps[1..], s)
  }

  lemma {:induction false} Join(lim: Limits, r: Sys, a: seq<Step>, s: Sys, b: seq<Step>, t: Sys)
    requires Path(lim, r, a, s) && Path(lim, s, b, t)
    ensures Path(lim, r, a + b, t)
    decreases |a|
  {
    if a == [] {
      assert a + b == b;
    } else {
      Join(lim, Apply(lim, r, a[0]), a[1..], s, b, t);
      assert (a + b)[1..] == a[1..] + b;
    }
  }

  lemma {:induction false} PathReachable(lim: Limits, r: Sys, steps: seq<Step>, s: Sys)
    requires Reachable(lim, r) && Path(lim, r, steps, s)
    ensures Reachable(lim, s)
    decreases |steps|
  {
    if steps != [] {
      var m := Apply(lim, r, steps[0]);
      var run :| IsRun(lim, run) && r == run[|run| - 1];
      assert Next(lim, r, m);
      var longer := run + [m];
      forall i | 0 <= i < |longer| - 1 ensures Next(lim, longer[i], longer[i + 1]) {
        if i < |run| - 1 { assert Next(lim, run[i], run[i + 1]); }
      }
      assert IsRun(lim, longer) && m == longer[|longer| - 1];
      PathReachable(lim, m, steps[1..], s);
    }
  }

  lemma InitReachable(lim: Limits)
    ensures Reachable(lim, Init())
  {
    assert IsRun(lim, [Init()]);
  }

  lemma One(r: Sys, a: Step, s: Sys)
    requires Takes(r, a, s)
    ensures Path(map[], r, [a], s)
  {
    assert [a][1..] == [];
    assert Path(map[], s, [], s);
  }

  lemma More(r: Sys, p: seq<Step>, m: Sys, a: Step, s: Sys)
    requires Path(map[], r, p, m) && Takes(m, a, s)
    ensures Path(map[], r, p + [a], s)
  {
    One(m, a, s);
    Join(map[], r, p, m, [a], s);
  }

  ghost predicate Takes(r: Sys, st: Step, s: Sys) {
    Enabled(r, st) && s == Apply(map[], r, st)
  }

  const H: Handle := Handle(0, "bucket", 0)
  const CA: Charge := Charge(0, 0, 5)
  const CB: Charge := Charge(0, 0, 7)

  function Record(key: string, size: nat, st: State, rover: int): Object {
    Object(0, OCookie("bucket", key), size, st, rover)
  }

  function Putting(pc: CreatePc, id: ObjId, key: string, size: nat, rover: int): Op {
    Create(pc, H, id, key, size, rover, pc == Commit)
  }

  // A world of one Active bucket in which every ledger holds the same charges.
  function OneBucket(n: int, bytes: int, ref: int, rover: int, os: Objects, owner: map<ObjId, OpId>, led: Charges,
                     grants: map<(BucketId, int), ObjId>): World
  {
    World(map[0 := Stats(n, bytes)], map[0 := Bucket("bucket", 0, Active, n, bytes, ref, rover)], os, owner,
          led, led, led, grants, map[0 := H], {})
  }

  // Two puts of different keys into one bucket; the second is charged between the first
  // one's charge and its commit. No delete is asked for.
  function LostPut(): seq<Step> {
    [BeginNewBucket(0, H)] + [Go(0)]
    + ([BeginCreate(1, H, 1, "a", 5)] + [Go(1)] + [Go(1)])    // charged, rover 1
    + ([BeginCreate(2, H, 2, "b", 7)] + [Go(2)] + [Go(2)])    // charged, rover 2
    + ([Go(1)] + [Go(1)] + [Go(1)])                           // "a" stored, Active with rover 1, committed
    + ([GcQuery(1, [1])] + [Go(1)])                           // collects below 2, and takes the new object itself
  }

  function Empty(): World {
    World(map[], map[0 := Bucket("bucket", 0, Active, 0, 0, 0, 0)], map[], map[], map[], map[], map[], map[],
        map[0 := H], {})
  }

  // The system after so many of these steps.
  function Lost2(): Sys { Sys(Empty(), map[]) }

  function Lost5(): Sys {
    Sys(OneBucket(1, 5, 1, 1, map[1 := Record("a", 5, NoneState, 0)], map[1 := 1], map[1 := CA], map[(0, 1) := 1]),
        map[1 := Putting(Data, 1, "a", 5, 1)])
  }

  function Lost7(): Sys {
    Sys(World(map[0 := Stats(2, 12)], map[0 := Bucket("bucket", 0, Active, 1, 5, 1, 1)],
              map[1 := Record("a", 5, NoneState, 0), 2 := Record("b", 7, NoneState, 0)], map[1 := 1, 2 := 2],
              map[1 := CA, 2 := CB], map[1 := CA, 2 := CB], map[1 := CA], map[(0, 1) := 1], map[0 := H], {}),
        map[1 := Putting(Data, 1, "a", 5, 1), 2 := Putting(AcctBucket, 2, "b", 7, 0)])
  }

  function Lost8(): Sys {
    Sys(OneBucket(2, 12, 2, 2, map[1 := Record("a", 5, NoneState, 0), 2 := Record("b", 7, NoneState, 0)],
                  map[1 := 1, 2 := 2], map[1 := CA, 2 := CB], map[(0, 1) := 1, (0, 2) := 2]),
        map[1 := Putting(Data, 1, "a", 5, 1), 2 := Putting(Data, 2, "b", 7, 2)])
  }

  function Lost10(): Sys {
    var w := Lost9().w;
    Sys(w.(objects := w.objects[1 := w.objects[1].(state := Active, rover := 1)], owner := w.owner - {1}),
        Lost9().ops[1 := Putting(Commit, 1, "a", 5, 1)])
  }

  function Lost12(): Sys {
    Sys(Lost11().w, Lost11().ops[1 := Drop(Deactivate, H, 1, 0, [])])
  }

  function Lost13(): Sys {
    var w := Lost12().w;
    Sys(w.(objects := w.objects[1 := w.objects[1].(state := Inactive)], owner := w.owner[1 := 1]),
        Lost12().ops[1 := Drop(UnacctBucket, H, 1, 5, [])])
  }

  function Lost1(): Sys {
    Sys(Empty().(buckets := map[0 := Bucket("bucket", 0, NoneState, 0, 0, 0, 0)]), map[0 := NewBucket(H)])
  }

  function Lost3(): Sys {
    Sys(Empty().(objects := map[1 := Record("a", 5, NoneState, 0)], owner := map[1 := 1]),
        map[1 := Putting(AcctNs, 1, "a", 5, 0)])
  }

  function Lost4(): Sys {
    Sys(Lost3().w.(stats := map[0 := Stats(1, 5)], nsLed := map[1 := CA], admLed := map[1 := CA]),
        map[1 := Putting(AcctBucket, 1, "a", 5, 0)])
  }

  function Lost6(): Sys {
    Sys(Lost5().w.(objects := Lost7().w.objects, owner := Lost7().w.owner),
        Lost5().ops[2 := Putting(AcctNs, 2, "b", 7, 0)])
  }

  function Lost9(): Sys {
    Sys(Lost8().w, Lost8().ops[1 := Putting(Activate, 1, "a", 5, 1)])
  }

  function Lost11(): Sys {
    var w := Lost10().w;
    Sys(w.(buckets := w.buckets[0 := Bump(w.buckets[0], Inc(0, 0, -1, 0))]), Lost10().ops[1 := Gc(H, "a", 2)])
  }

  lemma Take1()
    ensures Takes(Init(), BeginNewBucket(0, H), Lost1())
  {
  }

  lemma Take2()
    ensures Takes(Lost1(), Go(0), Lost2())
  {
  }

  lemma Take3()
    ensures Takes(Lost2(), BeginCreate(1, H, 1, "a", 5), Lost3())
  {
  }

  lemma Take4()
    ensures Takes(Lost3(), Go(1), Lost4())
  {
  }

  lemma Take5()
    ensures Takes(Lost4(), Go(1), Lost5())
  {
  }

  lemma Take6()
    ensures Takes(Lost5(), BeginCreate(2, H, 2, "b", 7), Lost6())
  {
  }

  lemma Take7()
    ensures Takes(Lost6(), Go(2), Lost7())
  {
    var w, op := Lost6().w, Putting(AcctNs, 2, "b", 7, 0);
    assert StatsAcct(w.stats, 0, 1, 7) == Lost7().w.stats && w.nsLed[2 := CB] == Lost7().w.nsLed;
    assert StepAcctNs(map[], w, op).0 == Lost7().w;
  }

  lemma Take8()
    ensures Takes(Lost7(), Go(2), Lost8())
  {
    var w, op := Lost7().w, Putting(AcctBucket, 2, "b", 7, 0);
    assert BucketAcct(w.buckets, 0, Inc(1, 7, 1, 1)).value == Lost8().w.buckets;
    assert w.bktLed[2 := CB] == Lost8().w.bktLed && w.grants[(0, 2) := 2] == Lost8().w.grants;
    assert StepAcctBucket(w, op).0 == Lost8().w;
  }

  lemma Take9()
    ensures Takes(Lost8(), Go(1), Lost9())
  {
  }

  // A step whose effect on the world and on the operation is known.
  lemma Goes(r: Sys, p: OpId, op: Op, m: Moved, s: Sys)
    requires p in r.ops && r.ops[p] == op && !op.Gc? && StepOp(map[], r.w, p, op) == m
    requires s == Sys(m.0, Put(r.ops, p, m.1))
    ensures Takes(r, Go(p), s)
  {
  }

  lemma Take10()
    ensures Takes(Lost9(), Go(1), Lost10())
  {
    var r, next := Lost9(), Putting(Commit, 1, "a", 5, 1);
    Goes(r, 1, Putting(Activate, 1, "a", 5, 1), (Lost10().w, Some(next)), Lost10());
  }

  lemma Take11()
    ensures Takes(Lost10(), Go(1), Lost11())
  {
  }

  lemma Take13()
    ensures Takes(Lost12(), Go(1), Lost13())
  {
    var r, next := Lost12(), Drop(UnacctBucket, H, 1, 5, []);
    Goes(r, 1, Drop(Deactivate, H, 1, 0, []), (Lost13().w, Some(next)), Lost13());
  }

  lemma Take12()
    ensures Takes(Lost11(), GcQuery(1, [1]), Lost12())
  {
    var os := Lost11().w.objects;
    forall x ensures x in [1] <==> Outdated(os, 0, "a", 2, x) { }
    assert [1][1..] == [];
  }

  // r takes three steps to s.
  lemma Three(r: Sys, a: Step, m: Sys, b: Step, n: Sys, c: Step, s: Sys)
    requires Takes(r, a, m) && Takes(m, b, n) && Takes(n, c, s)
    ensures Path(map[], r, [a] + [b] + [c], s)
  {
    One(r, a, m);
    More(r, [a], m, b, n);
    More(r, [a] + [b], n, c, s);
  }

  lemma LostTo5()
    ensures Path(map[], Init(), [BeginNewBucket(0, H)] + [Go(0)], Lost2())
    ensures Path(map[], Lost2(), [BeginCreate(1, H, 1, "a", 5)] + [Go(1)] + [Go(1)], Lost5())
  {
    Take1(); Take2(); Take3(); Take4(); Take5();
    One(Init(), BeginNewBucket(0, H), Lost1());
    More(Init(), [BeginNewBucket(0, H)], Lost1(), Go(0), Lost2());
    Three(Lost2(), BeginCreate(1, H, 1, "a", 5), Lost3(), Go(1), Lost4(), Go(1), Lost5());
  }

  lemma LostTo11()
    ensures Path(map[], Lost5(), [BeginCreate(2, H, 2, "b", 7)] + [Go(2)] + [Go(2)], Lost8())
    ensures Path(map[], Lost8(), [Go(1)] + [Go(1)] + [Go(1)], Lost11())
  {
    Take6(); Take7(); Take8(); Take9(); Take10(); Take11();
    Three(Lost5(), BeginCreate(2, H, 2, "b", 7), Lost6(), Go(2), Lost7(), Go(2), Lost8());
    Three(Lost8(), Go(1), Lost9(), Go(1), Lost10(), Go(1), Lost11());
  }

  lemma LostTo13()
    ensures Path(map[], Lost11(), [GcQuery(1, [1])] + [Go(1)], Lost13())
  {
    Take12(); Take13();
    One(Lost11(), GcQuery(1, [1]), Lost12());
    More(Lost11(), [GcQuery(1, [1])], Lost12(), Go(1), Lost13());
  }

  lemma LostPutPath()
    ensures Path(map[], Init(), LostPut(), Lost13())
  {
    var p2, p5, p8, p11 := [BeginNewBucket(0, H)] + [Go(0)], [BeginCreate(1, H, 1, "a", 5)] + [Go(1)] + [Go(1)],
      [BeginCreate(2, H, 2, "b", 7)] + [Go(2)] + [Go(2)], [Go(1)] + [Go(1)] + [Go(1)];
    LostTo5();
    Join(map[], Init(), p2, Lost2(), p5, Lost5());
    LostTo11();
    Join(map[], Init(), p2 + p5, Lost5(), p8, Lost8());
    Join(map[], Init(), p2 + p5 + p8, Lost8(), p11, Lost11());
    LostTo13();
    Join(map[], Init(), p2 + p5 + p8 + p11, Lost11(), [GcQuery(1, [1])] + [Go(1)], Lost13());
  }

  predicate Deletes(st: Step) { st.BeginDelete? || st.BeginDropBucket? }

  lemma NobodyDeletes()
    ensures forall i :: 0 <= i < |LostPut()| ==> !Deletes(LostPut()[i])
  {
  }

  lemma FromInit(steps: seq<Step>, s: Sys)
    requires Path(map[], Init(), steps, s)
    ensures Reachable(map[], s)
  {
    InitReachable(map[]);
    PathReachable(map[], Init(), steps, s);
  }

  lemma NothingCurrent()
    ensures NoCurrent(Lost13().w.objects, OCookie("bucket", "a"))
  {
    var os := Lost13().w.objects;
    assert os[1].state == Inactive;
    forall x ensures !IsVersion(os, OCookie("bucket", "a"), x) {
      if x in os && x != 1 { assert x == 2 && os[x].ocookie.key == "b"; }
    }
  }

  // Nobody deleted anything and the put of "a" was committed, and yet "a" has no current
  // version.
  lemma PutCanLoseItsObject() returns (s: Sys)
    ensures Path(map[], Init(), LostPut(), s) && Reachable(map[], s)
    ensures NoCurrent(s.w.objects, OCookie("bucket", "a"))
    ensures forall i :: 0 <= i < |LostPut()| ==> !Deletes(LostPut()[i])
  {
    s := Lost13();
    NothingCurrent();
    LostPutPath();
    FromInit(LostPut(), s);
    NobodyDeletes();
  }

  // A bucket is deleted and made anew under the same name while a delete that looked the old
  // one up is still to find its object.
  const OLD: Handle := Handle(0, "bucket", 0)
  const NEW: Handle := Handle(1, "bucket", 0)
  const CN: Charge := Charge(1, 0, 5)

  function StaleDelete(): seq<Step> {
    ([BeginNewBucket(0, OLD)] + [Go(0)] + [BeginDropBucket(1, OLD)] + [Go(1)] + [Go(1)] + [BeginNewBucket(2, NEW)]
        + [Go(2)])
    + ([BeginCreate(3, NEW, 7, "a", 5)] + [Go(3)] + [Go(3)] + [Go(3)] + [Go(3)] + [Go(3)] + [GcQuery(3, [])])
    + ([BeginDelete(4, OLD, "a", Some(7))] + [Go(4)] + [Go(4)])
  }

  function Fresh(cookie: State): Bucket { Bucket("bucket", 0, cookie, 0, 0, 0, 0) }

  function Bare(bs: Buckets, known: map<BucketId, Handle>): World {
    World(map[], bs, map[], map[], map[], map[], map[], map[], known, {})
  }

  function Both(): map<BucketId, Handle> { map[0 := OLD, 1 := NEW] }

  function New(st: State, rover: int): Objects { map[7 := Object(1, OCookie("bucket", "a"), 5, st, rover)] }

  function Filled(ref: int, st: State, rover: int, owner: map<ObjId, OpId>): World {
    World(map[0 := Stats(1, 5)], map[1 := Bucket("bucket", 0, Active, 1, 5, ref, 1)], New(st, rover),
          owner, map[7 := CN], map[7 := CN], map[7 := CN], map[(1, 1) := 7], Both(), {})
  }

  function PutNew(pc: CreatePc, rover: int): map<OpId, Op> {
    map[3 := Create(pc, NEW, 7, "a", 5, rover, pc == Commit)]
  }

  function Stale1(): Sys { Sys(Bare(map[0 := Fresh(NoneState)], map[0 := OLD]), map[0 := NewBucket(OLD)]) }
  function Stale2(): Sys { Sys(Bare(map[0 := Fresh(Active)], map[0 := OLD]), map[]) }
  function Stale3(): Sys { Sys(Stale2().w, map[1 := MarkBucket(OLD)]) }
  function Stale4(): Sys { Sys(Bare(map[0 := Fresh(Inactive)], map[0 := OLD]), map[1 := EraseBucket(OLD)]) }
  function Stale5(): Sys { Sys(Bare(map[], map[0 := OLD]), map[]) }
  function Stale6(): Sys { Sys(Bare(map[1 := Fresh(NoneState)], Both()), map[2 := NewBucket(NEW)]) }
  function Stale7(): Sys { Sys(Bare(map[1 := Fresh(Active)], Both()), map[]) }
  function Stale8(): Sys { Sys(Stale7().w.(objects := New(NoneState, 0), owner := map[7 := 3]), PutNew(AcctNs, 0)) }
  function Stale9(): Sys {
    Sys(Stale8().w.(stats := map[0 := Stats(1, 5)], nsLed := map[7 := CN], admLed := map[7 := CN]),
        PutNew(AcctBucket, 0))
  }
  function Stale10(): Sys { Sys(Filled(1, NoneState, 0, map[7 := 3]), PutNew(Data, 1)) }
  function Stale11(): Sys { Sys(Stale10().w, PutNew(Activate, 1)) }
  function Stale12(): Sys { Sys(Filled(1, Active, 1, map[]), PutNew(Commit, 1)) }
  function Stale13(): Sys { Sys(Filled(0, Active, 1, map[]), map[3 := Gc(NEW, "a", 1)]) }
  function Stale14(): Sys { Sys(Filled(0, Active, 1, map[]), map[]) }
  function Stale15(): Sys { Sys(Stale14().w, map[4 := Drop(Deactivate, OLD, 7, 0, [])]) }
  function Stale16(): Sys { Sys(Filled(0, Inactive, 1, map[7 := 4]), map[4 := Drop(UnacctBucket, OLD, 7, 5, [])]) }
  function Stale17(): Sys { Sys(Filled(0, Inactive, 1, map[]).(stranded := {7}), map[]) }

  lemma Old1()
    ensures Takes(Init(), BeginNewBucket(0, OLD), Stale1())
  {
  }

  lemma Old2()
    ensures Takes(Stale1(), Go(0), Stale2())
  {
  }

  lemma Old3()
    ensures Takes(Stale2(), BeginDropBucket(1, OLD), Stale3())
  {
  }

  lemma Old4()
    ensures Takes(Stale3(), Go(1), Stale4())
  {
  }

  lemma Old5()
    ensures Takes(Stale4(), Go(1), Stale5())
  {
  }

  lemma Old6()
    ensures Takes(Stale5(), BeginNewBucket(2, NEW), Stale6())
  {
  }

  lemma Old7()
    ensures Takes(Stale6(), Go(2), Stale7())
  {
  }

  lemma Old8()
    ensures Takes(Stale7(), BeginCreate(3, NEW, 7, "a", 5), Stale8())
  {
  }

  lemma Old9()
    ensures Takes(Stale8(), Go(3), Stale9())
  {
  }

  lemma Old10()
    ensures Takes(Stale9(), Go(3), Stale10())
  {
  }

  lemma Old11()
    ensures Takes(Stale10(), Go(3), Stale11())
  {
  }

  lemma Old12()
    ensures Takes(Stale11(), Go(3), Stale12())
  {
  }

  lemma Old13()
    ensures Takes(Stale12(), Go(3), Stale13())
  {
    var op := Create(Commit, NEW, 7, "a", 5, 1, true);
    assert StepCommit(Stale12().w, op).0.buckets == Stale13().w.buckets;
    assert StepCommit(Stale12().w, op).1 == Some(Gc(NEW, "a", 1));
  }

  lemma Old14()
    ensures Takes(Stale13(), GcQuery(3, []), Stale14())
  {
  }

  lemma Old15()
    ensures Takes(Stale14(), BeginDelete(4, OLD, "a", Some(7)), Stale15())
  {
  }

  lemma Old16()
    ensures Takes(Stale15(), Go(4), Stale16())
  {
  }

  lemma Old17()
    ensures Takes(Stale16(), Go(4), Stale17())
  {
  }

  lemma StaleTo7()
    ensures Path(map[], Init(), [BeginNewBucket(0, OLD)] + [Go(0)] + [BeginDropBucket(1, OLD)] + [Go(1)] + [Go(1)]
            + [BeginNewBucket(2, NEW)] + [Go(2)], Stale7())
  {
    Old1(); Old2(); Old3(); Old4(); Old5(); Old6(); Old7();
    Three(Init(), BeginNewBucket(0, OLD), Stale1(), Go(0), Stale2(), BeginDropBucket(1, OLD), Stale3());
    var p := [BeginNewBucket(0, OLD)] + [Go(0)] + [BeginDropBucket(1, OLD)];
    More(Init(), p, Stale3(), Go(1), Stale4());
    More(Init(), p + [Go(1)], Stale4(), Go(1), Stale5());
    More(Init(), p + [Go(1)] + [Go(1)], Stale5(), BeginNewBucket(2, NEW), Stale6());
    More(Init(), p + [Go(1)] + [Go(1)] + [BeginNewBucket(2, NEW)], Stale6(), Go(2), Stale7());
  }

  lemma StaleTo14()
    ensures Path(map[], Stale7(), [BeginCreate(3, NEW, 7, "a", 5)] + [Go(3)] + [Go(3)] + [Go(3)] + [Go(3)] + [Go(3)]
            + [GcQuery(3, [])], Stale14())
  {
    Old8(); Old9(); Old10(); Old11(); Old12(); Old13(); Old14();
    Three(Stale7(), BeginCreate(3, NEW, 7, "a", 5), Stale8(), Go(3), Stale9(), Go(3), Stale10());
    var p := [BeginCreate(3, NEW, 7, "a", 5)] + [Go(3)] + [Go(3)];
    More(Stale7(), p, Stale10(), Go(3), Stale11());
    More(Stale7(), p + [Go(3)], Stale11(), Go(3), Stale12());
    More(Stale7(), p + [Go(3)] + [Go(3)], Stale12(), Go(3), Stale13());
    More(Stale7(), p + [Go(3)] + [Go(3)] + [Go(3)], Stale13(), GcQuery(3, []), Stale14());
  }

  lemma StaleDeletePath()
    ensures Path(map[], Init(), StaleDelete(), Stale17())
  {
    var p := [BeginNewBucket(0, OLD)] + [Go(0)] + [BeginDropBucket(1, OLD)] + [Go(1)] + [Go(1)]
        + [BeginNewBucket(2, NEW)] + [Go(2)];
    var q := [BeginCreate(3, NEW, 7, "a", 5)] + [Go(3)] + [Go(3)] + [Go(3)] + [Go(3)] + [Go(3)] + [GcQuery(3, [])];
    StaleTo7();
    StaleTo14();
    Join(map[], Init(), p, Stale7(), q, Stale14());
    Old15(); Old16(); Old17();
    Three(Stale14(), BeginDelete(4, OLD, "a", Some(7)), Stale15(), Go(4), Stale16(), Go(4), Stale17());
    Join(map[], Init(), p + q, Stale14(), [BeginDelete(4, OLD, "a", Some(7))] + [Go(4)] + [Go(4)], Stale17());
  }

  // Nothing is in flight and no object is Active, but the new bucket counts one.
  lemma StaleHandleLeavesObject() returns (s: Sys)
    ensures Path(map[], Init(), StaleDelete(), s) && Reachable(map[], s) && s.ops == map[]
    ensures forall x :: x in s.w.objects ==> s.w.objects[x].state != Active
    ensures 1 in s.w.buckets && s.w.buckets[1].cntObjects == 1
  {
    s := Stale17();
    StaleDeletePath();
    FromInit(StaleDelete(), s);
  }
}
