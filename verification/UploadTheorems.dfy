// Multipart exclusion, and what a finished upload holds.
module UploadTheorems {
  import opened Common
  import opened S3Db
  import opened Upload
  import opened UploadSafety
  import opened UploadOrder

  // The part uploads, and the finishers and aborters, that are between their two updates of
  // the upload record.
  ghost function Refs(s: Sys): set<OpId> { set p | p in s.ops && InRef(s.ops[p]) }
  ghost function Holders(s: Sys): set<OpId> { set p | p in s.ops && Holds(s.ops[p]) }

  lemma Histories(s: Sys)
    requires Inv(s)
    ensures Refs(s) == s.w.refs
    ensures Holders(s) == if s.w.holder.Some? then {s.w.holder.value} else {}
  {
    forall p ensures p in Refs(s) <==> p in s.w.refs { assert OpOk(s, p); }
    forall p ensures p in Holders(s) <==> s.w.holder == Some(p) { assert OpOk(s, p); }
  }

  // lock and ref count exactly the operations in flight, and exclude each other.
  lemma Exclusion(s: Sys)
    requires Reachable(s)
    ensures s.w.up.Some? ==>
              && s.w.up.value.lock == |Holders(s)| && s.w.up.value.ref == |Refs(s)|
              && s.w.up.value.lock in {0, 1} && (s.w.up.value.lock == 0 || s.w.up.value.ref == 0)
    ensures s.w.up.None? ==> Holders(s) == {} && Refs(s) == {}
  {
    ReachableInv(s);
    Histories(s);
  }

  // The lock is taken exactly when the upload is Active and nobody is at work on it, a
  // reference exactly when it is Active and nobody holds the lock, and a delete gets hold of
  // the object exactly when that is Active; its last step leaves no Inactive record.
  lemma TakenExactly(s: Sys, p: OpId)
    requires Reachable(s) && p in s.ops
    ensures s.ops[p].LockFini? || s.ops[p].LockAbort? ==>
              (p in Apply(s, Go(p)).ops
               <==> s.w.up.Some? && s.w.up.value.state == Active && Refs(s) == {} && Holders(s) == {})
    ensures s.ops[p].RefInc? ==>
              (p in Apply(s, Go(p)).ops <==> s.w.up.Some? && s.w.up.value.state == Active && Holders(s) == {})
    ensures s.ops[p].Deactivate? ==>
              (p in Apply(s, Go(p)).ops <==> s.w.obj.Some? && s.w.obj.value.state == Active)
    ensures s.ops[p].EraseObject? ==>
              && p !in Apply(s, Go(p)).ops
              && (Apply(s, Go(p)).w.obj.Some? ==> Apply(s, Go(p)).w.obj.value.state != Inactive)
  {
    ReachableInv(s);
    assert OpOk(s, p);
    Exclusion(s);
    assert |Refs(s)| == 0 <==> Refs(s) == {};
    assert |Holders(s)| == 0 <==> Holders(s) == {};
  }

  // Whoever took a reference or the lock can give it back: the query always matches.
  lemma ReleaseMatches(s: Sys, p: OpId)
    requires Reachable(s) && p in s.ops && s.w.up.Some?
    ensures s.ops[p].RefDec? ==> StepRefDec(s.w, p).0.up == Some(s.w.up.value.(ref := s.w.up.value.ref - 1))
    ensures s.ops[p].Unlock? ==> StepUnlock(s.w).0.up == Some(Record(Active, 0, 0))
    ensures s.ops[p].Close? ==> StepClose(s.w, s.ops[p].abort).0.up == Some(Record(Inactive, 1, 0))
    ensures s.ops[p].Erase? ==> StepErase(s.w, s.ops[p].abort).0.up == None
  {
    ReachableInv(s);
    assert OpOk(s, p);
  }

  // The finisher's insert finds the id free, and the deletions find every part they listed.
  lemma HoldersNeverFail(s: Sys, p: OpId)
    requires Reachable(s) && p in s.ops
    ensures s.ops[p].Insert? ==> StepInsert(s.w, s.ops[p]).1 == Some(Acct(s.ops[p].size))
    ensures s.ops[p].Activate? ==> StepActivate(s.w).1 == Some(Commit)
    ensures s.ops[p].Clear? ==>
              s.ops[p].todo != [] && StepClear(s.w, s.ops[p]).1 == Some(if s.ops[p].marked
                  then Cleared(s.ops[p].abort, s.ops[p].todo[1..]) else s.ops[p].(marked := true))
    ensures (InRef(s.ops[p]) || Holds(s.ops[p])) ==> s.w.up.Some?
  {
    ReachableInv(s);
    assert OpOk(s, p);
    if s.ops[p].Insert? { InsertGood(s, p); }
    if s.ops[p].Activate? { ActivateGood(s, p); }
    if s.ops[p].Clear? { ClearLocal(s.w, s.ops[p]); }
  }

  // While the lock is held no step adds a part or makes one Active; while a finisher sums and
  // creates, no step changes any part.
  lemma LockFreezesParts(s: Sys, st: Step, holder: OpId)
    requires Reachable(s) && Enabled(s, st) && holder in s.ops && Holds(s.ops[holder])
    ensures forall x :: x in Apply(s, st).w.parts ==>
              x in s.w.parts && (Apply(s, st).w.parts[x].state == Active ==> Apply(s, st).w.parts[x] == s.w.parts[x])
    ensures var pc := s.ops[holder];
            pc.Resum? || pc.Insert? || pc.Acct? || pc.Activate? ==> Apply(s, st).w.parts == s.w.parts
  {
    ReachableInv(s);
    assert OpOk(s, holder) && OpOk(s, st.p);
  }

  // An upload is completed at most once: from then on nobody gets a reference or the lock,
  // and nobody is creating an object.
  lemma CompletedOnce(s: Sys, p: OpId)
    requires Reachable(s)
    ensures s.w.made <= 1
    ensures s.w.made == 1 && p in s.ops ==>
              && !InRef(s.ops[p]) && (Holds(s.ops[p]) ==> s.ops[p] == Close(false) || s.ops[p] == Erase(false))
              && StepRefInc(s.w, p, RefInc(0, 0, [])).1 == None && StepLock(s.w, p, false).1 == None
                   && StepLock(s.w, p, true).1 == None
  {
    ReachableInv(s);
    assert OpOk(s, p);
  }

  // --- what the object holds ---

  // The declared sizes of all parts, or the bytes they really hold.
  ghost function Total(ps: Parts, declared: bool): nat
    decreases |ps|
  {
    if ps == map[] then 0
    else
      var x :| x in ps;
      assert |(ps - {x}).Keys| == |ps.Keys - {x}| by { assert (ps - {x}).Keys == ps.Keys - {x}; }
      Weight(ps[x], declared) + Total(ps - {x}, declared)
  }

  function Weight(part: Part, declared: bool): nat { if declared then part.size else |part.data| }

  lemma {:induction false} TotalRemove(ps: Parts, x: PartId, declared: bool)
    requires x in ps
    ensures Total(ps, declared) == Weight(ps[x], declared) + Total(ps - {x}, declared)
    decreases |ps|
  {
    assert (ps - {x}).Keys == ps.Keys - {x};
    var y :| y in ps && Total(ps, declared) == Weight(ps[y], declared) + Total(ps - {y}, declared);
    if y != x {
      assert (ps - {y}).Keys == ps.Keys - {y};
      TotalRemove(ps - {y}, x, declared);
      TotalRemove(ps - {x}, y, declared);
      assert ps - {y} - {x} == ps - {x} - {y};
    }
  }

  predicate NoneLonger(ps: Parts) { forall x :: x in ps ==> |ps[x].data| <= ps[x].size }

  // Every part holds as many bytes as it declared.
  predicate Full(ps: Parts) { forall x :: x in ps ==> |ps[x].data| == ps[x].size }

  lemma FullWithout(ps: Parts, x: PartId)
    requires x in ps
    ensures Full(ps) <==> |ps[x].data| == ps[x].size && Full(ps - {x})
  {
    if Full(ps - {x}) && |ps[x].data| == ps[x].size {
      forall y | y in ps ensures |ps[y].data| == ps[y].size { assert y == x || y in ps - {x}; }
    }
  }

  // Together parts hold as many bytes as they declared exactly when each of them does.
  lemma {:induction false} TotalsAgree(ps: Parts)
    requires NoneLonger(ps)
    ensures Total(ps, false) <= Total(ps, true)
    ensures Total(ps, false) == Total(ps, true) <==> Full(ps)
    decreases |ps|
  {
    if x :| x in ps {
      assert (ps - {x}).Keys == ps.Keys - {x};
      TotalRemove(ps, x, false);
      TotalRemove(ps, x, true);
      TotalsAgree(ps - {x});
      FullWithout(ps, x);
    } else {
      assert ps == map[];
    }
  }

  lemma {:induction false} SizesFrame(ps: Parts, x: PartId, ids: seq<PartId>)
    requires x !in ids
    ensures Sizes(ps - {x}, ids) == Sizes(ps, ids)
  {
    if ids != [] { SizesFrame(ps, x, ids[1..]); }
  }

  // In whatever order the parts are read, they yield as many bytes and declare as many.
  lemma {:induction false} BodyLength(ps: Parts, ids: seq<PartId>)
    requires Enumerates(ps, ids) && AllActive(ps)
    ensures |Body(ps, ids)| == Total(ps, false) && Sizes(ps, ids) == Total(ps, true)
  {
    if ids == [] {
      assert forall x :: x in ps <==> x in ids;
      assert ps == map[];
    } else {
      EnumeratesTail(ps, ids);
      TotalRemove(ps, ids[0], false);
      TotalRemove(ps, ids[0], true);
      BodyLength(ps - {ids[0]}, ids[1..]);
      BodyFrame(ps, ids[0], ids[1..]);
      SizesFrame(ps, ids[0], ids[1..]);
    }
  }

  // As long as the object is Active it holds exactly the parts that were Active when its
  // finisher took the lock, none of them empty. Its size is what they declared together; a
  // read yields as much exactly when every part holds what it declared, and the same bytes
  // with every read exactly when parts of one number can be swapped, as when no number was
  // used twice.
  lemma FinishedObject(s: Sys, order: seq<PartId>)
    requires Reachable(s) && s.w.obj.Some? && s.w.obj.value.state == Active
    requires Listing(ActiveParts(s.w.parts), order)
    ensures s.w.parts == ActiveParts(s.w.parts) == s.w.snap && NoneEmpty(s.w.parts)
    ensures s.w.obj.value.size == Total(s.w.parts, true)
    ensures |Body(s.w.parts, order)| == Total(s.w.parts, false) <= s.w.obj.value.size
    ensures |Body(s.w.parts, order)| == s.w.obj.value.size <==> Full(s.w.parts)
    ensures OneBody(s.w.parts) <==> Swappable(s.w.parts)
    ensures Swappable(s.w.parts) || DistinctNumbers(s.w.parts) ==>
              Body(s.w.parts, order) == Body(s.w.snap, s.w.order)
  {
    ReachableInv(s);
    assert Settled(s.w);
    ActiveIsAll(s.w.parts);
    BodyLength(s.w.parts, order);
    BodyLength(s.w.parts, s.w.order);
    forall x | x in s.w.parts ensures |s.w.parts[x].data| <= s.w.parts[x].size { assert PartOk(s, x); }
    TotalsAgree(s.w.parts);
    OneBodyExactly(s.w.parts);
    if DistinctNumbers(s.w.parts) { DistinctNumbersSwap(s.w.parts); }
  }

  // The bytes of a part stand in the object behind those of all parts with smaller numbers.
  lemma {:induction false} PartPosition(ps: Parts, ids: seq<PartId>, i: nat)
    requires Enumerates(ps, ids) && AllActive(ps) && i < |ids|
    ensures var at := |Body(ps, ids[..i])|;
            && at + |ps[ids[i]].data| <= |Body(ps, ids)|
            && Body(ps, ids)[at..at + |ps[ids[i]].data|] == ps[ids[i]].data
  {
    BodySplits(ps, ids, i);
    var d := ps[ids[i]].data;
    assert ids[i..][0] == ids[i] && ids[i] in ps;
    assert Body(ps, ids) == Body(ps, ids[..i]) + (d + Body(ps, ids[i..][1..]));
  }

  lemma {:induction false} SizesSplit(ps: Parts, ids: seq<PartId>, i: nat)
    requires i <= |ids|
    ensures Sizes(ps, ids) == Sizes(ps, ids[..i]) + Sizes(ps, ids[i..])
  {
    if i == 0 {
      assert ids[0..] == ids && ids[..0] == [];
    } else {
      SizesSplit(ps, ids[1..], i - 1);
      assert ids[..i][1..] == ids[1..][..i - 1] && ids[1..][i - 1..] == ids[i..];
    }
  }

  // ResumParts over the sorted query: the size, and the bytes the checksum is taken of.
  method ResumParts(ps: Parts, ids: seq<PartId>) returns (r: Option<(nat, seq<bv8>)>)
    requires forall x :: x in ids ==> x in ps
    ensures r.None? <==> exists x :: x in ids && ps[x].state == Active && ps[x].data == []
    ensures r.Some? ==> r.value == (Sizes(ps, ids), Body(ps, ids))
  {
    var size: nat, hashed: seq<bv8> := 0, [];
    for i := 0 to |ids|
      invariant size == Sizes(ps, ids[..i]) && hashed == Body(ps, ids[..i])
      invariant forall x :: x in ids[..i] && ps[x].state == Active ==> ps[x].data != []
    {
      var part := ps[ids[i]];
      BodySplits(ps, ids[..i + 1], i);
      SizesSplit(ps, ids[..i + 1], i);
      assert ids[..i + 1][..i] == ids[..i] && ids[..i + 1][i..] == [ids[i]];
      if part.state != Active { continue; }
      if part.data == [] { return None; }
      hashed := hashed + part.data;
      size := size + part.size;
    }
    assert ids[..|ids|] == ids;
    return Some((size, hashed));
  }

  // A finisher gives the lock back with nothing changed exactly when it meets an empty part.
  lemma EmptyPartBlocks(s: Sys, p: OpId, order: seq<PartId>, x: PartId)
    requires Reachable(s) && Enabled(s, Sum(p, order)) && x in s.w.parts
    ensures s.w.parts[x].state == Active
    ensures s.w.parts[x].data == [] ==> Apply(s, Sum(p, order)) == Sys(s.w, s.ops[p := Unlock])
    ensures Apply(s, Sum(p, order)).ops[p] == Unlock <==> exists y :: y in s.w.parts && s.w.parts[y].data == []
  {
    ReachableInv(s);
    assert OpOk(s, p);
  }

  lemma ReachNext(s: Sys, st: Step)
    requires Reachable(s) && Enabled(s, st)
    ensures Reachable(Apply(s, st))
  {
    var run :| IsRun(run) && s == run[|run| - 1];
    var more := run + [Apply(s, st)];
    assert Next(s, Apply(s, st));
    forall i | 0 <= i < |more| - 1 ensures Next(more[i], more[i + 1]) {
      if i < |run| - 1 { assert Next(run[i], run[i + 1]); }
    }
    assert IsRun(more);
  }

  lemma EmptyPartStored() returns (s: Sys)
    ensures Reachable(s) && s.w == Init().w.(up := Some(Record(Active, 0, 1)), refs := {0}, author := map[0 := 0],
                                             parts := map[0 := Part(1, 2, [], NoneState)], used := {0})
    ensures s.ops == map[0 := Writing(0)]
  {
    s := Init();
    assert IsRun([s]) && [s][|[s]| - 1] == s;
    ReachNext(s, BeginPart(0, 1, 2, []));
    s := Apply(s, BeginPart(0, 1, 2, []));
    ReachNext(s, Go(0));
    s := Apply(s, Go(0));
    ReachNext(s, Store(0, 0));
    s := Apply(s, Store(0, 0));
  }

  // A part upload may leave such a part behind: one whose body breaks off over the inline
  // limit, which is reported stored.
  lemma EmptyPartHappens() returns (s: Sys)
    ensures Reachable(s) && s.ops == map[] && s.w.parts == map[0 := Part(1, 2, [], Active)]
    ensures s.w.up == Some(Record(Active, 0, 0))
  {
    s := EmptyPartStored();
    ReachNext(s, Go(0));
    s := Apply(s, Go(0));
    ReachNext(s, Go(0));
    s := Apply(s, Go(0));
  }

  // When nothing is in flight: an open upload has no object, and its parts are complete; a
  // closed one left an object that holds its parts, or no parts at all. An aborted upload
  // leaves nothing.
  lemma QuietUpload(s: Sys)
    requires Reachable(s) && s.ops == map[]
    ensures s.w.up.Some? ==> s.w.up == Some(Record(Active, 0, 0)) && s.w.obj.None? && AllActive(s.w.parts)
    ensures s.w.up.None? && s.w.made == 0 ==> s.w.obj.None? && s.w.parts == map[]
    ensures s.w.up.None? && s.w.made == 1 ==>
              if s.w.obj.Some? && s.w.obj.value.state == Active then s.w.obj.value.size == Total(s.w.parts, true)
                  && AllActive(s.w.parts)
              else s.w.parts == map[]
  {
    ReachableInv(s);
    Histories(s);
    assert s.w.dropper.None? && s.w.holder.None? && s.w.refs == {};
    if s.w.up.Some? { AtRest(s); }
    if s.w.obj.Some? && s.w.obj.value.state == Active { BodyLength(s.w.parts, s.w.order); }
  }
}
