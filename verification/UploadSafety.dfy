// What every reachable state of a multipart upload keeps.
module UploadSafety {
  import opened Common
  import opened S3Db
  import opened Upload

  // A part upload between its dbRefInc and its dbRefDec.
  predicate InRef(pc: Pc) { pc.Storing? || pc.Writing? || pc.Unstore? || pc.RefDec? }

  predicate Holds(pc: Pc) {
    || pc.Resum? || pc.Insert? || pc.Acct? || pc.Activate? || pc.Commit? || pc.Unmake?
    || pc.Close? || pc.ListAll? || pc.Erase? || pc.Unlock? || (pc.Clear? && pc.abort)
  }

  // DropObject between its state change and its unacctObj.
  predicate Drops(pc: Pc) { pc.ListActive? || pc.Unacct? || (pc.Clear? && !pc.abort) }

  predicate AllActive(ps: Parts) { forall x :: x in ps ==> ps[x].state == Active }

  // --- the record ---

  ghost predicate RecordOk(w: World) {
    match w.up
    case None => w.refs == {} && w.holder.None?
    case Some(u) =>
      && u.ref == |w.refs| && u.lock == (if w.holder.Some? then 1 else 0)
      && (w.holder.Some? ==> w.refs == {})
      && (u.state == Active || (u.state == Inactive && w.holder.Some?))
  }

  // --- one operation ---

  // The list of a deletion: every part there is, the head perhaps Inactive already.
  ghost predicate ClearOk(w: World, todo: seq<PartId>, marked: bool) {
    && Enumerates(w.parts, todo) && todo != []
    && forall x :: x in w.parts ==> w.parts[x].state == (if marked && x == todo[0] then Inactive else Active)
  }

  ghost predicate PcOk(w: World, p: OpId, pc: Pc) {
    && (InRef(pc) <==> p in w.refs)
    && (Holds(pc) <==> w.holder == Some(p))
    && (Drops(pc) <==> w.dropper == Some(p))
    && match pc {
         case RefInc(_, size, data) => |data| <= size
         case Storing(_, size, data) => |data| <= size
         case Writing(id) => id in w.parts && w.parts[id].state == NoneState && id in w.author && w.author[id] == p
         case Unstore(id) => id in w.parts && w.parts[id].state == NoneState && id in w.author && w.author[id] == p
         case Clear(_, todo, marked) => ClearOk(w, todo, marked)
         case ListAll => AllActive(w.parts)
         case ListActive => AllActive(w.parts)
         case Unacct => w.parts == map[]
         case _ => true
       }
  }

  // A part on its way is being stored by an operation that counts in ref.
  ghost predicate PartOk(s: Sys, x: PartId) {
    x in s.w.parts ==>
      && x in s.w.used && |s.w.parts[x].data| <= s.w.parts[x].size
      && (s.w.parts[x].state == NoneState ==>
            && x in s.w.author && s.w.author[x] in s.w.refs && s.w.author[x] in s.ops
            && (s.ops[s.w.author[x]] == Writing(x) || s.ops[s.w.author[x]] == Unstore(x)))
      && (s.w.parts[x].state == Inactive ==> s.w.holder.Some? || s.w.dropper.Some?)
  }

  // --- the object, by where the holder of the lock stands ---

  ghost predicate Frozen(w: World) {
    w.parts == w.snap && AllActive(w.parts)
  }

  // The size and the order the object was made with.
  ghost predicate SizedBy(w: World, size: nat) {
    Listing(w.snap, w.order) && size == Sizes(w.snap, w.order) && NoneEmpty(w.snap)
  }

  // The object is made: it holds exactly the parts it was summed from, until it is dropped.
  ghost predicate Settled(w: World) {
    if w.obj.Some? && w.obj.value.state == Active
    then Frozen(w) && SizedBy(w, w.obj.value.size) && w.dropper.None? && !w.uncharged
    else
      && (w.obj.Some? ==> w.obj.value.state == Inactive)
      && (if w.dropper.Some? then !w.uncharged else w.parts == map[])
  }

  ghost predicate Unmade(w: World) { w.obj.None? && w.dropper.None? && w.made == 0 }

  predicate Is(w: World, st: State) { w.up.Some? && w.up.value.state == st }

  ghost predicate Making(w: World, size: nat) {
    && w.obj == Some(Final(NoneState, size)) && Frozen(w) && SizedBy(w, size)
    && w.dropper.None? && w.made == 0 && !w.uncharged && Is(w, Active)
  }

  ghost predicate Stage(w: World, pc: Pc) {
    match pc
    case Resum => Unmade(w) && Frozen(w) && Is(w, Active)
    case Insert(size) => Unmade(w) && Frozen(w) && SizedBy(w, size) && Is(w, Active)
    case Acct(size) => Making(w, size)
    case Activate(size) => Making(w, size)
    case Commit => Settled(w) && w.made == 0 && Is(w, Active)
    case Unmake =>
      && (w.obj.Some? ==> w.obj.value.state != Active) && AllActive(w.parts)
      && w.dropper.None? && w.made == 0 && Is(w, Active)
    case Close(abort) =>
      (if abort then Unmade(w) && AllActive(w.parts) else Settled(w) && w.made == 1) && Is(w, Active)
    case ListAll => Unmade(w) && Is(w, Inactive)
    case Clear(_, _, _) => Unmade(w) && Is(w, Inactive)
    case Erase(abort) =>
      (if abort then Unmade(w) && w.parts == map[] else Settled(w) && w.made == 1) && Is(w, Inactive)
    case Unlock => Unmade(w) && AllActive(w.parts) && Is(w, Active)
    case _ => true
  }

  ghost predicate StageOk(s: Sys) {
    match s.w.holder
    case Some(p) => p in s.ops && s.w.up.Some? && Holds(s.ops[p]) && Stage(s.w, s.ops[p])
    case None =>
      if s.w.up.Some? then Unmade(s.w)
      else Settled(s.w) && s.w.made <= 1 && (s.w.made == 0 ==> s.w.obj.None? && s.w.dropper.None? && s.w.parts == map[])
  }

  ghost predicate OpOk(s: Sys, p: OpId) { p in s.ops ==> PcOk(s.w, p, s.ops[p]) }

  ghost predicate Inv(s: Sys) {
    && RecordOk(s.w) && StageOk(s)
    && s.w.refs <= s.ops.Keys
    && (s.w.dropper.Some? ==> s.w.dropper.value in s.ops)
    && (forall p {:trigger OpOk(s, p)} :: OpOk(s, p))
    && (forall x {:trigger PartOk(s, x)} :: PartOk(s, x))
  }

  // --- each step keeps it ---

  ghost function After(s: Sys, p: OpId, m: Moved): Sys { Sys(m.0, Put(s.ops, p, m.1)) }

  // An operation that did not move kept its part.
  ghost predicate Still(s: Sys, p: OpId, w: World, q: OpId) {
    q in s.ops && q != p ==> PcOk(w, q, s.ops[q])
  }

  ghost predicate Good(s: Sys, p: OpId, m: Moved) {
    && RecordOk(m.0) && StageOk(After(s, p, m))
    && m.0.refs - {p} <= s.w.refs && (m.0.dropper == s.w.dropper || m.0.dropper == Some(p) || m.0.dropper == None)
    && (if m.1.Some? then PcOk(m.0, p, m.1.value)
        else p !in m.0.refs && m.0.holder != Some(p) && m.0.dropper != Some(p))
    && (forall q {:trigger Still(s, p, m.0, q)} :: Still(s, p, m.0, q))
    && (forall x {:trigger PartOk(After(s, p, m), x)} :: PartOk(After(s, p, m), x))
  }

  lemma Moves(s: Sys, p: OpId, m: Moved)
    requires Inv(s) && Good(s, p, m)
    ensures Inv(After(s, p, m))
  {
    var t := After(s, p, m);
    forall q ensures OpOk(t, q) { assert Still(s, p, m.0, q); }
    if t.w.dropper.Some? && t.w.dropper.value == p { assert t.w.dropper.value in t.ops; }
  }

  predicate Stores(pc: Pc) { pc.Writing? || pc.Unstore? }

  // A step that leaves the parts alone disturbs no other operation and no part.
  lemma PartsAlone(s: Sys, p: OpId, m: Moved)
    requires Inv(s) && (p in s.ops ==> !Stores(s.ops[p]))
    requires m.0.parts == s.w.parts && m.0.author == s.w.author && m.0.used == s.w.used
    requires m.0.refs - {p} == s.w.refs - {p}
    requires m.0.holder == s.w.holder || (m.0.holder in {None, Some(p)} && s.w.holder in {None, Some(p)})
    requires m.0.dropper == s.w.dropper || (m.0.dropper in {None, Some(p)} && s.w.dropper in {None, Some(p)})
    requires s.w.holder.Some? || s.w.dropper.Some? ==> m.0.holder.Some? || m.0.dropper.Some? || AllActive(s.w.parts)
    ensures forall q {:trigger Still(s, p, m.0, q)} :: Still(s, p, m.0, q)
    ensures forall x {:trigger PartOk(After(s, p, m), x)} :: PartOk(After(s, p, m), x)
  {
    forall q ensures Still(s, p, m.0, q) {
      assert OpOk(s, q);
      assert q != p ==> (q in m.0.refs - {p} <==> q in s.w.refs - {p});
    }
    forall x ensures PartOk(After(s, p, m), x) {
      assert PartOk(s, x);
      if x in s.w.parts && s.w.parts[x].state == NoneState {
        var a := s.w.author[x];
        assert OpOk(s, a);
        assert a in m.0.refs - {p};
      }
    }
  }

  lemma BeginGood(s: Sys, p: OpId, pc: Pc)
    requires Inv(s) && p !in s.ops
    requires pc.LockFini? || pc.LockAbort? || pc.Deactivate? || (pc.RefInc? && |pc.data| <= pc.size)
    ensures Good(s, p, (s.w, Some(pc)))
  {
    PartsAlone(s, p, (s.w, Some(pc)));
  }

  lemma RefIncGood(s: Sys, p: OpId)
    requires Inv(s) && p in s.ops && s.ops[p].RefInc?
    ensures Good(s, p, StepRefInc(s.w, p, s.ops[p]))
  {
    assert OpOk(s, p);
    PartsAlone(s, p, StepRefInc(s.w, p, s.ops[p]));
  }

  lemma RefDecGood(s: Sys, p: OpId)
    requires Inv(s) && p in s.ops && s.ops[p].RefDec?
    ensures Good(s, p, StepRefDec(s.w, p))
    ensures s.w.up.Some? && s.w.up.value.state == Active && s.w.up.value.lock == 0
  {
    assert OpOk(s, p);
    assert |s.w.refs - {p}| == |s.w.refs| - 1;
    PartsAlone(s, p, StepRefDec(s.w, p));
  }

  // Nobody stores a part and nobody deletes one: all are there to stay.
  lemma AtRest(s: Sys)
    requires Inv(s) && s.w.refs == {} && s.w.holder.None? && s.w.dropper.None?
    ensures AllActive(s.w.parts)
  {
    forall x | x in s.w.parts ensures s.w.parts[x].state == Active { assert PartOk(s, x); }
  }

  lemma ActiveIsAll(ps: Parts)
    requires AllActive(ps)
    ensures ActiveParts(ps) == ps
  {
  }

  lemma LockGood(s: Sys, p: OpId, abort: bool)
    requires Inv(s) && p in s.ops && s.ops[p] == if abort then LockAbort else LockFini
    ensures Good(s, p, StepLock(s.w, p, abort))
    ensures StepLock(s.w, p, abort).1.Some? ==> AllActive(s.w.parts)
  {
    assert OpOk(s, p);
    var m := StepLock(s.w, p, abort);
    if m.1.Some? {
      assert s.w.refs == {};
      AtRest(s);
      ActiveIsAll(s.w.parts);
    }
    PartsAlone(s, p, m);
  }

  lemma UnlockGood(s: Sys, p: OpId)
    requires Inv(s) && p in s.ops && s.ops[p].Unlock?
    ensures Good(s, p, StepUnlock(s.w))
    ensures s.w.up.Some? && s.w.up.value == Record(Active, 1, 0)
  {
    assert OpOk(s, p);
    PartsAlone(s, p, StepUnlock(s.w));
  }

  lemma CloseGood(s: Sys, p: OpId)
    requires Inv(s) && p in s.ops && s.ops[p].Close?
    ensures Good(s, p, StepClose(s.w, s.ops[p].abort))
    ensures s.w.up.Some? && s.w.up.value.state == Active
  {
    assert OpOk(s, p);
    PartsAlone(s, p, StepClose(s.w, s.ops[p].abort));
  }

  lemma EraseGood(s: Sys, p: OpId)
    requires Inv(s) && p in s.ops && s.ops[p].Erase?
    ensures Good(s, p, StepErase(s.w, s.ops[p].abort))
    ensures s.w.up == Some(Record(Inactive, 1, 0))
  {
    assert OpOk(s, p);
    PartsAlone(s, p, StepErase(s.w, s.ops[p].abort));
  }

  // --- storing a part ---

  // While a part upload counts in ref, nobody holds the lock or deletes parts.
  lemma StoringAlone(s: Sys, p: OpId)
    requires Inv(s) && p in s.ops && InRef(s.ops[p])
    ensures p in s.w.refs && s.w.holder.None? && s.w.dropper.None? && Unmade(s.w)
    ensures s.w.up.Some? && s.w.up.value.state == Active && s.w.up.value.lock == 0
  {
    assert OpOk(s, p);
  }

  // A step of a part upload that touches only its own part.
  lemma StoringGood(s: Sys, p: OpId, m: Moved, id: PartId)
    requires Inv(s) && p in s.ops && InRef(s.ops[p])
    requires m.0 == s.w.(parts := m.0.parts, author := m.0.author, used := m.0.used)
    requires m.0.parts - {id} == s.w.parts - {id} && m.0.author - {id} == s.w.author - {id}
    requires s.w.used <= m.0.used && (id in m.0.parts ==> id in m.0.used)
    requires id in s.w.used ==> Stores(s.ops[p]) && s.ops[p].id == id
    requires Stores(s.ops[p]) ==> s.ops[p].id == id
    requires m.1.Some? && InRef(m.1.value) && PcOk(m.0, p, m.1.value)
    requires id in m.0.parts ==> |m.0.parts[id].data| <= m.0.parts[id].size
    requires id in m.0.parts ==> m.0.parts[id].state == (if Stores(m.1.value) then NoneState else Active)
    requires Stores(m.1.value) ==> m.1.value.id == id
    ensures Good(s, p, m)
  {
    StoringAlone(s, p);
    forall q ensures Still(s, p, m.0, q) {
      assert OpOk(s, q) && OpOk(s, p);
      if q in s.ops && Stores(s.ops[q]) && q != p {
        var x := s.ops[q].id;
        assert PartOk(s, x);
        assert x != id;
        assert x in m.0.parts - {id} && x in m.0.author - {id};
      }
    }
    forall x ensures PartOk(After(s, p, m), x) {
      assert PartOk(s, x);
      assert x != id ==>
             (x in m.0.parts - {id} <==> x in s.w.parts - {id})
             && (x in m.0.author - {id} <==> x in s.w.author - {id});
    }
  }

  lemma StoreGood(s: Sys, p: OpId, id: PartId)
    requires Inv(s) && Enabled(s, Store(p, id))
    ensures Good(s, p, StepStore(s.w, p, s.ops[p], id))
  {
    assert OpOk(s, p) && PartOk(s, id);
    StoringGood(s, p, StepStore(s.w, p, s.ops[p], id), id);
  }

  lemma WritingGood(s: Sys, p: OpId)
    requires Inv(s) && p in s.ops && s.ops[p].Writing?
    ensures Good(s, p, StepWriting(s.w, s.ops[p].id)) && Good(s, p, (s.w, Some(Unstore(s.ops[p].id))))
    ensures StepWriting(s.w, s.ops[p].id).1 == Some(RefDec)
  {
    assert OpOk(s, p) && PartOk(s, s.ops[p].id);
    StoringGood(s, p, StepWriting(s.w, s.ops[p].id), s.ops[p].id);
    StoringGood(s, p, (s.w, Some(Unstore(s.ops[p].id))), s.ops[p].id);
  }

  lemma UnstoreGood(s: Sys, p: OpId)
    requires Inv(s) && p in s.ops && s.ops[p].Unstore?
    ensures Good(s, p, StepUnstore(s.w, s.ops[p].id))
  {
    assert OpOk(s, p) && PartOk(s, s.ops[p].id);
    StoringGood(s, p, StepUnstore(s.w, s.ops[p].id), s.ops[p].id);
  }

  lemma StoringFailsGood(s: Sys, p: OpId)
    requires Inv(s) && p in s.ops && s.ops[p].Storing?
    ensures Good(s, p, (s.w, Some(RefDec)))
  {
    assert OpOk(s, p);
    PartsAlone(s, p, (s.w, Some(RefDec)));
  }

  // --- making the object ---

  lemma SumGood(s: Sys, p: OpId, order: seq<PartId>)
    requires Inv(s) && Enabled(s, Sum(p, order))
    ensures Good(s, p, StepSum(s.w, order))
  {
    assert OpOk(s, p);
    PartsAlone(s, p, StepSum(s.w, order));
  }

  lemma InsertGood(s: Sys, p: OpId)
    requires Inv(s) && p in s.ops && s.ops[p].Insert?
    ensures Good(s, p, StepInsert(s.w, s.ops[p]))
    ensures s.w.obj.None?
  {
    assert OpOk(s, p);
    PartsAlone(s, p, StepInsert(s.w, s.ops[p]));
  }

  lemma AcctGood(s: Sys, p: OpId)
    requires Inv(s) && p in s.ops && s.ops[p].Acct?
    ensures Good(s, p, (s.w, Some(Activate(s.ops[p].size)))) && Good(s, p, (s.w, Some(Unmake)))
  {
    assert OpOk(s, p);
    PartsAlone(s, p, (s.w, Some(Activate(s.ops[p].size))));
    PartsAlone(s, p, (s.w, Some(Unmake)));
  }

  lemma ActivateGood(s: Sys, p: OpId)
    requires Inv(s) && p in s.ops && s.ops[p].Activate?
    ensures Good(s, p, StepActivate(s.w))
    ensures s.w.obj.Some? && s.w.obj.value.state == NoneState
  {
    assert OpOk(s, p);
    PartsAlone(s, p, StepActivate(s.w));
  }

  lemma CommitGood(s: Sys, p: OpId)
    requires Inv(s) && p in s.ops && s.ops[p].Commit?
    ensures Good(s, p, (s.w.(made := s.w.made + 1), Some(Close(false))))
    ensures s.w.uncharged ==> Good(s, p, (s.w, Some(Unmake)))
  {
    assert OpOk(s, p);
    PartsAlone(s, p, (s.w.(made := s.w.made + 1), Some(Close(false))));
    if s.w.uncharged { PartsAlone(s, p, (s.w, Some(Unmake))); }
  }

  lemma UnmakeGood(s: Sys, p: OpId)
    requires Inv(s) && p in s.ops && s.ops[p].Unmake?
    ensures Good(s, p, (s.w.(obj := None), Some(Unlock)))
  {
    assert OpOk(s, p);
    PartsAlone(s, p, (s.w.(obj := None), Some(Unlock)));
  }

  // --- deleting parts, and the object ---

  lemma DeactivateGood(s: Sys, p: OpId)
    requires Inv(s) && p in s.ops && s.ops[p].Deactivate?
    ensures Good(s, p, StepDeactivate(s.w, p))
  {
    assert OpOk(s, p);
    PartsAlone(s, p, StepDeactivate(s.w, p));
  }

  lemma ListGood(s: Sys, p: OpId, todo: seq<PartId>)
    requires Inv(s) && Enabled(s, List(p, todo))
    ensures Good(s, p, (s.w, Some(Cleared(s.ops[p].ListAll?, todo))))
  {
    assert OpOk(s, p);
    ActiveIsAll(s.w.parts);
    if todo == [] {
      assert forall x :: x in s.w.parts <==> x in todo;
      assert s.w.parts == map[];
    }
    PartsAlone(s, p, (s.w, Some(Cleared(s.ops[p].ListAll?, todo))));
  }

  // Whoever deletes parts is alone with them.
  lemma ClearsAlone(s: Sys, p: OpId)
    requires Inv(s) && p in s.ops && s.ops[p].Clear?
    ensures s.w.refs == {} && ClearOk(s.w, s.ops[p].todo, s.ops[p].marked)
    ensures if s.ops[p].abort then s.w.holder == Some(p) && s.w.dropper.None? else s.w.dropper == Some(p)
    ensures forall q :: q in s.ops && q != p ==>
              !Stores(s.ops[q]) && !s.ops[q].Clear? && !s.ops[q].ListAll?
              && !s.ops[q].ListActive? && !s.ops[q].Unacct?
  {
    assert OpOk(s, p);
    forall q | q in s.ops && q != p
      ensures !Stores(s.ops[q]) && !s.ops[q].Clear? && !s.ops[q].ListAll? && !s.ops[q].ListActive? && !s.ops[q].Unacct?
    {
      assert OpOk(s, q);
    }
  }

  lemma EnumeratesTail(ps: Parts, todo: seq<PartId>)
    requires Enumerates(ps, todo) && todo != []
    ensures todo[0] in ps && Enumerates(ps - {todo[0]}, todo[1..])
    ensures todo[1..] == [] ==> ps - {todo[0]} == map[]
  {
    assert forall x :: x in todo <==> x == todo[0] || x in todo[1..];
    if todo[1..] == [] { assert forall x :: x in ps ==> x == todo[0]; }
  }

  lemma ClearLocal(w: World, pc: Pc)
    requires pc.Clear? && ClearOk(w, pc.todo, pc.marked)
    ensures var m := StepClear(w, pc);
            && m.0 == w.(parts := m.0.parts)
            && (!pc.marked ==> m.1 == Some(pc.(marked := true)) && ClearOk(m.0, pc.todo, true))
            && (pc.marked ==> m.1 == Some(Cleared(pc.abort, pc.todo[1..])))
            && (pc.marked && pc.todo[1..] != [] ==> ClearOk(m.0, pc.todo[1..], false))
            && (pc.marked && pc.todo[1..] == [] ==> m.0.parts == map[])
            && m.0.parts.Keys <= w.parts.Keys && forall x :: x in m.0.parts ==> m.0.parts[x].state != NoneState
  {
    EnumeratesTail(w.parts, pc.todo);
  }

  lemma ClearSpares(s: Sys, p: OpId)
    requires Inv(s) && p in s.ops && s.ops[p].Clear?
    ensures var m := StepClear(s.w, s.ops[p]);
            && (forall q {:trigger Still(s, p, m.0, q)} :: Still(s, p, m.0, q))
            && (forall x {:trigger PartOk(After(s, p, m), x)} :: PartOk(After(s, p, m), x))
  {
    var m := StepClear(s.w, s.ops[p]);
    ClearsAlone(s, p);
    ClearLocal(s.w, s.ops[p]);
    forall q ensures Still(s, p, m.0, q) { assert OpOk(s, q); }
    forall x ensures PartOk(After(s, p, m), x) { assert PartOk(s, x); }
  }

  // The parts change under the aborter, who holds the lock, or under whoever deletes the object,
  // while a finisher may still be about; and nothing else does.
  lemma ClearStage(s: Sys, p: OpId)
    requires Inv(s) && p in s.ops && s.ops[p].Clear?
    ensures var m := StepClear(s.w, s.ops[p]); RecordOk(m.0) && StageOk(After(s, p, m))
  {
    assert OpOk(s, p);
    ClearLocal(s.w, s.ops[p]);
  }

  lemma ClearPc(w: World, p: OpId, pc: Pc)
    requires pc.Clear? && PcOk(w, p, pc)
    ensures var m := StepClear(w, pc); m.1.Some? && PcOk(m.0, p, m.1.value)
  {
    ClearLocal(w, pc);
  }

  lemma ClearGood(s: Sys, p: OpId)
    requires Inv(s) && p in s.ops && s.ops[p].Clear?
    ensures Good(s, p, StepClear(s.w, s.ops[p]))
  {
    assert OpOk(s, p);
    ClearPc(s.w, p, s.ops[p]);
    ClearStage(s, p);
    ClearSpares(s, p);
  }

  lemma UnacctGood(s: Sys, p: OpId)
    requires Inv(s) && p in s.ops && s.ops[p].Unacct?
    ensures Good(s, p, (s.w.(uncharged := true, dropper := None), Some(EraseObject)))
    ensures Good(s, p, (s.w.(dropper := None), None))
  {
    assert OpOk(s, p);
    PartsAlone(s, p, (s.w.(uncharged := true, dropper := None), Some(EraseObject)));
    PartsAlone(s, p, (s.w.(dropper := None), None));
  }

  lemma EraseObjectGood(s: Sys, p: OpId)
    requires Inv(s) && p in s.ops && s.ops[p].EraseObject?
    ensures Good(s, p, StepEraseObject(s.w))
  {
    assert OpOk(s, p);
    PartsAlone(s, p, StepEraseObject(s.w));
  }

  // --- every run ---

  lemma GoRecordGood(s: Sys, p: OpId)
    requires Inv(s) && Enabled(s, Go(p))
    requires var pc := s.ops[p];
             pc.RefInc? || pc.RefDec? || pc.LockFini? || pc.LockAbort? || pc.Close? || pc.Erase? || pc.Unlock?
    ensures Good(s, p, StepGo(s.w, p, s.ops[p]))
  {
    match s.ops[p] {
      case RefInc(_, _, _) => RefIncGood(s, p);
      case RefDec => RefDecGood(s, p);
      case LockFini => LockGood(s, p, false);
      case LockAbort => LockGood(s, p, true);
      case Close(_) => CloseGood(s, p);
      case Erase(_) => EraseGood(s, p);
      case Unlock => UnlockGood(s, p);
    }
  }

  lemma GoPartGood(s: Sys, p: OpId)
    requires Inv(s) && Enabled(s, Go(p))
    requires var pc := s.ops[p];
             pc.Writing? || pc.Unstore? || pc.Clear? || pc.Deactivate? || pc.Unacct? || pc.EraseObject?
    ensures Good(s, p, StepGo(s.w, p, s.ops[p]))
  {
    match s.ops[p] {
      case Writing(_) => WritingGood(s, p);
      case Unstore(_) => UnstoreGood(s, p);
      case Clear(_, _, _) => ClearGood(s, p);
      case Deactivate => DeactivateGood(s, p);
      case Unacct => UnacctGood(s, p);
      case EraseObject => EraseObjectGood(s, p);
    }
  }

  lemma GoMakeGood(s: Sys, p: OpId)
    requires Inv(s) && Enabled(s, Go(p))
    requires var pc := s.ops[p]; pc.Insert? || pc.Acct? || pc.Activate? || pc.Commit? || pc.Unmake?
    ensures Good(s, p, StepGo(s.w, p, s.ops[p]))
  {
    match s.ops[p] {
      case Insert(_) => InsertGood(s, p);
      case Acct(_) => AcctGood(s, p);
      case Activate(_) => ActivateGood(s, p);
      case Commit => CommitGood(s, p);
      case Unmake => UnmakeGood(s, p);
    }
  }

  lemma GoGood(s: Sys, p: OpId)
    requires Inv(s) && Enabled(s, Go(p))
    ensures Good(s, p, StepGo(s.w, p, s.ops[p]))
  {
    var pc := s.ops[p];
    if pc.Insert? || pc.Acct? || pc.Activate? || pc.Commit? || pc.Unmake? {
      GoMakeGood(s, p);
    } else if pc.RefInc? || pc.RefDec? || pc.LockFini? || pc.LockAbort? || pc.Close? || pc.Erase? || pc.Unlock? {
      GoRecordGood(s, p);
    } else {
      GoPartGood(s, p);
    }
  }

  lemma FailGood(s: Sys, p: OpId)
    requires Inv(s) && Enabled(s, Fail(p))
    ensures Good(s, p, StepFail(s.w, s.ops[p]))
  {
    match s.ops[p] {
      case Storing(_, _, _) => StoringFailsGood(s, p);
      case Writing(_) => WritingGood(s, p);
      case Acct(_) => AcctGood(s, p);
      case Commit => CommitGood(s, p);
      case Unacct => UnacctGood(s, p);
    }
  }

  lemma {:induction false} StepKeepsInv(s: Sys, st: Step)
    requires Inv(s) && Enabled(s, st)
    ensures Inv(Apply(s, st))
  {
    match st {
      case BeginPart(p, num, size, data) => BeginGood(s, p, RefInc(num, size, data));
      case BeginFini(p) => BeginGood(s, p, LockFini);
      case BeginAbort(p) => BeginGood(s, p, LockAbort);
      case BeginDrop(p) => BeginGood(s, p, Deactivate);
      case Store(p, id) => StoreGood(s, p, id);
      case Sum(p, order) => SumGood(s, p, order);
      case List(p, todo) => ListGood(s, p, todo);
      case Go(p) => GoGood(s, p);
      case Fail(p) => FailGood(s, p);
    }
    Moves(s, st.p, Effect(s, st));
  }

  lemma {:induction false} RunKeepsInv(run: seq<Sys>, i: nat)
    requires IsRun(run) && i < |run|
    ensures Inv(run[i])
  {
    if i > 0 {
      RunKeepsInv(run, i - 1);
      assert Next(run[i - 1], run[i - 1 + 1]);
      var st :| Enabled(run[i - 1], st) && run[i] == Apply(run[i - 1], st);
      StepKeepsInv(run[i - 1], st);
    }
  }

  lemma ReachableInv(s: Sys)
    requires Reachable(s)
    ensures Inv(s)
  {
    var run :| IsRun(run) && s == run[|run| - 1];
    RunKeepsInv(run, |run| - 1);
  }
}
