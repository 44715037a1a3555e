// The store of pods by function: tables in a shared map, each under its own lock, with a
// marker for tables that are being thrown away. Every map access and every lock operation
// is one step.
module Pods {
  import opened Common

  type OpId = nat
  type FnId = nat
  type Uid = nat
  type TableId = nat

  datatype Pod = Pod(fn: FnId, uid: Uid)

  // fnPods; fn is the key it was stored under. An RWMutex has one writer or many readers.
  datatype Table = Table(fn: FnId, pods: set<Uid>, dead: bool, writer: Option<OpId>, readers: set<OpId>)

  datatype Pc =
    // podsAdd
    | AddLoad(pod: Pod)
    | AddStore(pod: Pod)
    | AddLock(pod: Pod, t: TableId)
    | AddCheck(pod: Pod, t: TableId)
    | AddInsert(pod: Pod, t: TableId)
    | AddUnlock(pod: Pod, t: TableId, again: bool)
    // podsDel
    | DelFind(pod: Pod)
    | DelLock(pod: Pod, t: TableId)
    | DelRemove(pod: Pod, t: TableId)
    | DelCheck(pod: Pod, t: TableId)
    | DelErase(pod: Pod, t: TableId)
    | DelUnlock(pod: Pod, t: TableId)
    // podsFindAll; seen is history: what the function's pods were since the call
    | LookFind(fn: FnId, seen: set<set<Uid>>)
    | LookLock(fn: FnId, seen: set<set<Uid>>, t: TableId)
    | LookRead(fn: FnId, seen: set<set<Uid>>, t: TableId)
    | LookUnlock(fn: FnId, seen: set<set<Uid>>, t: TableId, found: set<Uid>)
    | LookDone(fn: FnId, seen: set<set<Uid>>, found: set<Uid>)

  predicate IsDel(pc: Pc) {
    pc.DelFind? || pc.DelLock? || pc.DelRemove? || pc.DelCheck? || pc.DelErase? || pc.DelUnlock?
  }
  predicate IsLook(pc: Pc) { pc.LookFind? || pc.LookLock? || pc.LookRead? || pc.LookUnlock? || pc.LookDone? }

  datatype World = World(store: map<FnId, TableId>, tables: map<TableId, Table>)
  datatype Sys = Sys(w: World, ops: map<OpId, Pc>)

  datatype Step =
    | BeginAdd(p: OpId, pod: Pod)
    | BeginDel(p: OpId, pod: Pod)
    | BeginLook(p: OpId, fn: FnId)
    | Store(p: OpId, t: TableId)   // LoadOrStore with a new table
    | Go(p: OpId)

  function Init(): Sys { Sys(World(map[], map[]), map[]) }

  // The pods of a function: the abstract map.
  function PodsOf(w: World, fn: FnId): set<Uid> {
    if fn in w.store && w.store[fn] in w.tables then w.tables[w.store[fn]].pods else {}
  }

  predicate Free(w: World, t: TableId) { t in w.tables && w.tables[t].writer == None && w.tables[t].readers == {} }

  // one: only podEventLoop deletes.
  ghost predicate Enabled(one: bool, s: Sys, st: Step) {
    match st
    case BeginAdd(p, _) => p !in s.ops
    case BeginDel(p, _) => p !in s.ops && (one ==> forall q :: q in s.ops ==> !IsDel(s.ops[q]))
    case BeginLook(p, _) => p !in s.ops
    case Store(p, t) => p in s.ops && s.ops[p].AddStore? && t !in s.w.tables
    case Go(p) =>
      && p in s.ops
      && match s.ops[p] {
           case AddStore(_) => false
           case AddLock(_, t) => Free(s.w, t)
           case DelLock(_, t) => Free(s.w, t)
           case LookLock(_, _, t) => t in s.w.tables && s.w.tables[t].writer == None
           case _ => true
         }
  }

  type Moved = (World, Option<Pc>)

  function SetTable(w: World, t: TableId, table: Table): World { w.(tables := w.tables[t := table]) }

  function TableAt(w: World, t: TableId): Table {
    if t in w.tables then w.tables[t] else Table(0, {}, false, None, {})
  }

  function Lock(w: World, t: TableId, p: OpId): World { SetTable(w, t, TableAt(w, t).(writer := Some(p))) }
  function Unlock(w: World, t: TableId): World { SetTable(w, t, TableAt(w, t).(writer := None)) }

  function StepAdd(w: World, p: OpId, pc: Pc): Moved {
    match pc
    case AddLoad(pod) => (w, Some(if pod.fn in w.store then AddLock(pod, w.store[pod.fn]) else AddStore(pod)))
    case AddLock(pod, t) => (Lock(w, t, p), Some(AddCheck(pod, t)))
    case AddCheck(pod, t) => (w, Some(if TableAt(w, t).dead then AddUnlock(pod, t, true) else AddInsert(pod, t)))
    case AddInsert(pod, t) =>
      (SetTable(w, t, TableAt(w, t).(pods := TableAt(w, t).pods + {pod.uid})), Some(AddUnlock(pod, t, false)))
    case AddUnlock(pod, t, again) => (Unlock(w, t), if again then Some(AddLoad(pod)) else None)
    case _ => (w, Some(pc))
  }

  function StepStore(w: World, pod: Pod, t: TableId): Moved {
    if pod.fn in w.store then (w, Some(AddLock(pod, w.store[pod.fn])))
    else (World(w.store[pod.fn := t], w.tables[t := Table(pod.fn, {}, false, None, {})]), Some(AddLock(pod, t)))
  }

  function StepDel(w: World, p: OpId, pc: Pc): Moved {
    match pc
    case DelFind(pod) => (w, if pod.fn in w.store then Some(DelLock(pod, w.store[pod.fn])) else None)
    case DelLock(pod, t) => (Lock(w, t, p), Some(DelRemove(pod, t)))
    case DelRemove(pod, t) =>
      (SetTable(w, t, TableAt(w, t).(pods := TableAt(w, t).pods - {pod.uid})), Some(DelCheck(pod, t)))
    case DelCheck(pod, t) =>
      if TableAt(w, t).pods == {} then (SetTable(w, t, TableAt(w, t).(dead := true)), Some(DelErase(pod, t)))
      else (w, Some(DelUnlock(pod, t)))
    case DelErase(pod, t) => (w.(store := w.store - {pod.fn}), Some(DelUnlock(pod, t)))
    case DelUnlock(pod, t) => (Unlock(w, t), None)
    case _ => (w, Some(pc))
  }

  function StepLook(w: World, p: OpId, pc: Pc): Moved {
    match pc
    case LookFind(fn, seen) =>
      (w, Some(if fn in w.store then LookLock(fn, seen, w.store[fn]) else LookDone(fn, seen, {})))
    case LookLock(fn, seen, t) =>
      (SetTable(w, t, TableAt(w, t).(readers := TableAt(w, t).readers + {p})), Some(LookRead(fn, seen, t)))
    case LookRead(fn, seen, t) => (w, Some(LookUnlock(fn, seen, t, TableAt(w, t).pods)))
    case LookUnlock(fn, seen, t, found) =>
      (SetTable(w, t, TableAt(w, t).(readers := TableAt(w, t).readers - {p})), Some(LookDone(fn, seen, found)))
    case LookDone(_, _, _) => (w, None)
    case _ => (w, Some(pc))
  }

  function StepGo(w: World, p: OpId, pc: Pc): Moved {
    if IsLook(pc) then StepLook(w, p, pc) else if IsDel(pc) then StepDel(w, p, pc) else StepAdd(w, p, pc)
  }

  ghost function Effect(one: bool, s: Sys, st: Step): Moved
    requires Enabled(one, s, st)
  {
    match st
    case BeginAdd(_, pod) => (s.w, Some(AddLoad(pod)))
    case BeginDel(_, pod) => (s.w, Some(DelFind(pod)))
    case BeginLook(_, fn) => (s.w, Some(LookFind(fn, {PodsOf(s.w, fn)})))
    case Store(p, t) => StepStore(s.w, s.ops[p].pod, t)
    case Go(p) => StepGo(s.w, p, s.ops[p])
  }

  function Put(ops: map<OpId, Pc>, p: OpId, pc: Option<Pc>): map<OpId, Pc> {
    if pc.Some? then ops[p := pc.value] else ops - {p}
  }

  // A lookup in flight takes note of what the pods are now.
  function Watch(pc: Pc, w: World): Pc {
    match pc
    case LookFind(fn, seen) => LookFind(fn, seen + {PodsOf(w, fn)})
    case LookLock(fn, seen, t) => LookLock(fn, seen + {PodsOf(w, fn)}, t)
    case LookRead(fn, seen, t) => LookRead(fn, seen + {PodsOf(w, fn)}, t)
    case LookUnlock(fn, seen, t, found) => LookUnlock(fn, seen + {PodsOf(w, fn)}, t, found)
    case LookDone(fn, seen, found) => LookDone(fn, seen + {PodsOf(w, fn)}, found)
    case _ => pc
  }

  function After(s: Sys, p: OpId, m: Moved): Sys {
    var ops := Put(s.ops, p, m.1);
    Sys(m.0, map q | q in ops :: Watch(ops[q], m.0))
  }

  ghost function Apply(one: bool, s: Sys, st: Step): Sys
    requires Enabled(one, s, st)
  {
    After(s, st.p, Effect(one, s, st))
  }

  ghost predicate Next(one: bool, s: Sys, t: Sys) {
    exists st :: Enabled(one, s, st) && t == Apply(one, s, st)
  }

  ghost predicate IsRun(one: bool, run: seq<Sys>) {
    && |run| > 0 && run[0] == Init()
    && forall i :: 0 <= i < |run| - 1 ==> Next(one, run[i], run[i + 1])
  }

  ghost predicate Reachable(one: bool, s: Sys) {
    exists run :: IsRun(one, run) && s == run[|run| - 1]
  }
}
