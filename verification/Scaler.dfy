// The replica scaler of one function: a loop under a condition variable, raised by
// scalerSetGoal, stopped by scalerStop, started anew by scalerInit. A step is what runs
// between two releases of the lock, one unlocked read, or one deployment call.
module Scaler {
  type OpId = nat

  // Where a scaler stands; local is its own idea of the replica count.
  datatype Pc =
    | Up                               // before the unlocked read of the goal
    | UpCall(x: nat)
    | Check(local: nat)                // before it takes the lock
    | Relax(local: nat, woken: bool)   // condWaitTmo; woken by a signal or by the timer
    | Decay(local: nat, woken: bool)   // the second condWaitTmo, the goal one lower
    | Down
    | DownCall(x: nat)
    | Lower(local: nat)

  // scalerSetGoal before and behind its unlocked test.
  datatype SetPc = SetFirst(g: nat) | SetLocked(g: nat)

  // History: top is the largest initial goal; broken, a deployment call has failed; missed, one
  // has failed that was asked for more replicas than there were.
  datatype Sys = Sys(goal: nat, wakeup: bool, replicas: nat, scalers: map<OpId, Pc>, setters: map<OpId, SetPc>,
                     top: nat, broken: bool, missed: bool)

  datatype Step =
    | BeginSet(q: OpId, g: nat)
    | Set(q: OpId, id: OpId)           // id names the scaler if one is started
    | Stop
    | Start(id: OpId, target: nat)     // scalerInit
    | Timer(id: OpId)
    | Go(id: OpId)
    | CallFails(id: OpId)

  function Init(replicas: nat): Sys { Sys(0, false, replicas, map[], map[], 0, false, false) }

  predicate Enabled(s: Sys, st: Step) {
    match st
    case BeginSet(q, _) => q !in s.setters
    case Set(q, id) => q in s.setters && id !in s.scalers
    case Stop => true
    // at start-up, for a deployment found with more than one replica
    case Start(id, target) => s.scalers == map[] && target == s.replicas && target > 1
    case Timer(id) => id in s.scalers && (s.scalers[id].Relax? || s.scalers[id].Decay?)
    case Go(id) => id in s.scalers && ((s.scalers[id].Relax? || s.scalers[id].Decay?) ==> s.scalers[id].woken)
    case CallFails(id) => id in s.scalers && (s.scalers[id].UpCall? || s.scalers[id].DownCall?)
  }

  function Max(a: nat, b: nat): nat { if a >= b then a else b }
  function Min(a: nat, b: nat): nat { if a <= b then a else b }

  function Wake(pc: Pc): Pc {
    match pc
    case Relax(local, _) => Relax(local, true)
    case Decay(local, _) => Decay(local, true)
    case _ => pc
  }

  // Cond.Signal: whoever waits is woken; with nobody waiting it is lost.
  function Signal(scalers: map<OpId, Pc>): map<OpId, Pc> {
    map i | i in scalers :: Wake(scalers[i])
  }

  function StepSet(s: Sys, maxReplicas: nat, q: OpId, id: OpId): Sys
    requires q in s.setters
  {
    match s.setters[q]
    case SetFirst(g) =>
      if g <= s.goal then s.(setters := s.setters - {q}) else s.(setters := s.setters[q := SetLocked(g)])
    case SetLocked(g) =>
      var t := s.(setters := s.setters - {q});
      if g <= s.goal || g > maxReplicas then t
      else if !s.wakeup then t.(goal := g, wakeup := true, scalers := s.scalers[id := Up])
      else t.(goal := g, scalers := Signal(s.scalers))
  }

  // k8sDepScale, both ways.
  function StepCall(s: Sys, id: OpId, pc: Pc): Sys
    requires pc.UpCall? || pc.DownCall?
  {
    var r := if pc.UpCall? then Max(s.replicas, pc.x) else Min(s.replicas, pc.x);
    s.(replicas := r, scalers := s.scalers[id := if pc.UpCall? then Check(r) else Lower(r)])
  }

  // The label down.
  function StepDown(s: Sys, id: OpId, local: nat): Sys {
    if s.goal <= 1 then s.(wakeup := false, scalers := s.scalers - {id})
    else if s.goal > local then s.(scalers := s.scalers[id := Up])
    else s.(goal := s.goal - 1, scalers := s.scalers[id := Decay(local, false)])
  }

  function StepGo(s: Sys, id: OpId, pc: Pc): Sys {
    match pc
    case Up => s.(scalers := s.scalers[id := UpCall(s.goal)])
    case UpCall(_) => StepCall(s, id, pc)
    case Check(local) =>
      if s.goal == 0 then s.(scalers := s.scalers - {id})
      else if s.goal > local then s.(scalers := s.scalers[id := Up])
      else s.(scalers := s.scalers[id := Relax(local, false)])
    case Relax(local, _) => StepDown(s, id, local)
    case Decay(local, _) =>
      if s.goal == 0 then s.(scalers := s.scalers - {id})
      else if s.goal == local then s.(scalers := s.scalers[id := Relax(local, false)])
      else if s.goal > local then s.(scalers := s.scalers[id := Up])
      else s.(scalers := s.scalers[id := Down])
    case Down => s.(scalers := s.scalers[id := DownCall(s.goal)])
    case DownCall(_) => StepCall(s, id, pc)
    case Lower(local) => StepDown(s, id, local)
  }

  // A failed call reports the count asked for all the same.
  function StepCallFails(s: Sys, id: OpId, pc: Pc): Sys
    requires pc.UpCall? || pc.DownCall?
  {
    s.(broken := true, missed := s.missed || pc.x > s.replicas,
       scalers := s.scalers[id := if pc.UpCall? then Check(pc.x) else Lower(pc.x)])
  }

  function Apply(maxReplicas: nat, s: Sys, st: Step): Sys
    requires Enabled(s, st)
  {
    match st
    case BeginSet(q, g) => s.(setters := s.setters[q := SetFirst(g)])
    case Set(q, id) => StepSet(s, maxReplicas, q, id)
    case Stop => if s.wakeup then s.(goal := 0, scalers := Signal(s.scalers)) else s
    case Start(id, target) =>
      s.(goal := target, wakeup := true, scalers := s.scalers[id := Up], top := Max(s.top, target))
    case Timer(id) => s.(scalers := s.scalers[id := Wake(s.scalers[id])])
    case Go(id) => StepGo(s, id, s.scalers[id])
    case CallFails(id) => StepCallFails(s, id, s.scalers[id])
  }

  ghost predicate Next(maxReplicas: nat, s: Sys, t: Sys) {
    exists st :: Enabled(s, st) && t == Apply(maxReplicas, s, st)
  }

  ghost predicate IsRun(maxReplicas: nat, run: seq<Sys>) {
    && |run| > 0 && run[0] == Init(run[0].replicas)
    && forall i :: 0 <= i < |run| - 1 ==> Next(maxReplicas, run[i], run[i + 1])
  }

  ghost predicate Reachable(maxReplicas: nat, s: Sys) {
    exists run :: IsRun(maxReplicas, run) && s == run[|run| - 1]
  }

  // --- what every state keeps ---

  predicate Waiting(pc: Pc) { pc.Relax? || pc.Decay? }

  // A scaler with an idea of the replica count.
  predicate Knows(pc: Pc) { pc.Check? || pc.Lower? || Waiting(pc) }

  // It never sleeps on a goal above its idea, and its idea is right but for failed calls.
  predicate PcOk(s: Sys, pc: Pc) {
    && (Waiting(pc) && !pc.woken ==> s.goal <= pc.local)
    && (Knows(pc) && !s.missed ==> pc.local <= s.replicas)
    && (Knows(pc) && !s.broken ==> pc.local == s.replicas)
    && (Waiting(pc) ==> pc.local >= 1)
  }

  ghost predicate Inv(maxReplicas: nat, s: Sys) {
    && (forall a, b :: a in s.scalers && b in s.scalers ==> a == b)
    && (!s.wakeup ==> s.scalers == map[])
    && s.goal <= Max(maxReplicas, s.top)
    && (s.missed ==> s.broken)
    && forall i :: i in s.scalers ==> PcOk(s, s.scalers[i])
  }

  lemma SetKeepsInv(maxReplicas: nat, s: Sys, q: OpId, id: OpId)
    requires Inv(maxReplicas, s) && q in s.setters && id !in s.scalers
    ensures Inv(maxReplicas, StepSet(s, maxReplicas, q, id))
  {
  }

  lemma DownKeepsInv(maxReplicas: nat, s: Sys, id: OpId, local: nat)
    requires Inv(maxReplicas, s) && id in s.scalers && Knows(s.scalers[id]) && s.scalers[id].local == local
    ensures Inv(maxReplicas, StepDown(s, id, local))
  {
    assert PcOk(s, s.scalers[id]);
  }

  lemma GoKeepsInv(maxReplicas: nat, s: Sys, id: OpId)
    requires Inv(maxReplicas, s) && Enabled(s, Go(id))
    ensures Inv(maxReplicas, StepGo(s, id, s.scalers[id]))
  {
    var pc := s.scalers[id];
    assert PcOk(s, pc);
    if pc.Relax? || pc.Lower? { DownKeepsInv(maxReplicas, s, id, pc.local); }
  }

  lemma {:induction false} StepKeepsInv(maxReplicas: nat, s: Sys, st: Step)
    requires Inv(maxReplicas, s) && Enabled(s, st)
    ensures Inv(maxReplicas, Apply(maxReplicas, s, st))
  {
    match st {
      case Set(q, id) => SetKeepsInv(maxReplicas, s, q, id);
      case Go(id) => GoKeepsInv(maxReplicas, s, id);
      case _ =>
    }
  }

  lemma {:induction false} ReachableInv(maxReplicas: nat, run: seq<Sys>, i: nat)
    requires IsRun(maxReplicas, run) && i < |run|
    ensures Inv(maxReplicas, run[i])
  {
    if i > 0 {
      ReachableInv(maxReplicas, run, i - 1);
      assert Next(maxReplicas, run[i - 1], run[i - 1 + 1]);
      var st :| Enabled(run[i - 1], st) && run[i] == Apply(maxReplicas, run[i - 1], st);
      StepKeepsInv(maxReplicas, run[i - 1], st);
    }
  }
}
