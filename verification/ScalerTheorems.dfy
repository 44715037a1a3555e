// At most one scaler, no lost demand, and where a scaler ends when demand stops.
module ScalerTheorems {
  import opened Scaler

  lemma AtEnd(maxReplicas: nat, s: Sys)
    requires Reachable(maxReplicas, s)
    ensures Inv(maxReplicas, s)
  {
    var run :| IsRun(maxReplicas, run) && s == run[|run| - 1];
    ReachableInv(maxReplicas, run, |run| - 1);
  }

  lemma AtMostOneScaler(maxReplicas: nat, s: Sys)
    requires Reachable(maxReplicas, s)
    ensures |s.scalers| <= 1
    ensures s.goal <= Max(maxReplicas, s.top)
  {
    AtEnd(maxReplicas, s);
    if i :| i in s.scalers {
      assert s.scalers.Keys == {i};
      assert |s.scalers| == |s.scalers.Keys|;
    }
  }

  // A scaler that sleeps with no signal on its way has enough replicas for the goal in every
  // run in which no failed call was asked for more replicas than there were.
  lemma NoLostDemand(maxReplicas: nat, s: Sys, id: OpId)
    requires Reachable(maxReplicas, s) && !s.missed
    requires id in s.scalers && Waiting(s.scalers[id]) && !s.scalers[id].woken
    ensures s.goal <= s.replicas
  {
    AtEnd(maxReplicas, s);
  }

  ghost predicate Overstates(s: Sys, id: OpId) {
    id in s.scalers && Knows(s.scalers[id]) && s.scalers[id].local > s.replicas
  }

  lemma GoNeverOverstates(s: Sys, id: OpId)
    requires id in s.scalers && !Overstates(s, id)
    ensures !Overstates(StepGo(s, id, s.scalers[id]), id)
  {
  }

  lemma SetNeverOverstates(maxReplicas: nat, s: Sys, q: OpId, other: OpId, id: OpId)
    requires q in s.setters && other !in s.scalers && id in s.scalers && !Overstates(s, id)
    ensures !Overstates(StepSet(s, maxReplicas, q, other), id)
  {
  }

  // Such a call is the only step that makes a scaler believe in replicas that are not there.
  lemma OverstatesExactly(maxReplicas: nat, s: Sys, st: Step, id: OpId)
    requires Reachable(maxReplicas, s) && Enabled(s, st) && id in s.scalers
    requires !Overstates(s, id)
    ensures Overstates(Apply(maxReplicas, s, st), id)
            <==> st.CallFails? && st.id == id && s.scalers[id].x > s.replicas
  {
    AtEnd(maxReplicas, s);
    assert st.Go? || st.CallFails? || st.Timer? ==> st.id == id;
    match st {
      case Go(_) => GoNeverOverstates(s, id);
      case Set(q, other) => SetNeverOverstates(maxReplicas, s, q, other, id);
      case _ =>
    }
  }

  // The scaler falls asleep on unmet demand right after a failed call exactly when the goal is
  // above the replicas and not above what the call was asked for; on the way down it lowers
  // the goal by one first, and ends at a goal of one.
  lemma FailedCallExactly(maxReplicas: nat, s: Sys, id: OpId)
    requires Reachable(maxReplicas, s) && Enabled(s, CallFails(id))
    ensures var t := Apply(maxReplicas, s, CallFails(id));
            var u := Apply(maxReplicas, t, Go(id));
            id in u.scalers && Waiting(u.scalers[id]) && !u.scalers[id].woken && u.goal > u.replicas
            <==> if s.scalers[id].UpCall? then s.replicas < s.goal <= s.scalers[id].x
                 else 2 <= s.goal && s.replicas + 1 < s.goal <= s.scalers[id].x
  {
    AtEnd(maxReplicas, s);
  }

  // Reachable from a function with this many replicas that nobody has called yet.
  ghost predicate ReachableFrom(maxReplicas: nat, replicas: nat, s: Sys) {
    exists run :: IsRun(maxReplicas, run) && run[0] == Init(replicas) && s == run[|run| - 1]
  }

  lemma ReachNext(maxReplicas: nat, replicas: nat, s: Sys, st: Step)
    requires ReachableFrom(maxReplicas, replicas, s) && Enabled(s, st)
    ensures ReachableFrom(maxReplicas, replicas, Apply(maxReplicas, s, st))
  {
    var run :| IsRun(maxReplicas, run) && run[0] == Init(replicas) && s == run[|run| - 1];
    var t := Apply(maxReplicas, s, st);
    var more := run + [t];
    assert Next(maxReplicas, s, t);
    forall i | 0 <= i < |more| - 1 ensures Next(maxReplicas, more[i], more[i + 1]) {
      if i < |run| - 1 { assert Next(maxReplicas, run[i], run[i + 1]); }
    }
    assert IsRun(maxReplicas, more);
  }

  // scalerSetGoal with nobody in between: the goal rises to what was asked for exactly when that
  // is more and not too much, and a scaler is then started or signalled, and only then.
  lemma SetAtOnce(maxReplicas: nat, s: Sys, q: OpId, g: nat, id: OpId)
    requires q !in s.setters && id !in s.scalers
    ensures Enabled(s, BeginSet(q, g))
    ensures var a := Apply(maxReplicas, s, BeginSet(q, g));
            var b := Apply(maxReplicas, a, Set(q, id));
            var t := if q in b.setters then Apply(maxReplicas, b, Set(q, id)) else b;
            var raised := s.goal < g <= maxReplicas;
            && t.setters == s.setters && t.goal == (if raised then g else s.goal) && t.replicas == s.replicas
            && t.scalers == (if raised && !s.wakeup then s.scalers[id := Up]
                             else if raised then Signal(s.scalers)
                             else s.scalers)
  {
  }

  // scalerSetGoal where no scaler is: it starts one.
  lemma GoalSet(s: Sys, g: nat) returns (t: Sys)
    requires ReachableFrom(8, 1, s) && s.goal < g <= 8 && !s.wakeup && s.scalers == map[] && s.setters == map[]
    ensures ReachableFrom(8, 1, t) && t == s.(goal := g, wakeup := true, scalers := map[0 := Up])
  {
    ReachNext(8, 1, s, BeginSet(0, g));
    t := Apply(8, s, BeginSet(0, g));
    ReachNext(8, 1, t, Set(0, 0));
    t := Apply(8, t, Set(0, 0));
    ReachNext(8, 1, t, Set(0, 0));
    t := Apply(8, t, Set(0, 0));
    assert t.setters == map[] && t.scalers == map[0 := Up];
  }

  lemma InitReachable(maxReplicas: nat, replicas: nat)
    ensures ReachableFrom(maxReplicas, replicas, Init(replicas))
  {
    var run := [Init(replicas)];
    assert IsRun(maxReplicas, run) && run[0] == run[|run| - 1] == Init(replicas);
  }

  // A function with one replica gets a goal, and its scaler has read it.
  lemma GoalRead(g: nat) returns (s: Sys)
    requires 1 < g <= 8
    ensures ReachableFrom(8, 1, s) && s == Init(1).(goal := g, wakeup := true, scalers := map[0 := UpCall(g)])
  {
    InitReachable(8, 1);
    s := GoalSet(Init(1), g);
    ReachNext(8, 1, s, Go(0));
    s := Apply(8, s, Go(0));
  }

  // A failed call is taken for a success: the scaler then sleeps on unmet demand.
  lemma FailedCallLosesDemand()
    ensures exists s, id :: && ReachableFrom(8, 1, s) && s.missed && id in s.scalers && s.scalers[id] == Relax(2, false)
                            && s.goal == 2 && s.replicas == 1
  {
    var s := GoalRead(2);
    ReachNext(8, 1, s, CallFails(0));
    s := Apply(8, s, CallFails(0));
    ReachNext(8, 1, s, Go(0));
    s := Apply(8, s, Go(0));
    assert s.scalers[0] == Relax(2, false);
  }

  // A scaler asks for more exactly when the goal is above what it believes, and for less exactly
  // when the goal has stayed below that during its wait.
  lemma AsksExactly(maxReplicas: nat, s: Sys, id: OpId)
    requires Enabled(s, Go(id)) && Knows(s.scalers[id])
    ensures var pc, t := s.scalers[id], Apply(maxReplicas, s, Go(id));
            && (id in t.scalers && t.scalers[id].Up?
                <==> s.goal > pc.local && (s.goal > 1 || pc.Check? || pc.Decay?))
            && (id in t.scalers && t.scalers[id].Down? <==> pc.Decay? && 0 < s.goal < pc.local)
  {
  }

  // --- a scaler that is gone while its condition variable stays ---

  predicate Deaf(s: Sys) { s.wakeup && s.scalers == map[] }

  // It comes about exactly when a scaler finds the goal 0 at one of its two tests for that;
  // at the label down it clears the variable instead.
  lemma DeafExactly(maxReplicas: nat, s: Sys, st: Step)
    requires Reachable(maxReplicas, s) && Enabled(s, st) && !Deaf(s)
    ensures Deaf(Apply(maxReplicas, s, st))
            <==> st.Go? && s.goal == 0 && (s.scalers[st.id].Check? || s.scalers[st.id].Decay?)
  {
    AtEnd(maxReplicas, s);
    var t := Apply(maxReplicas, s, st);
    if st.Go? {
      assert forall i :: i in s.scalers <==> i == st.id;
      assert s.scalers - {st.id} == map[];
      assert st.id in t.scalers || t.scalers == s.scalers - {st.id};
    } else if st.Timer? || st.Start? || st.CallFails? {
      assert st.id in t.scalers;
    } else if s.scalers != map[] {
      var i :| i in s.scalers;
      assert i in t.scalers;
    } else if st.Set? {
      assert t.scalers == map[] || st.id in t.scalers;
    }
  }

  // A run to such a state: a stop between the scaling up and the test behind it.
  lemma DeafHappens()
    ensures exists s :: ReachableFrom(8, 1, s) && Deaf(s) && s.goal == 0 && s.replicas == 2
  {
    var s := GoalRead(2);
    ReachNext(8, 1, s, Go(0));
    s := Apply(8, s, Go(0));
    ReachNext(8, 1, s, Stop);
    s := Apply(8, s, Stop);
    assert s.scalers[0] == Check(2) && s.goal == 0;
    ReachNext(8, 1, s, Go(0));
    s := Apply(8, s, Go(0));
    assert s.scalers == map[];
  }

  // From then on no goal starts a scaler; only scalerInit does.
  lemma DeafForGood(maxReplicas: nat, s: Sys, st: Step)
    requires Deaf(s) && Enabled(s, st)
    ensures Deaf(Apply(maxReplicas, s, st)) <==> !st.Start?
    ensures !st.Start? ==> Apply(maxReplicas, s, st).replicas == s.replicas
  {
    assert Signal(s.scalers) == map[];
    if st.Start? { assert st.id in Apply(maxReplicas, s, st).scalers; }
  }

  // --- when demand stops ---

  // A step of the scaler itself, or of its timer.
  predicate Quiet(st: Step) { st.Go? || st.Timer? }

  // The replicas the function will be left with, from where its scaler stands.
  function Outcome(goal: nat, replicas: nat, pc: Pc): nat {
    var r := match pc
      case UpCall(x) => Max(replicas, x)
      case Up => Max(replicas, goal)
      case DownCall(x) => Min(replicas, x)
      case Down => Min(replicas, goal)
      case Decay(_, _) => if goal == 0 then replicas else 1
      case _ => replicas;
    if goal == 0 then r
    else if goal >= 2 then 1
    else if pc.Up? || pc.UpCall? || pc.Check? then Max(r, 1)
    else r
  }

  // How far the scaler is from its end.
  function Rank(goal: nat, replicas: nat, pc: Pc): nat {
    var behind := if goal > replicas then 10 else 0;
    40 * goal
    + match pc
      case Up => 6
      case UpCall(x) => if goal > Max(replicas, x) then 15 else 5
      case Check(_) => behind + 4
      case Relax(_, woken) => behind + if woken then 2 else 3
      case Decay(_, woken) => if woken then 34 else 35
      case Down => 33
      case DownCall(_) => 32
      case Lower(_) => 31
  }

  // From one place of the scaler to the next, or to its end.
  predicate Nearer(s: Sys, t: Sys, id: OpId) {
    && id in s.scalers && !t.broken && t.setters == s.setters
    && (if id in t.scalers then
          && Rank(t.goal, t.replicas, t.scalers[id]) < Rank(s.goal, s.replicas, s.scalers[id])
          && Outcome(t.goal, t.replicas, t.scalers[id]) == Outcome(s.goal, s.replicas, s.scalers[id])
        else t.replicas == Outcome(s.goal, s.replicas, s.scalers[id]))
  }

  lemma QuietCall(s: Sys, id: OpId, pc: Pc)
    requires id in s.scalers && s.scalers[id] == pc && PcOk(s, pc) && !s.broken
    requires pc.Up? || pc.UpCall? || pc.Check? || pc.Down? || pc.DownCall?
    ensures Nearer(s, StepGo(s, id, pc), id)
  {
  }

  lemma QuietWait(s: Sys, id: OpId, pc: Pc)
    requires id in s.scalers && s.scalers[id] == pc && PcOk(s, pc) && !s.broken
    requires pc.Relax? || pc.Decay? || pc.Lower?
    ensures Nearer(s, StepGo(s, id, pc), id)
  {
  }

  // Every quiet step brings the scaler nearer to its end and leaves the outcome as it is.
  lemma QuietStep(maxReplicas: nat, s: Sys, st: Step, id: OpId)
    requires Inv(maxReplicas, s) && !s.broken && Enabled(s, st) && Quiet(st) && st.id == id
    requires st.Timer? ==> !s.scalers[id].woken
    ensures Nearer(s, Apply(maxReplicas, s, st), id)
  {
    if st.Go? {
      var pc := s.scalers[id];
      if pc.Relax? || pc.Decay? || pc.Lower? { QuietWait(s, id, pc); } else { QuietCall(s, id, pc); }
    }
  }

  // The scaler of s moves, or the timer it waits for goes off; nothing else happens.
  ghost predicate QuietNext(maxReplicas: nat, s: Sys, t: Sys, id: OpId) {
    exists st :: && Enabled(s, st) && Quiet(st) && st.id == id && (st.Timer? ==> !s.scalers[id].woken)
                 && t == Apply(maxReplicas, s, st)
  }

  ghost predicate QuietRun(maxReplicas: nat, run: seq<Sys>, id: OpId) {
    && |run| > 0
    && forall i :: 0 <= i < |run| - 1 ==> QuietNext(maxReplicas, run[i], run[i + 1], id)
  }

  // Left alone, the scaler can always move, ends within its rank in steps, and leaves its
  // outcome behind.
  lemma {:induction false} QuietRunEnds(maxReplicas: nat, run: seq<Sys>, id: OpId)
    requires QuietRun(maxReplicas, run, id) && Inv(maxReplicas, run[0]) && !run[0].broken && id in run[0].scalers
    ensures |run| - 1 <= Rank(run[0].goal, run[0].replicas, run[0].scalers[id]) + 1
    ensures var last := run[|run| - 1];
            if id in last.scalers then exists t :: QuietNext(maxReplicas, last, t, id)
            else last.replicas == Outcome(run[0].goal, run[0].replicas, run[0].scalers[id])
    decreases |run|
  {
    var s := run[0];
    if |run| == 1 {
      var st := if Waiting(s.scalers[id]) && !s.scalers[id].woken then Timer(id) else Go(id);
      assert QuietNext(maxReplicas, s, Apply(maxReplicas, s, st), id);
    } else {
      assert QuietNext(maxReplicas, run[0], run[0 + 1], id);
      var st :| Enabled(s, st) && Quiet(st) && st.id == id && (st.Timer? ==> !s.scalers[id].woken)
          && run[1] == Apply(maxReplicas, s, st);
      StepKeepsInv(maxReplicas, s, st);
      QuietStep(maxReplicas, s, st, id);
      QuietTail(maxReplicas, run, id);
      assert |run| > 2 ==> QuietNext(maxReplicas, run[1], run[1 + 1], id);
      if id in run[1].scalers { QuietRunEnds(maxReplicas, run[1..], id); }
    }
  }

  lemma QuietTail(maxReplicas: nat, run: seq<Sys>, id: OpId)
    requires QuietRun(maxReplicas, run, id) && |run| > 1
    ensures QuietRun(maxReplicas, run[1..], id)
  {
    var tail := run[1..];
    forall i | 0 <= i < |tail| - 1 ensures QuietNext(maxReplicas, tail[i], tail[i + 1], id) {
      assert QuietNext(maxReplicas, run[i + 1], run[i + 1 + 1], id);
    }
  }

  // A function scaled up for five and stopped while its scaler relaxed: the replicas stay.
  lemma StoppedAtFive() returns (s: Sys)
    ensures ReachableFrom(8, 1, s) && s == Init(5)
  {
    s := GoalRead(5);
    ReachNext(8, 1, s, Go(0));
    s := Apply(8, s, Go(0));
    ReachNext(8, 1, s, Go(0));
    s := Apply(8, s, Go(0));
    ReachNext(8, 1, s, Stop);
    s := Apply(8, s, Stop);
    ReachNext(8, 1, s, Go(0));
    s := Apply(8, s, Go(0));
    assert s.scalers == map[];
  }

  // Then a scaler is started for one replica where there are five: by the next lemma they stay.
  lemma StartedForOne() returns (s: Sys)
    ensures ReachableFrom(8, 1, s) && !s.broken && s.goal == 1 && s.replicas == 5 && s.scalers == map[0 := Up]
  {
    s := StoppedAtFive();
    s := GoalSet(s, 1);
  }

  // A scaler that starts for a goal and meets no demand but that ends with one replica when
  // the goal is at least two; else it never scales down, and leaves the larger of the goal
  // and what there was.
  lemma StartedOutcome(maxReplicas: nat, run: seq<Sys>, id: OpId)
    requires QuietRun(maxReplicas, run, id) && Reachable(maxReplicas, run[0]) && !run[0].broken
    requires id in run[0].scalers && run[0].scalers[id] == Up && id !in run[|run| - 1].scalers
    ensures run[|run| - 1].replicas == if run[0].goal >= 2 then 1 else Max(run[0].replicas, run[0].goal)
  {
    AtEnd(maxReplicas, run[0]);
    QuietRunEnds(maxReplicas, run, id);
  }
}
