// The scaler's code: scalerSetGoal, scalerStop, and the goto loop run with no demand coming in.
module ScalerOps {
  import opened Scaler
  import opened ScalerTheorems

  datatype Label = LabelUp | LabelRelax | LabelDown | LabelFin

  class Balancer {
    var goal: nat
    var wakeup: bool     // the condition variable is there
    var replicas: nat    // of the deployment
    const maxReplicas: nat

    constructor (replicas: nat, maxReplicas: nat)
      ensures goal == 0 && !wakeup && this.replicas == replicas && this.maxReplicas == maxReplicas
    {
      this.goal, this.wakeup, this.replicas, this.maxReplicas := 0, false, replicas, maxReplicas;
    }

    // k8sDepScale only ever moves the count the way it was asked to.
    method DepScale(x: nat, up: bool) returns (r: nat)
      modifies this`replicas
      ensures r == replicas == if up then Max(old(replicas), x) else Min(old(replicas), x)
    {
      if up {
        if replicas >= x { return replicas; }
      } else {
        if replicas <= x { return replicas; }
      }
      replicas := x;
      return x;
    }

    // The goal rises or stays, never past the maximum; a scaler is started exactly when the
    // goal rises with no condition variable there, and signalled when it rises with one.
    method SetGoal(g: nat) returns (started: bool, signalled: bool)
      modifies this`goal, this`wakeup
      ensures goal == (if g > maxReplicas then old(goal) else Max(old(goal), g))
      ensures started <==> goal != old(goal) && !old(wakeup)
      ensures signalled <==> goal != old(goal) && old(wakeup)
      ensures wakeup == (old(wakeup) || started)
    {
      started, signalled := false, false;
      if g <= goal { return; }
      if g > maxReplicas { return; }
      goal := g;
      if !wakeup {
        wakeup, started := true, true;
      } else {
        signalled := true;
      }
    }

    method Stop() returns (signalled: bool)
      modifies this`goal
      ensures signalled == wakeup && goal == if wakeup then 0 else old(goal)
    {
      if wakeup { goal := 0; }
      return wakeup;
    }

    // balancerFnScaler with nobody else about: it ends, with the replicas the outcome says. The
    // condition variable goes unless the goal was 0.
    method FnScaler()
      modifies this`goal, this`wakeup, this`replicas
      ensures replicas == Outcome(old(goal), old(replicas), Up)
      ensures replicas == if old(goal) >= 2 then 1 else Max(old(replicas), old(goal))
      ensures goal == Min(old(goal), 1)
      ensures wakeup == (old(wakeup) && old(goal) == 0)
    {
      var local: nat := 0;
      var at := LabelUp;
      while at != LabelFin
        invariant at == LabelUp ==> goal == old(goal) && replicas == old(replicas)
        invariant at == LabelRelax || at == LabelDown ==>
                    && local == replicas && 1 <= goal <= old(goal) && goal <= local
                    && (if old(goal) <= 1 then goal == old(goal) && replicas == Max(old(replicas), old(goal))
                         else goal < old(goal) ==> replicas == goal)
        invariant at == LabelFin ==>
                    && replicas == Outcome(old(goal), old(replicas), Up) && goal == Min(old(goal), 1)
                    && wakeup == (old(wakeup) && old(goal) == 0)
        invariant at != LabelFin ==> wakeup == old(wakeup)
        decreases goal, match at { case LabelUp => 3 case LabelRelax => 2 case LabelDown => 1 case LabelFin => 0 }
      {
        match at {
          case LabelUp =>
            local := DepScale(goal, true);
            if goal == 0 { at := LabelFin; } else if goal <= local { at := LabelRelax; }
          case LabelRelax =>
            at := LabelDown;
          case LabelDown =>
            if goal <= 1 {
              wakeup := false;
              at := LabelFin;
            } else if goal > local {
              at := LabelUp;
            } else {
              goal := goal - 1;
              if goal == 0 {
                at := LabelFin;
              } else if goal == local {
                at := LabelRelax;
              } else if goal > local {
                at := LabelUp;
              } else {
                local := DepScale(goal, false);
              }
            }
        }
      }
    }
  }
}
