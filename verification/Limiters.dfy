// The limiter object, and a request that must pass up to three of them.
module Limiters {
  import opened Common
  import opened RateLimit

  class RL {
    var bts: nat
    var t: int
    var eps: nat
    var burst: nat
    const base: nat

    ghost function State(): Bucket
      reads this
    {
      Bucket(bts, t, eps, burst, base)
    }

    ghost predicate Valid()
      reads this
    {
      Sound(State())
    }

    // MakeRLBase
    constructor (burst: nat, eps: nat, base: nat, now: int)
      requires base > 0 && burst < MAX_INT64 && base * eps <= MAX_INT64
      ensures Valid() && State() == Fresh(burst, eps, base, now)
    {
      this.bts, this.t, this.eps, this.burst, this.base := burst + 1, now, eps, burst + 1, base;
    }

    method Put()
      requires Valid()
      modifies this
      ensures Valid() && State() == RateLimit.Put(old(State()))
    {
      if bts < burst { bts := bts + 1; }
    }

    method Get(now: int) returns (ok: bool)
      requires Valid() && t <= now
      modifies this
      ensures Valid() && t <= now && (State(), ok) == RateLimit.Get(old(State()), now)
    {
      RefillPays(State(), now);
      if bts == 0 {
        var d := now - t;
        if d >= base {
          bts := burst;
          t := now;
        } else {
          EarnedFits(State(), d);
          MulMono(d, base, eps);
          assert d * eps <= MAX_INT64;
          var nb := d * eps / base;
          if nb == 0 { return false; }
          assert base * nb <= MAX_INT64;
          if nb > burst { bts := burst; } else { bts := nb; }
          t := t + base * nb / eps;
        }
      }
      bts := bts - 1;
      return true;
    }

    // Update starts over, with what a new limiter would have.
    method Update(burst: nat, eps: nat, now: int)
      requires burst < MAX_INT64 && base > 0 && base * eps <= MAX_INT64
      modifies this
      ensures Valid() && State() == Fresh(burst, eps, base, now)
    {
      this.burst := burst + 1;
      bts := this.burst;
      this.eps := eps;
      t := now;
    }
  }

  // The limiters of a function, of its tenant and of the gate; each may be absent.
  datatype Chain = Chain(frl: RL?, trl: RL?, grl: RL?)

  ghost predicate Apart(c: Chain) {
    && (c.frl != null ==> c.frl != c.trl && c.frl != c.grl)
    && (c.trl != null ==> c.trl != c.grl)
  }

  ghost predicate Ready(rl: RL?, now: int)
    reads rl
  {
    rl != null ==> rl.Valid() && rl.t <= now
  }

  // One whole token was taken, after the refill.
  twostate predicate TookOne(rl: RL?, now: int)
    reads rl
  {
    rl != null ==> old(Ready(rl, now)) && (rl.State(), true) == Get(old(rl.State()), now)
  }

  // Nothing was taken: the limiter is as it was, or refilled.
  twostate predicate TookNone(rl: RL?, now: int)
    reads rl
  {
    rl != null ==> old(Ready(rl, now)) && (rl.State() == old(rl.State()) || rl.State() == Refill(old(rl.State()), now))
  }

  ghost predicate Refuses(rl: RL?, now: int)
    reads rl
    requires Ready(rl, now)
  {
    rl != null && !Get(rl.State(), now).1
  }

  // All or nothing: a request is let through exactly when no limiter refuses it, and then
  // costs one token of each; else it costs none.
  method Ratelimited(c: Chain, now: int) returns (limited: bool)
    requires Apart(c) && Ready(c.frl, now) && Ready(c.trl, now) && Ready(c.grl, now)
    modifies c.frl, c.trl, c.grl
    ensures Ready(c.frl, now) && Ready(c.trl, now) && Ready(c.grl, now)
    ensures limited <==> old(Refuses(c.frl, now)) || old(Refuses(c.trl, now)) || old(Refuses(c.grl, now))
    ensures !limited ==> TookOne(c.frl, now) && TookOne(c.trl, now) && TookOne(c.grl, now)
    ensures limited ==> TookNone(c.frl, now) && TookNone(c.trl, now) && TookNone(c.grl, now)
  {
    var f, t, g := c.frl, c.trl, c.grl;
    ghost var fs := if f != null then f.State() else Bucket(0, 0, 0, 0, 0);
    ghost var ts := if t != null then t.State() else Bucket(0, 0, 0, 0, 0);
    if f != null {
      var ok := f.Get(now);
      RefusedExactly(fs, now);
      if !ok { return true; }
    }
    if t != null {
      var ok := t.Get(now);
      RefusedExactly(ts, now);
      if !ok {
        if f != null {
          PutUndoesGet(fs, now);
          f.Put();
        }
        return true;
      }
    }
    if g != null {
      RefusedExactly(g.State(), now);
      var ok := g.Get(now);
      if !ok {
        if t != null {
          PutUndoesGet(ts, now);
          t.Put();
        }
        if f != null {
          PutUndoesGet(fs, now);
          f.Put();
        }
        return true;
      }
    }
    return false;
  }
}
