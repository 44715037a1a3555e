// The token bucket: whole tokens, refilled only when they have run out, in integer time.
module RateLimit {
  import opened Common

  // The fields of RL; burst is one more than what was asked for. Times and base are in
  // nanoseconds.
  datatype Bucket = Bucket(bts: nat, t: int, eps: nat, burst: nat, base: nat)

  // What keeps the arithmetic of Get inside its 64-bit types.
  ghost predicate Sound(b: Bucket) {
    b.base > 0 && b.burst >= 1 && b.bts <= b.burst <= MAX_INT64 && b.base * b.eps <= MAX_INT64
  }

  // The tokens that have come in during d.
  function Earned(b: Bucket, d: nat): nat
    requires b.base > 0
  {
    d * b.eps / b.base
  }

  // The bucket as Get finds it: an empty one is filled up after a whole base, and by what has
  // been earned before that.
  function Refill(b: Bucket, now: int): Bucket
    requires b.base > 0 && b.t <= now
  {
    if b.bts > 0 then b
    else if now - b.t >= b.base then b.(bts := b.burst, t := now)
    else
      var nb := Earned(b, now - b.t);
      if nb == 0 || b.eps == 0 then b
      else b.(bts := if nb > b.burst then b.burst else nb, t := b.t + b.base * nb / b.eps)
  }

  function Get(b: Bucket, now: int): (Bucket, bool)
    requires b.base > 0 && b.t <= now
  {
    var r := Refill(b, now);
    if r.bts == 0 then (r, false) else (r.(bts := r.bts - 1), true)
  }

  function Put(b: Bucket): Bucket { if b.bts < b.burst then b.(bts := b.bts + 1) else b }

  function Fresh(burst: nat, eps: nat, base: nat, now: int): Bucket { Bucket(burst + 1, now, eps, burst + 1, base) }

  // --- arithmetic ---

  lemma MulMono(a: int, b: int, c: int)
    requires 0 <= c && a <= b
    ensures a * c <= b * c && c * a <= c * b
  {
  }

  lemma DivBounds(x: nat, d: nat)
    requires d > 0
    ensures d * (x / d) <= x <= d * (x / d) + d - 1
  {
  }

  lemma FewerThanEps(base: nat, nb: nat, eps: nat, d: nat)
    requires base * nb <= d * eps && d < base && eps > 0
    ensures nb < eps
  {
    if nb >= eps {
      MulMono(eps, nb, base);
      MulMono(d + 1, base, eps);
    }
  }

  lemma TimeFits(x: nat, eps: nat, d: nat)
    requires x <= d * eps && eps > 0
    ensures x / eps <= d
  {
    DivBounds(x, eps);
    if x / eps > d { MulMono(d + 1, x / eps, eps); }
  }

  lemma EarnsNothing(x: nat, base: nat)
    requires base > 0
    ensures base * (x / base) <= x
    ensures x / base == 0 <==> x < base
  {
    DivBounds(x, base);
    if x / base >= 1 { MulMono(1, x / base, base); }
  }

  // What is earned within a base is less than eps tokens, and their time has passed.
  lemma EarnedFits(b: Bucket, d: nat)
    requires b.base > 0 && d < b.base
    ensures b.eps > 0 ==> Earned(b, d) < b.eps
    ensures b.base * Earned(b, d) <= d * b.eps
    ensures b.eps > 0 ==> 0 <= b.base * Earned(b, d) / b.eps <= d
    ensures Earned(b, d) == 0 <==> d * b.eps < b.base
  {
    EarnsNothing(d * b.eps, b.base);
    if b.eps > 0 { TokensFit(b.base, Earned(b, d), b.eps, d); }
  }

  lemma TokensFit(base: nat, nb: nat, eps: nat, d: nat)
    requires base * nb <= d * eps && d < base && eps > 0
    ensures nb < eps && 0 <= base * nb / eps <= d
  {
    FewerThanEps(base, nb, eps, d);
    TimeFits(base * nb, eps, d);
  }

  // The clock of a bucket moves on by the time its tokens took, rounded down by less than one
  // unit in eps; not at all when eps divides base.
  lemma ClockBehind(b: Bucket, nb: nat)
    requires b.base > 0 && b.eps > 0
    ensures b.base * nb <= b.eps * (b.base * nb / b.eps) + b.eps - 1
    ensures b.base % b.eps == 0 ==> b.base * nb == b.eps * (b.base * nb / b.eps)
  {
    DivBounds(b.base * nb, b.eps);
    if b.base % b.eps == 0 {
      var k := b.base / b.eps;
      assert b.base == b.eps * k;
      assert b.base * nb == b.eps * (k * nb) by { Assoc(b.eps, k, nb); }
      DivExact(b.eps, k * nb);
    }
  }

  lemma Assoc(a: int, b: int, c: int)
    ensures a * b * c == a * (b * c)
  {
  }

  lemma DivExact(d: nat, q: nat)
    requires d > 0
    ensures d * q / d == q
  {
    DivBounds(d * q, d);
    var r := d * q / d;
    assert d * q == q * d && d * r == r * d;
    if r > q { MulMono(q + 1, r, d); }
    if r < q { MulMono(r + 1, q, d); }
  }

  // --- one step ---

  function MaxRate(b: Bucket): nat { if b.burst >= b.eps then b.burst else b.eps }

  function Loss(b: Bucket): nat { if b.eps == 0 || b.base % b.eps == 0 then 0 else b.eps - 1 }

  predicate Partial(b: Bucket, now: int) { b.bts == 0 && now - b.t < b.base }

  lemma FullRefillPays(b: Bucket, d: nat)
    requires Sound(b) && d >= b.base
    ensures b.burst * b.base <= MaxRate(b) * d
  {
    MulMono(b.base, d, b.burst);
    MulMono(b.burst, MaxRate(b), d);
  }

  lemma TokensPay(base: nat, nb: nat, eps: nat, q: nat, rate: nat, loss: nat, got: nat)
    requires base * nb <= eps * q + loss && got <= nb && eps <= rate
    ensures got * base <= rate * q + loss
  {
    MulMono(got, nb, base);
    MulMono(eps, rate, q);
  }

  lemma PartialRefillPays(b: Bucket, nb: nat, got: nat)
    requires Sound(b) && b.eps > 0 && got <= nb
    ensures got * b.base <= MaxRate(b) * (b.base * nb / b.eps) + Loss(b)
  {
    ClockBehind(b, nb);
    TokensPay(b.base, nb, b.eps, b.base * nb / b.eps, MaxRate(b), Loss(b), got);
  }

  // A refill adds no more than its stretch of the clock pays for.
  lemma RefillPays(b: Bucket, now: int)
    requires Sound(b) && b.t <= now
    ensures var r := Refill(b, now);
            && r == b.(bts := r.bts, t := r.t) && r.bts <= b.burst && b.t <= r.t <= now
            && (r.bts - b.bts) * b.base
               <= MaxRate(b) * (r.t - b.t) + (if Partial(b, now) && r.bts > 0 then Loss(b) else 0)
  {
    var r, d := Refill(b, now), now - b.t;
    if r == b {
      assert (r.bts - b.bts) * b.base == 0 && MaxRate(b) * (r.t - b.t) == 0;
    } else if d >= b.base {
      FullRefillPays(b, d);
    } else {
      EarnedFits(b, d);
      PartialRefillPays(b, Earned(b, d), r.bts);
    }
  }

  lemma RefillInTime(b: Bucket, now: int)
    requires b.base > 0 && b.t <= now
    ensures b.t <= Refill(b, now).t <= now && Refill(b, now).base == b.base
  {
    if now - b.t < b.base { EarnedFits(b, now - b.t); }
  }

  // A Get is refused exactly when the bucket is empty and not even one token has come in.
  lemma RefusedExactly(b: Bucket, now: int)
    requires Sound(b) && b.t <= now
    ensures Get(b, now).1 <==> !(b.bts == 0 && now - b.t < b.base && (now - b.t) * b.eps < b.base)
    ensures !Get(b, now).1 ==> Get(b, now).0 == b
  {
    if now - b.t < b.base { EarnedFits(b, now - b.t); }
  }

  // Giving a token back undoes the taking: the bucket is as refilled.
  lemma PutUndoesGet(b: Bucket, now: int)
    requires Sound(b) && b.t <= now && Get(b, now).1
    ensures Put(Get(b, now).0) == Refill(b, now)
  {
    RefillPays(b, now);
  }

  // --- what arrives ---

  // So many Gets at one moment: the bucket behind them, and how many were admitted.
  function Gets(b: Bucket, now: int, k: nat): (Bucket, nat)
    requires b.base > 0 && b.t <= now
    decreases k
  {
    if k == 0 then (b, 0)
    else
      var g := Get(b, now);
      RefillInTime(b, now);
      var more := Gets(g.0, now, k - 1);
      (more.0, if g.1 then more.1 + 1 else more.1)
  }

  function Least(a: nat, b: nat): nat { if a <= b then a else b }

  // Tokens in the bucket are given out, one a Get.
  lemma {:induction false} HeldAreGiven(b: Bucket, now: int, k: nat)
    requires b.base > 0 && b.t <= now && k <= b.bts
    ensures Gets(b, now, k) == (b.(bts := b.bts - k), k)
    decreases k
  {
    if k > 0 { HeldAreGiven(b.(bts := b.bts - 1), now, k - 1); }
  }

  lemma {:induction false} GetsMore(b: Bucket, now: int, i: nat, j: nat)
    requires b.base > 0 && b.t <= now
    ensures var m := Gets(b, now, i);
            && m.0.base == b.base && m.0.t <= now
            && Gets(b, now, i + j) == (Gets(m.0, now, j).0, m.1 + Gets(m.0, now, j).1)
    decreases i
  {
    if i > 0 {
      RefillInTime(b, now);
      GetsMore(Get(b, now).0, now, i - 1, j);
    }
  }

  // A bucket that refuses goes on refusing at that moment.
  lemma {:induction false} RefusesOn(b: Bucket, now: int, k: nat)
    requires b.base > 0 && b.t <= now && Get(b, now) == (b, false)
    ensures Gets(b, now, k) == (b, 0)
    decreases k
  {
    if k > 0 { RefusesOn(b, now, k - 1); }
  }

  // An empty bucket that is filled gives out what it is filled with.
  lemma FilledAreGiven(b: Bucket, now: int, k: nat)
    requires b.base > 0 && b.t <= now && b.bts == 0 && 0 < k <= Refill(b, now).bts
    ensures Gets(b, now, k) == (Refill(b, now).(bts := Refill(b, now).bts - k), k)
  {
    RefillInTime(b, now);
    HeldAreGiven(Get(b, now).0, now, k - 1);
  }

  lemma ThenRefused(b: Bucket, now: int, k: nat, got: nat)
    requires Sound(b) && b.t <= now && 0 < got <= k && Gets(b, now, got).1 == got
    requires var c := Gets(b, now, got).0; Sound(c) && c.t <= now && !Get(c, now).1
    ensures Gets(b, now, k).1 == got
  {
    var c := Gets(b, now, got).0;
    GetsMore(b, now, got, k - got);
    RefusedExactly(c, now);
    RefusesOn(c, now, k - got);
  }

  // After a whole base an empty bucket admits as many as it holds, and its clock is set.
  lemma WholeBaseArrives(b: Bucket, now: int, k: nat)
    requires Sound(b) && b.bts == 0 && now - b.t >= b.base
    ensures Gets(b, now, k).1 == Least(k, b.burst)
    ensures k > 0 ==> Gets(b, now, k).0.t == now
  {
    if 0 < k <= b.burst {
      FilledAreGiven(b, now, k);
    } else if k > 0 {
      FilledAreGiven(b, now, b.burst);
      ThenRefused(b, now, k, b.burst);
      GetsMore(b, now, b.burst, k - b.burst);
      RefusesOn(Gets(b, now, b.burst).0, now, k - b.burst);
    }
  }

  // What is left on the clock once the tokens earned in d have been given out, in units of
  // 1 / eps.
  function Leftover(b: Bucket, d: nat): nat
    requires b.base > 0 && b.eps > 0
  {
    d * b.eps % b.base + b.base * (d * b.eps / b.base) % b.eps
  }

  lemma RemBounds(x: nat, d: nat)
    requires d > 0
    ensures x == d * (x / d) + x % d && 0 <= x % d < d
  {
  }

  lemma Leaves(d: int, q: int, eps: int, x: int, r: int, rest: int)
    requires d * eps == x + r && x == eps * q + rest
    ensures (d - q) * eps == r + rest
  {
    Times(d, q, eps);
  }

  lemma ClockAfter(base: nat, eps: nat, d: nat)
    requires base > 0 && eps > 0 && d < base
    ensures var x := base * (d * eps / base);
            && x / eps <= d
            && (d - x / eps) * eps == d * eps % base + x % eps < base + eps - 1
            && (base % eps == 0 ==> x % eps == 0)
  {
    RemBounds(d * eps, base);
    ClockOf(base, eps, d, d * eps / base, d * eps % base);
  }

  lemma ClockOf(base: nat, eps: nat, d: nat, nb: nat, r: nat)
    requires d < base && eps > 0 && d * eps == base * nb + r && r < base
    ensures base * nb / eps <= d && (d - base * nb / eps) * eps == r + base * nb % eps < base + eps - 1
    ensures base % eps == 0 ==> base * nb % eps == 0
  {
    RemBounds(base * nb, eps);
    TokensFit(base, nb, eps, d);
    Leaves(d, base * nb / eps, eps, base * nb, r, base * nb % eps);
    if base % eps == 0 { NoRest(base, eps, nb); }
  }

  lemma NoRest(base: nat, eps: nat, nb: nat)
    requires eps > 0 && base % eps == 0
    ensures base * nb % eps == 0
  {
    var k := base / eps;
    RemBounds(base, eps);
    Assoc(eps, k, nb);
    DivExact(eps, k * nb);
    RemBounds(eps * (k * nb), eps);
  }

  lemma RateNotZero(d: nat, eps: nat)
    requires d * eps > 0
    ensures eps > 0
  {
  }

  lemma Times(a: int, b: int, c: int)
    ensures (a - b) * c == a * c - c * b
  {
  }

  // Before that it admits what has come in, as far as it holds that much, and its clock moves
  // only by the time these tokens took; what is left over stays behind it.
  lemma EarnedArrive(b: Bucket, now: int, k: nat)
    requires Sound(b) && b.bts == 0 && 0 <= now - b.t < b.base
    ensures var d := now - b.t;
            var got := Least(b.burst, d * b.eps / b.base);
            && (k <= got ==> Gets(b, now, k).1 == k)
            && (0 < k <= got ==> b.eps > 0 && (now - Gets(b, now, k).0.t) * b.eps == Leftover(b, d) < b.base + b.eps)
            && (got == 0 ==> Gets(b, now, k).1 == 0)
  {
    var d := now - b.t;
    EarnedFits(b, d);
    if d * b.eps / b.base == 0 {
      RefusesOn(b, now, k);
    } else {
      RateNotZero(d, b.eps);
      ClockAfter(b.base, b.eps, d);
      if 0 < k <= Least(b.burst, d * b.eps / b.base) { FilledAreGiven(b, now, k); }
    }
  }

  // More is admitted at that moment exactly when what is left over is a token again, which
  // takes a rate that does not divide the base.
  lemma NoMoreArriveExactly(b: Bucket, now: int)
    requires Sound(b) && b.bts == 0 && 0 <= now - b.t < b.base
    requires (now - b.t) * b.eps >= b.base
    ensures b.eps > 0
    ensures var got := Least(b.burst, (now - b.t) * b.eps / b.base);
            && ((forall k: nat :: Gets(b, now, k).1 == Least(k, got)) <==> Leftover(b, now - b.t) < b.base)
            && (b.base % b.eps == 0 ==> Leftover(b, now - b.t) < b.base)
  {
    var d := now - b.t;
    var got := Least(b.burst, d * b.eps / b.base);
    RateNotZero(d, b.eps);
    EarnedFits(b, d);
    EarnedArrive(b, now, got);
    ClockAfter(b.base, b.eps, d);
    FilledAreGiven(b, now, got);
    var c := Gets(b, now, got).0;
    RefillPays(b, now);
    LeftoverDecides(c, now, Leftover(b, d));
    if Leftover(b, d) < b.base {
      forall k: nat ensures Gets(b, now, k).1 == Least(k, got) {
        if k <= got { EarnedArrive(b, now, k); } else { ThenRefused(b, now, k, got); }
      }
    } else {
      GetsMore(b, now, got, 1);
      assert Gets(c, now, 1).1 == 1 by { RefillInTime(c, now); assert Gets(Get(c, now).0, now, 0).1 == 0; }
      assert Gets(b, now, got + 1).1 == got + 1;
    }
  }

  lemma LeftoverDecides(c: Bucket, now: int, left: nat)
    requires Sound(c) && c.bts == 0 && 0 <= now - c.t < c.base && (now - c.t) * c.eps == left
    ensures Get(c, now).1 <==> left >= c.base
  {
    RefusedExactly(c, now);
  }

  // Seven tokens a base of ten: after seven units four have come in, and five are admitted.
  lemma OneMoreByRounding()
    ensures Gets(Bucket(0, 0, 7, 100, 10), 7, 5).1 == 5 && 7 * 7 / 10 == 4
  {
    var b, c := Bucket(0, 0, 7, 100, 10), Bucket(0, 5, 7, 100, 10);
    assert Refill(b, 7) == Bucket(4, 5, 7, 100, 10);
    FilledAreGiven(b, 7, 4);
    GetsMore(b, 7, 4, 1);
    assert Refill(c, 7) == Bucket(1, 6, 7, 100, 10);
    FilledAreGiven(c, 7, 1);
  }

  // A new bucket admits one more than was asked for, at once, and no more.
  lemma FreshIsFull(burst: nat, eps: nat, base: nat, t0: int, k: nat)
    requires base > 0 && burst < MAX_INT64 && base * eps <= MAX_INT64
    ensures Gets(Fresh(burst, eps, base, t0), t0, k).1 == Least(k, burst + 1)
  {
    var b := Fresh(burst, eps, base, t0);
    HeldAreGiven(b, t0, Least(k, burst + 1));
    if k > burst + 1 { ThenRefused(b, t0, k, burst + 1); }
  }

  // --- whole runs ---

  datatype Event = Take(now: int) | Return

  // Where a run stands: the bucket, admissions less returns, and refills with rounding loss.
  datatype Tally = Tally(b: Bucket, net: int, partials: nat, last: int)

  ghost predicate InOrder(last: int, events: seq<Event>)
    decreases |events|
  {
    events != [] ==>
      match events[0]
      case Take(now) => last <= now && InOrder(now, events[1..])
      case Return => InOrder(last, events[1..])
  }

  function Count(s: Tally, e: Event): Tally
    requires s.b.base > 0 && (e.Take? ==> s.b.t <= e.now)
  {
    match e
    case Return => s.(b := Put(s.b), net := s.net - 1)
    case Take(now) =>
      var g := Get(s.b, now);
      Tally(g.0, if g.1 then s.net + 1 else s.net,
            if Partial(s.b, now) && g.1 then s.partials + 1 else s.partials, now)
  }

  // The tokens held and given out are paid for by the first fill and the time on the clock.
  ghost predicate Paid(start: Bucket, s: Tally) {
    && Sound(s.b) && s.b.eps == start.eps && s.b.burst == start.burst && s.b.base == start.base
    && start.t <= s.b.t <= s.last
    && (s.net + s.b.bts) * s.b.base
       <= s.b.burst * s.b.base + MaxRate(s.b) * (s.b.t - start.t)
          + Loss(s.b) * s.partials
  }

  lemma CountPays(start: Bucket, s: Tally, e: Event)
    requires Paid(start, s) && (e.Take? ==> s.last <= e.now)
    ensures Paid(start, Count(s, e))
  {
    match e {
      case Return =>
        Distribute(s, Count(s, e).net + Count(s, e).b.bts, s.net + s.b.bts);
      case Take(now) => TakePays(start, s, now);
    }
  }

  lemma Distribute(s: Tally, a: int, b: int)
    requires a <= b
    ensures a * s.b.base <= b * s.b.base
  {
  }

  // n + got tokens are paid for by what paid for n, and by the stretch that brought got.
  lemma PaysMore(n: int, got: int, base: int, first: int, rate: int, before: int, stretch: int, paid: int, loss: int)
    requires n * base <= first + rate * before + paid && got * base <= rate * stretch + loss
    ensures (n + got) * base <= first + rate * (before + stretch) + (paid + loss)
  {
    Plus(n, got, base);
    Plus(before, stretch, rate);
  }

  lemma Plus(a: int, b: int, c: int)
    ensures (a + b) * c == a * c + b * c && c * (a + b) == c * a + c * b
  {
  }

  lemma TakePays(start: Bucket, s: Tally, now: int)
    requires Paid(start, s) && s.last <= now
    ensures Paid(start, Count(s, Take(now)))
  {
    var b, r := s.b, Refill(s.b, now);
    RefillPays(b, now);
    var counted := Partial(b, now) && r.bts > 0;
    PaysMore(s.net + b.bts, r.bts - b.bts, b.base, b.burst * b.base, MaxRate(b), b.t - start.t, r.t - b.t,
             Loss(b) * s.partials, if counted then Loss(b) else 0);
    Plus(s.partials, if counted then 1 else 0, Loss(b));
  }

  function Counted(s: Tally, events: seq<Event>): Tally
    requires s.b.base > 0 && s.b.t <= s.last
    requires InOrder(s.last, events)
    decreases |events|
  {
    if events == [] then s
    else
      assert events[0].Take? && s.b.t <= events[0].now ==> Count(s, events[0]).b.t <= events[0].now by {
        if events[0].Take? { RefillInTime(s.b, events[0].now); }
      }
      Counted(Count(s, events[0]), events[1..])
  }

  // Over every run of Get and Put from a fresh bucket, with the clock never going back: the
  // tokens taken, less those returned, are bounded by the first fill, the time passed at the
  // larger of both rates, and a rounding loss that vanishes when eps divides base. The bucket
  // stays within its size and its clock behind the present.
  lemma RunBound(burst: nat, eps: nat, base: nat, t0: int, events: seq<Event>)
    requires base > 0 && burst < MAX_INT64 && base * eps <= MAX_INT64 && InOrder(t0, events)
    ensures var b := Fresh(burst, eps, base, t0);
            var s := Counted(Tally(b, 0, 0, t0), events);
            && s.b.bts <= burst + 1 && t0 <= s.b.t <= s.last
            && s.net * base <= (burst + 1) * base + MaxRate(b) * (s.last - t0) + Loss(b) * s.partials
            && (eps > 0 && base % eps == 0 ==> Loss(b) == 0)
  {
    var b := Fresh(burst, eps, base, t0);
    var s := Tally(b, 0, 0, t0);
    assert Paid(b, s);
    RunPays(b, s, events);
    var z := Counted(s, events);
    MulMono(z.b.t - t0, z.last - t0, MaxRate(b));
    MulMono(z.net, z.net + z.b.bts, base);
  }

  lemma {:induction false} RunPays(start: Bucket, s: Tally, events: seq<Event>)
    requires Paid(start, s) && InOrder(s.last, events)
    ensures Paid(start, Counted(s, events))
    decreases |events|
  {
    if events != [] {
      CountPays(start, s, events[0]);
      RunPays(start, Count(s, events[0]), events[1..]);
    }
  }
}
