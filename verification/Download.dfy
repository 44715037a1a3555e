// The download quota of one namespace: charge, compare, take back, with any number of
// downloads in between.
module Download {
  import opened Common
  import opened HttpRange

  type OpId = nat

  // The two counters, out-bytes and out-bytes-web; the refused downloads that are not taken
  // back yet, by operation, and their sizes. History: what was counted before; the sizes of
  // admitted downloads together, those of them from the web, and those that are not negative;
  // negative, a negative size was admitted; odd, one was charged, or a comparison ran out of 64
  // bits.
  datatype Sys = Sys(out: int, outWeb: int, undoing: map<OpId, bool>, pending: Sizes, before: int,
                     admitted: int, web: int, served: nat, negative: bool, odd: bool)

  type Sizes = map<OpId, int>

  // OutBytesTot, 0 for no limit, and OutBytesTotOff.
  datatype Limit = Limit(tot: nat, off: int)

  // The size is the announced length of the reply, which a Range header can make negative.
  datatype Step = Acct(p: OpId, web: bool, size: int) | Undo(p: OpId)

  function Init(out: int, outWeb: int): Sys {
    Sys(out, outWeb, map[], map[], out + outWeb, 0, 0, 0, false, false)
  }

  predicate Enabled(s: Sys, st: Step) {
    match st
    case Acct(p, _, _) => p !in s.pending
    case Undo(p) => p in s.pending && p in s.undoing
  }

  // The comparison adds the size to counters that have it already, in 64 bits.
  predicate Refused(lim: Limit, out: int, outWeb: int, size: int) {
    lim.tot != 0 && Wrap64(out + outWeb + size) > lim.tot + lim.off
  }

  predicate Odd(s: Sys, size: int) { size < 0 || !(MIN_INT64 <= s.out + s.outWeb + 2 * size <= MAX_INT64) }

  function Apply(lim: Limit, s: Sys, st: Step): Sys
    requires Enabled(s, st)
  {
    match st
    case Acct(p, web, size) =>
      var c := if web then s.(outWeb := s.outWeb + size) else s.(out := s.out + size);
      var t := c.(odd := s.odd || Odd(s, size));
      if Refused(lim, t.out, t.outWeb, size) then
        t.(undoing := s.undoing[p := web], pending := s.pending[p := size])
      else
        t.(admitted := s.admitted + size, web := if web then s.web + size else s.web,
           served := s.served + (if size > 0 then size else 0), negative := s.negative || size < 0)
    case Undo(p) =>
      var size := s.pending[p];
      var t := if s.undoing[p] then s.(outWeb := s.outWeb - size) else s.(out := s.out - size);
      t.(undoing := s.undoing - {p}, pending := s.pending - {p})
  }

  ghost predicate Next(lim: Limit, s: Sys, t: Sys) {
    exists st :: Enabled(s, st) && t == Apply(lim, s, st)
  }

  ghost predicate IsRun(lim: Limit, run: seq<Sys>) {
    && |run| > 0 && run[0] == Init(run[0].out, run[0].outWeb)
    && forall i :: 0 <= i < |run| - 1 ==> Next(lim, run[i], run[i + 1])
  }

  ghost function Sum(m: Sizes): int
    decreases |m|
  {
    if m == map[] then 0
    else
      var p :| p in m;
      assert |(m - {p}).Keys| == |m.Keys - {p}| by { assert (m - {p}).Keys == m.Keys - {p}; }
      m[p] + Sum(m - {p})
  }

  lemma {:induction false} SumRemove(m: Sizes, p: OpId)
    requires p in m
    ensures Sum(m) == m[p] + Sum(m - {p})
    decreases |m|
  {
    var q :| q in m && Sum(m) == m[q] + Sum(m - {q});
    if q != p {
      assert (m - {q}).Keys == m.Keys - {q};
      assert (m - {p}).Keys == m.Keys - {p};
      SumRemove(m - {q}, p);
      SumRemove(m - {p}, q);
      assert m - {q} - {p} == m - {p} - {q};
    }
  }

  lemma SumAdd(m: Sizes, p: OpId, size: int)
    requires p !in m
    ensures Sum(m[p := size]) == Sum(m) + size
  {
    SumRemove(m[p := size], p);
    assert m[p := size] - {p} == m;
  }

  lemma {:induction false} SumNotNegative(m: Sizes)
    requires forall p :: p in m ==> m[p] >= 0
    ensures Sum(m) >= 0
    decreases |m|
  {
    if p :| p in m {
      assert (m - {p}).Keys == m.Keys - {p};
      SumRemove(m, p);
      SumNotNegative(m - {p});
    }
  }

  // The counters hold what was admitted and what is still to be taken back.
  ghost predicate Inv(lim: Limit, s: Sys) {
    && s.out + s.outWeb == s.before + s.admitted + Sum(s.pending)
    && s.undoing.Keys == s.pending.Keys
    && s.admitted <= s.served && (s.admitted == s.served <==> !s.negative)
    && (s.negative ==> s.odd)
    && (!s.odd ==>
          && (forall p :: p in s.pending ==> s.pending[p] >= 0)
          && (lim.tot != 0 && s.served > 0 ==> s.before + s.served <= lim.tot + lim.off))
  }

  lemma AcctKeepsInv(lim: Limit, s: Sys, p: OpId, web: bool, size: int)
    requires Inv(lim, s) && p !in s.pending
    ensures Inv(lim, Apply(lim, s, Acct(p, web, size)))
  {
    SumAdd(s.pending, p, size);
    if !s.odd { SumNotNegative(s.pending); }
  }

  lemma UndoKeepsInv(lim: Limit, s: Sys, p: OpId)
    requires Inv(lim, s) && Enabled(s, Undo(p))
    ensures Inv(lim, Apply(lim, s, Undo(p)))
  {
    SumRemove(s.pending, p);
  }

  lemma {:induction false} StepKeepsInv(lim: Limit, s: Sys, st: Step)
    requires Inv(lim, s) && Enabled(s, st)
    ensures Inv(lim, Apply(lim, s, st)) && Apply(lim, s, st).before == s.before
  {
    match st {
      case Acct(p, web, size) => AcctKeepsInv(lim, s, p, web, size);
      case Undo(p) => UndoKeepsInv(lim, s, p);
    }
  }

  lemma {:induction false} RunKeepsInv(lim: Limit, run: seq<Sys>, i: nat)
    requires IsRun(lim, run) && i < |run|
    ensures Inv(lim, run[i]) && run[i].before == run[0].before
  {
    if i > 0 {
      RunKeepsInv(lim, run, i - 1);
      assert Next(lim, run[i - 1], run[i - 1 + 1]);
      var st :| Enabled(run[i - 1], st) && run[i] == Apply(lim, run[i - 1], st);
      StepKeepsInv(lim, run[i - 1], st);
    }
  }

  // Whatever the interleaving, as long as no size is negative and no comparison runs out of 64
  // bits, admitted downloads stay within OutBytesTot plus the offset, on top of what was
  // counted before; and the counters fall short of nothing admitted.
  lemma QuotaHolds(lim: Limit, run: seq<Sys>, i: nat)
    requires IsRun(lim, run) && i < |run| && !run[i].odd
    ensures lim.tot != 0 && run[i].served > 0 ==> run[0].out + run[0].outWeb + run[i].served <= lim.tot + lim.off
    ensures run[i].out + run[i].outWeb >= run[0].out + run[0].outWeb + run[i].served
  {
    RunKeepsInv(lim, run, i);
    RunKeepsInv(lim, run, 0);
    SumNotNegative(run[i].pending);
  }

  // What is still to be taken back from out-bytes-web.
  ghost function WebPending(s: Sys): Sizes {
    map p | p in s.pending && p in s.undoing && s.undoing[p] :: s.pending[p]
  }

  lemma WebAcct(lim: Limit, s: Sys, p: OpId, web: bool, size: int)
    requires Inv(lim, s) && p !in s.pending
    ensures var t := Apply(lim, s, Acct(p, web, size));
            t.outWeb - t.web - Sum(WebPending(t)) == s.outWeb - s.web - Sum(WebPending(s))
  {
    var m, n := WebPending(s), WebPending(Apply(lim, s, Acct(p, web, size)));
    if p in n {
      SumAdd(m, p, size);
      assert n == m[p := size];
    } else {
      assert n == m;
    }
  }

  lemma WebUndo(lim: Limit, s: Sys, p: OpId)
    requires Inv(lim, s) && Enabled(s, Undo(p))
    ensures var t := Apply(lim, s, Undo(p));
            t.outWeb - t.web - Sum(WebPending(t)) == s.outWeb - s.web - Sum(WebPending(s))
  {
    var m, n := WebPending(s), WebPending(Apply(lim, s, Undo(p)));
    if s.undoing[p] {
      SumRemove(m, p);
      assert n == m - {p};
    } else {
      assert n == m;
    }
  }

  // Each download is counted, and a refused one taken back, on the counter of its own kind.
  lemma {:induction false} EachCounter(lim: Limit, run: seq<Sys>, i: nat)
    requires IsRun(lim, run) && i < |run|
    ensures run[i].outWeb == run[0].outWeb + run[i].web + Sum(WebPending(run[i]))
    ensures run[i].pending == map[] ==>
              && run[i].outWeb == run[0].outWeb + run[i].web
              && run[i].out == run[0].out + (run[i].admitted - run[i].web)
  {
    RunKeepsInv(lim, run, i);
    RunKeepsInv(lim, run, 0);
    if i == 0 {
      assert WebPending(run[0]) == map[];
    } else {
      EachCounter(lim, run, i - 1);
      RunKeepsInv(lim, run, i - 1);
      assert Next(lim, run[i - 1], run[i - 1 + 1]);
      var st :| Enabled(run[i - 1], st) && run[i] == Apply(lim, run[i - 1], st);
      match st {
        case Acct(p, web, size) => WebAcct(lim, run[i - 1], p, web, size);
        case Undo(p) => WebUndo(lim, run[i - 1], p);
      }
    }
    if run[i].pending == map[] { assert WebPending(run[i]) == map[]; }
  }

  // In every run: when nothing is left to be taken back the counters have grown by what was
  // served exactly when no negative size was admitted, and else by less.
  lemma CountsServedExactly(lim: Limit, run: seq<Sys>, i: nat)
    requires IsRun(lim, run) && i < |run| && run[i].pending == map[]
    ensures run[i].out + run[i].outWeb <= run[0].out + run[0].outWeb + run[i].served
    ensures run[i].out + run[i].outWeb == run[0].out + run[0].outWeb + run[i].served <==> !run[i].negative
  {
    RunKeepsInv(lim, run, i);
    RunKeepsInv(lim, run, 0);
  }

  // A download is admitted exactly when there is no limit, or twice its size fits: what was
  // charged and not taken back counts, and the size counts two times, in 64 bits.
  lemma AdmittedExactly(lim: Limit, s: Sys, p: OpId, web: bool, size: int)
    requires Inv(lim, s) && Enabled(s, Acct(p, web, size))
    ensures var sum := s.before + s.admitted + Sum(s.pending) + 2 * size;
            && (p !in Apply(lim, s, Acct(p, web, size)).pending <==> lim.tot == 0 || Wrap64(sum) <= lim.tot + lim.off)
            && (!Odd(s, size) ==> Wrap64(sum) == sum)
  {
  }

  // The first download of 60 bytes is refused under a quota of 100.
  lemma FirstOneRefused(p: OpId, web: bool)
    ensures p in Apply(Limit(100, 0), Init(0, 0), Acct(p, web, 60)).pending
  {
  }

  // Under the same quota, once the length of HttpRange.LargestEnd has been charged, a thousand
  // bytes are served.
  lemma NegativeMisses() returns (run: seq<Sys>)
    ensures IsRun(Limit(100, 0), run) && run[0] == Init(0, 0)
    ensures run[|run| - 1].served == 1000 && run[|run| - 1].pending == map[]
  {
    var lim, s := Limit(100, 0), Init(0, 0);
    var t := Apply(lim, s, Acct(0, false, MIN_INT64));
    var u := Apply(lim, t, Acct(1, false, 1000));
    run := [s, t, u];
    assert Enabled(s, Acct(0, false, MIN_INT64)) && Enabled(t, Acct(1, false, 1000));
    assert Next(lim, s, t) && Next(lim, t, u);
  }
}
