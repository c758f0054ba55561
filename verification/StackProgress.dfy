/** Lock-freedom as a count. Nothing here needs the window assumption. */
module StackProgress {
  import opened Bits
  import opened Sums
  import opened StackMachine

  lemma {:induction false} SumBump(ns: seq<nat>, t: nat)
    requires t < |ns|
    ensures Sum(Bump(ns, t)) == Sum(ns) + 1
  {
    var n := |ns| - 1;
    if t == n {
      assert Bump(ns, t)[..n] == ns[..n];
    } else {
      SumBump(ns[..n], t);
      assert Bump(ns, t)[..n] == Bump(ns[..n], t);
    }
  }

  lemma {:induction false} SumZeros(n: nat)
    ensures Sum(seq(n, i => 0)) == 0
  {
    if n > 0 {
      SumZeros(n - 1);
      assert seq(n, i => 0)[..n - 1] == seq(n - 1, i => 0);
    }
  }

  // If the entries of two sequences add up to at most c each, the sums add up
  // to at most c per entry.
  lemma {:induction false} SumBound(xs: seq<nat>, ys: seq<nat>, c: nat)
    requires |xs| == |ys| && forall i :: 0 <= i < |xs| ==> xs[i] + ys[i] <= c
    ensures Sum(xs) + Sum(ys) <= |xs| * c
  {
    if xs != [] {
      var n := |xs| - 1;
      SumBound(xs[..n], ys[..n], c);
      assert (n + 1) * c == n * c + c;
    }
  }

  // The CASes that had succeeded when the thread last loaded _top_.
  predicate Loaded(pc: Pc) {
    pc.PushLink? || pc.PushCas? || pc.PopNext? || pc.PopCas?
  }

  // Thread t's failures are each paid for by a success of another thread.
  predicate Paid(s: State, t: nat)
    requires t < |s.pcs| == |s.wins| == |s.fails|
  {
    var pc := s.pcs[t];
    && s.fails[t] + s.wins[t] <= (if Loaded(pc) then pc.at else s.cas)
    && (Loaded(pc) ==> pc.at <= s.cas && (pc.at == s.cas ==> pc.seen == s.top))
  }

  predicate Counted(s: State) {
    && |s.pcs| == |s.wins| == |s.fails|
    && Sum(s.wins) == s.cas
    && forall t :: 0 <= t < |s.pcs| ==> Paid(s, t)
  }

  // A step of one thread: every field the count depends on.
  lemma KeepPaid(s: State, t: nat, u: nat)
    requires |s.pcs| == |s.wins| == |s.fails| && Enabled(s, Move(t, Go)) && u < |s.pcs|
    requires Paid(s, u) && Paid(s, t)
    ensures |Access(s, t).wins| == |Access(s, t).fails| == |Access(s, t).pcs| == |s.pcs|
    ensures Paid(Access(s, t), u)
  {
    hide Pack, Addr, Count, Read;
    match s.pcs[t] {
      case PushCas(_, seen, _) => if s.top == seen {} else {}
      case PopCas(seen, _, _) => if s.top == seen {} else {}
      case PopLoad =>
      case _ =>
    }
  }

  lemma KeepSum(s: State, t: nat)
    requires |s.pcs| == |s.wins| && Enabled(s, Move(t, Go))
    requires Sum(s.wins) == s.cas
    ensures Sum(Access(s, t).wins) == Access(s, t).cas
  {
    hide Pack, Addr, Count, Read, Sum;
    SumBump(s.wins, t);
  }

  lemma KeepCounted(s: State, m: Move)
    requires Counted(s) && Enabled(s, m)
    ensures Counted(Apply(s, m))
  {
    hide Access, Pack, Addr, Count, Read, Sum;
    assert Paid(s, m.t);
    if m.c.Go? {
      KeepSum(s, m.t);
      KeepPaid(s, m.t, m.t);
    }
    forall u | 0 <= u < |s.pcs| ensures Paid(Apply(s, m), u) {
      assert Paid(s, u);
      if m.c.Go? {
        KeepPaid(s, m.t, u);
      }
    }
  }

  lemma InitialCounted(s: State, n: nat)
    requires Initial(s, n)
    ensures Counted(s)
  {
    SumZeros(n);
  }

  lemma {:induction false} KeepCountedRun(s: State, run: seq<Move>)
    requires Counted(s) && IsRun(s, run)
    ensures Counted(Final(s, run)) && |Final(s, run).pcs| == |s.pcs|
    decreases |run|
  {
    if run != [] {
      KeepCounted(s, run[0]);
      KeepCountedRun(Apply(s, run[0]), run[1..]);
    }
  }

  lemma Share(n: nat, c: nat)
    ensures n * c == (n - 1) * c + c
  {
  }

  // A move that is a CAS, and how it ends.
  predicate IsCas(s: State, m: Move) {
    m.t < |s.pcs| && m.c.Go? && (s.pcs[m.t].PushCas? || s.pcs[m.t].PopCas?)
  }

  predicate CasFails(s: State, m: Move) {
    IsCas(s, m) && s.top != s.pcs[m.t].seen
  }

  predicate CasSucceeds(s: State, m: Move) {
    IsCas(s, m) && s.top == s.pcs[m.t].seen
  }

  // The CASes of thread t in a run that fail, and those that succeed.
  function Failures(s: State, run: seq<Move>, t: nat): nat
    requires IsRun(s, run)
    decreases |run|
  {
    if run == [] then 0
    else (if run[0].t == t && CasFails(s, run[0]) then 1 else 0) + Failures(Apply(s, run[0]), run[1..], t)
  }

  function Successes(s: State, run: seq<Move>, t: nat): nat
    requires IsRun(s, run)
    decreases |run|
  {
    if run == [] then 0
    else (if run[0].t == t && CasSucceeds(s, run[0]) then 1 else 0) + Successes(Apply(s, run[0]), run[1..], t)
  }

  // The CASes of all threads that succeed.
  function AllSuccesses(s: State, run: seq<Move>): nat
    requires IsRun(s, run)
    decreases |run|
  {
    if run == [] then 0
    else (if CasSucceeds(s, run[0]) then 1 else 0) + AllSuccesses(Apply(s, run[0]), run[1..])
  }

  lemma OneCas(s: State, m: Move, t: nat)
    requires Enabled(s, m) && t < |s.wins| == |s.fails| == |s.pcs|
    ensures var s' := Apply(s, m);
            && |s'.wins| == |s'.fails| == |s'.pcs| == |s.pcs|
            && s'.fails[t] == s.fails[t] + (if m.t == t && CasFails(s, m) then 1 else 0)
            && s'.wins[t] == s.wins[t] + (if m.t == t && CasSucceeds(s, m) then 1 else 0)
            && s'.cas == s.cas + if CasSucceeds(s, m) then 1 else 0
  {
    hide Access;
    if m.c.Go? {
      OneAccess(s, m.t, t);
    }
  }

  lemma OneAccess(s: State, u: nat, t: nat)
    requires Enabled(s, Move(u, Go)) && t < |s.wins| == |s.fails| == |s.pcs|
    ensures var s', m := Access(s, u), Move(u, Go);
            && |s'.wins| == |s'.fails| == |s'.pcs| == |s.pcs|
            && s'.fails[t] == s.fails[t] + (if u == t && CasFails(s, m) then 1 else 0)
            && s'.wins[t] == s.wins[t] + (if u == t && CasSucceeds(s, m) then 1 else 0)
            && s'.cas == s.cas + if CasSucceeds(s, m) then 1 else 0
  {
    hide Pack, Addr, Count, Read, Bump, Access;
    BumpAt(s.wins, u, t);
    BumpAt(s.fails, u, t);
    AccessCounts(s, u);
  }

  lemma BumpAt(ns: seq<nat>, u: nat, t: nat)
    requires t < |ns|
    ensures |Bump(ns, u)| == |ns| && Bump(ns, u)[t] == ns[t] + if u == t then 1 else 0
  {
  }

  lemma AccessCounts(s: State, u: nat)
    requires Enabled(s, Move(u, Go))
    ensures var s', m := Access(s, u), Move(u, Go);
            && |s'.pcs| == |s.pcs| && s'.fails == (if CasFails(s, m) then Bump(s.fails, u) else s.fails)
            && s'.wins == (if CasSucceeds(s, m) then Bump(s.wins, u) else s.wins)
            && s'.cas == s.cas + if CasSucceeds(s, m) then 1 else 0
  {
    hide Pack, Addr, Count, Read, Bump;
    match s.pcs[u] {
      case PushCas(_, seen, _) => if s.top == seen {} else {}
      case PopCas(seen, _, _) => if s.top == seen {} else {}
      case PopLoad =>
      case _ =>
    }
  }

  // The history fields are these counts.
  lemma {:induction false} HistoryCounts(s: State, run: seq<Move>, t: nat)
    requires IsRun(s, run) && t < |s.wins| == |s.fails| == |s.pcs|
    ensures var f := Final(s, run);
            && |f.wins| == |f.fails| == |s.pcs|
            && f.fails[t] == s.fails[t] + Failures(s, run, t) && f.wins[t] == s.wins[t] + Successes(s, run, t)
            && f.cas == s.cas + AllSuccesses(s, run)
    decreases |run|
  {
    hide Apply, Enabled, CasFails, CasSucceeds;
    if run != [] {
      OneCas(s, run[0], t);
      HistoryCounts(Apply(s, run[0]), run[1..], t);
    }
  }

  /** In every run of n threads, a thread's failed CASes number at most the
      successful CASes of the other threads, and all failures together at most
      n - 1 times all successes. */
  lemma LockFreedom(s: State, n: nat, run: seq<Move>)
    requires Initial(s, n) && IsRun(s, run)
    ensures forall t :: 0 <= t < n ==> Failures(s, run, t) <= AllSuccesses(s, run) - Successes(s, run, t)
    ensures var f := Final(s, run);
            && |f.wins| == |f.fails| == n && Sum(f.wins) == AllSuccesses(s, run)
            && (forall t :: 0 <= t < n ==> f.fails[t] == Failures(s, run, t) && f.wins[t] == Successes(s, run, t))
            && (n > 0 ==> Sum(f.fails) <= (n - 1) * AllSuccesses(s, run))
  {
    hide *;
    FromNothing(s, n);
    CountedAtEnd(s, n, run);
    forall t | 0 <= t < n
      ensures Failures(s, run, t) == Final(s, run).fails[t] && Successes(s, run, t) == Final(s, run).wins[t]
      ensures Final(s, run).cas == AllSuccesses(s, run)
    {
      HistoryCounts(s, run, t);
    }
    if n == 0 {
      NoThreads(s, run);
    } else {
      HistoryCounts(s, run, 0);
    }
  }

  lemma FromNothing(s: State, n: nat)
    requires Initial(s, n)
    ensures |s.wins| == |s.fails| == |s.pcs| == n && s.cas == 0
    ensures forall t :: 0 <= t < n ==> s.wins[t] == s.fails[t] == 0
  {
  }

  lemma CountedAtEnd(s: State, n: nat, run: seq<Move>)
    requires Initial(s, n) && IsRun(s, run)
    ensures var f := Final(s, run);
            && |f.wins| == |f.fails| == n && Sum(f.wins) == f.cas
            && (forall t :: 0 <= t < n ==> f.fails[t] <= f.cas - f.wins[t])
            && (n > 0 ==> Sum(f.fails) <= (n - 1) * f.cas)
  {
    InitialCounted(s, n);
    KeepCountedRun(s, run);
    hide Initial, IsRun, Final, Sum;
    var f := Final(s, run);
    forall t | 0 <= t < n ensures f.fails[t] + f.wins[t] <= f.cas {
      assert Paid(f, t);
    }
    SumBound(f.fails, f.wins, f.cas);
    Share(n, f.cas);
  }

  // Without threads there is no move.
  lemma NoThreads(s: State, run: seq<Move>)
    requires |s.pcs| == 0 && IsRun(s, run)
    ensures AllSuccesses(s, run) == 0 && Final(s, run) == s
  {
  }

  /** A CAS fails only if some CAS has succeeded since the thread's load. */
  lemma FailureNeedsSuccess(s: State, n: nat, run: seq<Move>, t: nat)
    requires Initial(s, n) && IsRun(s, run)
    requires var f := Final(s, run); t < |f.pcs| && (f.pcs[t].PushCas? || f.pcs[t].PopCas?)
    ensures var f := Final(s, run); f.top != f.pcs[t].seen ==> f.pcs[t].at < f.cas
  {
    InitialCounted(s, n);
    KeepCountedRun(s, run);
    assert Paid(Final(s, run), t);
  }
}
