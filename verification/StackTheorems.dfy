/** What the stack promises, for every number of threads and every run in
    which fewer than a period of CASes succeed between a load and its CAS. */
module StackTheorems {
  import opened Wrappers
  import opened Bits
  import opened StackMachine
  import opened StackTrace
  import opened StackInvariant

  ghost predicate Reachable(s: State, n: nat) {
    exists s0: State, run: seq<Move> ::
      Initial(s0, n) && IsWindowedRun(s0, run) && IsRun(s0, run) && Final(s0, run) == s
  }

  lemma ReachableInv(s: State, n: nat)
    requires Reachable(s, n)
    ensures Inv(s) && |s.pcs| == n
  {
    var s0: State, run: seq<Move> :|
      Initial(s0, n) && IsWindowedRun(s0, run) && IsRun(s0, run) && Final(s0, run) == s;
    InitialInv(s0, n);
    KeepRun(s0, run);
  }

  /** Linearizability: every thread's operations take effect once, between
      call and return, and return what their effect says; the effects in order
      are a sequential stack, whose contents are what the links from _top_
      spell. */
  lemma Linearizability(s: State, n: nat)
    requires Reachable(s, n)
    ensures Linearizable(s.trace, n)
    ensures IsChain(s.next, Addr(s.top, s.bits), s.chain) && Distinct(s.chain)
    ensures Replay(s.trace) == Some(Values(s))
  {
    hide Replay, Project, IsChain;
    ReachableInv(s, n);
    forall t | 0 <= t < n ensures Project(s.trace, t).Some? {
      assert Project(s.trace, t) == Some(StatusOf(s.pcs[t], s.data));
    }
  }

  // The last action of thread t in a trace, or the trace's length.
  function LastOf(trace: seq<Action>, t: nat): (k: nat)
    ensures k <= |trace|
    ensures k < |trace| ==> trace[k].t == t
    ensures forall j :: k < j < |trace| ==> trace[j].t != t
    ensures k == |trace| ==> forall j :: 0 <= j < |trace| ==> trace[j].t != t
  {
    if trace == [] then 0
    else if trace[|trace| - 1].t == t then |trace| - 1
    else
      var init := trace[..|trace| - 1];
      assert forall j :: 0 <= j < |init| ==> init[j] == trace[j];
      var k := LastOf(init, t);
      if k == |init| then |trace| else k
  }

  lemma {:induction false} ProjectLast(trace: seq<Action>, t: nat)
    ensures var k := LastOf(trace, t);
            Project(trace, t) == if k == |trace| then Some(Quiet) else Project(trace[..k + 1], t)
  {
    if trace != [] {
      var init := trace[..|trace| - 1];
      if trace[|trace| - 1].t == t {
        assert trace[..|trace|] == trace;
      } else {
        ProjectLast(init, t);
        var k := LastOf(init, t);
        if k < |init| {
          assert trace[..k + 1] == init[..k + 1];
        }
      }
    }
  }

  // The step that led to a status that is not Quiet.
  lemma StatusSource(trace: seq<Action>, t: nat)
    requires Project(trace, t).Some? && Project(trace, t).value != Quiet
    ensures var k := LastOf(trace, t);
            && k < |trace| && trace[k].t == t
            && Project(trace[..k], t).Some?
            && Advance(Project(trace[..k], t).value, trace[k]) == Project(trace, t)
  {
    ProjectLast(trace, t);
    var k := LastOf(trace, t);
    assert trace[..k + 1][..k] == trace[..k];
  }

  /** Reading of Linearizable: a return other than a failed allocation comes
      after an effect of the same thread that says the same, which comes after
      the call it answers, and the thread does nothing in between. So when one
      operation returns before another is called their effects are in order. */
  lemma ReturnAfterEffect(trace: seq<Action>, n: nat, k: nat)
    requires Linearizable(trace, n)
    requires k < |trace| && trace[k].Return? && trace[k].res != PushResult(false) && trace[k].t < n
    ensures exists i, j :: 0 <= i < j < k && EffectOf(trace, i, j, k)
  {
    var t := trace[k].t;
    PrefixProject(trace, k + 1, t);
    assert trace[..k + 1][..k] == trace[..k];
    StatusSource(trace[..k], t);
    var j := LastOf(trace[..k], t);
    assert trace[..k][..j] == trace[..j];
    StatusSource(trace[..j], t);
    var i := LastOf(trace[..j], t);
    assert trace[..j][..i] == trace[..i];
    forall m | i < m < k && m != j ensures trace[m].t != t {
      if m < j {
        assert trace[..j][m] == trace[m];
      } else {
        assert trace[..k][m] == trace[m];
      }
    }
    assert EffectOf(trace, i, j, k);
  }

  // Call at i, effect at j and return at k of one operation of one thread.
  predicate EffectOf(trace: seq<Action>, i: nat, j: nat, k: nat) {
    && i < j < k < |trace|
    && trace[i].Call? && trace[j].Lin? && trace[k].Return?
    && trace[i].t == trace[j].t == trace[k].t
    && (forall m :: i < m < k && m != j ==> trace[m].t != trace[k].t)
    && match trace[k].res {
         case PushResult(ok) => ok && trace[i].op.PushOp? && trace[j].ev == Pushed(trace[i].op.v)
         case PopTrue(v) => trace[i].op.PopOp? && trace[j].ev == Popped(v)
         case PopFalse => trace[i].op.PopOp? && trace[j].ev == FoundEmpty
       }
  }

  lemma {:induction false} PrefixProject(trace: seq<Action>, k: nat, t: nat)
    requires k <= |trace| && Project(trace, t).Some?
    ensures Project(trace[..k], t).Some?
  {
    if k < |trace| {
      PrefixProject(trace[..|trace| - 1], k, t);
      assert trace[..|trace| - 1][..k] == trace[..k];
    } else {
      assert trace[..k] == trace;
    }
  }

  /** The counter in _top_ is the number of successful CASes modulo its period. If
      all CASes so far were inside the window, the next one, be it inside or not,
      finds the word it loaded exactly when the address is back and a whole number
      of periods of CASes has gone by. */
  lemma WhenCasSucceeds(s: State, n: nat, t: nat)
    requires Reachable(s, n) && t < |s.pcs| && (s.pcs[t].PushCas? || s.pcs[t].PopCas?)
    ensures Count(s.top, s.bits) == s.cas % Period(s.bits)
    ensures s.top == s.pcs[t].seen <==>
            Addr(s.top, s.bits) == Addr(s.pcs[t].seen, s.bits) &&
            s.cas % Period(s.bits) == s.pcs[t].at % Period(s.bits)
  {
    hide IsChain, Replay, Project, Ownership, Pow2, And, Pack;
    ReachableInv(s, n);
    assert Local(s, s.pcs[t]);
    Repack(s.top, s.bits);
    Repack(s.pcs[t].seen, s.bits);
  }

  /** ABA safety: inside the window a CAS succeeds only if _top_ has not changed
      since the load, and what a popper then installs is the true successor. */
  lemma AbaSafety(s: State, n: nat, t: nat)
    requires Reachable(s, n) && t < |s.pcs| && (s.pcs[t].PushCas? || s.pcs[t].PopCas?)
    requires InWindow(s, t)
    ensures s.top == s.pcs[t].seen <==> s.pcs[t].at == s.cas
    ensures s.top == s.pcs[t].seen && s.pcs[t].PopCas? ==>
              && s.chain != [] && Addr(s.pcs[t].seen, s.bits) == s.chain[0]
              && s.pcs[t].next == (if |s.chain| == 1 then 0 else s.chain[1])
  {
    hide Replay, Project, Ownership, IsChain, Pow2, And;
    ReachableInv(s, n);
    assert Local(s, s.pcs[t]);
    if s.top == s.pcs[t].seen {
      NoAba(s, s.pcs[t].seen, s.pcs[t].at);
      if s.pcs[t].PopCas? {
        TrueSuccessor(s, t);
      }
    }
  }

  lemma TrueSuccessor(s: State, t: nat)
    requires Inv(s) && t < |s.pcs| && s.pcs[t].PopCas? && s.top == s.pcs[t].seen && s.pcs[t].at == s.cas
    ensures s.chain != [] && Addr(s.pcs[t].seen, s.bits) == s.chain[0]
    ensures s.pcs[t].next == (if |s.chain| == 1 then 0 else s.chain[1])
  {
    hide Replay, Project, Ownership, Pow2, And;
    assert Local(s, s.pcs[t]);
    assert IsChain(s.next, s.pcs[t].next, s.chain[1..]);
  }

  /** Each node is in one place. */
  lemma OnePlace(s: State, n: nat, a: nat)
    requires Reachable(s, n) && a in s.next
    ensures a in s.pool || a in s.chain || exists t :: 0 <= t < |s.pcs| && a in Owned(s.pcs[t])
    ensures a in s.pool ==> a !in s.chain && forall t :: 0 <= t < |s.pcs| ==> a !in Owned(s.pcs[t])
    ensures a in s.chain ==> forall t :: 0 <= t < |s.pcs| ==> a !in Owned(s.pcs[t])
    ensures forall i, j :: 0 <= i < |s.chain| && 0 <= j < |s.chain| && s.chain[i] == a == s.chain[j] ==> i == j
    ensures forall t, u :: 0 <= t < |s.pcs| && 0 <= u < |s.pcs| && a in Owned(s.pcs[t]) && a in Owned(s.pcs[u]) ==> t == u
  {
    hide Replay, Project, IsChain, Pow2, And;
    ReachableInv(s, n);
    assert a in s.pool || InUse(s, a);
    forall t, u | 0 <= t < |s.pcs| && 0 <= u < |s.pcs| && a in Owned(s.pcs[t]) && a in Owned(s.pcs[u]) ensures t == u {
      assert t < u || u < t || t == u;
    }
  }

  // So Free is never given a node that the pool already has.
  lemma NoDoubleFree(s: State, n: nat, t: nat)
    requires Reachable(s, n) && t < |s.pcs| && s.pcs[t].PopFree?
    ensures s.pcs[t].node in s.next && s.pcs[t].node !in s.pool && s.pcs[t].node !in s.chain
  {
    hide Replay, Project, IsChain, Pow2, And;
    ReachableInv(s, n);
    assert s.pcs[t].node in Owned(s.pcs[t]);
  }

  /** Conservation: the values pushed are the values returned, those on the
      stack, and those a popper has taken and not yet returned. */
  lemma Conservation(s: State, n: nat)
    requires Reachable(s, n)
    ensures PushedValues(s.trace) ==
            ReturnedValues(s.trace) + multiset(Values(s)) + Held(Statuses(s))
  {
    hide IsChain, Pow2, And, Ownership;
    ReachableInv(s, n);
    ReplayConserves(s.trace);
    ProtocolConserves(s.trace, Statuses(s));
    var r, h, v := ReturnedValues(s.trace), Held(Statuses(s)), multiset(Values(s));
    assert (r + h) + v == r + v + h;
  }

  function Statuses(s: State): seq<Status> {
    seq(|s.pcs|, t requires 0 <= t < |s.pcs| => StatusOf(s.pcs[t], s.data))
  }

  // Threads that have linked or unlinked a node and not yet counted it.
  function AtPushCount(pcs: seq<Pc>): set<nat> {
    set t | 0 <= t < |pcs| && pcs[t].PushCount? :: t
  }

  function AtPopCount(pcs: seq<Pc>): set<nat> {
    set t | 0 <= t < |pcs| && pcs[t].PopCount? :: t
  }

  lemma {:induction false} LeadsAreCounts(pcs: seq<Pc>)
    ensures Leads(pcs) == |AtPopCount(pcs)| - |AtPushCount(pcs)|
  {
    if pcs != [] {
      LeadsAreCounts(pcs[..|pcs| - 1]);
      hide AtPopCount, AtPushCount;
      CountLast(pcs);
    } else {
      assert AtPopCount(pcs) == {} && AtPushCount(pcs) == {};
    }
  }

  lemma CountLast(pcs: seq<Pc>)
    requires pcs != []
    ensures var n := |pcs| - 1;
            && |AtPopCount(pcs)| == |AtPopCount(pcs[..n])| + (if pcs[n].PopCount? then 1 else 0)
            && |AtPushCount(pcs)| == |AtPushCount(pcs[..n])| + (if pcs[n].PushCount? then 1 else 0)
  {
    PopCountLast(pcs);
    PushCountLast(pcs);
  }

  lemma PopCountLast(pcs: seq<Pc>)
    requires pcs != []
    ensures var n := |pcs| - 1;
            |AtPopCount(pcs)| == |AtPopCount(pcs[..n])| + if pcs[n].PopCount? then 1 else 0
  {
    var n := |pcs| - 1;
    assert AtPopCount(pcs) == AtPopCount(pcs[..n]) + (if pcs[n].PopCount? then {n} else {});
  }

  lemma PushCountLast(pcs: seq<Pc>)
    requires pcs != []
    ensures var n := |pcs| - 1;
            |AtPushCount(pcs)| == |AtPushCount(pcs[..n])| + if pcs[n].PushCount? then 1 else 0
  {
    var n := |pcs| - 1;
    assert AtPushCount(pcs) == AtPushCount(pcs[..n]) + (if pcs[n].PushCount? then {n} else {});
  }

  /** _size_ is the length less the pushes and plus the pops still to be
      counted; between operations it is the length. */
  lemma SizeAccounting(s: State, n: nat)
    requires Reachable(s, n)
    ensures s.size == |s.chain| - |AtPushCount(s.pcs)| + |AtPopCount(s.pcs)|
    ensures (forall t :: 0 <= t < |s.pcs| ==> s.pcs[t].Idle?) ==> s.size == |s.chain|
  {
    ReachableInv(s, n);
    LeadsAreCounts(s.pcs);
    if forall t :: 0 <= t < |s.pcs| ==> s.pcs[t].Idle? {
      LeadsIdle(s.pcs);
    }
  }
}
