/** What a trace means: each thread's protocol, the sequential stack that the
    linearization points replay, and the bookkeeping of values. */
module StackTrace {
  import opened Wrappers
  import opened StackMachine

  datatype Status = Quiet | Calling(op: Op) | Done(ev: Event)

  /** The protocol of one thread: call, take effect exactly once, return what
      the effect says. A push without memory returns false and has no effect. */
  function Advance(st: Status, a: Action): Option<Status> {
    match a
    case Call(_, op) => if st.Quiet? then Some(Calling(op)) else None
    case Lin(_, ev) => if st.Calling? && Fits(st.op, ev) then Some(Done(ev)) else None
    case Return(_, res) => if Answers(st, res) then Some(Quiet) else None
  }

  predicate Fits(op: Op, ev: Event) {
    op == if ev.Pushed? then PushOp(ev.v) else PopOp
  }

  predicate Answers(st: Status, res: Result) {
    match res
    case PushResult(ok) =>
      if ok then st.Done? && st.ev.Pushed? else st.Calling? && st.op.PushOp?
    case PopTrue(v) => st == Done(Popped(v))
    case PopFalse => st == Done(FoundEmpty)
  }

  // Where thread t stands after the trace, if it kept to the protocol.
  function Project(trace: seq<Action>, t: nat): Option<Status> {
    if trace == [] then Some(Quiet)
    else
      var before, a := Project(trace[..|trace| - 1], t), trace[|trace| - 1];
      if a.t != t || before.None? then before else Advance(before.value, a)
  }

  // One event on a sequential stack, top first.
  function Effect(stack: seq<Value>, ev: Event): Option<seq<Value>> {
    match ev
    case Pushed(v) => Some([v] + stack)
    case Popped(v) => if stack != [] && stack[0] == v then Some(stack[1..]) else None
    case FoundEmpty => if stack == [] then Some([]) else None
  }

  // The linearization points of the trace, run in order on a sequential stack.
  function Replay(trace: seq<Action>): Option<seq<Value>> {
    if trace == [] then Some([])
    else
      var before, a := Replay(trace[..|trace| - 1]), trace[|trace| - 1];
      if before.None? || !a.Lin? then before else Effect(before.value, a.ev)
  }

  /** A trace of n threads is linearizable when every thread keeps to the
      protocol (so each effect lies between its call and its return, and the
      return value is the effect's) and the effects, in trace order, are a
      legal history of one sequential stack. */
  predicate Linearizable(trace: seq<Action>, n: nat) {
    && Replay(trace).Some?
    && forall t :: 0 <= t < n ==> Project(trace, t).Some?
  }

  // A thread's own actions, in order.
  function Mine(trace: seq<Action>, t: nat): seq<Action> {
    if trace == [] then []
    else
      var before, a := Mine(trace[..|trace| - 1], t), trace[|trace| - 1];
      if a.t == t then before + [a] else before
  }

  lemma DropLast(trace: seq<Action>, a: Action)
    ensures (trace + [a])[..|trace + [a]| - 1] == trace
    ensures (trace + [a])[|trace + [a]| - 1] == a
  {
  }

  // What the three functions above do with one more action.
  lemma Extend(trace: seq<Action>, a: Action, t: nat)
    ensures Project(trace + [a], t) ==
            if a.t != t || Project(trace, t).None? then Project(trace, t)
            else Advance(Project(trace, t).value, a)
    ensures Replay(trace + [a]) ==
            if Replay(trace).None? || !a.Lin? then Replay(trace)
            else Effect(Replay(trace).value, a.ev)
    ensures Mine(trace + [a], t) == Mine(trace, t) + (if a.t == t then [a] else [])
  {
    DropLast(trace, a);
  }

  // A pop that finds the stack empty takes effect and returns at once.
  lemma ExtendEmptyPop(trace: seq<Action>, t: nat)
    requires Project(trace, t) == Some(Calling(PopOp)) && Replay(trace) == Some([])
    ensures var trace' := trace + [Lin(t, FoundEmpty), Return(t, PopFalse)];
            Project(trace', t) == Some(Quiet) && Replay(trace') == Some([])
  {
    var a, b := Lin(t, FoundEmpty), Return(t, PopFalse);
    Extend(trace, a, t);
    Extend(trace + [a], b, t);
    assert trace + [a, b] == (trace + [a]) + [b];
  }

  // Actions of one thread leave the other threads where they were.
  lemma {:induction false} OthersUnmoved(trace: seq<Action>, acts: seq<Action>, t: nat, u: nat)
    requires forall a <- acts :: a.t == t
    requires u != t
    ensures Project(trace + acts, u) == Project(trace, u)
    ensures Mine(trace + acts, u) == Mine(trace, u)
  {
    if acts == [] {
      assert trace + acts == trace;
    } else {
      var init, a := acts[..|acts| - 1], acts[|acts| - 1];
      assert acts == init + [a];
      OthersUnmoved(trace, init, t, u);
      assert trace + acts == (trace + init) + [a];
      Extend(trace + init, a, u);
    }
  }

  lemma {:induction false} MineAll(trace: seq<Action>, acts: seq<Action>, t: nat)
    requires forall a <- acts :: a.t == t
    ensures Mine(trace + acts, t) == Mine(trace, t) + acts
  {
    if acts == [] {
      assert trace + acts == trace;
    } else {
      var init, a := acts[..|acts| - 1], acts[|acts| - 1];
      MineAll(trace, init, t);
      assert trace + acts == (trace + init) + [a];
      Extend(trace + init, a, t);
    }
  }

  // A thread's protocol depends only on its own actions.
  lemma {:induction false} ProjectMine(trace: seq<Action>, t: nat)
    ensures Project(Mine(trace, t), t) == Project(trace, t)
  {
    if trace != [] {
      var init, a := trace[..|trace| - 1], trace[|trace| - 1];
      ProjectMine(init, t);
      if a.t == t {
        Extend(Mine(init, t), a, t);
      }
    }
  }

  // ---------------------------------------------------------------- values

  function PushOf(a: Action): multiset<Value> {
    if a.Lin? && a.ev.Pushed? then multiset{a.ev.v} else multiset{}
  }

  function PopOf(a: Action): multiset<Value> {
    if a.Lin? && a.ev.Popped? then multiset{a.ev.v} else multiset{}
  }

  function ReturnOf(a: Action): multiset<Value> {
    if a.Return? && a.res.PopTrue? then multiset{a.res.v} else multiset{}
  }

  // The values that took effect as pushes, as pops, and that pops returned.
  function PushedValues(trace: seq<Action>): multiset<Value> {
    if trace == [] then multiset{}
    else PushedValues(trace[..|trace| - 1]) + PushOf(trace[|trace| - 1])
  }

  function PoppedValues(trace: seq<Action>): multiset<Value> {
    if trace == [] then multiset{}
    else PoppedValues(trace[..|trace| - 1]) + PopOf(trace[|trace| - 1])
  }

  function ReturnedValues(trace: seq<Action>): multiset<Value> {
    if trace == [] then multiset{}
    else ReturnedValues(trace[..|trace| - 1]) + ReturnOf(trace[|trace| - 1])
  }

  function HeldBy(st: Status): multiset<Value> {
    if st.Done? && st.ev.Popped? then multiset{st.ev.v} else multiset{}
  }

  // The values popped but not yet returned.
  function Held(sts: seq<Status>): multiset<Value> {
    if sts == [] then multiset{}
    else Held(sts[..|sts| - 1]) + HeldBy(sts[|sts| - 1])
  }

  lemma {:induction false} HeldUpdate(sts: seq<Status>, t: nat, st: Status)
    requires t < |sts|
    ensures Held(sts[t := st]) + HeldBy(sts[t]) == Held(sts) + HeldBy(st)
  {
    var n := |sts| - 1;
    if t == n {
      assert sts[t := st][..n] == sts[..n];
    } else {
      HeldUpdate(sts[..n], t, st);
      assert sts[t := st][..n] == sts[..n][t := st];
      assert sts[..n][t] == sts[t] && sts[t := st][n] == sts[n];
      Rearrange(Held(sts[..n][t := st]), HeldBy(sts[t]), Held(sts[..n]), HeldBy(st), HeldBy(sts[n]));
    }
  }

  lemma Rearrange<T>(a: multiset<T>, b: multiset<T>, c: multiset<T>, d: multiset<T>, e: multiset<T>)
    requires a + b == c + d
    ensures (a + e) + b == (c + e) + d
  {
    assert (a + e) + b == (a + b) + e;
    assert (c + e) + d == (c + d) + e;
  }

  lemma {:induction false} HeldQuiet(n: nat)
    ensures Held(seq(n, i => Quiet)) == multiset{}
  {
    if n > 0 {
      HeldQuiet(n - 1);
      assert seq(n, i => Quiet)[..n - 1] == seq(n - 1, i => Quiet);
    }
  }

  lemma EffectConserves(stack: seq<Value>, a: Action)
    requires a.Lin? && Effect(stack, a.ev).Some?
    ensures PushOf(a) + multiset(stack) == PopOf(a) + multiset(Effect(stack, a.ev).value)
  {
    if a.ev.Popped? {
      assert stack == [a.ev.v] + stack[1..];
    }
  }

  lemma Rebalance<T>(p: multiset<T>, q: multiset<T>, m: multiset<T>,
                     gain: multiset<T>, loss: multiset<T>, n: multiset<T>)
    requires p == q + m && gain + m == loss + n
    ensures p + gain == q + loss + n
  {
    assert p + gain == q + (gain + m);
    assert q + (loss + n) == q + loss + n;
  }

  // Pushes are pops plus what is left, in any legal history.
  lemma {:induction false} ReplayConserves(trace: seq<Action>)
    requires Replay(trace).Some?
    ensures PushedValues(trace) == PoppedValues(trace) + multiset(Replay(trace).value)
  {
    if trace != [] {
      var init, a := trace[..|trace| - 1], trace[|trace| - 1];
      ReplayConserves(init);
      if a.Lin? {
        EffectConserves(Replay(init).value, a);
        Rebalance(PushedValues(init), PoppedValues(init), multiset(Replay(init).value),
                  PushOf(a), PopOf(a), multiset(Replay(trace).value));
      }
    }
  }

  lemma AdvanceConserves(st: Status, a: Action)
    requires Advance(st, a).Some?
    ensures PopOf(a) + HeldBy(st) == ReturnOf(a) + HeldBy(Advance(st, a).value)
  {
    hide *;
    if a.Lin? {
      EffectHolds(st, a);
    } else {
      ReturnLetsGo(st, a);
    }
  }

  lemma EffectHolds(st: Status, a: Action)
    requires a.Lin? && Advance(st, a).Some?
    ensures HeldBy(st) == ReturnOf(a) == multiset{} && HeldBy(Advance(st, a).value) == PopOf(a)
  {
  }

  lemma ReturnLetsGo(st: Status, a: Action)
    requires !a.Lin? && Advance(st, a).Some?
    ensures PopOf(a) == HeldBy(Advance(st, a).value) == multiset{} && HeldBy(st) == ReturnOf(a)
  {
  }

  // Pops are returned or still held, whatever the interleaving.
  lemma {:induction false} ProtocolConserves(trace: seq<Action>, sts: seq<Status>)
    requires forall a <- trace :: a.t < |sts|
    requires forall t :: 0 <= t < |sts| ==> Project(trace, t) == Some(sts[t])
    ensures PoppedValues(trace) == ReturnedValues(trace) + Held(sts)
  {
    if trace == [] {
      assert sts == seq(|sts|, i => Quiet);
      HeldQuiet(|sts|);
    } else {
      var init, a := trace[..|trace| - 1], trace[|trace| - 1];
      Before(trace, sts);
      var st := Project(init, a.t).value;
      ProtocolConserves(init, sts[a.t := st]);
      HeldUpdate(sts, a.t, st);
      AdvanceConserves(st, a);
      var held, now := HeldBy(st), HeldBy(sts[a.t]);
      assert PopOf(a) + Held(sts[a.t := st]) == ReturnOf(a) + Held(sts) by {
        Cancel(PopOf(a), Held(sts[a.t := st]), ReturnOf(a), Held(sts), held, now);
      }
      Rebalance(PoppedValues(init), ReturnedValues(init), Held(sts[a.t := st]),
                PopOf(a), ReturnOf(a), Held(sts));
    }
  }

  lemma Cancel<T(!new)>(a: multiset<T>, b: multiset<T>, c: multiset<T>, d: multiset<T>,
                  x: multiset<T>, y: multiset<T>)
    requires a + x == c + y && b + y == d + x
    ensures a + b == c + d
  {
    forall e: T ensures (a + b)[e] == (c + d)[e] {
      assert (a + x)[e] == (c + y)[e] && (b + y)[e] == (d + x)[e];
    }
  }

  // The statuses one action earlier.
  lemma Before(trace: seq<Action>, sts: seq<Status>)
    requires trace != []
    requires forall a <- trace :: a.t < |sts|
    requires forall t :: 0 <= t < |sts| ==> Project(trace, t) == Some(sts[t])
    ensures var init, a := trace[..|trace| - 1], trace[|trace| - 1];
            && a.t < |sts| && (forall b <- init :: b.t < |sts|)
            && Project(init, a.t).Some?
            && Advance(Project(init, a.t).value, a) == Some(sts[a.t])
            && forall t :: 0 <= t < |sts| ==>
                 Project(init, t) == Some(sts[a.t := Project(init, a.t).value][t])
  {
    hide Advance, Replay, Mine, Project;
    var init, a := trace[..|trace| - 1], trace[|trace| - 1];
    assert trace == init + [a] && a in trace;
    assert forall b <- init :: b in trace;
    assert Project(trace, a.t) == Some(sts[a.t]);
    Extend(init, a, a.t);
    forall t | 0 <= t < |sts|
      ensures Project(init, t) == Some(sts[a.t := Project(init, a.t).value][t])
    {
      assert Project(trace, t) == Some(sts[t]);
      Extend(init, a, t);
    }
  }
}
