/** The inductive invariant of the queue machine, and that every clean move keeps
    it. */
module QueueInvariant {
  import opened Wrappers
  import opened Bits
  import opened Sums
  import opened StackMachine
  import opened StackTrace
  import opened QueueMachine

  predicate QShape(s: QState) {
    && 1 <= s.bits <= WORD_BITS
    && s.next.Keys == s.data.Keys == s.place.Keys
    && s.pool <= s.next.Keys
    && (forall a <- s.next.Keys :: 0 < a < Pow2(s.bits))
    && (forall a <- s.pool :: s.place[a] == InPool)
  }

  // The word w holds address a and, modulo the period, the count k.
  predicate Word(bits: nat, w: nat, a: nat, k: nat) {
    w < Pow2(WORD_BITS) && Addr(w, bits) == a && Count(w, bits) == k % Period(bits)
  }

  // Where _head_ and _tail_ are in the line.
  predicate Ends(s: QState) {
    && |s.vals| == |s.line| && s.heads <= s.tails < |s.line|
    && Word(s.bits, s.head, s.line[s.heads], s.heads)
    && Word(s.bits, s.tail, s.line[s.tails], s.tails)
  }

  // From _head_ on the line is linked, null-terminated, and nowhere else.
  predicate InChain(s: QState)
    requires QShape(s) && Ends(s)
  {
    && (forall i :: 0 <= i < |s.line| ==> s.line[i] in s.next)
    && (forall i :: s.heads <= i < |s.line| ==> s.place[s.line[i]] == InLine)
    && (forall i, j :: s.heads <= i < j < |s.line| ==> s.line[i] != s.line[j])
    && (forall i :: s.heads <= i < |s.line| - 1 ==> s.next[s.line[i]] == s.line[i + 1])
    && s.next[s.line[|s.line| - 1]] == 0
  }

  predicate Carries(s: QState)
    requires QShape(s) && Ends(s) && InChain(s)
  {
    forall i :: s.heads < i < |s.line| ==> s.data[s.line[i]] == s.vals[i]
  }

  // A thread that has set the link of its own node to null.
  predicate Nulled(pc: QPc) {
    pc.EnqLoad? || pc.EnqNext? || pc.EnqLink? || pc.EnqHelp?
  }

  // The node is the nulled node of the thread that has it.
  predicate Cleared(s: QState, n: nat) {
    && n in s.place && s.place[n].Own? && s.place[n].t < |s.pcs|
    && Nulled(s.pcs[s.place[n].t]) && s.pcs[s.place[n].t].node == n
  }

  // Of all nodes that were ever in the line, only the last and those that are being
  // used again have a null link.
  predicate Used(s: QState)
    requires QShape(s) && Ends(s) && InChain(s)
  {
    forall i :: 0 <= i < |s.line| - 1 && s.next[s.line[i]] == 0 ==>
      s.line[i] == s.line[|s.line| - 1] || Cleared(s, s.line[i])
  }

  predicate LineOk(s: QState) {
    QShape(s) && Ends(s) && InChain(s) && Carries(s) && Used(s)
  }

  // The node a thread has for itself.
  predicate Owns(pc: QPc) {
    pc.EnqData? || pc.EnqNull? || Nulled(pc) || pc.DeqCount? || pc.DeqFree?
  }

  // What a thread knows about a word that it loaded from _tail_ or _head_.
  predicate SeenTail(s: QState, seen: nat, at: nat) {
    && at <= s.tails && at < |s.line| && Word(s.bits, seen, s.line[at], at)
    && (at == s.tails ==> seen == s.tail)
  }

  predicate SeenHead(s: QState, seen: nat, at: nat) {
    && at <= s.heads && at < |s.line| && Word(s.bits, seen, s.line[at], at)
    && (at == s.heads ==> seen == s.head)
  }

  // The node comes after place _at_ in the line.
  predicate Follows(s: QState, at: nat, node: nat) {
    at + 1 < |s.line| && node == s.line[at + 1]
  }

  predicate Knows(s: QState, pc: QPc) {
    match pc
    case EnqNext(n, seen, at) => SeenTail(s, seen, at) && n != s.line[at]
    case EnqLink(n, seen, at) => SeenTail(s, seen, at) && n != s.line[at]
    case EnqHelp(_, seen, next, at) => SeenTail(s, seen, at) && (at == s.tails ==> Follows(s, at, next))
    case EnqCheck(n, seen, at, _) => SeenTail(s, seen, at) && (at == s.tails ==> Follows(s, at, n))
    case EnqSwing(n, seen, at, _) => SeenTail(s, seen, at) && (at == s.tails ==> Follows(s, at, n))
    case DeqNext(seen, at) => SeenHead(s, seen, at)
    case DeqTail(seen, next, at) => SeenHead(s, seen, at) && (at == s.heads ==> Follows(s, at, next))
    case DeqHelp(seen, next, at) => SeenHead(s, seen, at) && (at == s.heads ==> Follows(s, at, next))
    case DeqData(seen, next, at) =>
      SeenHead(s, seen, at) && (at == s.heads ==> Follows(s, at, next)) && at < s.tails
    case DeqCas(seen, next, v, at) =>
      && SeenHead(s, seen, at) && (at == s.heads ==> Follows(s, at, next)) && at < s.tails
      && (at == s.heads ==> at + 1 < |s.vals| && v == s.vals[at + 1])
    case _ => true
  }

  predicate Holds(s: QState, t: nat, pc: QPc) {
    Owns(pc) ==>
      && pc.node in s.place && pc.node in s.next && s.place[pc.node] == Own(t)
      && (Nulled(pc) ==> s.next[pc.node] == 0)
  }

  function QStatusOf(pc: QPc, data: map<nat, Value>): Status {
    match pc
    case QIdle => Quiet
    case EnqAlloc(v) => Calling(PushOp(v))
    case EnqData(v, _) => Calling(PushOp(v))
    case EnqNull(n) => Calling(PushOp(Read(data, n, 0)))
    case EnqLoad(n) => Calling(PushOp(Read(data, n, 0)))
    case EnqNext(n, _, _) => Calling(PushOp(Read(data, n, 0)))
    case EnqLink(n, _, _) => Calling(PushOp(Read(data, n, 0)))
    case EnqHelp(n, _, _, _) => Calling(PushOp(Read(data, n, 0)))
    case EnqCheck(_, _, _, v) => Done(Pushed(v))
    case EnqSwing(_, _, _, v) => Done(Pushed(v))
    case EnqCount(v) => Done(Pushed(v))
    case DeqCount(_, v) => Done(Popped(v))
    case DeqFree(_, v) => Done(Popped(v))
    case _ => Calling(PopOp)
  }

  predicate ThreadOk(s: QState, t: nat, pc: QPc) {
    Knows(s, pc) && Holds(s, t, pc) && Project(s.trace, t) == Some(QStatusOf(pc, s.data))
  }

  // --------------------------------------------------- the abstract queue

  // One effect on a sequential queue, oldest first. Nothing is asked of a Dequeue
  // that gives up.
  function QEffect(queue: seq<Value>, ev: Event): Option<seq<Value>> {
    match ev
    case Pushed(v) => Some(queue + [v])
    case Popped(v) => if queue != [] && queue[0] == v then Some(queue[1..]) else None
    case FoundEmpty => Some(queue)
  }

  // The effects of the trace, run in order on a sequential queue.
  function QReplay(trace: seq<Action>): Option<seq<Value>> {
    if trace == [] then Some([])
    else
      var before, a := QReplay(trace[..|trace| - 1]), trace[|trace| - 1];
      if before.None? || !a.Lin? then before else QEffect(before.value, a.ev)
  }

  function Contents(s: QState): seq<Value> {
    if s.heads < |s.vals| then s.vals[s.heads + 1..] else []
  }

  // What _size_ is ahead of the contents by.
  function QLead(pc: QPc): int {
    if pc.EnqCheck? || pc.EnqSwing? || pc.EnqCount? then -1 else if pc.DeqCount? then 1 else 0
  }

  function QLeads(pcs: seq<QPc>): seq<int> {
    seq(|pcs|, t requires 0 <= t < |pcs| => QLead(pcs[t]))
  }

  predicate QInv(s: QState) {
    && LineOk(s)
    && (forall t :: 0 <= t < |s.pcs| ==> ThreadOk(s, t, s.pcs[t]))
    && QReplay(s.trace) == Some(Contents(s))
    && s.size == |Contents(s)| + Sum(QLeads(s.pcs))
  }

  // ----------------------------------------------------------- the frame

  // A step of thread t that leaves alone what the others rely on.
  predicate QFramed(s: QState, s': QState, t: nat, acts: seq<Action>) {
    && t < |s.pcs| && s'.bits == s.bits && |s'.pcs| == |s.pcs| && s'.pcs == s.pcs[t := s'.pcs[t]]
    && s'.trace == s.trace + acts && (forall a <- acts :: a.t == t)
    && s.line <= s'.line && s.vals <= s'.vals
    && s.heads <= s'.heads && (s'.heads == s.heads ==> s'.head == s.head)
    && s.tails <= s'.tails && (s'.tails == s.tails ==> s'.tail == s.tail)
    && (forall n <- s.place :: s.place[n].Own? && s.place[n] != Own(t) && n in s.next ==>
          && n in s'.place && s'.place[n] == s.place[n]
          && n in s'.next && s'.next[n] == s.next[n] && Read(s'.data, n, 0) == Read(s.data, n, 0))
  }

  lemma OthersKnow(s: QState, s': QState, t: nat, acts: seq<Action>, pc: QPc)
    requires QFramed(s, s', t, acts) && Knows(s, pc)
    ensures Knows(s', pc)
  {
    hide Word;
  }

  lemma OthersHold(s: QState, s': QState, t: nat, acts: seq<Action>, u: nat)
    requires QFramed(s, s', t, acts) && u < |s.pcs| && u != t && Holds(s, u, s.pcs[u])
    ensures Holds(s', u, s.pcs[u]) && QStatusOf(s.pcs[u], s'.data) == QStatusOf(s.pcs[u], s.data)
  {
  }

  lemma OthersOk(s: QState, s': QState, t: nat, acts: seq<Action>, u: nat)
    requires QFramed(s, s', t, acts) && u < |s.pcs| && u != t && ThreadOk(s, u, s.pcs[u])
    ensures ThreadOk(s', u, s'.pcs[u])
  {
    hide Knows, Holds, Project, QStatusOf;
    OthersKnow(s, s', t, acts, s.pcs[u]);
    OthersHold(s, s', t, acts, u);
    OthersUnmoved(s.trace, acts, t, u);
  }

  lemma {:induction false} SumUpdate(xs: seq<int>, t: nat, x: int)
    requires t < |xs|
    ensures Sum(xs[t := x]) == Sum(xs) - xs[t] + x
  {
    var n := |xs| - 1;
    if t == n {
      assert xs[t := x][..n] == xs[..n];
    } else {
      SumUpdate(xs[..n], t, x);
      assert xs[t := x][..n] == xs[..n][t := x];
    }
  }

  lemma LeadsMove(s: QState, s': QState, t: nat)
    requires t < |s.pcs| && |s'.pcs| == |s.pcs| && s'.pcs == s.pcs[t := s'.pcs[t]]
    ensures Sum(QLeads(s'.pcs)) == Sum(QLeads(s.pcs)) - QLead(s.pcs[t]) + QLead(s'.pcs[t])
  {
    SumUpdate(QLeads(s.pcs), t, QLead(s'.pcs[t]));
    assert QLeads(s'.pcs) == QLeads(s.pcs)[t := QLead(s'.pcs[t])];
  }

  // The step has to answer for the line and its own thread.
  lemma QKeep(s: QState, s': QState, t: nat, acts: seq<Action>)
    requires QInv(s) && QFramed(s, s', t, acts) && LineOk(s') && ThreadOk(s', t, s'.pcs[t])
    requires QReplay(s'.trace) == Some(Contents(s'))
    requires s'.size - |Contents(s')| - QLead(s'.pcs[t]) == s.size - |Contents(s)| - QLead(s.pcs[t])
    ensures QInv(s')
  {
    hide LineOk, ThreadOk, QReplay, Contents, QLead, QLeads, Sum;
    forall u | 0 <= u < |s'.pcs| ensures ThreadOk(s', u, s'.pcs[u]) {
      if u != t {
        OthersOk(s, s', t, acts, u);
      }
    }
    LeadsMove(s, s', t);
  }

  // ------------------------------------------------------------- the moves

  // Contents and replay of a step without an effect.
  lemma SameReplay(trace: seq<Action>, acts: seq<Action>)
    requires forall a <- acts :: !a.Lin? || a.ev.FoundEmpty?
    requires |acts| <= 2
    ensures QReplay(trace + acts) == QReplay(trace)
  {
    if |acts| == 0 {
      assert trace + acts == trace;
    } else if |acts| == 1 {
      assert (trace + acts)[..|trace|] == trace;
    } else {
      var mid := trace + [acts[0]];
      assert (trace + acts)[..|trace| + 1] == mid && mid[..|trace|] == trace;
    }
  }

  // Nothing but the thread's place, the trace and _size_ changes, and its node
  // stays cleared if it was.
  predicate Silent(s: QState, s': QState, t: nat, acts: seq<Action>) {
    && t < |s.pcs| && |s'.pcs| == |s.pcs|
    && s' == s.(pcs := s.pcs[t := s'.pcs[t]], trace := s.trace + acts, size := s'.size)
    && (Nulled(s.pcs[t]) ==> Nulled(s'.pcs[t]) && s'.pcs[t].node == s.pcs[t].node)
    && (forall a <- acts :: a.t == t && (!a.Lin? || a.ev.FoundEmpty?)) && |acts| <= 2
    && s'.size - QLead(s'.pcs[t]) == s.size - QLead(s.pcs[t])
  }

  lemma SilentLine(s: QState, s': QState, t: nat, acts: seq<Action>)
    requires Silent(s, s', t, acts) && LineOk(s)
    ensures LineOk(s') && QFramed(s, s', t, acts) && Contents(s') == Contents(s)
  {
    hide Word;
    forall i | 0 <= i < |s.line| - 1 && s.next[s.line[i]] == 0
      ensures s.line[i] == s.line[|s.line| - 1] || Cleared(s', s.line[i])
    {
    }
  }

  lemma KeepQSilent(s: QState, s': QState, t: nat, acts: seq<Action>)
    requires QInv(s) && Silent(s, s', t, acts)
    requires Knows(s, s'.pcs[t]) && Holds(s, t, s'.pcs[t])
    requires Project(s'.trace, t) == Some(QStatusOf(s'.pcs[t], s.data))
    ensures QInv(s')
  {
    hide LineOk, Project, QReplay, Contents, QLeads, QStatusOf, Word, SeenTail, SeenHead, Follows;
    SilentLine(s, s', t, acts);
    SameReplay(s.trace, acts);
    SameKnown(s, s', s'.pcs[t]);
    QKeep(s, s', t, acts);
  }

  lemma SameKnown(s: QState, s': QState, pc: QPc)
    requires s' == s.(pcs := s'.pcs, trace := s'.trace, size := s'.size) && Knows(s, pc)
    ensures Knows(s', pc)
  {
    hide Word;
  }

  // A thread that goes on with the same status and nothing in the trace.
  lemma KeepQuiet(s: QState, s': QState, t: nat)
    requires QInv(s) && Silent(s, s', t, [])
    requires Knows(s, s'.pcs[t]) && Holds(s, t, s'.pcs[t])
    requires QStatusOf(s'.pcs[t], s.data) == QStatusOf(s.pcs[t], s.data)
    ensures QInv(s')
  {
    hide LineOk, Project, QReplay, Contents, QLeads, QStatusOf, Knows, Holds;
    assert s.trace + [] == s.trace;
    assert ThreadOk(s, t, s.pcs[t]);
    KeepQSilent(s, s', t, []);
  }

  // What a call, or a call that ends for want of a node, leaves in the trace.
  function CallAction(m: Move): Action {
    match m.c
    case CallPush(v) => Call(m.t, PushOp(v))
    case CallPop => Call(m.t, PopOp)
    case _ => Return(m.t, PushResult(false))
  }

  lemma KeepQCall(s: QState, m: Move)
    requires QInv(s) && QEnabled(s, m) && (m.c.CallPush? || m.c.CallPop? || m.c.NoMemory?)
    ensures QInv(QApply(s, m))
  {
    hide LineOk, Project, QReplay, Contents, QLeads, Knows, Holds, QStatusOf, QApply, Silent, Advance, CallAction;
    var a := CallAction(m);
    assert ThreadOk(s, m.t, s.pcs[m.t]);
    Extend(s.trace, a, m.t);
    CallAdvances(s, m, a);
    CallSilent(s, m, a);
    KeepQSilent(s, QApply(s, m), m.t, [a]);
  }

  lemma CallSilent(s: QState, m: Move, a: Action)
    requires QEnabled(s, m) && (m.c.CallPush? || m.c.CallPop? || m.c.NoMemory?) && a == CallAction(m)
    ensures Silent(s, QApply(s, m), m.t, [a]) && QApply(s, m).trace == s.trace + [a] && a.t == m.t
    ensures Knows(s, QApply(s, m).pcs[m.t]) && Holds(s, m.t, QApply(s, m).pcs[m.t])
  {
    hide EnqStep, DeqStep, Knows;
    NothingKnown(s, QApply(s, m).pcs[m.t]);
  }

  lemma CallAdvances(s: QState, m: Move, a: Action)
    requires QEnabled(s, m) && (m.c.CallPush? || m.c.CallPop? || m.c.NoMemory?)
    requires a == CallAction(m)
    ensures m.t < |QApply(s, m).pcs| && Advance(QStatusOf(s.pcs[m.t], s.data), a) == Some(QStatusOf(QApply(s, m).pcs[m.t], s.data))
  {
    hide EnqStep, DeqStep;
  }

  // The two loads.
  lemma KeepEnqLoad(s: QState, t: nat)
    requires QInv(s) && t < |s.pcs| && s.pcs[t].EnqLoad?
    ensures QInv(EnqStep(s, t))
  {
    hide InChain, Carries, Used, Word, Project, QReplay, Contents, QLeads;
    assert ThreadOk(s, t, s.pcs[t]);
    TailInLine(s);
    KeepQuiet(s, EnqStep(s, t), t);
  }

  lemma TailInLine(s: QState)
    requires LineOk(s)
    ensures s.line[s.tails] in s.place && s.place[s.line[s.tails]] == InLine
  {
    hide Carries, Used, Word;
  }

  lemma KeepDeqLoad(s: QState, t: nat)
    requires QInv(s) && t < |s.pcs| && s.pcs[t].DeqLoad?
    ensures QInv(DeqStep(s, t))
  {
    hide InChain, Carries, Used, Word, Project, QReplay, Contents, QLeads;
    assert ThreadOk(s, t, s.pcs[t]);
    KeepQuiet(s, DeqStep(s, t), t);
  }

  // What a link says while its node has not been passed.
  lemma LinkSays(s: QState, i: nat)
    requires LineOk(s) && s.heads <= i < |s.line|
    ensures s.line[i] in s.next
    ensures Read(s.next, s.line[i], 0) != 0 ==> Follows(s, i, Read(s.next, s.line[i], 0))
    ensures Read(s.next, s.line[i], 0) == 0 <==> i == |s.line| - 1
  {
    hide Word, Carries, Used;
    if i < |s.line| - 1 {
      assert s.next[s.line[i]] == s.line[i + 1] && s.line[i + 1] in s.next.Keys;
    }
  }

  lemma KeepEnqNext(s: QState, t: nat)
    requires QInv(s) && t < |s.pcs| && s.pcs[t].EnqNext?
    ensures QInv(EnqStep(s, t))
  {
    hide LineOk, Word, Project, QReplay, Contents, QLeads, Follows;
    assert ThreadOk(s, t, s.pcs[t]);
    if s.pcs[t].at == s.tails {
      EndsOf(s);
      SeenIs(s, s.pcs[t].seen, s.pcs[t].at);
      LinkSays(s, s.tails);
    }
    KeepQuiet(s, EnqStep(s, t), t);
  }

  lemma EndsOf(s: QState)
    requires LineOk(s)
    ensures |s.vals| == |s.line| && s.heads <= s.tails < |s.line|
  {
  }

  lemma SeenIs(s: QState, seen: nat, at: nat)
    requires at < |s.line| && Word(s.bits, seen, s.line[at], at)
    ensures Addr(seen, s.bits) == s.line[at]
  {
  }

  lemma KeepDeqNext(s: QState, t: nat)
    requires QInv(s) && t < |s.pcs| && s.pcs[t].DeqNext? && Read(s.next, Addr(s.pcs[t].seen, s.bits), 0) != 0
    ensures QInv(DeqStep(s, t))
  {
    hide LineOk, Word, Project, QReplay, Contents, QLeads, Follows;
    assert ThreadOk(s, t, s.pcs[t]);
    if s.pcs[t].at == s.heads {
      EndsOf(s);
      SeenIs(s, s.pcs[t].seen, s.pcs[t].at);
      LinkSays(s, s.heads);
    }
    KeepQuiet(s, DeqStep(s, t), t);
  }

  // The two ways a Dequeue gives up.
  lemma KeepGivingUp(s: QState, t: nat)
    requires QInv(s) && t < |s.pcs|
    requires (s.pcs[t].DeqSize? && s.size <= 0) ||
             (s.pcs[t].DeqNext? && Read(s.next, Addr(s.pcs[t].seen, s.bits), 0) == 0)
    ensures QInv(DeqStep(s, t))
  {
    hide LineOk, Project, QReplay, Contents, QLeads, Word, Knows;
    assert ThreadOk(s, t, s.pcs[t]);
    GiveUpStatus(s.trace, t);
    NothingKnown(s, QIdle);
    KeepQSilent(s, DeqStep(s, t), t, [Lin(t, FoundEmpty), Return(t, PopFalse)]);
  }

  // Places at which a thread knows nothing of the ends.
  predicate Unaware(pc: QPc) {
    pc.QIdle? || pc.EnqAlloc? || pc.EnqData? || pc.EnqNull? || pc.EnqLoad? || pc.EnqCount? || pc.DeqSize? || pc.DeqLoad? ||
    pc.DeqCount? || pc.DeqFree?
  }

  lemma NothingKnown(s: QState, pc: QPc)
    requires Unaware(pc)
    ensures Knows(s, pc)
  {
  }

  lemma GiveUpStatus(trace: seq<Action>, t: nat)
    requires Project(trace, t) == Some(Calling(PopOp))
    ensures Project(trace + [Lin(t, FoundEmpty), Return(t, PopFalse)], t) == Some(Quiet)
  {
    hide Project;
    var a, b := Lin(t, FoundEmpty), Return(t, PopFalse);
    Extend(trace, a, t);
    Extend(trace + [a], b, t);
    assert trace + [a, b] == (trace + [a]) + [b];
  }

  // A word within the window equals _tail_ exactly when _tail_ is at the place the
  // word was loaded from.
  lemma TailUnmoved(s: QState, seen: nat, at: nat)
    requires LineOk(s) && at <= s.tails && Word(s.bits, seen, s.line[at], at)
    requires s.tail == seen ==> s.tails - at < Period(s.bits)
    ensures s.tail == seen <==> at == s.tails
  {
    hide InChain, Carries, Used, Pow2, Addr, Count, And;
    SameQWord(s.bits, s.tail, seen, s.line[s.tails], s.tails, s.line[at], at);
  }

  lemma HeadUnmoved(s: QState, seen: nat, at: nat)
    requires LineOk(s) && at <= s.heads && Word(s.bits, seen, s.line[at], at)
    requires s.head == seen ==> s.heads - at < Period(s.bits)
    ensures s.head == seen <==> at == s.heads
  {
    hide InChain, Carries, Used, Pow2, Addr, Count, And;
    SameQWord(s.bits, s.head, seen, s.line[s.heads], s.heads, s.line[at], at);
  }

  lemma SameQWord(bits: nat, w: nat, x: nat, a: nat, k: nat, b: nat, j: nat)
    requires 1 <= bits <= WORD_BITS && Word(bits, w, a, k) && Word(bits, x, b, j)
    requires j <= k && (w == x ==> k - j < Period(bits)) && (j == k ==> a == b)
    ensures w == x <==> j == k
  {
    hide Pow2, Addr, Count, And, Period, Pack;
    WordsAgree(bits, w, x, a, k, b, j);
    if w == x {
      SameRemainder(j, k, Period(bits));
    }
  }

  // Two words are equal when their parts are.
  lemma WordsAgree(bits: nat, w: nat, x: nat, a: nat, k: nat, b: nat, j: nat)
    requires 1 <= bits <= WORD_BITS && Word(bits, w, a, k) && Word(bits, x, b, j)
    ensures w == x <==> a == b && k % Period(bits) == j % Period(bits)
  {
    hide Pow2, Addr, Count, And, Period, Pack;
    Repack(w, bits);
    Repack(x, bits);
  }

  lemma KeepTailCheck(s: QState, t: nat)
    requires QInv(s) && t < |s.pcs| && s.pcs[t].EnqCheck?
    ensures QInv(EnqStep(s, t))
  {
    hide LineOk, Word, Project, QReplay, Contents, QLeads, Follows, SeenTail;
    assert ThreadOk(s, t, s.pcs[t]);
    KeepQuiet(s, EnqStep(s, t), t);
  }

  // The comparison of the head that was seen with _tail_.
  lemma KeepDeqTail(s: QState, t: nat)
    requires QInv(s) && t < |s.pcs| && s.pcs[t].DeqTail? && QInWindow(s, t)
    ensures QInv(DeqStep(s, t))
  {
    hide LineOk, Word, Project, QReplay, Contents, QLeads, Follows, Period;
    var seen, at := s.pcs[t].seen, s.pcs[t].at;
    assert ThreadOk(s, t, s.pcs[t]);
    EndsOf(s);
    TailUnmoved(s, seen, at);
    KeepQuiet(s, DeqStep(s, t), t);
  }

  lemma KeepDeqData(s: QState, t: nat)
    requires QInv(s) && t < |s.pcs| && s.pcs[t].DeqData?
    ensures QInv(DeqStep(s, t))
  {
    hide LineOk, Word, Project, QReplay, Contents, QLeads, SeenHead;
    assert ThreadOk(s, t, s.pcs[t]);
    if s.pcs[t].at == s.heads {
      ValueAt(s, s.pcs[t].at + 1);
    }
    KeepQuiet(s, DeqStep(s, t), t);
  }

  lemma ValueAt(s: QState, i: nat)
    requires LineOk(s) && s.heads < i < |s.line|
    ensures i < |s.vals| && Read(s.data, s.line[i], 0) == s.vals[i]
  {
    hide Word, Used;
  }

  // A CAS that fails, a size check that passes.
  lemma KeepEnqRetry(s: QState, t: nat)
    requires QInv(s) && t < |s.pcs| && s.pcs[t].EnqLink? && !Links(s, t)
    ensures QInv(EnqStep(s, t))
  {
    hide LineOk, Word, Project, QReplay, Contents, QLeads, Knows;
    assert ThreadOk(s, t, s.pcs[t]);
    NothingKnown(s, EnqStep(s, t).pcs[t]);
    KeepQuiet(s, EnqStep(s, t), t);
  }

  lemma KeepDeqRetry(s: QState, t: nat)
    requires QInv(s) && t < |s.pcs|
    requires (s.pcs[t].DeqCas? && s.head != s.pcs[t].seen) || (s.pcs[t].DeqSize? && s.size > 0)
    ensures QInv(DeqStep(s, t))
  {
    hide LineOk, Word, Project, QReplay, Contents, QLeads, Knows;
    assert ThreadOk(s, t, s.pcs[t]);
    NothingKnown(s, DeqLoad);
    KeepQuiet(s, DeqStep(s, t), t);
  }

  // _size_ follows.
  lemma KeepEnqCount(s: QState, t: nat)
    requires QInv(s) && t < |s.pcs| && s.pcs[t].EnqCount?
    ensures QInv(EnqStep(s, t))
  {
    hide LineOk, Word, Project, QReplay, Contents, QLeads, Knows;
    var a := Return(t, PushResult(true));
    assert ThreadOk(s, t, s.pcs[t]);
    CountStatus(s, t);
    NothingKnown(s, QIdle);
    KeepQSilent(s, EnqStep(s, t), t, [a]);
  }

  lemma CountStatus(s: QState, t: nat)
    requires t < |s.pcs| && s.pcs[t].EnqCount? && Project(s.trace, t) == Some(QStatusOf(s.pcs[t], s.data))
    ensures Project(s.trace + [Return(t, PushResult(true))], t) == Some(Quiet)
  {
    hide Project;
    Extend(s.trace, Return(t, PushResult(true)), t);
  }

  lemma KeepDeqCount(s: QState, t: nat)
    requires QInv(s) && t < |s.pcs| && s.pcs[t].DeqCount?
    ensures QInv(DeqStep(s, t))
  {
    hide LineOk, Word, Project, QReplay, Contents, QLeads, Knows;
    assert ThreadOk(s, t, s.pcs[t]);
    NothingKnown(s, DeqStep(s, t).pcs[t]);
    KeepQuiet(s, DeqStep(s, t), t);
  }

  // ------------------------------------------------- a node outside the line

  // Thread t changes what there is to one node outside the line, and moves on.
  predicate Aside(s: QState, s': QState, t: nat, n: nat, acts: seq<Action>) {
    && t < |s.pcs| && |s'.pcs| == |s.pcs|
    && s' == s.(next := s'.next, data := s'.data, place := s'.place, pool := s'.pool,
                pcs := s.pcs[t := s'.pcs[t]], trace := s.trace + acts)
    && n in s.place && s.place[n] != InLine && n in s'.place && s'.place[n] != InLine
    && (s.place[n] == InPool || s.place[n] == Own(t))
    && !Nulled(s.pcs[t]) && QLead(s'.pcs[t]) == QLead(s.pcs[t])
    && (forall m <- s.place :: m != n && m in s.next && m in s.data ==>
          && m in s'.place && s'.place[m] == s.place[m] && m in s'.next && s'.next[m] == s.next[m]
          && m in s'.data && s'.data[m] == s.data[m])
    && n in s.next && n in s'.next && (s'.next[n] == s.next[n] || Cleared(s', n))
    && (forall a <- acts :: a.t == t && !a.Lin?) && |acts| <= 2
  }

  lemma AsideLinked(s: QState, s': QState, t: nat, n: nat, acts: seq<Action>)
    requires Aside(s, s', t, n, acts) && LineOk(s) && QShape(s')
    ensures Ends(s') && InChain(s') && Carries(s') && Contents(s') == Contents(s)
  {
    hide Word, Used;
    assert forall i :: s.heads <= i < |s.line| ==> s.line[i] != n;
  }

  lemma AsideUsed(s: QState, s': QState, t: nat, n: nat, acts: seq<Action>)
    requires Aside(s, s', t, n, acts) && LineOk(s) && QShape(s') && Ends(s') && InChain(s')
    ensures Used(s')
  {
    hide Word, Carries;
    forall i | 0 <= i < |s.line| - 1 && s'.next[s'.line[i]] == 0
      ensures s.line[i] == s.line[|s.line| - 1] || Cleared(s', s.line[i])
    {
    }
  }

  lemma AsideFramed(s: QState, s': QState, t: nat, n: nat, acts: seq<Action>)
    requires Aside(s, s', t, n, acts) && QShape(s)
    ensures QFramed(s, s', t, acts)
  {
  }

  lemma KeepAside(s: QState, s': QState, t: nat, n: nat, acts: seq<Action>)
    requires QInv(s) && Aside(s, s', t, n, acts) && QShape(s') && Unaware(s'.pcs[t])
    requires Holds(s', t, s'.pcs[t]) && Project(s'.trace, t) == Some(QStatusOf(s'.pcs[t], s'.data))
    ensures QInv(s')
  {
    hide QShape, Ends, InChain, Carries, Used, Project, QReplay, Contents, QLeads, QLead, Knows, Holds, QStatusOf, Unaware;
    AsideLinked(s, s', t, n, acts);
    AsideUsed(s, s', t, n, acts);
    AsideFramed(s, s', t, n, acts);
    NothingKnown(s', s'.pcs[t]);
    SameReplay(s.trace, acts);
    QKeep(s, s', t, acts);
  }

  lemma KeepEnqData(s: QState, t: nat)
    requires QInv(s) && t < |s.pcs| && s.pcs[t].EnqData?
    ensures QInv(EnqStep(s, t))
  {
    hide Ends, InChain, Carries, Used, Word, Project, QReplay, QLeads, Knows;
    assert ThreadOk(s, t, s.pcs[t]);
    assert s.trace + [] == s.trace;
    KeepAside(s, EnqStep(s, t), t, s.pcs[t].node, []);
  }

  lemma KeepEnqNull(s: QState, t: nat)
    requires QInv(s) && t < |s.pcs| && s.pcs[t].EnqNull?
    ensures QInv(EnqStep(s, t))
  {
    hide Ends, InChain, Carries, Used, Word, Project, QReplay, QLeads, Knows;
    assert ThreadOk(s, t, s.pcs[t]);
    assert s.trace + [] == s.trace;
    KeepAside(s, EnqStep(s, t), t, s.pcs[t].node, []);
  }

  lemma KeepQTake(s: QState, m: Move)
    requires QInv(s) && QEnabled(s, m) && m.c.Take?
    ensures QInv(QApply(s, m))
  {
    hide Ends, InChain, Carries, Used, Word, Project, QReplay, QLeads, Knows;
    assert ThreadOk(s, m.t, s.pcs[m.t]);
    assert s.trace + [] == s.trace;
    KeepAside(s, QApply(s, m), m.t, m.c.n, []);
  }

  lemma KeepQFree(s: QState, t: nat)
    requires QInv(s) && t < |s.pcs| && s.pcs[t].DeqFree?
    ensures QInv(DeqStep(s, t))
  {
    hide Ends, InChain, Carries, Used, Word, Project, QReplay, QLeads, Knows, QStatusOf, QShape;
    var a := Return(t, PopTrue(s.pcs[t].v));
    assert ThreadOk(s, t, s.pcs[t]);
    FreeShape(s, t);
    FreeStatus(s, t);
    KeepAside(s, DeqStep(s, t), t, s.pcs[t].node, [a]);
  }

  lemma FreeShape(s: QState, t: nat)
    requires QShape(s) && t < |s.pcs| && s.pcs[t].DeqFree? && Holds(s, t, s.pcs[t])
    ensures QShape(DeqStep(s, t)) && s.pcs[t].node in s.next && s.pcs[t].node in s.data
    ensures s.next.Keys == s.data.Keys == s.place.Keys
  {
  }

  lemma FreeStatus(s: QState, t: nat)
    requires t < |s.pcs| && s.pcs[t].DeqFree? && Project(s.trace, t) == Some(QStatusOf(s.pcs[t], s.data))
    ensures Project(s.trace + [Return(t, PopTrue(s.pcs[t].v))], t) == Some(QStatusOf(QIdle, s.data))
  {
    hide Project;
    Extend(s.trace, Return(t, PopTrue(s.pcs[t].v)), t);
  }

  // ------------------------------------------------------- _tail_ moves

  // The word that a successful CAS on _tail_ or _head_ stores.
  lemma NextWord(bits: nat, w: nat, a: nat, k: nat, b: nat)
    requires 1 <= bits <= WORD_BITS && Word(bits, w, a, k) && b < Pow2(bits)
    ensures Word(bits, Pack(b, Count(w, bits) + 1, bits), b, k + 1)
  {
    hide Pow2, And, Or, Pack, Addr, Count, Period;
    Unpack(b, Count(w, bits) + 1, bits);
    NextTag(Count(w, bits), k, Period(bits));
  }

  // Thread t tries to move _tail_ from the place where it saw it.
  predicate Swings(s: QState, s': QState, t: nat, seen: nat, node: nat, at: nat) {
    && t < |s.pcs| && |s'.pcs| == |s.pcs|
    && s' == Swung(s, seen, node).(pcs := s.pcs[t := s'.pcs[t]], trace := s.trace + [])
    && (Nulled(s.pcs[t]) ==> Nulled(s'.pcs[t]) && s'.pcs[t].node == s.pcs[t].node)
    && QLead(s'.pcs[t]) == QLead(s.pcs[t])
    && at <= s.tails && at < |s.line| && Word(s.bits, seen, s.line[at], at)
    && (s.tail == seen ==> s.tails - at < Period(s.bits))
    && (at == s.tails ==> Follows(s, at, node))
  }

  lemma SwungOnlyNow(s: QState, s': QState, t: nat, seen: nat, node: nat, at: nat)
    requires LineOk(s) && Swings(s, s', t, seen, node, at)
    ensures s.tail == seen <==> at == s.tails
    ensures s'.tails == (if at == s.tails then s.tails + 1 else s.tails) && s'.tails < |s.line|
    ensures at < s'.tails
  {
    hide InChain, Carries, Used, Word, Pack, Count, Period;
    TailUnmoved(s, seen, at);
  }

  lemma SwungLine(s: QState, s': QState, t: nat, seen: nat, node: nat, at: nat)
    requires LineOk(s) && Swings(s, s', t, seen, node, at)
    ensures LineOk(s') && Contents(s') == Contents(s)
  {
    hide Word, Pack, Addr, Count, Period, Pow2, Used;
    SwungEnds(s, s', t, seen, node, at);
    SwungUsed(s, s', t);
  }

  lemma SwungEnds(s: QState, s': QState, t: nat, seen: nat, node: nat, at: nat)
    requires LineOk(s) && Swings(s, s', t, seen, node, at)
    ensures QShape(s') && Ends(s')
  {
    hide Word, Pack, Addr, Count, Period, Pow2, Used, Carries;
    SwungOnlyNow(s, s', t, seen, node, at);
    if at == s.tails {
      assert node in s.next.Keys;
      NextWord(s.bits, seen, s.line[at], at, node);
    }
  }

  lemma SwungUsed(s: QState, s': QState, t: nat)
    requires LineOk(s) && t < |s.pcs| && |s'.pcs| == |s.pcs| && s'.pcs == s.pcs[t := s'.pcs[t]]
    requires s'.line == s.line && s'.next == s.next && s'.place == s.place && QShape(s') && Ends(s') && InChain(s')
    requires Nulled(s.pcs[t]) ==> Nulled(s'.pcs[t]) && s'.pcs[t].node == s.pcs[t].node
    ensures Used(s')
  {
    hide Word, Carries;
  }

  lemma SwungFramed(s: QState, s': QState, t: nat, seen: nat, node: nat, at: nat)
    requires LineOk(s) && Swings(s, s', t, seen, node, at)
    ensures QFramed(s, s', t, [])
  {
    hide LineOk, Word, Pack, Addr, Count, Period;
    SwungOnlyNow(s, s', t, seen, node, at);
  }

  lemma KeepSwing(s: QState, s': QState, t: nat, seen: nat, node: nat, at: nat)
    requires QInv(s) && Swings(s, s', t, seen, node, at)
    requires Knows(s', s'.pcs[t]) && Holds(s', t, s'.pcs[t])
    requires QStatusOf(s'.pcs[t], s.data) == QStatusOf(s.pcs[t], s.data)
    ensures QInv(s')
  {
    hide LineOk, Project, QReplay, Contents, QLeads, QLead, QStatusOf, Knows, Holds, Word, Follows, Pack, Addr, Count,
      Period;
    assert ThreadOk(s, t, s.pcs[t]);
    assert s.trace + [] == s.trace;
    SwungLine(s, s', t, seen, node, at);
    SwungFramed(s, s', t, seen, node, at);
    QKeep(s, s', t, []);
  }

  lemma KeepEnqSwing(s: QState, t: nat)
    requires QInv(s) && t < |s.pcs| && (s.pcs[t].EnqSwing? || s.pcs[t].EnqHelp?) && QInWindow(s, t)
    ensures QInv(EnqStep(s, t))
  {
    hide LineOk, Project, QReplay, Contents, QLeads, Word, Follows, Pack, Addr, Count, Period;
    var s' := EnqStep(s, t);
    var node := if s.pcs[t].EnqSwing? then s.pcs[t].node else s.pcs[t].next;
    assert ThreadOk(s, t, s.pcs[t]);
    KeepSwing(s, s', t, s.pcs[t].seen, node, s.pcs[t].at);
  }

  lemma KeepDeqHelp(s: QState, t: nat)
    requires QInv(s) && t < |s.pcs| && s.pcs[t].DeqHelp? && QInWindow(s, t)
    ensures QInv(DeqStep(s, t))
  {
    hide LineOk, Project, QReplay, Contents, QLeads, Word, Follows, Pack, Addr, Count, Period;
    var s' := DeqStep(s, t);
    assert ThreadOk(s, t, s.pcs[t]);
    EndsOf(s);
    SwungOnlyNow(s, s', t, s.pcs[t].seen, s.pcs[t].next, s.pcs[t].at);
    FollowsStill(s, s');
    KeepSwing(s, s', t, s.pcs[t].seen, s.pcs[t].next, s.pcs[t].at);
  }

  lemma FollowsStill(s: QState, s': QState)
    requires s.line <= s'.line
    ensures forall at, n :: Follows(s, at, n) ==> Follows(s', at, n)
  {
  }

  // ------------------------------------------------------- a node is linked

  lemma LinkedEnds(s: QState, t: nat)
    requires LineOk(s) && Links(s, t) && LinksLast(s, t) && Holds(s, t, s.pcs[t])
    ensures QShape(EnqStep(s, t)) && Ends(EnqStep(s, t))
  {
    hide Word, Carries, Used, Addr, Pow2;
  }

  // What becomes of the places in the line.
  lemma LinkedPlaces(s: QState, t: nat)
    requires LineOk(s) && Links(s, t) && LinksLast(s, t) && Holds(s, t, s.pcs[t])
    ensures var s', n, last := EnqStep(s, t), s.pcs[t].node, |s.line| - 1;
            && (forall i :: 0 <= i <= last ==> s'.line[i] == s.line[i]) && s'.line[last + 1] == n
            && (forall i :: s.heads <= i <= last ==> s.line[i] != n)
            && (forall i :: s.heads <= i < last ==> s.line[i] != s.line[last])
            && s'.next == s.next[s.line[last] := n] && s'.place == s.place[n := InLine]
            && s'.data == s.data && s'.vals == s.vals + [Read(s.data, n, 0)] && s'.heads == s.heads
            && n in s.next && s.next[n] == 0 && |s'.line| == last + 2 && s.heads <= last
            && |s.vals| == |s.line| && s.line[last] in s.next && s.next.Keys == s.place.Keys && n in s.data
  {
    hide Word, Used, Carries, Addr, Pow2;
  }

  lemma LinkedLinked(s: QState, t: nat)
    requires LineOk(s) && Links(s, t) && LinksLast(s, t) && Holds(s, t, s.pcs[t])
    requires QShape(EnqStep(s, t)) && Ends(EnqStep(s, t))
    ensures InChain(EnqStep(s, t))
  {
    hide QShape, Ends, Used, Carries, EnqStep, Links, LinksLast, Holds;
    LinkedPlaces(s, t);
  }

  lemma LinkedCarries(s: QState, t: nat)
    requires LineOk(s) && Links(s, t) && LinksLast(s, t) && Holds(s, t, s.pcs[t])
    requires QShape(EnqStep(s, t)) && Ends(EnqStep(s, t)) && InChain(EnqStep(s, t))
    ensures Carries(EnqStep(s, t))
    ensures Contents(EnqStep(s, t)) == Contents(s) + [Read(s.data, s.pcs[t].node, 0)]
  {
    hide QShape, Ends, InChain, Used, EnqStep, Links, LinksLast, Holds;
    LinkedPlaces(s, t);
  }

  lemma NodesPositive(s: QState, n: nat)
    requires QShape(s) && n in s.next
    ensures n != 0
  {
  }

  lemma LineInMap(s: QState)
    requires LineOk(s)
    ensures forall i :: 0 <= i < |s.line| ==> s.line[i] in s.next
  {
  }

  lemma LinkedUsed(s: QState, t: nat)
    requires LineOk(s) && Links(s, t) && LinksLast(s, t) && Holds(s, t, s.pcs[t])
    requires var s' := EnqStep(s, t); QShape(s') && Ends(s') && InChain(s')
    ensures Used(EnqStep(s, t))
  {
    hide QShape, Ends, InChain, Carries, Addr;
    var s' := EnqStep(s, t);
    var n, last := s.pcs[t].node, |s.line| - 1;
    LinkedPlaces(s, t);
    assert n != 0 by { NodesPositive(s, n); }
    assert forall i :: 0 <= i <= last ==> s.line[i] in s.next by { LineInMap(s); }
    forall i | 0 <= i < |s'.line| - 1 && s'.next[s'.line[i]] == 0
      ensures s'.line[i] == s'.line[|s'.line| - 1] || Cleared(s', s'.line[i])
    {
      assert s'.line[i] == s.line[i] && s.line[i] != s.line[last];
      assert s.next[s.line[i]] == 0;
    }
  }

  lemma LinkedFramed(s: QState, t: nat)
    requires LineOk(s) && Links(s, t) && LinksLast(s, t) && Holds(s, t, s.pcs[t])
    ensures QFramed(s, EnqStep(s, t), t, [Lin(t, Pushed(Read(s.data, s.pcs[t].node, 0)))])
  {
    hide Word, Carries, Used, Addr, Pow2;
  }

  // A thread whose word is still _tail_ has just put its node behind it.
  lemma LinkedKnows(s: QState, t: nat)
    requires LineOk(s) && Links(s, t) && LinksLast(s, t) && Knows(s, s.pcs[t])
    ensures Knows(EnqStep(s, t), EnqStep(s, t).pcs[t])
  {
    hide Carries, Used, Addr, Count, Pow2, Period;
  }

  lemma QExtend(trace: seq<Action>, a: Action)
    ensures QReplay(trace + [a]) ==
            if QReplay(trace).None? || !a.Lin? then QReplay(trace) else QEffect(QReplay(trace).value, a.ev)
  {
    DropLast(trace, a);
  }

  lemma KeepLink(s: QState, t: nat)
    requires QInv(s) && Links(s, t) && LinksLast(s, t)
    ensures QInv(EnqStep(s, t))
  {
    hide QShape, Ends, InChain, Carries, Used, Project, QReplay, Contents, QLeads, Knows, Addr;
    var a := Lin(t, Pushed(Read(s.data, s.pcs[t].node, 0)));
    assert ThreadOk(s, t, s.pcs[t]);
    LinkedEnds(s, t);
    LinkedLinked(s, t);
    LinkedCarries(s, t);
    LinkedUsed(s, t);
    LinkedFramed(s, t);
    LinkedKnows(s, t);
    Extend(s.trace, a, t);
    QExtend(s.trace, a);
    QKeep(s, EnqStep(s, t), t, [a]);
  }

  // ------------------------------------------------------- _head_ moves

  // Thread t is about to move _head_, and the CAS will succeed.
  predicate Takes(s: QState, t: nat) {
    t < |s.pcs| && s.pcs[t].DeqCas? && s.head == s.pcs[t].seen && QInWindow(s, t)
  }

  lemma TakesNow(s: QState, t: nat)
    requires LineOk(s) && Takes(s, t) && Knows(s, s.pcs[t])
    ensures s.heads < s.tails && s.pcs[t].next == s.line[s.heads + 1] && Addr(s.head, s.bits) == s.line[s.heads]
    ensures s.heads + 1 < |s.vals| && s.pcs[t].v == s.vals[s.heads + 1]
  {
    hide InChain, Carries, Used, Addr, Count, Pow2, Period;
    HeadUnmoved(s, s.pcs[t].seen, s.pcs[t].at);
  }

  lemma TakenEnds(s: QState, t: nat)
    requires LineOk(s) && Takes(s, t) && Knows(s, s.pcs[t])
    ensures QShape(DeqStep(s, t)) && Ends(DeqStep(s, t))
  {
    hide Carries, Used, Knows, Word, Addr, Count, Pack, Pow2, Period;
    TakesNow(s, t);
    var next := s.line[s.heads + 1];
    assert next in s.next.Keys;
    NextWord(s.bits, s.head, s.line[s.heads], s.heads, next);
  }

  lemma TakenPlaces(s: QState, t: nat)
    requires LineOk(s) && Takes(s, t) && Knows(s, s.pcs[t])
    ensures var s', n := DeqStep(s, t), s.line[s.heads];
            && s'.line == s.line && s'.vals == s.vals && s'.next == s.next && s'.data == s.data
            && s'.heads == s.heads + 1 && s'.heads <= s.tails && s'.place == s.place[n := Own(t)]
            && s'.pcs == s.pcs[t := DeqCount(n, s.vals[s.heads + 1])] && s.pcs[t].v == s.vals[s.heads + 1]
            && (forall i :: s.heads < i < |s.line| ==> s.line[i] != n) && s.next[n] != 0
            && s.place[n] == InLine
  {
    hide Used, Carries, Knows, Word, Addr, Count, Pack, Pow2, Period;
    TakesNow(s, t);
    LinkSays(s, s.heads);
  }

  lemma TakenLinked(s: QState, t: nat)
    requires LineOk(s) && Takes(s, t) && Knows(s, s.pcs[t]) && QShape(DeqStep(s, t)) && Ends(DeqStep(s, t))
    ensures InChain(DeqStep(s, t)) && Carries(DeqStep(s, t))
    ensures Contents(s) == [s.pcs[t].v] + Contents(DeqStep(s, t))
  {
    hide Knows, QShape, Word, Used, DeqStep, Takes;
    TakenPlaces(s, t);
  }

  lemma TakenUsed(s: QState, t: nat)
    requires LineOk(s) && Takes(s, t) && Knows(s, s.pcs[t])
    requires var s' := DeqStep(s, t); QShape(s') && Ends(s') && InChain(s')
    ensures Used(DeqStep(s, t))
  {
    hide Knows, QShape, Ends, InChain, Carries, DeqStep;
    TakenPlaces(s, t);
    LineInMap(s);
    forall i | 0 <= i < |s.line| - 1 && s.next[s.line[i]] == 0
      ensures s.line[i] == s.line[|s.line| - 1] || Cleared(DeqStep(s, t), s.line[i])
    {
    }
  }

  lemma TakenFramed(s: QState, t: nat)
    requires LineOk(s) && Takes(s, t) && Knows(s, s.pcs[t])
    ensures QFramed(s, DeqStep(s, t), t, [Lin(t, Popped(s.pcs[t].v))])
    ensures Holds(DeqStep(s, t), t, DeqStep(s, t).pcs[t])
  {
    hide Carries, Used, Knows, Word, Addr, Count, Pack, Pow2, Period;
    TakesNow(s, t);
  }

  lemma KeepDequeue(s: QState, t: nat)
    requires QInv(s) && Takes(s, t)
    ensures QInv(DeqStep(s, t))
  {
    hide QShape, Ends, InChain, Carries, Used, Project, QReplay, Contents, QLeads, Knows, Holds, Addr, Count, Pack, Period;
    var a := Lin(t, Popped(s.pcs[t].v));
    assert ThreadOk(s, t, s.pcs[t]);
    TakenEnds(s, t);
    TakenLinked(s, t);
    TakenUsed(s, t);
    TakenFramed(s, t);
    NothingKnown(DeqStep(s, t), DeqStep(s, t).pcs[t]);
    Extend(s.trace, a, t);
    QExtend(s.trace, a);
    assert Contents(s)[1..] == Contents(DeqStep(s, t));
    QKeep(s, DeqStep(s, t), t, [a]);
  }

  // ------------------------------------------------------------ every move

  lemma KeepEnqMove(s: QState, t: nat)
    requires QInv(s) && t < |s.pcs| && Enqueuing(s.pcs[t]) && !s.pcs[t].EnqAlloc? && QInWindow(s, t) && LinksLast(s, t)
    ensures QInv(EnqStep(s, t))
  {
    hide QInv, EnqStep, LinksLast, QInWindow, Addr;
    match s.pcs[t] {
      case EnqData(_, _) => KeepEnqData(s, t);
      case EnqNull(_) => KeepEnqNull(s, t);
      case EnqLoad(_) => KeepEnqLoad(s, t);
      case EnqNext(_, _, _) => KeepEnqNext(s, t);
      case EnqLink(_, _, _) => if Links(s, t) { KeepLink(s, t); } else { KeepEnqRetry(s, t); }
      case EnqCheck(_, _, _, _) => KeepTailCheck(s, t);
      case EnqCount(_) => KeepEnqCount(s, t);
      case _ => KeepEnqSwing(s, t);
    }
  }

  lemma KeepDeqMove(s: QState, t: nat)
    requires QInv(s) && t < |s.pcs| && !Enqueuing(s.pcs[t]) && !s.pcs[t].QIdle? && QInWindow(s, t)
    ensures QInv(DeqStep(s, t))
  {
    hide QInv, QInWindow, Addr, Pack, Count;
    match s.pcs[t] {
      case DeqSize => if s.size <= 0 { KeepGivingUp(s, t); } else { KeepDeqRetry(s, t); }
      case DeqLoad => KeepDeqLoad(s, t);
      case DeqNext(seen, _) =>
        if Read(s.next, Addr(seen, s.bits), 0) == 0 { KeepGivingUp(s, t); } else { KeepDeqNext(s, t); }
      case DeqTail(_, _, _) => KeepDeqTail(s, t);
      case DeqHelp(_, _, _) => KeepDeqHelp(s, t);
      case DeqData(_, _, _) => KeepDeqData(s, t);
      case DeqCas(seen, _, _, _) => if s.head == seen { KeepDequeue(s, t); } else { KeepDeqRetry(s, t); }
      case DeqCount(_, _) => KeepDeqCount(s, t);
      case DeqFree(_, _) => KeepQFree(s, t);
    }
  }

  // A move that a clean run may make.
  predicate CleanMove(s: QState, m: Move) {
    QEnabled(s, m) && QInWindow(s, m.t) && (m.c.Go? ==> LinksLast(s, m.t))
  }

  /** Every move inside the window that links, if at all, to the last node keeps
      the invariant. */
  lemma KeepQMove(s: QState, m: Move)
    requires QInv(s) && CleanMove(s, m)
    ensures QInv(QApply(s, m)) && QApply(s, m).bits == s.bits && |QApply(s, m).pcs| == |s.pcs|
  {
    hide QInv, EnqStep, DeqStep, LinksLast, QInWindow;
    SameFrame(s, m);
    match m.c {
      case Take(_) => KeepQTake(s, m);
      case Go => if Enqueuing(s.pcs[m.t]) { KeepEnqMove(s, m.t); } else { KeepDeqMove(s, m.t); }
      case _ => KeepQCall(s, m);
    }
  }

  lemma SameFrame(s: QState, m: Move)
    requires QEnabled(s, m)
    ensures QApply(s, m).bits == s.bits && |QApply(s, m).pcs| == |s.pcs|
  {
    hide EnqStep, DeqStep;
    EnqFrame(s, m.t);
    DeqFrame(s, m.t);
  }

  lemma EnqFrame(s: QState, t: nat)
    requires t < |s.pcs|
    ensures EnqStep(s, t).bits == s.bits && |EnqStep(s, t).pcs| == |s.pcs|
  {
    hide Addr, Pack, Count, Read;
    match s.pcs[t] {
      case EnqLink(_, _, _) => if Links(s, t) {} else {}
      case EnqHelp(_, seen, _, _) => if s.tail == seen {} else {}
      case EnqSwing(_, seen, _, _) => if s.tail == seen {} else {}
      case EnqNext(_, _, _) =>
      case EnqLoad(_) =>
      case EnqCheck(_, _, _, _) =>
      case _ =>
    }
  }

  lemma DeqFrame(s: QState, t: nat)
    requires t < |s.pcs|
    ensures DeqStep(s, t).bits == s.bits && |DeqStep(s, t).pcs| == |s.pcs|
  {
    hide Addr, Pack, Count, Read;
    match s.pcs[t] {
      case DeqSize => if s.size <= 0 {} else {}
      case DeqNext(_, _) =>
      case DeqTail(_, _, _) =>
      case DeqHelp(seen, _, _) => if s.tail == seen {} else {}
      case DeqCas(_, _, _, _) =>
      case DeqFree(_, _) =>
      case _ =>
    }
  }

  lemma InitialQInv(s: QState, n: nat)
    requires QInitial(s, n)
    ensures QInv(s)
  {
    hide Pow2, And;
    InitialWord(s.bits, s.line[0]);
    assert Contents(s) == [];
    InitialLeads(n);
    assert QLeads(s.pcs) == seq(n, i => 0);
  }

  lemma InitialWord(bits: nat, d: nat)
    requires 1 <= bits <= WORD_BITS && d < Pow2(bits)
    ensures Word(bits, d, d, 0)
  {
    hide Pow2, And, Or, Pack, Addr, Count, Period;
    Unpack(d, 0, bits);
    PackIs(d, 0, bits);
  }

  lemma {:induction false} InitialLeads(n: nat)
    ensures Sum(seq(n, i => 0)) == 0
  {
    if n > 0 {
      InitialLeads(n - 1);
      assert seq(n, i => 0)[..n - 1] == seq(n - 1, i => 0);
    }
  }

  lemma {:induction false} KeepQRun(s: QState, run: seq<Move>)
    requires QInv(s) && IsCleanRun(s, run)
    ensures IsQRun(s, run) && QInv(QFinal(s, run)) && |QFinal(s, run).pcs| == |s.pcs|
    decreases |run|
  {
    hide QInv, QApply, QEnabled, QInWindow, LinksLast;
    if run != [] {
      KeepQMove(s, run[0]);
      KeepQRun(QApply(s, run[0]), run[1..]);
    }
  }
}
