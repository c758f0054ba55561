/** What the queue promises, and the two places where it does not. */
module QueueTheorems {
  import opened Wrappers
  import opened Bits
  import opened Sums
  import opened StackMachine
  import opened StackTrace
  import opened StackInvariant
  import opened QueueMachine
  import opened QueueInvariant

  ghost predicate QReachable(s: QState, n: nat) {
    exists s0: QState, run: seq<Move> ::
      QInitial(s0, n) && IsCleanRun(s0, run) && IsQRun(s0, run) && QFinal(s0, run) == s
  }

  lemma QReachableInv(s: QState, n: nat)
    requires QReachable(s, n)
    ensures QInv(s) && |s.pcs| == n
  {
    hide QInv, IsCleanRun, IsQRun, QFinal;
    var s0: QState, run: seq<Move> :|
      QInitial(s0, n) && IsCleanRun(s0, run) && IsQRun(s0, run) && QFinal(s0, run) == s;
    InitialQInv(s0, n);
    KeepQRun(s0, run);
  }

  // The nodes from _head_ on: the dummy, and one for each value inside.
  function Live(s: QState): seq<nat> {
    if s.heads <= |s.line| then s.line[s.heads..] else []
  }

  lemma {:induction false} LineIsChain(s: QState, i: nat)
    requires LineOk(s) && s.heads <= i < |s.line|
    ensures IsChain(s.next, s.line[i], s.line[i..])
    decreases |s.line| - i
  {
    hide Ends, Carries, Used;
    LinkSays(s, i);
    assert s.line[i] in s.next.Keys;
    if i < |s.line| - 1 {
      LineIsChain(s, i + 1);
    }
  }

  /** First in, first out: every operation takes effect once, between call and
      return, and returns what its effect says; the effects in order are a
      sequential queue; its contents are the values in the nodes behind the dummy,
      and the links from _head_ to null are those nodes. */
  lemma FirstInFirstOut(s: QState, n: nat)
    requires QReachable(s, n)
    ensures forall t :: 0 <= t < n ==> Project(s.trace, t).Some?
    ensures QReplay(s.trace) == Some(Contents(s))
    ensures IsChain(s.next, Addr(s.head, s.bits), Live(s)) && Distinct(Live(s))
    ensures |Live(s)| == |Contents(s)| + 1
    ensures forall i :: 0 <= i < |Contents(s)| ==> Read(s.data, Live(s)[i + 1], 0) == Contents(s)[i]
  {
    hide LineOk, ThreadOk, Project, QReplay, Contents, Live, IsChain, Addr, QLeads, Sum;
    QReachableInv(s, n);
    forall t | 0 <= t < n ensures Project(s.trace, t).Some? {
      InProtocol(s, t);
    }
    ChainFromHead(s);
    ChainCarries(s);
  }

  lemma InProtocol(s: QState, t: nat)
    requires t < |s.pcs| && ThreadOk(s, t, s.pcs[t])
    ensures Project(s.trace, t).Some?
  {
    hide Project, Knows, Holds, QStatusOf;
  }

  lemma ChainFromHead(s: QState)
    requires LineOk(s)
    ensures IsChain(s.next, Addr(s.head, s.bits), Live(s)) && Distinct(Live(s))
  {
    hide Carries, Used, IsChain, Addr, Count;
    LineIsChain(s, s.heads);
  }

  lemma ChainCarries(s: QState)
    requires LineOk(s)
    ensures |Live(s)| == |Contents(s)| + 1
    ensures forall i :: 0 <= i < |Contents(s)| ==> Read(s.data, Live(s)[i + 1], 0) == Contents(s)[i]
  {
    hide Used, Word;
    forall i | 0 <= i < |Contents(s)| ensures Read(s.data, Live(s)[i + 1], 0) == Contents(s)[i] {
      assert Live(s)[i + 1] == s.line[s.heads + 1 + i] && Contents(s)[i] == s.vals[s.heads + 1 + i];
    }
  }

  // A node that thread t has for itself.
  predicate Has(s: QState, t: nat, a: nat) {
    t < |s.pcs| && Owns(s.pcs[t]) && s.pcs[t].node == a
  }

  /** No node is in two places, and none is freed twice. */
  lemma NodesApart(s: QState, n: nat, a: nat)
    requires QReachable(s, n)
    ensures a in s.pool ==> a !in Live(s) && forall t: nat :: !Has(s, t, a)
    ensures a in Live(s) ==> forall t: nat :: !Has(s, t, a)
    ensures forall t: nat, u: nat :: Has(s, t, a) && Has(s, u, a) ==> t == u
  {
    hide LineOk, ThreadOk, QReplay, Contents, QLeads, Sum, Live;
    QReachableInv(s, n);
    forall t: nat | Has(s, t, a) ensures a in s.place && s.place[a] == Own(t) {
      HasPlace(s, t);
    }
    PlacesSay(s, a);
  }

  lemma HasPlace(s: QState, t: nat)
    requires t < |s.pcs| && ThreadOk(s, t, s.pcs[t]) && Owns(s.pcs[t])
    ensures s.pcs[t].node in s.place && s.place[s.pcs[t].node] == Own(t)
  {
    hide Project, QStatusOf, Knows;
  }

  lemma PlacesSay(s: QState, a: nat)
    requires LineOk(s)
    ensures a in s.pool ==> a in s.place && s.place[a] == InPool
    ensures a in Live(s) ==> a in s.place && s.place[a] == InLine
  {
    hide Carries, Used, Word;
    if a in Live(s) {
      var i :| 0 <= i < |Live(s)| && Live(s)[i] == a;
      assert s.line[s.heads + i] == a;
    }
  }

  /** The CAS on a link carries no tag. It succeeds if and only if the node is the
      last one or is, by now, the private node of another thread that has set its
      link to null; in that case the new node goes behind one that is not in the
      queue. */
  lemma LateLinkExact(s: QState, n: nat, t: nat)
    requires QReachable(s, n) && t < |s.pcs| && s.pcs[t].EnqLink?
    ensures var a := Addr(s.pcs[t].seen, s.bits);
            s.line != [] && (Links(s, t) <==>
            a == s.line[|s.line| - 1] || exists u: nat :: u != t && Has(s, u, a) && Nulled(s.pcs[u]))
    ensures Links(s, t) && !LinksLast(s, t) ==> Addr(s.pcs[t].seen, s.bits) !in Live(s)
  {
    hide LineOk, ThreadOk, QReplay, Contents, QLeads, Sum, Addr, Owns, Live;
    QReachableInv(s, n);
    var a := Addr(s.pcs[t].seen, s.bits);
    SeenPlace(s, t);
    LinkSays(s, |s.line| - 1) by { EndsOf(s); }
    forall u: nat | u != t && Has(s, u, a) && Nulled(s.pcs[u]) ensures Links(s, t) {
      NulledIsNull(s, u);
    }
    if Links(s, t) && a != s.line[|s.line| - 1] {
      NullIsNulled(s, a, s.pcs[t].at);
      PlacesSay(s, a);
      assert s.place[a].t != t;
    }
  }

  lemma SeenPlace(s: QState, t: nat)
    requires t < |s.pcs| && ThreadOk(s, t, s.pcs[t]) && s.pcs[t].EnqLink?
    ensures s.pcs[t].at < |s.line| && Addr(s.pcs[t].seen, s.bits) == s.line[s.pcs[t].at] != s.pcs[t].node
  {
    hide Project, QStatusOf, Holds, Addr, Count;
  }

  lemma NulledIsNull(s: QState, u: nat)
    requires u < |s.pcs| && ThreadOk(s, u, s.pcs[u]) && Nulled(s.pcs[u])
    ensures Read(s.next, s.pcs[u].node, 0) == 0
  {
    hide Project, QStatusOf, Knows;
  }

  lemma NullIsNulled(s: QState, a: nat, at: nat)
    requires LineOk(s) && at < |s.line| && a == s.line[at] && a != s.line[|s.line| - 1] && Read(s.next, a, 0) == 0
    ensures Cleared(s, a) && Has(s, s.place[a].t, a)
  {
    hide Carries, Word;
  }

  // ------------------------------------------------------------- _size_

  // Threads that have linked (-1) or unlinked (1) a node and not yet counted it.
  function Uncounted(pcs: seq<QPc>, lead: int): set<nat> {
    set t | 0 <= t < |pcs| && QLead(pcs[t]) == lead :: t
  }

  lemma {:induction false} QLeadsAreCounts(pcs: seq<QPc>)
    ensures Sum(QLeads(pcs)) == |Uncounted(pcs, 1)| - |Uncounted(pcs, -1)|
  {
    hide Uncounted;
    if pcs != [] {
      var n := |pcs| - 1;
      QLeadsAreCounts(pcs[..n]);
      assert QLeads(pcs)[..n] == QLeads(pcs[..n]);
      UncountedLast(pcs, 1);
      UncountedLast(pcs, -1);
    } else {
      UncountedNone();
    }
  }

  lemma UncountedNone()
    ensures Uncounted([], 1) == {} && Uncounted([], -1) == {}
  {
  }

  lemma UncountedLast(pcs: seq<QPc>, lead: int)
    requires pcs != []
    ensures var n := |pcs| - 1;
            |Uncounted(pcs, lead)| == |Uncounted(pcs[..n], lead)| + if QLead(pcs[n]) == lead then 1 else 0
  {
    hide QLead;
    var n := |pcs| - 1;
    assert Uncounted(pcs, lead) == Uncounted(pcs[..n], lead) + (if QLead(pcs[n]) == lead then {n} else {});
  }

  /** _size_ is the number of values inside less the Enqueues and plus the Dequeues
      still to be counted. So a Dequeue that is turned away by _size_ is wrong, with
      values inside, exactly when there are no more of these than Enqueues still to
      be counted over Dequeues still to be counted. */
  lemma TurnedAwayExact(s: QState, n: nat)
    requires QReachable(s, n)
    ensures s.size == |Contents(s)| - |Uncounted(s.pcs, -1)| + |Uncounted(s.pcs, 1)|
    ensures s.size <= 0 && Contents(s) != [] <==>
            0 < |Contents(s)| <= |Uncounted(s.pcs, -1)| - |Uncounted(s.pcs, 1)|
  {
    hide LineOk, ThreadOk, QReplay, QLead, QLeads, Sum;
    QReachableInv(s, n);
    QLeadsAreCounts(s.pcs);
  }

  /** The link that a Dequeue reads is null if and only if its node is the last one
      or is, by now, the private node of a thread that has set its link to null. If
      _head_ has not moved since the load that means an empty queue; if it has, the
      Dequeue gives up all the same, and is wrong if values are inside. */
  lemma NullLinkExact(s: QState, n: nat, t: nat)
    requires QReachable(s, n) && t < |s.pcs| && s.pcs[t].DeqNext?
    ensures var a := Addr(s.pcs[t].seen, s.bits);
            s.line != [] && (Read(s.next, a, 0) == 0 <==>
            a == s.line[|s.line| - 1] || exists u: nat :: u != t && Has(s, u, a) && Nulled(s.pcs[u]))
    ensures s.pcs[t].at == s.heads ==> (Read(s.next, Addr(s.pcs[t].seen, s.bits), 0) == 0 <==> Contents(s) == [])
  {
    hide LineOk, ThreadOk, QReplay, Contents, QLeads, Sum, Addr;
    QReachableInv(s, n);
    var a := Addr(s.pcs[t].seen, s.bits);
    SeenFront(s, t);
    EndsOf(s);
    LinkSays(s, |s.line| - 1);
    forall u: nat | u != t && Has(s, u, a) && Nulled(s.pcs[u]) ensures Read(s.next, a, 0) == 0 {
      NulledIsNull(s, u);
    }
    if Read(s.next, a, 0) == 0 && a != s.line[|s.line| - 1] {
      NullIsNulled(s, a, s.pcs[t].at);
    }
    if s.pcs[t].at == s.heads {
      LinkSays(s, s.heads);
      LastIsEmpty(s);
    }
  }

  lemma SeenFront(s: QState, t: nat)
    requires t < |s.pcs| && ThreadOk(s, t, s.pcs[t]) && s.pcs[t].DeqNext?
    ensures s.pcs[t].at < |s.line| && Addr(s.pcs[t].seen, s.bits) == s.line[s.pcs[t].at]
  {
    hide Project, QStatusOf, Holds, Addr, Count;
  }

  lemma LastIsEmpty(s: QState)
    requires |s.vals| == |s.line| && s.heads < |s.line|
    ensures Contents(s) == [] <==> s.heads == |s.line| - 1
  {
  }

  // ------------------------------------------------------ the comparisons

  // Thread t is about to compare the word it saw with _tail_, or with _head_.
  predicate AtTail(pc: QPc) {
    pc.EnqHelp? || pc.EnqCheck? || pc.EnqSwing? || pc.DeqTail? || pc.DeqHelp?
  }

  lemma SeenWord(s: QState, t: nat)
    requires LineOk(s) && t < |s.pcs| && ThreadOk(s, t, s.pcs[t]) && (AtTail(s.pcs[t]) || s.pcs[t].DeqCas?)
    ensures var pc := s.pcs[t];
            && pc.at <= s.tails && (pc.DeqCas? ==> pc.at <= s.heads) && pc.at < |s.line|
            && Word(s.bits, pc.seen, s.line[pc.at], pc.at)
            && (pc.DeqTail? || pc.DeqHelp? ==> pc.at <= s.heads && (pc.at == s.heads ==> pc.seen == s.head))
  {
    hide Project, QStatusOf, Holds, InChain, Carries, Used, Word;
  }

  /** While every comparison so far was inside the window: the next one, be it inside
      or not, comes out equal if and only if the addresses agree and the two moved by
      numbers that agree modulo the period. It is inside the window if and only if it
      tells the truth. */
  lemma WhenWordsAgree(s: QState, n: nat, t: nat)
    requires QReachable(s, n) && t < |s.pcs|
    ensures AtTail(s.pcs[t]) ==>
              var pc := s.pcs[t];
              && (s.tail == pc.seen <==>
                    Addr(s.tail, s.bits) == Addr(pc.seen, s.bits) && s.tails % Period(s.bits) == pc.at % Period(s.bits))
              && (!pc.EnqCheck? ==> (QInWindow(s, t) <==> (s.tail == pc.seen ==> s.tails == pc.at)))
    ensures s.pcs[t].DeqCas? ==>
              var pc := s.pcs[t];
              && (s.head == pc.seen <==>
                    Addr(s.head, s.bits) == Addr(pc.seen, s.bits) && s.heads % Period(s.bits) == pc.at % Period(s.bits))
              && (QInWindow(s, t) <==> (s.head == pc.seen ==> s.heads == pc.at))
  {
    hide LineOk, ThreadOk, QReplay, Contents, QLeads, Sum, Addr, Period;
    QReachableInv(s, n);
    if AtTail(s.pcs[t]) {
      TailAgrees(s, t);
    } else if s.pcs[t].DeqCas? {
      HeadAgrees(s, t);
    }
  }

  lemma TailAgrees(s: QState, t: nat)
    requires LineOk(s) && t < |s.pcs| && ThreadOk(s, t, s.pcs[t]) && AtTail(s.pcs[t])
    ensures var pc := s.pcs[t];
            && (s.tail == pc.seen <==>
                  Addr(s.tail, s.bits) == Addr(pc.seen, s.bits) && s.tails % Period(s.bits) == pc.at % Period(s.bits))
            && (s.tail == pc.seen ==> (s.tails - pc.at < Period(s.bits) <==> s.tails == pc.at))
  {
    hide InChain, Carries, Used, ThreadOk, Count, Addr, Period, Pow2;
    var pc := s.pcs[t];
    SeenWord(s, t);
    WordsAgree(s.bits, s.tail, pc.seen, s.line[s.tails], s.tails, s.line[pc.at], pc.at);
    PeriodPositive(s.bits);
    if s.tail == pc.seen && s.tails - pc.at < Period(s.bits) {
      SameRemainder(pc.at, s.tails, Period(s.bits));
    }
  }

  lemma HeadAgrees(s: QState, t: nat)
    requires LineOk(s) && t < |s.pcs| && ThreadOk(s, t, s.pcs[t]) && s.pcs[t].DeqCas?
    ensures var pc := s.pcs[t];
            && (s.head == pc.seen <==>
                  Addr(s.head, s.bits) == Addr(pc.seen, s.bits) && s.heads % Period(s.bits) == pc.at % Period(s.bits))
            && (s.head == pc.seen ==> (s.heads - pc.at < Period(s.bits) <==> s.heads == pc.at))
  {
    hide InChain, Carries, Used, ThreadOk, Count, Addr, Period, Pow2;
    var pc := s.pcs[t];
    SeenWord(s, t);
    WordsAgree(s.bits, s.head, pc.seen, s.line[s.heads], s.heads, s.line[pc.at], pc.at);
    PeriodPositive(s.bits);
    if s.head == pc.seen && s.heads - pc.at < Period(s.bits) {
      SameRemainder(pc.at, s.heads, Period(s.bits));
    }
  }

  lemma PeriodPositive(bits: nat)
    ensures Period(bits) >= 1
  {
  }

  /** What keeps a comparison inside the window: the word it is made with has moved by
      less than a period since the load. A Dequeue compares a word of _head_ with
      _tail_; if _head_ has not moved at all it is inside however long the queue is,
      and if it has, _tail_ must be less than a period past the place of the load. */
  predicate Recent(s: QState, t: nat) {
    t < |s.pcs| ==>
      match s.pcs[t]
      case EnqHelp(_, _, _, at) => s.tails - at < Period(s.bits)
      case EnqSwing(_, _, at, _) => s.tails - at < Period(s.bits)
      case DeqTail(_, _, at) => at == s.heads || s.tails - at < Period(s.bits)
      case DeqHelp(_, _, at) => at == s.heads || s.tails - at < Period(s.bits)
      case DeqCas(_, _, _, at) => s.heads - at < Period(s.bits)
      case _ => true
  }

  lemma RecentIsEnough(s: QState, n: nat, t: nat)
    requires QReachable(s, n) && Recent(s, t)
    ensures QInWindow(s, t)
  {
    hide LineOk, ThreadOk, QReplay, Contents, QLeads, Sum, Addr, Period;
    QReachableInv(s, n);
    if t < |s.pcs| && (s.pcs[t].DeqTail? || s.pcs[t].DeqHelp?) && s.pcs[t].at == s.heads && s.tail == s.pcs[t].seen {
      SeenWord(s, t);
      HeadIsTail(s);
      PeriodPositive(s.bits);
    }
  }

  // The two words are equal only when _head_ has caught up with _tail_.
  lemma HeadIsTail(s: QState)
    requires LineOk(s) && s.head == s.tail
    ensures s.heads == s.tails
  {
    hide Carries, Used, Addr, Count;
  }
}
