/** What the shared ring buffer guarantees, and the two places where it does
    not, with the exact conditions. */
module RingTheorems {
  import opened Bits
  import opened RingBuffer
  import opened RingMachine
  import opened RingInvariant

  ghost predicate Reachable(s: State) {
    exists s0: State, run: seq<Choice> ::
      Initial(s0) && IsCarefulRun(s0, run) && IsRun(s0, run) && Final(s0, run) == s
  }

  lemma ReachableInv(s: State)
    requires Reachable(s)
    ensures Inv(s)
  {
    var s0: State, run: seq<Choice> :|
      Initial(s0) && IsCarefulRun(s0, run) && IsRun(s0, run) && Final(s0, run) == s;
    InitialInv(s0);
    KeepRun(s0, run);
  }

  /** In every interleaving the bytes taken out are a prefix of the bytes put
      in, never more than the capacity are inside, and _fillSize_ is the number
      inside but for what each thread has still to add or subtract. */
  lemma Delivery(s: State)
    requires Reachable(s)
    ensures s.got <= s.sent && |s.sent| - |s.got| <= s.n - 1
    ensures s.fill == |s.sent| - |s.got| - NotAdded(s.prod) + NotSubtracted(s.cons)
  {
    hide Pos;
    ReachableInv(s);
  }

  // How many bytes each thread is in the middle of copying.
  function Writing(s: State): nat {
    if s.prod.PCopy? || s.prod.DWrite? then |s.prod.data| else 0
  }

  function Reading(s: State): nat {
    if s.cons.CCopy? || s.cons.ERead? then s.cons.size else 0
  }

  // The slots, as the code addresses them, of byte j of each copy.
  function WriteSlot(s: State, j: nat): int {
    Wrap(s.rear, j, s.n)
  }

  function ReadSlot(s: State, j: nat): int {
    Wrap(s.front, j, s.n)
  }

  /** The two threads never copy in the same place, each stays in the buffer,
      and what the consumer has copied is what was sent. */
  lemma RegionsApart(s: State)
    requires Reachable(s)
    ensures forall i, j :: 0 <= i < Reading(s) && 0 <= j < Writing(s) ==> ReadSlot(s, i) != WriteSlot(s, j)
    ensures forall j :: 0 <= j < Writing(s) ==> WriteSlot(s, j) < s.n
    ensures forall j :: 0 <= j < Reading(s) ==> ReadSlot(s, j) < s.n
    ensures Reading(s) > 0 ==> s.got + s.cons.out <= s.sent
  {
    hide Pos, Stored;
    ReachableInv(s);
    forall j | 0 <= j < Reading(s) ensures ReadSlot(s, j) == Pos(|s.got| + j, s.n) && |s.got| + j < |s.sent| {
      assert Copied(s, s.cons.size, s.cons.out);
      PosAdd(|s.got|, j, s.n);
    }
    forall i, j | 0 <= i < Reading(s) && 0 <= j < Writing(s)
      ensures ReadSlot(s, i) != WriteSlot(s, j)
    {
      assert Written(s, s.prod.data, s.prod.k);
      FreeSlot(s, j);
      assert ReadSlot(s, i) == Pos(|s.got| + i, s.n);
    }
    forall j | 0 <= j < Writing(s) ensures WriteSlot(s, j) < s.n {
      assert Written(s, s.prod.data, s.prod.k);
      FreeSlot(s, j);
    }
    if Reading(s) > 0 {
      assert Copied(s, s.cons.size, s.cons.out);
    }
  }

  /** DirectEnqueSize is safe in every interleaving, whatever _fillSize_ says:
      the bytes it promises are free, and contiguous from _rear_ on. */
  lemma DirectEnqueSafe(s: State)
    requires Reachable(s) && s.prod.DHave?
    ensures 0 <= s.prod.m <= s.n - 1 - (|s.sent| - |s.got|) && s.rear + s.prod.m <= s.n
  {
    hide Pos, Stored;
    ReachableInv(s);
  }

  /** DirectDequeSize, having seen rear r, counts only bytes that were sent
      exactly when the answer fits the buffer, that is, unless it saw the
      transient rear bufSize, with front at 0 and _fillSize_ not zero. */
  lemma DirectDequeExact(s: State)
    requires Reachable(s) && s.cons.EEmpty?
    ensures var m := BytesSeen(s, s.cons.r);
            && (m <= |s.sent| - |s.got| <==> m < s.n)
            && (m < s.n <==> !(s.fill != 0 && s.cons.r == s.n && s.front == 0))
            && (m < s.n ==> 0 <= m && s.front + m <= s.n)
  {
    ReachableInv(s);
    KeepBytes(s);
    hide Pos, Stored;
  }

  // Enqueue's check lets a request of this size through.
  predicate Admits(s: State, size: nat) {
    0 < size <= INT_MAX && size <= Room(s.n, s.fill)
  }

  /** Enqueue's check lets in only what fits exactly when _fillSize_ is at most
      the capacity; above it the unsigned difference wraps round. */
  lemma EnqueueCheckExact(s: State)
    requires Reachable(s) && s.prod.PCheck?
    ensures s.fill < s.n <==>
            forall size: nat :: Admits(s, size) ==> size <= s.n - 1 - (|s.sent| - |s.got|)
  {
    ReachableInv(s);
    hide Pos, Stored;
    if s.fill < s.n {
      DivModUnique(s.n - s.fill - 1, 0x1_0000_0000, 0, s.n - s.fill - 1);
    } else {
      DivModUnique(s.n - s.fill - 1, 0x1_0000_0000, -1, s.n - s.fill - 1 + 0x1_0000_0000);
      assert Admits(s, INT_MAX) && INT_MAX > s.n - 1 - (|s.sent| - |s.got|);
    }
  }

  /** A move is careful wherever the two checks are right: an Enqueue check with
      _fillSize_ at most the capacity, and a drain after an answer that fits the
      buffer. */
  lemma CarefulByChecks(s: State, c: Choice)
    requires Reachable(s) && Enabled(s, c)
    requires c.Produce? && s.prod.PCheck? ==> s.fill < s.n
    requires c.Drain? ==> s.cons.m < s.n
    ensures Careful(s, c)
  {
    ReachableInv(s);
    hide Pos, Stored;
    if c.Produce? && s.prod.PCheck? {
      RoomSmall(s);
    }
  }

  // -------------------------------------------- only the copying operations

  predicate CopyOnly(run: seq<Choice>) {
    forall c <- run :: !c.AskRoom? && !c.AskBytes?
  }

  // What the producer has been allowed and _fillSize_ does not count yet.
  function Allowed(p: Producer): nat {
    match p
    case PCopy(data, _) => |data|
    case PFix(size) => size
    case PAdd(size) => size
    case _ => 0
  }

  function Claimed(c: Consumer): nat {
    match c
    case CCopy(size, _, _) => size
    case CFix(size) => size
    case CSub(size) => size
    case _ => 0
  }

  predicate Copying(s: State) {
    && !(s.prod.DSnap? || s.prod.DFull? || s.prod.DReread? || s.prod.DHave? || s.prod.DWrite?)
    && !(s.cons.ESnap? || s.cons.EEmpty? || s.cons.EHave? || s.cons.ERead?)
    && Claimed(s.cons) <= s.fill && s.fill + Allowed(s.prod) < s.n
  }

  lemma KeepCopying(s: State, c: Choice)
    requires Copying(s) && Inv(s) && Enabled(s, c) && !c.AskRoom? && !c.AskBytes?
    ensures Careful(s, c) && Copying(Apply(s, c)) && Apply(s, c).n == s.n
  {
    hide Pos, Put, Get, Wrap, Stored, Room;
    RoomSmall(s);
  }

  lemma RoomSmall(s: State)
    requires 1 <= s.n <= INT_MAX + 1 && 0 <= s.fill < s.n
    ensures Room(s.n, s.fill) == s.n - s.fill - 1
  {
    DivModUnique(s.n - s.fill - 1, 0x1_0000_0000, 0, s.n - s.fill - 1);
  }

  lemma {:induction false} KeepCopyingRun(s: State, run: seq<Choice>)
    requires Copying(s) && Inv(s) && IsRun(s, run) && CopyOnly(run)
    ensures IsCarefulRun(s, run) && Copying(Final(s, run)) && Final(s, run).n == s.n
    decreases |run|
  {
    hide Apply, Enabled, Careful, Inv, Copying;
    if run != [] {
      KeepCopying(s, run[0]);
      KeepMove(s, run[0]);
      assert CopyOnly(run[1..]);
      KeepCopyingRun(Apply(s, run[0]), run[1..]);
    }
  }

  /** Used only through Enqueue, Dequeue and Peek the buffer needs no caution:
      every run is careful, and _fillSize_ stays within the capacity. */
  lemma CopyOnlySafe(s: State, run: seq<Choice>)
    requires Initial(s) && IsRun(s, run) && CopyOnly(run)
    ensures IsCarefulRun(s, run) && 0 <= Final(s, run).fill < s.n
  {
    InitialInv(s);
    KeepCopyingRun(s, run);
  }

  // ------------------------------------------------------- the two failures

  lemma {:induction false} RunSnoc(s: State, run: seq<Choice>, c: Choice)
    requires IsCarefulRun(s, run) && IsRun(s, run)
    requires var f := Final(s, run); f.n >= 1 && Enabled(f, c) && Careful(f, c)
    ensures IsCarefulRun(s, run + [c]) && IsRun(s, run + [c])
    ensures Final(s, run + [c]) == Apply(Final(s, run), c)
    decreases |run|
  {
    hide Apply, Enabled, Careful;
    if run == [] {
      assert run + [c] == [c] && [c][1..] == [];
    } else {
      assert (run + [c])[1..] == run[1..] + [c];
      RunSnoc(Apply(s, run[0]), run[1..], c);
    }
  }

  lemma OneMore(s: State, c: Choice)
    requires Reachable(s) && s.n >= 1 && Enabled(s, c) && Careful(s, c)
    ensures Reachable(Apply(s, c))
  {
    hide Apply, Enabled, Careful, IsRun, IsCarefulRun, Final, Initial;
    var s0: State, run: seq<Choice> :|
      Initial(s0) && IsCarefulRun(s0, run) && IsRun(s0, run) && Final(s0, run) == s;
    RunSnoc(s0, run, c);
  }

  // One byte goes in by Enqueue, up to the moment that _rear_ has moved.
  lemma OneByteIn(s: State, x: Byte) returns (s': State)
    requires Reachable(s) && s.n >= 1 && s.prod.PIdle? && 0 <= s.fill < s.n - 1 && s.n <= INT_MAX
    requires s.rear < s.n && |s.sent| - |s.got| < s.n - 1
    ensures Reachable(s')
    ensures s' == s.(buf := Put(s.buf, s.rear, x), rear := s.rear + 1,
                     sent := s.sent + [x], prod := PFix(1))
  {
    DivModUnique(s.n - s.fill - 1, 0x1_0000_0000, 0, s.n - s.fill - 1);
    hide Reachable, Pos;
    s' := s;
    OneMore(s', Enqueue([x])); s' := Apply(s', Enqueue([x]));
    OneMore(s', Produce); s' := Produced(s');
    OneMore(s', Produce); s' := Produced(s');
    OneMore(s', Produce); s' := Produced(s');
  }

  // And the rest of the call.
  lemma CountIn(s: State) returns (s': State)
    requires Reachable(s) && s.n >= 1 && s.prod.PFix?
    ensures Reachable(s')
    ensures s' == s.(rear := if s.rear == s.n then 0 else s.rear, fill := s.fill + s.prod.size, prod := PIdle)
  {
    hide Reachable, Pos;
    OneMore(s, Produce); s' := Produced(s);
    OneMore(s', Produce); s' := Produced(s');
  }

  // One byte comes out by Dequeue.
  lemma OneByteOut(s: State) returns (s': State)
    requires Reachable(s) && s.n >= 1 && s.cons.CIdle? && 0 < s.fill && s.front + 1 < s.n
    ensures Reachable(s')
    ensures s' == s.(front := s.front + 1, fill := s.fill - 1, got := s.got + [Get(s.buf, s.front)])
  {
    hide Reachable, Pos;
    s' := s;
    OneMore(s', Dequeue(1, false)); s' := Apply(s', Dequeue(1, false));
    OneMore(s', Consume); s' := Consumed(s');
    OneMore(s', Consume); s' := Consumed(s');
    OneMore(s', Consume); s' := Consumed(s');
    OneMore(s', Consume); s' := Consumed(s');
    OneMore(s', Consume); s' := Consumed(s');
  }

  function Empty(n: nat): State {
    State(n, seq(n, i => 0), 0, 0, 0, PIdle, CIdle, [], [])
  }

  lemma EmptyReachable(n: nat)
    requires 1 <= n <= INT_MAX + 1
    ensures Reachable(Empty(n))
  {
    assert Initial(Empty(n)) && IsCarefulRun(Empty(n), []) && IsRun(Empty(n), []);
    assert Final(Empty(n), []) == Empty(n);
  }

  // A producer half-way through its second byte at the end of the buffer.
  lemma AtTheEnd() returns (s: State)
    ensures Reachable(s)
    ensures s == State(3, [1, 2, 3], 1, 3, 1, PFix(1), CIdle, [1, 2, 3], [1])
  {
    hide Reachable, Initial;
    EmptyReachable(3);
    s := OneByteIn(Empty(3), 1);
    s := CountIn(s);
    s := OneByteOut(s);
    s := OneByteIn(s, 2);
    s := CountIn(s);
    s := OneByteIn(s, 3);
  }

  /** DirectDequeSize can promise bytes that do not exist: with room for two
      bytes and none inside it answers three. The producer is between its two
      writes of _rear_, and the consumer has already drained its bytes. */
  lemma DirectDequeFails() returns (s: State)
    ensures Reachable(s) && s.n == 3
    ensures s.cons == EHave(3) && |s.sent| == |s.got|
  {
    hide Reachable, Initial;
    s := AtTheEnd();
    DivModUnique(3, 3, 1, 0);
    OneMore(s, AskBytes); s := Apply(s, AskBytes);
    OneMore(s, Consume); s := Consumed(s);
    OneMore(s, Consume); s := Consumed(s);
    OneMore(s, Drain(2)); s := Apply(s, Drain(2));
    OneMore(s, Consume); s := Consumed(s);
    OneMore(s, Consume); s := Consumed(s);
    OneMore(s, Consume); s := Consumed(s);
    OneMore(s, Consume); s := Consumed(s);
    OneMore(s, AskBytes); s := Apply(s, AskBytes);
    OneMore(s, Consume); s := Consumed(s);
    OneMore(s, Consume); s := Consumed(s);
  }

  lemma TwoInside() returns (s: State)
    ensures Reachable(s)
    ensures s == State(4, [1, 2, 0, 0], 0, 2, 2, PIdle, CIdle, [1, 2], [])
  {
    hide Reachable, Initial;
    EmptyReachable(4);
    s := OneByteIn(Empty(4), 1);
    s := CountIn(s);
    s := OneByteIn(s, 2);
    s := CountIn(s);
  }

  // Two bytes taken out, not yet subtracted.
  lemma MidDequeue() returns (s: State)
    ensures Reachable(s)
    ensures s == State(4, [1, 2, 0, 0], 2, 2, 2, PIdle, CFix(2), [1, 2], [1, 2])
  {
    hide Reachable, Initial;
    s := TwoInside();
    OneMore(s, Dequeue(2, false)); s := Apply(s, Dequeue(2, false));
    OneMore(s, Consume); s := Consumed(s);
    OneMore(s, Consume); s := Consumed(s);
    OneMore(s, Consume); s := Consumed(s);
    OneMore(s, Consume); s := Consumed(s);
  }

  /** Enqueue's check can let in bytes that do not fit: with two of three places
      taken it lets in two more. The producer used DirectEnqueSize and MoveRear
      while a Dequeue had moved _front_ but not yet lowered _fillSize_. */
  lemma EnqueueCheckFails() returns (s: State)
    ensures Reachable(s) && s.n == 4 && |s.sent| - |s.got| == 2
    ensures s.prod == PCheck([5, 6]) && Produced(s).prod == PCopy([5, 6], 0)
  {
    hide Reachable, Initial;
    s := MidDequeue();
    DivModUnique(4, 4, 1, 0);
    OneMore(s, AskRoom); s := Apply(s, AskRoom);
    OneMore(s, Produce); s := Produced(s);
    OneMore(s, Produce); s := Produced(s);
    OneMore(s, Produce); s := Produced(s);
    OneMore(s, Fill([3, 4])); s := Apply(s, Fill([3, 4]));
    OneMore(s, Produce); s := Produced(s);
    OneMore(s, Produce); s := Produced(s);
    OneMore(s, Produce); s := Produced(s);
    OneMore(s, Produce); s := Produced(s);
    OneMore(s, Enqueue([5, 6])); s := Apply(s, Enqueue([5, 6]));
    DivModUnique(-1, 0x1_0000_0000, -1, 0xffff_ffff);
  }
}
