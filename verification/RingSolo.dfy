/** What one thread's operation on the shared buffer comes to when the other thread,
    wherever it stands, does not move meanwhile: the results are those of the class. */
module RingSolo {
  import opened Bits
  import opened RingBuffer
  import opened RingMachine
  import opened RingInvariant
  import opened RingTheorems

  // The run leads from s to s'. A thread that is busy has just one move, so a run of
  // Produce (or Consume) moves is what it does alone.
  ghost predicate Goes(s: State, run: seq<Choice>, s': State) {
    IsRun(s, run) && Final(s, run) == s'
  }

  lemma {:induction false} GoesOn(s: State, run: seq<Choice>, s': State, c: Choice)
    requires Goes(s, run, s') && s'.n >= 1 && Enabled(s', c)
    ensures Goes(s, run + [c], Apply(s', c))
    decreases |run|
  {
    hide Apply, Enabled;
    if run == [] {
      assert run + [c] == [c] && [c][1..] == [];
      assert Final(s, [c]) == Final(Apply(s, c), [c][1..]);
    } else {
      assert (run + [c])[1..] == run[1..] + [c];
      GoesOn(Apply(s, run[0]), run[1..], s', c);
    }
  }

  // The first move is the call, and all others are c.
  predicate Calls(run: seq<Choice>, call: Choice, c: Choice) {
    run != [] && run[0] == call && forall i :: 1 <= i < |run| ==> run[i] == c
  }

  // One more move of the thread.
  lemma More(s0: State, run: seq<Choice>, s: State, call: Choice, c: Choice) returns (run': seq<Choice>)
    requires Goes(s0, run, s) && Calls(run, call, c) && Reachable(s) && s.n >= 1 && Enabled(s, c) && Careful(s, c)
    ensures Goes(s0, run', Apply(s, c)) && Calls(run', call, c) && Reachable(Apply(s, c))
  {
    hide Goes, Reachable, Apply, Enabled, Careful;
    run' := run + [c];
    GoesOn(s0, run, s, c);
    OneMore(s, c);
  }

  lemma Begin(s: State, call: Choice, c: Choice) returns (run: seq<Choice>)
    requires Reachable(s) && s.n >= 1 && Enabled(s, call) && Careful(s, call)
    ensures Goes(s, run, Apply(s, call)) && Calls(run, call, c) && Reachable(Apply(s, call))
  {
    hide Reachable, Apply, Enabled, Careful;
    run := [call];
    assert Goes(s, [], s);
    GoesOn(s, [], s, call);
    assert [] + [call] == [call];
    OneMore(s, call);
  }

  lemma SizeOk(s: State)
    requires Reachable(s)
    ensures 1 <= s.n <= INT_MAX + 1
  {
    ReachableInv(s);
  }

  // ---------------------------------------------------------- the producer

  // The bytes from the kth on are copied, and the index moves past all of them.
  lemma {:induction false} CopyAll(s0: State, run: seq<Choice>, s: State, call: Choice)
    returns (run': seq<Choice>, s': State)
    requires Goes(s0, run, s) && Calls(run, call, Produce) && Reachable(s) && s.n >= 1
    requires s.prod.PCopy? || s.prod.DWrite?
    requires s.prod.k <= |s.prod.data|
    ensures Goes(s0, run', s') && Calls(run', call, Produce) && Reachable(s')
    ensures s' == s.(buf := s'.buf, rear := s'.rear, sent := s.sent + s.prod.data, prod := s'.prod)
    ensures NotAdded(s'.prod) == |s.prod.data| && (s'.prod.PFix? || s'.prod.PAdd?)
    decreases |s.prod.data| - s.prod.k
  {
    hide Goes, Reachable, Calls, Pos, Put, Wrap;
    var next := Produced(s);
    run' := More(s0, run, s, call, Produce);
    if s.prod.k < |s.prod.data| {
      run', s' := CopyAll(s0, run', next, call);
    } else {
      s' := next;
    }
  }

  // _fillSize_ follows.
  lemma AddAll(s0: State, run: seq<Choice>, s: State, call: Choice) returns (run': seq<Choice>, s': State)
    requires Goes(s0, run, s) && Calls(run, call, Produce) && Reachable(s) && s.n >= 1 && (s.prod.PFix? || s.prod.PAdd?)
    ensures Goes(s0, run', s') && Calls(run', call, Produce) && Reachable(s')
    ensures s' == s.(rear := s'.rear, fill := s.fill + s.prod.size, prod := PIdle)
  {
    hide Goes, Reachable, Calls;
    run', s' := run, s;
    if s.prod.PFix? {
      run' := More(s0, run', s', call, Produce);
      s' := Produced(s');
    }
    run' := More(s0, run', s', call, Produce);
    s' := Produced(s');
  }

  /** Enqueue alone appends all or nothing, by the space that _fillSize_ leaves. */
  lemma EnqueueAlone(s: State, data: seq<Byte>) returns (run: seq<Choice>, s': State)
    requires Reachable(s) && s.prod.PIdle? && |data| <= INT_MAX && s.fill < s.n
    ensures Goes(s, run, s') && Calls(run, Enqueue(data), Produce) && Reachable(s') && s'.prod.PIdle?
    ensures |data| > s.n - 1 - s.fill ==> s' == s
    ensures |data| <= s.n - 1 - s.fill ==>
              s' == s.(buf := s'.buf, rear := s'.rear, sent := s.sent + data, fill := s.fill + |data|)
  {
    hide Goes, Reachable, Calls, Room, Pos;
    SizeOk(s);
    run := Begin(s, Enqueue(data), Produce);
    s' := Apply(s, Enqueue(data));
    if data != [] {
      FillPositive(s);
      RoomSmall(s);
      CheckRight(s', data);
      run := More(s, run, s', Enqueue(data), Produce);
      s' := Produced(s');
      if s'.prod.PCopy? {
        run, s' := CopyAll(s, run, s', Enqueue(data));
        run, s' := AddAll(s, run, s', Enqueue(data));
      }
    } else {
      assert s.sent + data == s.sent;
    }
  }

  lemma FillPositive(s: State)
    requires Reachable(s) && s.prod.PIdle?
    ensures s.fill >= 0
  {
    ReachableInv(s);
    hide Pos, Stored;
  }

  lemma CheckRight(s: State, data: seq<Byte>)
    requires Reachable(s) && s.prod == PCheck(data) && s.fill < s.n
    ensures Careful(s, Produce)
  {
    hide Reachable;
    CarefulByChecks(s, Produce);
  }

  /** DirectEnqueSize alone answers the smaller of the places that are free and the
      slots up to the end, unless _fillSize_ says full. */
  lemma RoomAlone(s: State) returns (run: seq<Choice>, s': State)
    requires Reachable(s) && s.prod.PIdle?
    ensures Goes(s, run, s') && Calls(run, AskRoom, Produce) && Reachable(s')
    ensures s' == s.(prod := DHave(if s.fill == s.n - 1 then 0 else Min(Vacant(s), s.n - s.rear)))
  {
    hide Goes, Reachable, Calls, Pos;
    SizeOk(s);
    FreeByIndex(s);
    run := Begin(s, AskRoom, Produce);
    s' := Apply(s, AskRoom);
    run := More(s, run, s', AskRoom, Produce);
    s' := Produced(s');
    run := More(s, run, s', AskRoom, Produce);
    s' := Produced(s');
    if s'.prod.DReread? {
      run := More(s, run, s', AskRoom, Produce);
      s' := Produced(s');
    }
  }

  // What the indices say of the free places.
  lemma FreeByIndex(s: State)
    requires Reachable(s) && s.prod.PIdle?
    ensures s.rear < s.n
    ensures s.rear < s.front ==> Min(Vacant(s), s.n - s.rear) == s.front - s.rear - 1
    ensures s.front <= s.rear ==>
              Min(Vacant(s), s.n - s.rear) == if s.front == 0 then s.n - s.rear - 1 else s.n - s.rear
  {
    ReachableInv(s);
    hide Pos, Stored, ConsumerOk, ProducerOk;
    Distance(s.front, |s.got|, |s.sent|, s.n);
  }

  /** And a direct write of at most that many bytes alone appends them. */
  lemma FillAlone(s: State, data: seq<Byte>) returns (run: seq<Choice>, s': State)
    requires Reachable(s) && s.prod.DHave? && |data| <= s.prod.m
    ensures Goes(s, run, s') && Calls(run, Fill(data), Produce) && Reachable(s') && s'.prod.PIdle?
    ensures s' == s.(buf := s'.buf, rear := s'.rear, sent := s.sent + data, fill := s.fill + |data|, prod := PIdle)
  {
    hide Goes, Reachable, Calls, Pos;
    SizeOk(s);
    run := Begin(s, Fill(data), Produce);
    s' := Apply(s, Fill(data));
    run, s' := CopyAll(s, run, s', Fill(data));
    run, s' := AddAll(s, run, s', Fill(data));
  }

  // ---------------------------------------------------------- the consumer

  // The next bytes that are there to be taken.
  function NextBytes(s: State, size: nat): seq<Byte> {
    if |s.got| + size <= |s.sent| then s.sent[|s.got|..|s.got| + size] else []
  }

  // The consumer with these bytes copied.
  function WithBytes(c: Consumer, out: seq<Byte>): Consumer {
    match c
    case CCopy(size, _, peek) => CCopy(size, out, peek)
    case ERead(size, _) => ERead(size, out)
    case _ => c
  }

  // The bytes are copied out, all of them.
  lemma {:induction false} ReadAll(s0: State, run: seq<Choice>, s: State, call: Choice)
    returns (run': seq<Choice>, s': State)
    requires Goes(s0, run, s) && Calls(run, call, Consume) && Reachable(s) && s.n >= 1
    requires (s.cons.CCopy? || s.cons.ERead?) && |s.cons.out| <= s.cons.size
    ensures Goes(s0, run', s') && Calls(run', call, Consume) && Reachable(s')
    ensures s'.cons.CCopy? || s'.cons.ERead?
    ensures s' == s.(cons := WithBytes(s.cons, NextBytes(s, s.cons.size))) && |NextBytes(s, s.cons.size)| == s.cons.size
    decreases s.cons.size - |s.cons.out|
  {
    hide Goes, Reachable, Calls, Pos, Get, Wrap, NextBytes;
    if |s.cons.out| < s.cons.size {
      run' := More(s0, run, s, call, Consume);
      run', s' := ReadAll(s0, run', Consumed(s), call);
      SameNext(s, Consumed(s));
    } else {
      run', s' := run, s;
      OutIsNext(s);
    }
  }

  lemma SameNext(s: State, s': State)
    requires s'.sent == s.sent && s'.got == s.got
    ensures forall size: nat :: NextBytes(s', size) == NextBytes(s, size)
  {
  }

  lemma OutIsNext(s: State)
    requires Reachable(s) && (s.cons.CCopy? || s.cons.ERead?) && |s.cons.out| == s.cons.size
    ensures s.cons.out == NextBytes(s, s.cons.size)
  {
    ReachableInv(s);
    hide Pos, Stored, ProducerOk;
  }

  // The index moves past them, and _fillSize_ follows.
  lemma TakeAll(s0: State, run: seq<Choice>, s: State, call: Choice) returns (run': seq<Choice>, s': State)
    requires Goes(s0, run, s) && Calls(run, call, Consume) && Reachable(s) && s.n >= 1
    requires (s.cons.ERead? || (s.cons.CCopy? && !s.cons.peek)) && |s.cons.out| == s.cons.size
    ensures Goes(s0, run', s') && Calls(run', call, Consume) && Reachable(s')
    ensures s' == s.(front := s'.front, got := s.got + s.cons.out, fill := s.fill - s.cons.size, cons := CIdle)
  {
    hide Goes, Reachable, Calls, Pos;
    run' := More(s0, run, s, call, Consume);
    s' := Consumed(s);
    if s'.cons.CFix? {
      run' := More(s0, run', s', call, Consume);
      s' := Consumed(s');
    }
    run' := More(s0, run', s', call, Consume);
    s' := Consumed(s');
  }

  // The call, the check and the copy, common to Dequeue and Peek.
  lemma LookAlone(s: State, size: int, peek: bool) returns (run: seq<Choice>, s': State)
    requires Reachable(s) && s.cons.CIdle? && size <= INT_MAX
    ensures Goes(s, run, s') && Calls(run, Dequeue(size, peek), Consume) && Reachable(s')
    ensures !(0 < size <= s.fill) ==> s' == s
    ensures 0 < size <= s.fill ==>
              s' == s.(cons := CCopy(size, NextBytes(s, size), peek)) && |NextBytes(s, size)| == size
  {
    hide Goes, Reachable, Calls, Pos, NextBytes;
    SizeOk(s);
    run := Begin(s, Dequeue(size, peek), Consume);
    s' := Apply(s, Dequeue(size, peek));
    if size > 0 {
      run := More(s, run, s', Dequeue(size, peek), Consume);
      s' := Consumed(s');
      if s'.cons.CCopy? {
        SameNext(s, s');
        run, s' := ReadAll(s, run, s', Dequeue(size, peek));
      }
    }
  }

  /** Dequeue alone delivers the next bytes and removes them, all or nothing, by what
      _fillSize_ says is there. */
  lemma DequeueAlone(s: State, size: int) returns (run: seq<Choice>, s': State)
    requires Reachable(s) && s.cons.CIdle? && size <= INT_MAX
    ensures Goes(s, run, s') && Calls(run, Dequeue(size, false), Consume) && Reachable(s') && s'.cons.CIdle?
    ensures !(0 < size <= s.fill) ==> s' == s
    ensures 0 < size <= s.fill ==>
              && |NextBytes(s, size)| == size
              && s' == s.(front := s'.front, got := s.got + NextBytes(s, size), fill := s.fill - size)
  {
    hide Goes, Reachable, Calls, NextBytes;
    SizeOk(s);
    run, s' := LookAlone(s, size, false);
    if 0 < size <= s.fill {
      run, s' := TakeAll(s, run, s', Dequeue(size, false));
    }
  }

  /** Peek alone delivers the same bytes (in mid) and leaves everything as it was. */
  lemma PeekAlone(s: State, size: int) returns (run: seq<Choice>, mid: State, s': State)
    requires Reachable(s) && s.cons.CIdle? && size <= INT_MAX
    ensures Goes(s, run, s') && Calls(run, Dequeue(size, true), Consume) && s' == s
    ensures 0 < size <= s.fill ==>
              && |NextBytes(s, size)| == size && mid == s.(cons := CCopy(size, NextBytes(s, size), true))
              && Goes(s, run[..|run| - 1], mid)
    ensures !(0 < size <= s.fill) ==> mid == s
  {
    hide Goes, Reachable, Calls, NextBytes;
    SizeOk(s);
    run, mid := LookAlone(s, size, true);
    s' := mid;
    if 0 < size <= s.fill {
      var before := run;
      run := LastMove(s, before, mid, Dequeue(size, true));
      s' := Consumed(mid);
    }
  }

  lemma LastMove(s0: State, run: seq<Choice>, s: State, call: Choice) returns (run': seq<Choice>)
    requires Goes(s0, run, s) && Calls(run, call, Consume) && s.n >= 1 && Enabled(s, Consume)
    ensures Goes(s0, run', Consumed(s)) && Calls(run', call, Consume) && run' != [] && run'[..|run'| - 1] == run
  {
    hide Goes, Consumed;
    run' := run + [Consume];
    GoesOn(s0, run, s, Consume);
  }

  /** DirectDequeSize alone answers the smaller of the bytes inside and the slots up
      to the end; nothing if _fillSize_ is zero; and bufSize, wrongly, where it sees
      the transient rear with front at 0. */
  lemma BytesAlone(s: State) returns (run: seq<Choice>, s': State)
    requires Reachable(s) && s.cons.CIdle?
    ensures Goes(s, run, s') && Calls(run, AskBytes, Consume) && Reachable(s')
    ensures s' == s.(cons := EHave(if s.fill == 0 then 0
                                   else if s.rear == s.n && s.front == 0 then s.n
                                   else Min(|s.sent| - |s.got|, s.n - s.front)))
  {
    hide Goes, Reachable, Calls, Pos;
    SizeOk(s);
    InsideByIndex(s);
    run := Begin(s, AskBytes, Consume);
    s' := Apply(s, AskBytes);
    run := More(s, run, s', AskBytes, Consume);
    s' := Consumed(s');
    run := More(s, run, s', AskBytes, Consume);
    s' := Consumed(s');
  }

  lemma InsideByIndex(s: State)
    requires Reachable(s) && s.cons.CIdle?
    ensures s.front < s.n && s.rear <= s.n
    ensures !(s.rear == s.n && s.front == 0) ==>
              Min(|s.sent| - |s.got|, s.n - s.front) == if s.rear < s.front then s.n - s.front else s.rear - s.front
  {
    ReachableInv(s);
    hide Pos, Stored, ConsumerOk, ProducerOk;
    Distance(s.front, |s.got|, |s.sent|, s.n);
  }

  /** And a direct read of bytes that are there alone delivers and removes them. */
  lemma DrainAlone(s: State, count: nat) returns (run: seq<Choice>, s': State)
    requires Reachable(s) && s.cons.EHave? && count <= s.cons.m && count <= |s.sent| - |s.got|
    ensures Goes(s, run, s') && Calls(run, Drain(count), Consume) && Reachable(s') && s'.cons.CIdle?
    ensures |NextBytes(s, count)| == count
    ensures s' == s.(front := s'.front, got := s.got + NextBytes(s, count), fill := s.fill - count, cons := CIdle)
  {
    hide Goes, Reachable, Calls, NextBytes, Pos;
    SizeOk(s);
    run := Begin(s, Drain(count), Consume);
    s' := Apply(s, Drain(count));
    SameNext(s, s');
    run, s' := ReadAll(s, run, s', Drain(count));
    run, s' := TakeAll(s, run, s', Drain(count));
  }
}
