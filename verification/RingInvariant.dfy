/** The invariant of the shared ring buffer. */
module RingInvariant {
  import opened Bits
  import opened RingBuffer
  import opened RingMachine

  // Index x stands for position i; only bufSize itself may stand for slot 0.
  predicate StandsFor(x: nat, i: nat, n: nat)
    requires n >= 1
  {
    x <= n && (if x == n then Pos(i, n) == 0 else x == Pos(i, n))
  }

  predicate Shape(s: State) {
    && 1 <= s.n <= INT_MAX + 1 && |s.buf| == s.n
    && |s.got| <= |s.sent| < |s.got| + s.n
    && s.got == s.sent[..|s.got|]
  }

  // Everything sent and not yet taken lies in its slot.
  predicate Stored(s: State)
    requires Shape(s)
  {
    forall i :: |s.got| <= i < |s.sent| ==> s.buf[Pos(i, s.n)] == s.sent[i]
  }

  predicate Indices(s: State)
    requires Shape(s)
  {
    && StandsFor(s.rear, |s.sent|, s.n) && (s.rear == s.n ==> s.prod.PFix?)
    && StandsFor(s.front, |s.got|, s.n) && (s.front == s.n ==> s.cons.CFix?)
  }

  // Bytes past an index that _fillSize_ does not yet count.
  function NotAdded(p: Producer): nat {
    if p.PFix? || p.PAdd? then p.size else 0
  }

  function NotSubtracted(c: Consumer): nat {
    if c.CFix? || c.CSub? then c.size else 0
  }

  // The producer has written the first k bytes of data after those sent.
  predicate Written(s: State, data: seq<Byte>, k: nat)
    requires Shape(s)
  {
    && k <= |data| && |s.sent| + |data| < |s.got| + s.n
    && forall j :: 0 <= j < k ==> s.buf[Pos(|s.sent| + j, s.n)] == data[j]
  }

  predicate ProducerOk(s: State)
    requires Shape(s)
  {
    match s.prod
    case PCheck(data) => 0 < |data| <= INT_MAX
    case PCopy(data, k) => 0 < |data| && Written(s, data, k)
    case PFix(size) => size > 0
    case DFull(f, at) => SawFront(s, f, at)
    case DReread(f, at) => SawFront(s, f, at) && f <= s.rear
    case DHave(m) => 0 <= m && |s.sent| + m < |s.got| + s.n && s.rear + m <= s.n
    case DWrite(data, k) => Written(s, data, k) && s.rear + |data| <= s.n
    case _ => true
  }

  predicate SawFront(s: State, f: nat, at: nat)
    requires Shape(s)
  {
    && at <= |s.got| && |s.sent| < at + s.n && StandsFor(f, at, s.n)
    && (at == |s.got| ==> s.front == f || (f == s.n && s.front == 0))
  }

  // out is the first bytes of those not yet taken, and size of them are there.
  predicate Copied(s: State, size: nat, out: seq<Byte>)
    requires Shape(s)
  {
    |out| <= size && |s.got| + size <= |s.sent| && out == s.sent[|s.got|..|s.got| + |out|]
  }

  predicate ConsumerOk(s: State)
    requires Shape(s)
  {
    match s.cons
    case CCheck(size, _) => size > 0
    case CCopy(size, out, _) => size > 0 && Copied(s, size, out)
    case CFix(size) => 0 < size < s.n
    case CSub(size) => size < s.n
    case EEmpty(r, at) => |s.got| <= at <= |s.sent| && StandsFor(r, at, s.n)
    case EHave(m) => 0 <= m && s.front + m <= s.n && (m < s.n ==> |s.got| + m <= |s.sent|)
    case ERead(size, out) => Copied(s, size, out) && s.front + size <= s.n
    case _ => true
  }

  predicate Inv(s: State) {
    && Shape(s) && Stored(s) && Indices(s)
    && s.fill == |s.sent| - |s.got| - NotAdded(s.prod) + NotSubtracted(s.cons)
    && ProducerOk(s) && ConsumerOk(s)
  }

  // What each thread relies on, when nothing it looks at has changed.
  lemma SameConsumer(s: State, s': State)
    requires Shape(s) && Shape(s') && ConsumerOk(s)
    requires s'.n == s.n && s'.front == s.front && s'.cons == s.cons && s'.sent == s.sent && s'.got == s.got
    ensures ConsumerOk(s')
  {
    hide Pos, Stored;
  }

  lemma SameProducer(s: State, s': State)
    requires Shape(s) && Shape(s') && ProducerOk(s)
    requires s'.n == s.n && s'.buf == s.buf && s'.front == s.front && s'.rear == s.rear
    requires s'.prod == s.prod && s'.sent == s.sent && s'.got == s.got
    ensures ProducerOk(s')
  {
    hide Pos, Stored;
  }

  // ---------------------------------------------------------- the producer

  // Where the code writes byte k is the slot after the bytes sent, which holds
  // nothing that is still to be taken.
  lemma FreeSlot(s: State, k: nat)
    requires Shape(s) && |s.sent| + k < |s.got| + s.n && s.rear == Pos(|s.sent|, s.n)
    ensures Wrap(s.rear, k, s.n) == Pos(|s.sent| + k, s.n)
    ensures forall i :: |s.got| <= i < |s.sent| + k ==> Pos(i, s.n) != Pos(|s.sent| + k, s.n)
  {
    PosAdd(|s.sent|, k, s.n);
    forall i | |s.got| <= i < |s.sent| + k ensures Pos(i, s.n) != Pos(|s.sent| + k, s.n) {
      PosApart(i, |s.sent| + k, s.n);
    }
  }

  lemma KeepWrite(s: State)
    requires Inv(s) && Enabled(s, Produce)
    requires (s.prod.PCopy? || s.prod.DWrite?) && s.prod.k < |s.prod.data|
    ensures Inv(Produced(s))
  {
    hide Pos, Stored, ConsumerOk, Written;
    assert Written(s, s.prod.data, s.prod.k) by { WritingIs(s); }
    OneWritten(s, Produced(s), s.prod.data, s.prod.k);
    SameConsumer(s, Produced(s));
  }

  lemma WritingIs(s: State)
    requires Shape(s) && ProducerOk(s) && (s.prod.PCopy? || s.prod.DWrite?)
    ensures Written(s, s.prod.data, s.prod.k)
  {
  }

  // Byte k goes where FreeSlot says.
  lemma OneWritten(s: State, s': State, data: seq<Byte>, k: nat)
    requires Shape(s) && Stored(s) && Written(s, data, k) && k < |data| && s.rear == Pos(|s.sent|, s.n)
    requires s' == s.(buf := Put(s.buf, Wrap(s.rear, k, s.n), data[k]), prod := s'.prod)
    ensures Shape(s') && Stored(s') && Written(s', data, k + 1)
  {
    hide Pos;
    FreeSlot(s, k);
  }

  // The new bytes are sent: Stored for them is what Written said.
  lemma Publish(s: State, s': State, data: seq<Byte>)
    requires Shape(s) && Stored(s) && Written(s, data, |data|)
    requires s'.n == s.n && s'.buf == s.buf && s'.got == s.got && s'.sent == s.sent + data
    ensures Shape(s') && Stored(s')
  {
    hide Pos;
    forall i | |s'.got| <= i < |s'.sent| ensures s'.buf[Pos(i, s.n)] == s'.sent[i] {
      if i >= |s.sent| {
        assert s.buf[Pos(|s.sent| + (i - |s.sent|), s.n)] == data[i - |s.sent|];
      }
    }
  }

  // What the consumer relies on stays when the producer moves _rear_.
  lemma ConsumerUnmoved(s: State, s': State, data: seq<Byte>)
    requires Inv(s) && Shape(s')
    requires s' == s.(rear := s'.rear, sent := s.sent + data, prod := s'.prod)
    ensures ConsumerOk(s')
  {
    hide Pos, Stored;
    if s.cons.CCopy? || s.cons.ERead? {
      var a, b := |s.got|, |s.got| + |s.cons.out|;
      assert Copied(s, s.cons.size, s.cons.out);
      assert (s.sent + data)[a..b] == s.sent[a..b];
    }
  }

  lemma KeepPublishCopy(s: State)
    requires Inv(s) && Enabled(s, Produce) && s.prod.PCopy? && s.prod.k == |s.prod.data|
    ensures Inv(Produced(s))
  {
    hide Pos, Stored, ConsumerOk;
    Publish(s, Produced(s), s.prod.data);
    PosAdd(|s.sent|, |s.prod.data|, s.n);
    ConsumerUnmoved(s, Produced(s), s.prod.data);
  }

  lemma KeepPublishDirect(s: State)
    requires Inv(s) && Enabled(s, Produce) && s.prod.DWrite? && s.prod.k == |s.prod.data|
    ensures Inv(Produced(s))
  {
    hide Pos, Stored, ConsumerOk;
    Publish(s, Produced(s), s.prod.data);
    PosAdd(|s.sent|, |s.prod.data|, s.n);
    IndexMoved(s.rear, |s.prod.data|, s.n);
    ConsumerUnmoved(s, Produced(s), s.prod.data);
  }

  // MoveRear and MoveFront take the remainder; the copying code wraps by hand.
  lemma IndexMoved(x: nat, k: nat, n: nat)
    requires n >= 1 && x < n && k <= n
    ensures Pos(x + k, n) == Wrap(x, k, n)
  {
    PosAdd(x, k, n);
    DivModUnique(x, n, 0, x);
  }

  // The distance from a position to a later one less than n away, by index.
  lemma Distance(x: nat, i: nat, j: nat, n: nat)
    requires n >= 1 && StandsFor(x, i, n) && i <= j < i + n
    ensures j - i == if x <= Pos(j, n) then Pos(j, n) - x else Pos(j, n) - x + n
  {
    PosAdd(i, j - i, n);
    hide Pos;
  }

  lemma KeepSnap(s: State)
    requires Inv(s) && Enabled(s, Produce) && s.prod.DSnap?
    ensures Inv(Produced(s))
  {
    hide Pos, Stored;
    StoredSame(s, Produced(s));
  }

  // DirectEnqueSize: nothing the consumer does between the reads makes the
  // answer too large.
  lemma RoomIsFree(s: State)
    requires Inv(s) && (s.prod.DFull? || s.prod.DReread?)
    ensures var f := s.prod.f;
            && (s.rear < f ==> |s.sent| + (f - s.rear - 1) < |s.got| + s.n)
            && (f <= s.rear ==>
                  |s.sent| + (if s.front == 0 then s.n - s.rear - 1 else s.n - s.rear) < |s.got| + s.n)
  {
    hide Pos, Stored, ConsumerOk;
    var f, at := s.prod.f, s.prod.at;
    Distance(f, at, |s.sent|, s.n);
    Distance(s.front, |s.got|, |s.sent|, s.n);
    Distance(f, at, |s.got|, s.n);
  }

  lemma KeepRoom(s: State)
    requires Inv(s) && Enabled(s, Produce) && (s.prod.DFull? || s.prod.DReread?)
    ensures Inv(Produced(s))
  {
    hide Pos, Stored, ConsumerOk;
    RoomIsFree(s);
    StoredSame(s, Produced(s));
    SameConsumer(s, Produced(s));
  }

  // Steps that copy nothing and move no index past bytes.
  lemma KeepProducerCount(s: State)
    requires Inv(s) && Enabled(s, Produce) && Careful(s, Produce)
    requires s.prod.PCheck? || s.prod.PFix? || s.prod.PAdd?
    ensures Inv(Produced(s))
  {
    hide Pos, Stored;
    StoredSame(s, Produced(s));
  }

  lemma KeepProducer(s: State)
    requires Inv(s) && Enabled(s, Produce) && Careful(s, Produce)
    ensures Inv(Produced(s))
  {
    var copying := s.prod.PCopy? || s.prod.DWrite?;
    assert copying ==> s.prod.k <= |s.prod.data|;
    hide Inv, Produced;
    if copying && s.prod.k < |s.prod.data| {
      KeepWrite(s);
    } else {
      match s.prod {
        case PCopy(_, _) => KeepPublishCopy(s);
        case DWrite(_, _) => KeepPublishDirect(s);
        case DSnap => KeepSnap(s);
        case DFull(_, _) => KeepRoom(s);
        case DReread(_, _) => KeepRoom(s);
        case _ => KeepProducerCount(s);
      }
    }
  }

  // ---------------------------------------------------------- the consumer

  lemma NextByte(s: State, size: nat, out: seq<Byte>)
    requires Shape(s) && Stored(s) && Copied(s, size, out) && |out| < size
    requires s.front == Pos(|s.got|, s.n)
    ensures Wrap(s.front, |out|, s.n) < s.n
    ensures Copied(s, size, out + [Get(s.buf, Wrap(s.front, |out|, s.n))])
  {
    PosAdd(|s.got|, |out|, s.n);
    hide Pos;
    assert s.buf[Pos(|s.got| + |out|, s.n)] == s.sent[|s.got| + |out|];
  }

  lemma KeepRead(s: State)
    requires Inv(s) && Enabled(s, Consume)
    requires (s.cons.CCopy? || s.cons.ERead?) && |s.cons.out| < s.cons.size
    ensures Inv(Consumed(s))
  {
    hide Pos, Stored, Get, ProducerOk;
    NextByte(s, s.cons.size, s.cons.out);
    StoredSame(s, Consumed(s));
    SameProducer(s, Consumed(s));
  }

  // The bytes copied out are taken.
  lemma Take(s: State, s': State, out: seq<Byte>)
    requires Shape(s) && Stored(s) && Copied(s, |out|, out)
    requires s'.n == s.n && s'.buf == s.buf && s'.sent == s.sent && s'.got == s.got + out
    ensures Shape(s') && Stored(s')
  {
    hide Pos;
  }

  lemma KeepTakeCopy(s: State)
    requires Inv(s) && Enabled(s, Consume) && s.cons.CCopy? && |s.cons.out| == s.cons.size
    ensures Inv(Consumed(s))
  {
    hide Pos, Stored;
    if !s.cons.peek {
      Take(s, Consumed(s), s.cons.out);
      PosAdd(|s.got|, s.cons.size, s.n);
      ProducerUnmoved(s, Consumed(s));
    } else {
      StoredSame(s, Consumed(s));
    }
  }

  lemma KeepTakeDirect(s: State)
    requires Inv(s) && Enabled(s, Consume) && s.cons.ERead? && |s.cons.out| == s.cons.size
    ensures Inv(Consumed(s))
  {
    hide Pos, Stored;
    Take(s, Consumed(s), s.cons.out);
    PosAdd(|s.got|, s.cons.size, s.n);
    IndexMoved(s.front, s.cons.size, s.n);
    ProducerUnmoved(s, Consumed(s));
  }

  lemma StoredSame(s: State, s': State)
    requires Shape(s) && Stored(s)
    requires s'.n == s.n && s'.buf == s.buf && s'.sent == s.sent && s'.got == s.got
    ensures Shape(s') && Stored(s')
  {
  }

  // What the producer relies on stays when the consumer moves _front_.
  lemma ProducerUnmoved(s: State, s': State)
    requires Inv(s) && Shape(s') && |s'.got| >= |s.got|
    requires s' == s.(front := s'.front, got := s'.got, cons := s'.cons)
    requires s'.got == s.got ==> s'.front == s.front
    ensures ProducerOk(s')
  {
    hide Pos, Stored;
    match s.prod {
      case PCopy(data, k) => assert Written(s, data, k);
      case DWrite(data, k) => assert Written(s, data, k);
      case _ =>
    }
  }

  // DirectDequeSize: an answer that fits the buffer counts only bytes sent.
  lemma KeepBytes(s: State)
    requires Inv(s) && Enabled(s, Consume) && (s.cons.ESnap? || s.cons.EEmpty?)
    ensures Inv(Consumed(s))
  {
    hide Pos, Stored, ProducerOk, BytesSeen;
    if s.cons.EEmpty? {
      BytesThere(s);
    }
    StoredSame(s, Consumed(s));
    SameProducer(s, Consumed(s));
  }

  lemma BytesThere(s: State)
    requires Inv(s) && s.cons.EEmpty?
    ensures var m := BytesSeen(s, s.cons.r);
            0 <= m && s.front + m <= s.n && (m < s.n ==> |s.got| + m <= |s.sent|)
  {
    hide Pos, Stored, ProducerOk;
    PosAdd(|s.got|, s.cons.at - |s.got|, s.n);
  }

  lemma KeepConsumerCount(s: State)
    requires Inv(s) && Enabled(s, Consume)
    requires s.cons.CCheck? || s.cons.CSub?
    ensures Inv(Consumed(s))
  {
    hide Pos, Stored, ProducerOk;
    StoredSame(s, Consumed(s));
    SameProducer(s, Consumed(s));
  }

  // The second of the two writes that _front_ makes at the end of the buffer.
  lemma KeepFix(s: State)
    requires Inv(s) && Enabled(s, Consume) && s.cons.CFix?
    ensures Inv(Consumed(s))
  {
    hide Pos, Stored, ProducerOk;
    StoredSame(s, Consumed(s));
    FrontWrapped(s, Consumed(s));
  }

  lemma FrontWrapped(s: State, s': State)
    requires Shape(s) && Shape(s') && ProducerOk(s)
    requires s' == s.(front := if s.front == s.n then 0 else s.front, cons := s'.cons)
    ensures ProducerOk(s')
  {
    hide Pos, Stored;
  }

  lemma KeepConsumer(s: State)
    requires Inv(s) && Enabled(s, Consume)
    ensures Inv(Consumed(s))
  {
    var copying := s.cons.CCopy? || s.cons.ERead?;
    assert copying ==> |s.cons.out| <= s.cons.size;
    hide Inv, Consumed;
    if copying && |s.cons.out| < s.cons.size {
      KeepRead(s);
    } else {
      match s.cons {
        case CCopy(_, _, _) => KeepTakeCopy(s);
        case ERead(_, _) => KeepTakeDirect(s);
        case ESnap => KeepBytes(s);
        case EEmpty(_, _) => KeepBytes(s);
        case CFix(_) => KeepFix(s);
        case _ => KeepConsumerCount(s);
      }
    }
  }

  // The calls, and the client's choice of what to write or read directly.
  lemma KeepProducerCall(s: State, c: Choice)
    requires Inv(s) && Enabled(s, c) && (c.Enqueue? || c.AskRoom? || c.Fill?)
    ensures Inv(Apply(s, c))
  {
    hide Pos, Stored, ConsumerOk;
    StoredSame(s, Apply(s, c));
    SameConsumer(s, Apply(s, c));
  }

  lemma KeepConsumerCall(s: State, c: Choice)
    requires Inv(s) && Enabled(s, c) && Careful(s, c) && (c.Dequeue? || c.AskBytes? || c.Drain?)
    ensures Inv(Apply(s, c))
  {
    hide Pos, Stored, ProducerOk, Room;
    StoredSame(s, Apply(s, c));
    SameProducer(s, Apply(s, c));
  }

  lemma KeepMove(s: State, c: Choice)
    requires Inv(s) && Enabled(s, c) && Careful(s, c)
    ensures Inv(Apply(s, c)) && Apply(s, c).n == s.n
  {
    hide Inv, Produced, Consumed;
    SameSize(s, c);
    if c.Produce? {
      KeepProducer(s);
    } else if c.Consume? {
      KeepConsumer(s);
    } else if c.Enqueue? || c.AskRoom? || c.Fill? {
      KeepProducerCall(s, c);
    } else {
      KeepConsumerCall(s, c);
    }
  }

  lemma SameSize(s: State, c: Choice)
    requires Inv(s) && Enabled(s, c)
    ensures s.n >= 1 && Apply(s, c).n == s.n
  {
    hide Pos, Stored, ProducerOk, ConsumerOk, Room, Put, Get, Wrap;
  }

  lemma InitialInv(s: State)
    requires Initial(s)
    ensures Inv(s)
  {
    DivModUnique(0, s.n, 0, 0);
  }

  lemma {:induction false} KeepRun(s: State, run: seq<Choice>)
    requires Inv(s) && IsCarefulRun(s, run)
    ensures IsRun(s, run) && Inv(Final(s, run)) && Final(s, run).n == s.n
    decreases |run|
  {
    hide Inv, Apply, Enabled, Careful;
    if run != [] {
      KeepMove(s, run[0]);
      KeepRun(Apply(s, run[0]), run[1..]);
    }
  }
}
