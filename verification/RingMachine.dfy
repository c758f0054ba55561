/** The ring buffer shared by one producer and one consumer, as a step machine:
    one access to a shared field, or one copied byte, per step.

    The source writes _rear_ (and _front_) twice when it comes to the end of the
    buffer, so the other thread can see the value bufSize; and it changes
    _fillSize_ only after it has moved the index. */
module RingMachine {
  import opened Bits
  import opened RingBuffer

  // ------------------------------------------------------------ positions

  // The slot of the i-th byte ever sent.
  function Pos(i: nat, n: nat): (p: nat)
    requires n >= 1
    ensures p < n
  {
    i % n
  }

  // The slot the copying code uses for byte k from index base on.
  function Wrap(base: nat, k: nat, n: nat): nat {
    if base + k < n then base + k else base + k - n
  }

  lemma PosApart(i: nat, j: nat, n: nat)
    requires n >= 1 && i < j < i + n
    ensures Pos(i, n) != Pos(j, n)
  {
    if Pos(i, n) == Pos(j, n) {
      SameRemainder(i, j, n);
    }
  }

  lemma PosAdd(i: nat, k: nat, n: nat)
    requires n >= 1 && k <= n
    ensures Pos(i + k, n) == Wrap(Pos(i, n), k, n)
  {
    var q, r := i / n, i % n;
    assert i == n * q + r;
    if r + k < n {
      DivModUnique(i + k, n, q, r + k);
    } else {
      assert n * (q + 1) == n * q + n;
      DivModUnique(i + k, n, q + 1, r + k - n);
    }
  }

  // ---------------------------------------------------------------- state

  /** The producer. In DFull and DReread f is the front it saw and _at_ (history)
      how many bytes had then been taken out. */
  datatype Producer =
    | PIdle
    | PCheck(data: seq<Byte>)
    | PCopy(data: seq<Byte>, k: nat)
    | PFix(size: nat)
    | PAdd(size: nat)
    | DSnap
    | DFull(f: nat, at: nat)
    | DReread(f: nat, at: nat)
    | DHave(m: int)
    | DWrite(data: seq<Byte>, k: nat)

  /** The consumer; out is what it has copied so far. In EEmpty r is the rear it
      saw and _at_ (history) how many bytes had then been sent. */
  datatype Consumer =
    | CIdle
    | CCheck(size: nat, peek: bool)
    | CCopy(size: nat, out: seq<Byte>, peek: bool)
    | CFix(size: nat)
    | CSub(size: nat)
    | ESnap
    | EEmpty(r: nat, at: nat)
    | EHave(m: int)
    | ERead(size: nat, out: seq<Byte>)

  // n is bufSize; sent and got are history: the bytes that _rear_ and _front_
  // have moved past.
  datatype State = State(
    n: nat, buf: seq<Byte>, front: nat, rear: nat, fill: int,
    prod: Producer, cons: Consumer,
    sent: seq<Byte>, got: seq<Byte>)

  datatype Choice =
    | Enqueue(data: seq<Byte>)
    | AskRoom
    | Fill(data: seq<Byte>)
    | Produce
    | Dequeue(size: int, peek: bool)
    | AskBytes
    | Drain(count: nat)
    | Consume

  const INT_MAX: nat := 0x7fff_ffff

  // bufSize - fillSize - 1, which the source computes in unsigned int.
  function Room(n: nat, fill: int): int {
    (n - fill - 1) % 0x1_0000_0000
  }

  predicate Enabled(s: State, c: Choice) {
    match c
    case Enqueue(data) => s.prod.PIdle? && |data| <= INT_MAX
    case AskRoom => s.prod.PIdle?
    case Fill(data) => s.prod.DHave? && |data| <= s.prod.m
    case Produce => !s.prod.PIdle? && !s.prod.DHave?
    case Dequeue(size, _) => s.cons.CIdle? && size <= INT_MAX
    case AskBytes => s.cons.CIdle?
    case Drain(count) => s.cons.EHave? && count <= s.cons.m
    case Consume => !s.cons.CIdle? && !s.cons.EHave?
  }

  function Put(b: seq<Byte>, p: nat, x: Byte): seq<Byte> {
    if p < |b| then b[p := x] else b
  }

  function Get(b: seq<Byte>, p: nat): Byte {
    if p < |b| then b[p] else 0
  }

  function Produced(s: State): State
    requires Enabled(s, Produce) && s.n >= 1
  {
    match s.prod
    case PCheck(data) =>
      s.(prod := if |data| > Room(s.n, s.fill) then PIdle else PCopy(data, 0))
    case PCopy(data, k) =>
      if k < |data| then
        s.(buf := Put(s.buf, Wrap(s.rear, k, s.n), data[k]), prod := PCopy(data, k + 1))
      else if s.rear + |data| > s.n then
        s.(rear := s.rear + |data| - s.n, sent := s.sent + data, prod := PAdd(|data|))
      else
        s.(rear := s.rear + |data|, sent := s.sent + data, prod := PFix(|data|))
    case PFix(size) =>
      s.(rear := if s.rear == s.n then 0 else s.rear, prod := PAdd(size))
    case PAdd(size) =>
      s.(fill := s.fill + size, prod := PIdle)
    case DSnap =>
      s.(prod := DFull(s.front, |s.got|))
    case DFull(f, at) =>
      s.(prod := if s.fill == s.n - 1 then DHave(0)
                 else if s.rear < f then DHave(f - s.rear - 1)
                 else DReread(f, at))
    case DReread(_, _) =>
      s.(prod := DHave(if s.front == 0 then s.n - s.rear - 1 else s.n - s.rear))
    case DWrite(data, k) =>
      if k < |data| then
        s.(buf := Put(s.buf, s.rear + k, data[k]), prod := DWrite(data, k + 1))
      else
        s.(rear := Pos(s.rear + |data|, s.n), sent := s.sent + data, prod := PAdd(|data|))
  }

  // What DirectDequeSize returns, having seen rear r.
  function BytesSeen(s: State, r: nat): int {
    if s.fill == 0 then 0 else if r < s.front then s.n - s.front else r - s.front
  }

  function Consumed(s: State): State
    requires Enabled(s, Consume) && s.n >= 1
  {
    match s.cons
    case CCheck(size, peek) =>
      s.(cons := if size > s.fill then CIdle else CCopy(size, [], peek))
    case CCopy(size, out, peek) =>
      if |out| < size then
        s.(cons := CCopy(size, out + [Get(s.buf, Wrap(s.front, |out|, s.n))], peek))
      else if peek then s.(cons := CIdle)
      else if s.front + size > s.n then
        s.(front := s.front + size - s.n, got := s.got + out, cons := CSub(size))
      else
        s.(front := s.front + size, got := s.got + out, cons := CFix(size))
    case CFix(size) =>
      s.(front := if s.front == s.n then 0 else s.front, cons := CSub(size))
    case CSub(size) =>
      s.(fill := s.fill - size, cons := CIdle)
    case ESnap =>
      s.(cons := EEmpty(s.rear, |s.sent|))
    case EEmpty(r, _) =>
      s.(cons := EHave(BytesSeen(s, r)))
    case ERead(size, out) =>
      if |out| < size then
        s.(cons := ERead(size, out + [Get(s.buf, s.front + |out|)]))
      else
        s.(front := Pos(s.front + size, s.n), got := s.got + out, cons := CSub(size))
  }

  function Apply(s: State, c: Choice): State
    requires Enabled(s, c) && s.n >= 1
  {
    match c
    case Enqueue(data) => s.(prod := if |data| == 0 then PIdle else PCheck(data))
    case AskRoom => s.(prod := DSnap)
    case Fill(data) => s.(prod := DWrite(data, 0))
    case Produce => Produced(s)
    case Dequeue(size, peek) => s.(cons := if size <= 0 then CIdle else CCheck(size, peek))
    case AskBytes => s.(cons := ESnap)
    case Drain(count) => s.(cons := ERead(count, []))
    case Consume => Consumed(s)
  }

  // The places not taken by bytes that _rear_ has passed and _front_ has not.
  function Vacant(s: State): int {
    s.n - 1 - (|s.sent| - |s.got|)
  }

  /** What the code should see to and does not always: what Enqueue's check lets
      in fits, and a drain is of bytes that are there. */
  predicate Careful(s: State, c: Choice) {
    && (c.Produce? && s.prod.PCheck? && |s.prod.data| <= Room(s.n, s.fill) ==> |s.prod.data| <= Vacant(s))
    && (c.Drain? ==> c.count <= |s.sent| - |s.got|)
  }

  predicate Initial(s: State) {
    && 1 <= s.n <= INT_MAX + 1 && |s.buf| == s.n
    && s.front == s.rear == 0 && s.fill == 0
    && s.prod == PIdle && s.cons == CIdle && s.sent == s.got == []
  }

  predicate IsRun(s: State, run: seq<Choice>)
    decreases |run|
  {
    run == [] || (s.n >= 1 && Enabled(s, run[0]) && IsRun(Apply(s, run[0]), run[1..]))
  }

  predicate IsCarefulRun(s: State, run: seq<Choice>)
    decreases |run|
  {
    run == [] ||
    (s.n >= 1 && Enabled(s, run[0]) && Careful(s, run[0]) && IsCarefulRun(Apply(s, run[0]), run[1..]))
  }

  function Final(s: State, run: seq<Choice>): State
    requires IsRun(s, run)
    decreases |run|
  {
    if run == [] then s else Final(Apply(s, run[0]), run[1..])
  }
}
