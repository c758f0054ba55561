/** The reader/writer lock of every sector: taken shared over a neighbourhood to
    send a message, taken exclusively over one or two sectors to move a user. */
module SectorLocks {
  import opened Bits
  import opened SectorAround

  function CountIn(readers: map<Pos, nat>, p: Pos): nat {
    if p in readers then readers[p] else 0
  }

  class LockTable {
    var readers: map<Pos, nat>
    var writers: set<Pos>

    constructor ()
      ensures readers == map[] && writers == {}
    {
      readers, writers := map[], {};
    }

    ghost function Readers(p: Pos): nat
      reads this
    {
      CountIn(readers, p)
    }

    // AcquireSRWLockShared on a lock that no writer holds.
    method AcquireShared(p: Pos)
      requires p !in writers
      modifies this`readers
      ensures forall q :: Readers(q) == old(Readers(q)) + if q == p then 1 else 0
    {
      readers := readers[p := (if p in readers then readers[p] else 0) + 1];
    }

    method ReleaseShared(p: Pos)
      requires Readers(p) > 0
      modifies this`readers
      ensures forall q :: Readers(q) == old(Readers(q)) - if q == p then 1 else 0
    {
      readers := readers[p := readers[p] - 1];
    }

    method LockSectorAround(a: SectorAround)
      requires a.Valid() && forall p <- a.Cells() :: p !in writers
      modifies this`readers
      ensures forall q :: Readers(q) == old(Readers(q)) + multiset(a.Cells())[q]
    {
      for cnt := 0 to a.count
        invariant forall q :: Readers(q) == old(Readers(q)) + multiset(a.Cells()[..cnt])[q]
      {
        assert a.Cells()[cnt] in a.Cells();
        AcquireShared(a.around[cnt]);
        assert a.Cells()[..cnt + 1] == a.Cells()[..cnt] + [a.Cells()[cnt]];
      }
      assert a.Cells()[..a.count] == a.Cells();
    }

    method UnlockSectorAround(a: SectorAround)
      requires a.Valid() && forall p :: multiset(a.Cells())[p] <= Readers(p)
      modifies this`readers
      ensures forall q :: Readers(q) == old(Readers(q)) - multiset(a.Cells())[q]
    {
      for cnt := 0 to a.count
        invariant forall q :: Readers(q) == old(Readers(q)) - multiset(a.Cells()[..cnt])[q]
      {
        PrefixCount(a.Cells(), cnt);
        ReleaseShared(a.around[cnt]);
        assert a.Cells()[..cnt + 1] == a.Cells()[..cnt] + [a.Cells()[cnt]];
      }
      assert a.Cells()[..a.count] == a.Cells();
    }

    /** What SendMessageAround does to the locks: the message goes to each cell of
        the neighbourhood; while it does, each cell of the neighbourhood has just
        one reader more than before, and every other as many; and afterwards every
        reader count is what it was. */
    method SendAround(sectorX: int, sectorY: int, w: nat, h: nat) returns (sent: seq<Pos>, ghost during: map<Pos, nat>)
      requires forall p :: InGrid(p, w, h) ==> p !in writers
      modifies this`readers
      ensures IsAround(sent, Pos(sectorX, sectorY), w, h)
      ensures forall q :: CountIn(during, q) ==
                old(Readers(q)) + if InGrid(q, w, h) && Near(q, Pos(sectorX, sectorY)) then 1 else 0
      ensures forall q :: Readers(q) == old(Readers(q))
    {
      var a := new SectorAround();
      GetSectorAround(sectorX, sectorY, w, h, a);
      LockSectorAround(a);
      RowMajorOnce(a.Cells());
      sent := [];
      for cnt := 0 to a.count
        invariant sent == a.Cells()[..cnt]
      {
        sent := sent + [a.around[cnt]];
      }
      during := readers;
      assert sent == a.Cells();
      assert forall q :: q in a.Cells() <==> InGrid(q, w, h) && Near(q, Pos(sectorX, sectorY));
      UnlockSectorAround(a);
    }
  }

  lemma PrefixCount(ps: seq<Pos>, k: nat)
    requires k < |ps|
    ensures multiset(ps)[ps[k]] >= multiset(ps[..k])[ps[k]] + 1
  {
    assert ps == ps[..k] + [ps[k]] + ps[k + 1..];
  }

  // ------------------------------------------------- all threads together

  /** A thread that takes the locks of its plan in order and then gives them
      back in order. A lock is named by its rank. */
  datatype Thread = Thread(plan: seq<nat>, shared: bool, got: nat, gave: nat)

  datatype State = State(threads: seq<Thread>, readers: map<nat, nat>, writers: set<nat>)

  function Readers(s: State, r: nat): nat {
    if r in s.readers then s.readers[r] else 0
  }

  predicate Increasing(plan: seq<nat>) {
    forall i, j :: 0 <= i < j < |plan| ==> plan[i] < plan[j]
  }

  predicate Wants(th: Thread, r: nat) {
    th.got < |th.plan| && th.plan[th.got] == r
  }

  predicate Holds(th: Thread, r: nat) {
    th.gave <= th.got <= |th.plan| && r in th.plan[th.gave..th.got]
  }

  predicate Finished(th: Thread) {
    th.got == |th.plan| == th.gave
  }

  predicate WriterWaits(s: State, r: nat) {
    exists t :: 0 <= t < |s.threads| && !s.threads[t].shared && Wants(s.threads[t], r)
  }

  /** When the lock lets the thread in. Where queueing is on, a reader also waits
      for the writers that wait for the same lock. */
  predicate CanAcquire(s: State, t: nat, queueing: bool) {
    && t < |s.threads| && s.threads[t].got < |s.threads[t].plan|
    && var r := s.threads[t].plan[s.threads[t].got];
       && r !in s.writers
       && (if s.threads[t].shared then queueing ==> !WriterWaits(s, r) else Readers(s, r) == 0)
  }

  predicate CanRelease(s: State, t: nat) {
    && t < |s.threads|
    && s.threads[t].got == |s.threads[t].plan| && s.threads[t].gave < s.threads[t].got
  }

  predicate CanStep(s: State, t: nat, queueing: bool) {
    CanAcquire(s, t, queueing) || CanRelease(s, t)
  }

  function Step(s: State, t: nat, queueing: bool): State
    requires CanStep(s, t, queueing)
  {
    var th := s.threads[t];
    if CanAcquire(s, t, queueing) then
      var r := th.plan[th.got];
      var s' := s.(threads := s.threads[t := th.(got := th.got + 1)]);
      if th.shared then s'.(readers := s.readers[r := Readers(s, r) + 1])
      else s'.(writers := s.writers + {r})
    else
      var r := th.plan[th.gave];
      var s' := s.(threads := s.threads[t := th.(gave := th.gave + 1)]);
      if th.shared then s'.(readers := s.readers[r := if Readers(s, r) > 0 then Readers(s, r) - 1 else 0])
      else s'.(writers := s.writers - {r})
  }

  predicate Start(s: State) {
    && s.readers == map[] && s.writers == {}
    && forall t :: 0 <= t < |s.threads| ==>
         Increasing(s.threads[t].plan) && s.threads[t].got == s.threads[t].gave == 0
  }

  // The shared holders of lock r among the first n threads.
  function Sharers(threads: seq<Thread>, r: nat): nat {
    if threads == [] then 0
    else
      var th := threads[|threads| - 1];
      Sharers(threads[..|threads| - 1], r) + if th.shared && Holds(th, r) then 1 else 0
  }

  predicate ThreadOk(th: Thread) {
    && Increasing(th.plan) && th.gave <= th.got <= |th.plan|
    && (th.gave > 0 ==> th.got == |th.plan|)
  }

  /** The table says who holds what, and a writer is alone. */
  ghost predicate Inv(s: State) {
    && (forall t :: 0 <= t < |s.threads| ==> ThreadOk(s.threads[t]))
    && (forall r :: Readers(s, r) == Sharers(s.threads, r))
    && (forall t, r :: 0 <= t < |s.threads| && !s.threads[t].shared && Holds(s.threads[t], r) ==> r in s.writers)
    && (forall r <- s.writers :: Readers(s, r) == 0 &&
          exists t :: 0 <= t < |s.threads| && !s.threads[t].shared && Holds(s.threads[t], r))
    && (forall t, u, r :: 0 <= t < u < |s.threads| && !s.threads[t].shared && !s.threads[u].shared ==>
          !(Holds(s.threads[t], r) && Holds(s.threads[u], r)))
  }

  lemma {:induction false} SharersUpdate(threads: seq<Thread>, t: nat, th: Thread, r: nat)
    requires t < |threads|
    ensures Sharers(threads[t := th], r) ==
            Sharers(threads, r) - (if threads[t].shared && Holds(threads[t], r) then 1 else 0)
                                + (if th.shared && Holds(th, r) then 1 else 0)
  {
    var n := |threads| - 1;
    if t == n {
      assert threads[t := th][..n] == threads[..n];
    } else {
      SharersUpdate(threads[..n], t, th, r);
      assert threads[t := th][..n] == threads[..n][t := th];
    }
  }

  lemma {:induction false} SharerCounts(threads: seq<Thread>, t: nat, r: nat)
    requires t < |threads| && threads[t].shared && Holds(threads[t], r)
    ensures Sharers(threads, r) > 0
  {
    if t < |threads| - 1 {
      SharerCounts(threads[..|threads| - 1], t, r);
    }
  }

  lemma {:induction false} SomeSharer(threads: seq<Thread>, r: nat) returns (t: nat)
    requires Sharers(threads, r) > 0
    ensures t < |threads| && threads[t].shared && Holds(threads[t], r)
  {
    t := |threads| - 1;
    if !(threads[t].shared && Holds(threads[t], r)) {
      t := SomeSharer(threads[..t], r);
    }
  }

  // Taking the next lock adds exactly that one; giving one back removes it.
  lemma HoldsStep(th: Thread, r: nat)
    requires ThreadOk(th)
    ensures th.got < |th.plan| ==>
              (Holds(th.(got := th.got + 1), r) <==> Holds(th, r) || r == th.plan[th.got])
    ensures th.got < |th.plan| ==> !Holds(th, th.plan[th.got])
    ensures th.gave < th.got ==>
              (Holds(th.(gave := th.gave + 1), r) <==> Holds(th, r) && r != th.plan[th.gave])
    ensures th.gave < th.got ==> Holds(th, th.plan[th.gave])
  {
    if th.got < |th.plan| {
      assert th.plan[th.gave..th.got + 1] == th.plan[th.gave..th.got] + [th.plan[th.got]];
    }
    if th.gave < th.got {
      assert th.plan[th.gave..th.got] == [th.plan[th.gave]] + th.plan[th.gave + 1..th.got];
    }
  }

  // What a step of thread t is, for lock r of every rank.
  lemma StepShape(s: State, t: nat, queueing: bool)
    requires Inv(s) && CanStep(s, t, queueing)
    ensures var s' := Step(s, t, queueing);
            && |s'.threads| == |s.threads| && ThreadOk(s'.threads[t])
            && s'.threads[t].shared == s.threads[t].shared
            && forall u :: 0 <= u < |s.threads| && u != t ==> s'.threads[u] == s.threads[u]
  {
    hide Holds, Sharers;
    assert ThreadOk(s.threads[t]);
  }

  // The lock that the step of thread t is about.
  function Subject(s: State, t: nat, queueing: bool): nat
    requires CanStep(s, t, queueing)
  {
    var th := s.threads[t];
    if CanAcquire(s, t, queueing) then th.plan[th.got] else th.plan[th.gave]
  }

  lemma StepHolds(s: State, t: nat, queueing: bool, r: nat)
    requires Inv(s) && CanStep(s, t, queueing)
    ensures var s' := Step(s, t, queueing);
            Holds(s'.threads[t], r) <==>
            if r == Subject(s, t, queueing) then CanAcquire(s, t, queueing) else Holds(s.threads[t], r)
    ensures CanAcquire(s, t, queueing) <==> !Holds(s.threads[t], Subject(s, t, queueing))
  {
    hide Holds, Sharers;
    assert ThreadOk(s.threads[t]);
    HoldsStep(s.threads[t], r);
    HoldsStep(s.threads[t], Subject(s, t, queueing));
  }

  lemma KeepReaders(s: State, t: nat, queueing: bool, r: nat)
    requires Inv(s) && CanStep(s, t, queueing)
    ensures Readers(Step(s, t, queueing), r) == Sharers(Step(s, t, queueing).threads, r)
  {
    hide Holds, Sharers, ThreadOk, WriterWaits;
    var s' := Step(s, t, queueing);
    var q := Subject(s, t, queueing);
    StepShape(s, t, queueing);
    StepHolds(s, t, queueing, r);
    SharersUpdate(s.threads, t, s'.threads[t], r);
    assert s'.threads == s.threads[t := s'.threads[t]];
    if s.threads[t].shared && !CanAcquire(s, t, queueing) {
      StepHolds(s, t, queueing, q);
      SharerCounts(s.threads, t, q);
    }
  }

  // Only writers are in the way of a reader, and anyone of a writer.
  lemma Excluded(s: State, t: nat, queueing: bool, u: nat)
    requires Inv(s) && CanAcquire(s, t, queueing) && u < |s.threads|
    ensures !s.threads[u].shared ==> !Holds(s.threads[u], s.threads[t].plan[s.threads[t].got])
  {
    hide Holds, Sharers;
  }

  lemma KeepStep(s: State, t: nat, queueing: bool)
    requires Inv(s) && CanStep(s, t, queueing)
    ensures Inv(Step(s, t, queueing))
  {
    hide Holds, Sharers, ThreadOk, WriterWaits;
    var s', q := Step(s, t, queueing), Subject(s, t, queueing);
    StepShape(s, t, queueing);
    forall r ensures Readers(s', r) == Sharers(s'.threads, r) {
      KeepReaders(s, t, queueing, r);
    }
    forall r
      ensures Holds(s'.threads[t], r) <==>
              if r == q then CanAcquire(s, t, queueing) else Holds(s.threads[t], r)
    {
      StepHolds(s, t, queueing, r);
    }
    StepHolds(s, t, queueing, q);
    if CanAcquire(s, t, queueing) {
      forall u | 0 <= u < |s.threads| && !s.threads[u].shared ensures !Holds(s.threads[u], q) {
        Excluded(s, t, queueing, u);
      }
    }
    forall r | r in s'.writers
      ensures exists u :: 0 <= u < |s'.threads| && !s'.threads[u].shared && Holds(s'.threads[u], r)
    {
      KeepWriter(s, t, queueing, r);
    }
  }

  // Every lock in the table of writers is still held by one.
  lemma KeepWriter(s: State, t: nat, queueing: bool, r: nat)
    requires Inv(s) && CanStep(s, t, queueing) && r in Step(s, t, queueing).writers
    ensures var s' := Step(s, t, queueing);
            exists u :: 0 <= u < |s'.threads| && !s'.threads[u].shared && Holds(s'.threads[u], r)
  {
    hide Holds, Sharers, ThreadOk, WriterWaits;
    var s' := Step(s, t, queueing);
    StepShape(s, t, queueing);
    StepHolds(s, t, queueing, r);
    if r in s.writers {
      var u :| 0 <= u < |s.threads| && !s.threads[u].shared && Holds(s.threads[u], r);
      assert !s'.threads[u].shared && Holds(s'.threads[u], r);
    } else {
      assert Holds(s'.threads[t], r);
    }
  }

  /** Who may go on, in terms of who holds what: a reader is let in exactly when no
      writer holds the lock (nor waits for it, where writers have precedence), a writer
      exactly when nobody holds it, and a thread that has all its locks may give one
      back. */
  lemma WhoMayStep(s: State, t: nat, queueing: bool)
    requires Inv(s) && t < |s.threads| && !Finished(s.threads[t])
    ensures var th := s.threads[t];
            if th.got == |th.plan| then CanStep(s, t, queueing)
            else var r := th.plan[th.got];
                 CanStep(s, t, queueing) <==>
                 (forall u :: 0 <= u < |s.threads| && Holds(s.threads[u], r) ==> th.shared && s.threads[u].shared) &&
                 (th.shared && queueing ==>
                    forall u :: 0 <= u < |s.threads| && !s.threads[u].shared ==> !Wants(s.threads[u], r))
  {
    hide Holds, Sharers;
    var th := s.threads[t];
    assert ThreadOk(th);
    if th.got < |th.plan| {
      var r := th.plan[th.got];
      if !th.shared && Readers(s, r) > 0 {
        var u := SomeSharer(s.threads, r);
        assert Holds(s.threads[u], r);
      }
      forall u | 0 <= u < |s.threads| && s.threads[u].shared && Holds(s.threads[u], r) ensures Readers(s, r) > 0 {
        SharerCounts(s.threads, u, r);
      }
    }
  }

  lemma StartInv(s: State)
    requires Start(s)
    ensures Inv(s)
  {
    forall r ensures Sharers(s.threads, r) == 0 {
      if Sharers(s.threads, r) > 0 {
        var _ := SomeSharer(s.threads, r);
      }
    }
  }

  // ------------------------------------------------------ no deadlock

  // Among threads that still want a lock, one whose lock has the highest rank.
  lemma {:induction false} HighestWanted(threads: seq<Thread>, t0: nat) returns (t: nat)
    requires t0 < |threads| && threads[t0].got < |threads[t0].plan|
    ensures t < |threads| && threads[t].got < |threads[t].plan|
    ensures forall u :: 0 <= u < |threads| && threads[u].got < |threads[u].plan| ==>
              threads[u].plan[threads[u].got] <= threads[t].plan[threads[t].got]
  {
    t := t0;
    var k := 0;
    while k < |threads|
      invariant k <= |threads| && t < |threads| && threads[t].got < |threads[t].plan|
      invariant forall u :: 0 <= u < k && threads[u].got < |threads[u].plan| ==>
                  threads[u].plan[threads[u].got] <= threads[t].plan[threads[t].got]
    {
      var th := threads[k];
      if th.got < |th.plan| && th.plan[th.got] > threads[t].plan[threads[t].got] {
        t := k;
      }
      k := k + 1;
    }
  }

  // Whoever holds a lock and cannot give it back yet wants a higher one.
  lemma HolderWantsHigher(th: Thread, r: nat)
    requires ThreadOk(th) && Holds(th, r)
    ensures th.gave < th.got
    ensures th.got < |th.plan| ==> r < th.plan[th.got]
  {
    var i :| 0 <= i < |th.plan[th.gave..th.got]| && th.plan[th.gave..th.got][i] == r;
    assert th.plan[th.gave + i] == r;
  }

  /** Deadlock freedom: while some thread is unfinished some thread can step,
      whether or not waiting writers hold up new readers. */
  lemma SomeoneCanStep(s: State, queueing: bool, t0: nat) returns (t: nat)
    requires Inv(s) && t0 < |s.threads| && !Finished(s.threads[t0])
    ensures CanStep(s, t, queueing)
  {
    hide Holds, Sharers;
    if w :| 0 <= w < |s.threads| && CanRelease(s, w) {
      return w;
    }
    assert ThreadOk(s.threads[t0]);
    assert !CanRelease(s, t0);
    t := HighestWanted(s.threads, t0);
    var r := s.threads[t].plan[s.threads[t].got];
    forall u | 0 <= u < |s.threads| ensures !Holds(s.threads[u], r) {
      assert !CanRelease(s, u) && ThreadOk(s.threads[u]);
      if Holds(s.threads[u], r) {
        HolderWantsHigher(s.threads[u], r);
      }
    }
    assert Readers(s, r) == 0 by {
      if Sharers(s.threads, r) > 0 {
        var _ := SomeSharer(s.threads, r);
      }
    }
    if w :| 0 <= w < |s.threads| && !s.threads[w].shared && Wants(s.threads[w], r) {
      t := w;
    }
  }

  predicate IsRun(s: State, run: seq<nat>, queueing: bool)
    decreases |run|
  {
    run == [] || (CanStep(s, run[0], queueing) && IsRun(Step(s, run[0], queueing), run[1..], queueing))
  }

  function Final(s: State, run: seq<nat>, queueing: bool): State
    requires IsRun(s, run, queueing)
    decreases |run|
  {
    if run == [] then s else Final(Step(s, run[0], queueing), run[1..], queueing)
  }

  // The steps the threads have still to take.
  function Left(threads: seq<Thread>): int {
    if threads == [] then 0
    else
      var th := threads[|threads| - 1];
      Left(threads[..|threads| - 1]) + 2 * |th.plan| - th.got - th.gave
  }

  lemma {:induction false} LeftUpdate(threads: seq<Thread>, t: nat, th: Thread)
    requires t < |threads| && th.plan == threads[t].plan
    ensures Left(threads[t := th]) == Left(threads) + threads[t].got + threads[t].gave - th.got - th.gave
  {
    var n := |threads| - 1;
    if t == n {
      assert threads[t := th][..n] == threads[..n];
    } else {
      LeftUpdate(threads[..n], t, th);
      assert threads[t := th][..n] == threads[..n][t := th];
    }
  }

  lemma {:induction false} LeftNonNegative(threads: seq<Thread>)
    requires forall t :: 0 <= t < |threads| ==> ThreadOk(threads[t])
    ensures Left(threads) >= 0
  {
    if threads != [] {
      LeftNonNegative(threads[..|threads| - 1]);
      assert ThreadOk(threads[|threads| - 1]);
    }
  }

  lemma StepLeft(s: State, t: nat, queueing: bool)
    requires Inv(s) && CanStep(s, t, queueing)
    ensures Left(Step(s, t, queueing).threads) == Left(s.threads) - 1
  {
    hide Inv, Holds, Sharers, WriterWaits;
    LeftUpdate(s.threads, t, Step(s, t, queueing).threads[t]);
  }

  lemma {:induction false} KeepRun(s: State, run: seq<nat>, queueing: bool)
    requires Inv(s) && IsRun(s, run, queueing)
    ensures Inv(Final(s, run, queueing))
    ensures Left(Final(s, run, queueing).threads) == Left(s.threads) - |run|
    decreases |run|
  {
    hide Inv, CanStep, Step;
    if run != [] {
      KeepStep(s, run[0], queueing);
      StepLeft(s, run[0], queueing);
      KeepRun(Step(s, run[0], queueing), run[1..], queueing);
    }
  }

  /** Any number of readers and writers, in any order: runs are bounded, and
      when no thread can step every thread has finished and every lock is as it
      was at the start. */
  lemma EveryoneFinishes(s: State, run: seq<nat>, queueing: bool)
    requires Start(s) && IsRun(s, run, queueing)
    ensures |run| <= Left(s.threads)
    ensures var f := Final(s, run, queueing);
            (forall t :: !CanStep(f, t, queueing)) ==>
              && (forall t :: 0 <= t < |f.threads| ==> Finished(f.threads[t]))
              && f.writers == {} && forall r :: Readers(f, r) == 0
  {
    StartInv(s);
    KeepRun(s, run, queueing);
    var f := Final(s, run, queueing);
    LeftNonNegative(f.threads);
    if forall t :: !CanStep(f, t, queueing) {
      forall t | 0 <= t < |f.threads| ensures Finished(f.threads[t]) {
        if !Finished(f.threads[t]) {
          var _ := SomeoneCanStep(f, queueing, t);
        }
      }
      NothingHeld(f);
    }
  }

  lemma NothingHeld(s: State)
    requires Inv(s) && forall t :: 0 <= t < |s.threads| ==> Finished(s.threads[t])
    ensures s.writers == {} && forall r :: Readers(s, r) == 0
  {
    forall r ensures Readers(s, r) == 0 {
      if Sharers(s.threads, r) > 0 {
        var _ := SomeSharer(s.threads, r);
      }
    }
  }

  // ------------------------------------------------ the plans of the source

  function Rank(p: Pos, w: nat, h: nat): nat
    requires InGrid(p, w, h)
  {
    p.y * w + p.x
  }

  // In the grid row-major order is the order of ranks.
  lemma RankOrder(p: Pos, q: Pos, w: nat, h: nat)
    requires InGrid(p, w, h) && InGrid(q, w, h)
    ensures Before(p, q) <==> Rank(p, w, h) < Rank(q, w, h)
  {
    if p.y < q.y {
      RowBelow(p.y, q.y, w, p.x);
    } else if q.y < p.y {
      RowBelow(q.y, p.y, w, q.x);
    }
  }

  // Every rank of a row is below every rank of a later one.
  lemma RowBelow(a: nat, b: nat, w: nat, x: nat)
    requires a < b && x < w
    ensures a * w + x < b * w
  {
    MulMonotone(a + 1, b, w);
    assert (a + 1) * w == a * w + w;
  }

  function Ranks(ps: seq<Pos>, w: nat, h: nat): (rs: seq<nat>)
    requires forall p <- ps :: InGrid(p, w, h)
    ensures |rs| == |ps|
  {
    seq(|ps|, i requires 0 <= i < |ps| => assert ps[i] in ps; Rank(ps[i], w, h))
  }

  /** The locks ProcSectorMove takes, in the order it sorts them into: the target
      sector, and the user's own if that is another one. */
  function MoveLocks(inSector: bool, from: Pos, to: Pos): seq<Pos> {
    if inSector && from != to then
      if Before(to, from) then [to, from] else [from, to]
    else [to]
  }

  /** Both kinds of thread take their locks in strictly increasing rank, so
      EveryoneFinishes applies to all of them together. */
  lemma PlansIncrease(ps: seq<Pos>, w: nat, h: nat)
    requires RowMajor(ps) && forall p <- ps :: InGrid(p, w, h)
    ensures Increasing(Ranks(ps, w, h))
  {
    forall i, j | 0 <= i < j < |ps| ensures Ranks(ps, w, h)[i] < Ranks(ps, w, h)[j] {
      assert ps[i] in ps && ps[j] in ps;
      RankOrder(ps[i], ps[j], w, h);
    }
  }

  lemma MovePlan(inSector: bool, from: Pos, to: Pos, w: nat, h: nat)
    requires InGrid(to, w, h) && (inSector ==> InGrid(from, w, h))
    ensures var ps := MoveLocks(inSector, from, to);
            && RowMajor(ps) && (forall p <- ps :: InGrid(p, w, h))
            && (forall p :: p in ps <==> p == to || (inSector && p == from))
            && Increasing(Ranks(ps, w, h))
  {
    PlansIncrease(MoveLocks(inSector, from, to), w, h);
  }

  lemma AroundPlan(ps: seq<Pos>, c: Pos, w: nat, h: nat)
    requires IsAround(ps, c, w, h)
    ensures (forall p <- ps :: InGrid(p, w, h)) && Increasing(Ranks(ps, w, h))
  {
    PlansIncrease(ps, w, h);
  }
}
