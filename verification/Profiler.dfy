/** One thread's table of profiles. */
module Profiler {
  import opened Wrappers
  import opened Sums
  import opened ProfileStats

  const MAX_PROFILE: nat := 40

  // stPROFILE; the samples are what it has been given since it was last reset.
  class Slot {
    var flag: bool
    var name: string
    var startTime: int
    var totalTime: int
    const min: array<int>
    const max: array<int>
    var call: nat
    ghost var samples: seq<int>

    constructor ()
      ensures !flag && startTime == 0 && fresh(min) && fresh(max)
      ensures min.Length == 2 && max.Length == 2 && min != max && samples == []
    {
      flag, name, startTime, totalTime, call, samples := false, "", 0, 0, 0, [];
      min, max := new int[2](_ => 0), new int[2](_ => 0);
    }

    ghost predicate Shape() {
      min.Length == 2 && max.Length == 2 && min != max
    }

    /** The numbers kept are those of the samples. */
    ghost predicate Tracks()
      reads this, min, max
    {
      && Shape()
      && (forall y <- samples :: 0 <= y < LLONG_MAX)
      && min[0] == Low(samples, 0) && min[1] == Low(samples, 1)
      && max[0] == High(samples, 0) && max[1] == High(samples, 1)
      && totalTime == Wrap64(Sum(samples)) && call == |samples|
    }

    method InitProfile()
      requires Shape()
      modifies this`flag, this`startTime, this`totalTime, this`call, this`samples, min, max
      ensures Tracks() && flag && startTime == 0 && samples == []
    {
      flag := true;
      min[0] := LLONG_MAX;
      min[1] := LLONG_MAX;
      max[0] := 0;
      max[1] := 0;
      call := 0;
      totalTime := 0;
      startTime := 0;
      samples := [];
    }

    method Open(now: int)
      requires Tracks()
      modifies this`startTime
      ensures Tracks() && startTime == now
    {
      startTime := now;
    }

    // The two loops of ProfileEnd and what follows them.
    method Record(diffTime: int)
      requires Tracks() && 0 <= diffTime < LLONG_MAX
      modifies this`startTime, this`totalTime, this`call, this`samples, min, max
      ensures Tracks() && startTime == 0 && samples == old(samples) + [diffTime]
    {
      hide Low, High, Sum, Wrap64;
      KeptOrdered(samples);
      startTime := 0;
      UpdateMin(diffTime);
      UpdateMax(diffTime);
      UpdateCorrect(samples, diffTime);
      SumAppend(samples, [diffTime]);
      SumOne(diffTime);
      WrapLater(Sum(samples), diffTime);
      totalTime := Wrap64(totalTime + diffTime);
      call := call + 1;
      samples := samples + [diffTime];
    }

    method UpdateMin(diffTime: int)
      requires Shape() && min[0] <= min[1]
      modifies min
      ensures (min[0], min[1]) == Smaller(old((min[0], min[1])), diffTime)
    {
      var cmpTime := diffTime;
      for cnt := 0 to 2
        invariant cnt == 0 ==> (min[0], min[1], cmpTime) == (old(min[0]), old(min[1]), diffTime)
        invariant cnt == 1 && old(min[0]) > diffTime ==> (min[0], min[1], cmpTime) == (diffTime, old(min[1]), old(min[0]))
        invariant cnt == 1 && old(min[0]) <= diffTime ==> (min[0], min[1], cmpTime) == (old(min[0]), old(min[1]), diffTime)
        invariant cnt == 2 ==> (min[0], min[1]) == Smaller(old((min[0], min[1])), diffTime)
      {
        if min[cnt] > cmpTime {
          var tempTime := min[cnt];
          min[cnt] := cmpTime;
          cmpTime := tempTime;
        }
      }
    }

    method UpdateMax(diffTime: int)
      requires Shape() && max[0] >= max[1]
      modifies max
      ensures (max[0], max[1]) == Larger(old((max[0], max[1])), diffTime)
    {
      var cmpTime := diffTime;
      for cnt := 0 to 2
        invariant cnt == 0 ==> (max[0], max[1], cmpTime) == (old(max[0]), old(max[1]), diffTime)
        invariant cnt == 1 && old(max[0]) < diffTime ==> (max[0], max[1], cmpTime) == (diffTime, old(max[1]), old(max[0]))
        invariant cnt == 1 && old(max[0]) >= diffTime ==> (max[0], max[1], cmpTime) == (old(max[0]), old(max[1]), diffTime)
        invariant cnt == 2 ==> (max[0], max[1]) == Larger(old((max[0], max[1])), diffTime)
      {
        if max[cnt] < cmpTime {
          var tempTime := max[cnt];
          max[cnt] := cmpTime;
          cmpTime := tempTime;
        }
      }
    }

    // The figures of one line of the report.
    method Report() returns (average: Option<real>, low: int, high: int)
      requires Tracks()
      ensures average == Printed(samples) && low == Low(samples, 0) && high == High(samples, 0)
    {
      var numerator := Numerator(totalTime, min[0], min[1], max[0], max[1]);
      return Average(numerator, call), min[0], max[0];
    }
  }

  // What is recorded under a name: the samples, and the start of an open timing.
  type Entry = (seq<int>, int)

  ghost function LookupIn(names: seq<string>, entries: seq<Entry>, tag: string): Option<Entry> {
    if i :| 0 <= i < |names| && i < |entries| && names[i] == tag then Some(entries[i]) else None
  }

  predicate Distinct(names: seq<string>) {
    forall i, j :: 0 <= i < j < |names| ==> names[i] != names[j]
  }

  lemma LookupAt(names: seq<string>, entries: seq<Entry>, k: nat)
    requires k < |names| == |entries| && Distinct(names)
    ensures LookupIn(names, entries, names[k]) == Some(entries[k])
  {
  }

  lemma LookupUpdate(names: seq<string>, entries: seq<Entry>, k: nat, e: Entry)
    requires k < |names| == |entries| && Distinct(names)
    ensures forall t :: LookupIn(names, entries[k := e], t) ==
              if t == names[k] then Some(e) else LookupIn(names, entries, t)
  {
    forall t ensures LookupIn(names, entries[k := e], t) ==
                     if t == names[k] then Some(e) else LookupIn(names, entries, t)
    {
      if i :| 0 <= i < |names| && names[i] == t {
        LookupAt(names, entries, i);
        LookupAt(names, entries[k := e], i);
      }
    }
  }

  lemma LookupAppend(names: seq<string>, entries: seq<Entry>, tag: string, e: Entry)
    requires |names| == |entries| && Distinct(names) && tag !in names
    ensures Distinct(names + [tag])
    ensures forall t :: LookupIn(names + [tag], entries + [e], t) ==
              if t == tag then Some(e) else LookupIn(names, entries, t)
  {
    var ns, es := names + [tag], entries + [e];
    forall t ensures LookupIn(ns, es, t) == if t == tag then Some(e) else LookupIn(names, entries, t) {
      if t == tag {
        LookupAt(ns, es, |names|);
      } else if i :| 0 <= i < |ns| && ns[i] == t {
        LookupAt(ns, es, i);
        LookupAt(names, entries, i);
      } else {
        assert forall j :: 0 <= j < |names| ==> ns[j] == names[j];
      }
    }
  }

  // Two slots that have nothing in common.
  ghost predicate SlotsApart(p: Slot, q: Slot) {
    {p as object, p.min, p.max} !! {q as object, q.min, q.max}
  }

  // THREAD_PROFILE
  class ThreadProfile {
    const profiles: array<Slot>
    var idx: nat

    // A table as the program starts with: no slot in use.
    constructor ()
      ensures Valid() && idx == 0 && fresh(profiles) && forall t :: Lookup(t) == None
    {
      var slots: seq<Slot> := [];
      for i := 0 to MAX_PROFILE
        invariant |slots| == i && forall p <- slots :: fresh(p) && fresh(p.min) && fresh(p.max) && p.Shape() && !p.flag
        invariant forall j, k :: 0 <= j < k < i ==> SlotsApart(slots[j], slots[k])
      {
        var p := new Slot();
        slots := slots + [p];
      }
      idx := 0;
      profiles := new Slot[MAX_PROFILE](i requires 0 <= i < MAX_PROFILE && |slots| == MAX_PROFILE => slots[i]);
    }

    ghost predicate Apart(i: nat, j: nat)
      requires i < profiles.Length && j < profiles.Length
      reads profiles
    {
      SlotsApart(profiles[i], profiles[j])
    }

    /** The first idx slots are in use, under different names, and each tracks its
        own samples. */
    ghost predicate Valid()
      reads this, profiles, profiles[..], (set p | p in profiles[..] :: p.min), (set p | p in profiles[..] :: p.max)
    {
      && profiles.Length == MAX_PROFILE && idx <= MAX_PROFILE
      && (forall i, j :: 0 <= i < j < MAX_PROFILE ==> Apart(i, j))
      && (forall i :: 0 <= i < MAX_PROFILE ==> profiles[i].Shape() && (profiles[i].flag <==> i < idx))
      && (forall i :: 0 <= i < idx ==> profiles[i].Tracks())
      && (forall i, j :: 0 <= i < j < idx ==> profiles[i].name != profiles[j].name)
    }

    ghost function Arrays(): set<object>
      reads this, profiles, profiles[..]
    {
      (set p | p in profiles[..] :: p.min as object) + (set p | p in profiles[..] :: p.max as object)
    }

    ghost function Names(): (ns: seq<string>)
      requires profiles.Length == MAX_PROFILE && idx <= MAX_PROFILE
      reads this, profiles, profiles[..]
      ensures |ns| == idx
    {
      seq(idx, i requires 0 <= i < idx && profiles.Length == MAX_PROFILE && idx <= MAX_PROFILE
                 reads this, profiles, profiles[..] => profiles[i].name)
    }

    ghost function Entries(): (es: seq<Entry>)
      requires profiles.Length == MAX_PROFILE && idx <= MAX_PROFILE
      reads this, profiles, profiles[..]
      ensures |es| == idx
    {
      seq(idx, i requires 0 <= i < idx && profiles.Length == MAX_PROFILE && idx <= MAX_PROFILE
                 reads this, profiles, profiles[..] => (profiles[i].samples, profiles[i].startTime))
    }

    // What the table holds under a name.
    ghost function Lookup(tag: string): Option<Entry>
      requires profiles.Length == MAX_PROFILE && idx <= MAX_PROFILE
      reads this, profiles, profiles[..]
    {
      LookupIn(Names(), Entries(), tag)
    }

    // The search of ProfileBegin and ProfileEnd.
    method Find(tag: string) returns (found: bool, curIdx: nat)
      requires Valid()
      ensures found ==> curIdx < idx && profiles[curIdx].name == tag
      ensures found ==> Lookup(tag) == Some((profiles[curIdx].samples, profiles[curIdx].startTime))
      ensures !found ==> tag !in Names() && Lookup(tag) == None
    {
      found, curIdx := false, 0;
      for cnt := 0 to MAX_PROFILE
        invariant !found && forall i :: 0 <= i < cnt && i < idx ==> profiles[i].name != tag
      {
        if !profiles[cnt].flag { continue; }
        if profiles[cnt].name == tag {
          assert Distinct(Names());
          LookupAt(Names(), Entries(), cnt);
          return true, cnt;
        }
      }
    }

    /** ProfileBegin at time now: opens the timing of the tag, making a slot for it
        if it has none; a timing already open is the source's deliberate crash. */
    method ProfileBegin(tag: string, now: int) returns (crashed: bool)
      requires Valid() && now > 0
      requires idx < MAX_PROFILE || Lookup(tag).Some?
      modifies this, profiles[..], Arrays()
      ensures Valid()
      ensures var was := old(Lookup(tag));
              && crashed == (was.Some? && was.value.1 != 0)
              && forall t :: Lookup(t) ==
                   if t == tag && !crashed then Some((if was.Some? then was.value.0 else [], now))
                   else old(Lookup(t))
    {
      hide Slot.Tracks, LookupIn, Apart;
      ghost var names, entries := Names(), Entries();
      assert Distinct(names);
      var found, curIdx := Find(tag);
      if found {
        if profiles[curIdx].startTime != 0 {
          return true;
        }
        LookupUpdate(names, entries, curIdx, (entries[curIdx].0, now));
        OpenAt(curIdx, now);
      } else {
        OpenNew(tag, now);
      }
      return false;
    }

    // The first timing of a name.
    method OpenNew(tag: string, now: int)
      requires Valid() && tag !in Names() && idx < MAX_PROFILE
      modifies this`idx, profiles[..], Arrays()
      ensures Valid()
      ensures forall t :: Lookup(t) == if t == tag then Some(([], now)) else old(Lookup(t))
    {
      hide Slot.Tracks, LookupIn, Apart;
      ghost var names, entries := Names(), Entries();
      assert Distinct(names);
      LookupAppend(names, entries, tag, ([], now));
      var curIdx := NewSlot(tag);
      OpenAt(curIdx, now);
      assert Entries() == entries + [([], now)];
    }

    // startTime of a slot in use.
    method OpenAt(at: nat, now: int)
      requires Valid() && at < idx
      modifies profiles[at]
      ensures Valid() && Names() == old(Names())
      ensures Entries() == old(Entries())[at := (old(Entries())[at].0, now)]
    {
      ghost var entries := Entries();
      hide Slot.Tracks;
      profiles[at].Open(now);
    }

    method NewSlot(tag: string) returns (curIdx: nat)
      requires Valid() && tag !in Names() && idx < MAX_PROFILE
      modifies this`idx, profiles[idx], profiles[idx].min, profiles[idx].max
      ensures Valid() && curIdx == old(idx) && idx == curIdx + 1
      ensures Names() == old(Names()) + [tag] && Entries() == old(Entries()) + [([], 0)]
    {
      hide Apart, Low, High, Sum;
      curIdx := idx;
      ghost var names, entries := Names(), Entries();
      assert forall i :: 0 <= i < |names| ==> names[i] != tag;
      var slot := profiles[curIdx];
      Separate(curIdx);
      idx := idx + 1;
      slot.name := tag;
      slot.InitProfile();
      forall i | 0 <= i < curIdx
        ensures profiles[i].Tracks() && profiles[i].name == names[i]
        ensures (profiles[i].samples, profiles[i].startTime) == entries[i]
      {
        assert old(profiles[i].Tracks());
      }
      assert forall i, j :: 0 <= i < j < MAX_PROFILE ==> Apart(i, j) by {
        forall i, j | 0 <= i < j < MAX_PROFILE ensures Apart(i, j) {
          assert old(Apart(i, j));
        }
      }
      assert Names() == names + [tag];
      assert Entries() == entries + [([], 0)];
    }

    /** ProfileEnd at time now: the time since the start becomes one more sample of
        the tag. A tag that was never begun is the source's deliberate crash. */
    method ProfileEnd(tag: string, now: int) returns (crashed: bool)
      requires Valid()
      requires Lookup(tag).Some? ==> 0 <= now - Lookup(tag).value.1 < LLONG_MAX
      modifies this, profiles[..], Arrays()
      ensures Valid()
      ensures var was := old(Lookup(tag));
              && crashed == was.None?
              && forall t :: Lookup(t) ==
                   if t == tag && !crashed then Some((was.value.0 + [now - was.value.1], 0))
                   else old(Lookup(t))
    {
      hide Slot.Tracks, LookupIn, Apart;
      ghost var names, entries := Names(), Entries();
      assert Distinct(names);
      var found, curIdx := Find(tag);
      if !found {
        return true;
      }
      var diffTime := now - profiles[curIdx].startTime;
      LookupUpdate(names, entries, curIdx, (entries[curIdx].0 + [diffTime], 0));
      RecordAt(curIdx, diffTime);
      return false;
    }

    method RecordAt(at: nat, diffTime: int)
      requires Valid() && at < idx && 0 <= diffTime < LLONG_MAX
      modifies profiles[at], profiles[at].min, profiles[at].max
      ensures Valid() && Names() == old(Names())
      ensures Entries() == old(Entries())[at := (old(Entries())[at].0 + [diffTime], 0)]
    {
      hide Apart, Low, High, Sum;
      ghost var names, entries := Names(), Entries();
      Separate(at);
      var slot := profiles[at];
      slot.Record(diffTime);
      Settle(at, names, entries, (entries[at].0 + [diffTime], 0));
    }

    // The slots other than this one have nothing in common with it.
    lemma Separate(at: nat)
      requires Valid() && at < MAX_PROFILE
      ensures forall i :: 0 <= i < MAX_PROFILE && i != at ==>
                && profiles[i] != profiles[at]
                && profiles[i].min !in {profiles[at].min, profiles[at].max}
                && profiles[i].max !in {profiles[at].min, profiles[at].max}
    {
      forall i | 0 <= i < MAX_PROFILE && i != at
        ensures profiles[i] != profiles[at]
        ensures profiles[i].min !in {profiles[at].min, profiles[at].max}
        ensures profiles[i].max !in {profiles[at].min, profiles[at].max}
      {
        assert if i < at then Apart(i, at) else Apart(at, i);
      }
    }

    lemma Settle(at: nat, names: seq<string>, entries: seq<Entry>, e: Entry)
      requires profiles.Length == MAX_PROFILE && at < idx <= MAX_PROFILE
      requires |names| == |entries| == idx
      requires forall i :: 0 <= i < idx ==> profiles[i].name == names[i]
      requires forall i :: 0 <= i < idx ==>
                 (profiles[i].samples, profiles[i].startTime) == if i == at then e else entries[i]
      ensures Names() == names && Entries() == entries[at := e]
    {
      assert forall i :: 0 <= i < idx ==> Entries()[i] == entries[at := e][i];
    }

    /** ProfileReset: every slot starts again from no samples. */
    method ProfileReset()
      requires Valid()
      modifies profiles[..], Arrays()
      ensures Valid() && Names() == old(Names())
      ensures forall t :: Lookup(t) == if old(Lookup(t)).Some? then Some(([], 0)) else None
    {
      hide Apart, Low, High, Sum;
      ghost var names := Names();
      for j := 0 to MAX_PROFILE
        invariant Valid() && Names() == names && unchanged(this)
        invariant profiles[..] == old(profiles[..])
        invariant forall i :: 0 <= i < j && i < idx ==> Entries()[i] == ([], 0)
      {
        if !profiles[j].flag { continue; }
        ResetAt(j);
      }
    }

    method ResetAt(at: nat)
      requires Valid() && at < idx
      modifies profiles[at], profiles[at].min, profiles[at].max
      ensures Valid() && Names() == old(Names())
      ensures Entries() == old(Entries())[at := ([], 0)]
    {
      hide Apart, Low, High, Sum;
      ghost var names, entries := Names(), Entries();
      Separate(at);
      var slot := profiles[at];
      slot.InitProfile();
      Settle(at, names, entries, ([], 0));
    }
  }
}
