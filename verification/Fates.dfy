/**
 Where a machine will end, read off the timer list while its callbacks are still pending, for any delays:
 the chain of callbacks that ends last decides, and the passage of time does not change it.
 */
module Fates {
  import opened Flaps
  import opened Callbacks
  import opened EventQueue
  import opened Emulator
  import opened Invariants
  import opened Safety
  import opened Quiescence

  /** How a machine will end: removed, or resting in a state. */
  datatype Fate = Gone | Rests(state: MachineState)

  /** A pending callback that will leave machine k in a state. */
  predicate Steers(t: Timer, k: Key) {
    t.Live() && t.fn.key == k && !t.fn.Reap?
  }

  /** The state a callback's chain leaves its machine in, judged on a configuration. */
  function Goal(fn: Callback, config: Option<Config>): MachineState
    requires !fn.Reap?
  {
    match fn
    case BootFirst(_) => Verdict(config)
    case BootSettle(_) => Verdict(config)
    case StopEnd(_) => Stopped
    case SuspendEnd(_) => Suspended
  }

  /**
   Timer i's chain ends before timer j's. Chains due to end together end in registration order, and the
   second step of a boot, which is still to be registered, after all others.
   */
  predicate EndsBefore(ts: seq<Timer>, d: Delays, i: nat, j: nat)
    requires i < |ts| && j < |ts|
  {
    var a, b := ChainEnd(ts[i], d), ChainEnd(ts[j], d);
    a < b || (a == b && if ts[i].fn.BootFirst? == ts[j].fn.BootFirst? then i < j else ts[j].fn.BootFirst?)
  }

  ghost predicate IsLast(ts: seq<Timer>, d: Delays, k: Key, p: int) {
    if p == -1 then forall j :: 0 <= j < |ts| ==> !Steers(ts[j], k)
    else
      && 0 <= p < |ts| && Steers(ts[p], k)
      && forall j :: 0 <= j < |ts| && j != p && Steers(ts[j], k) ==> EndsBefore(ts, d, j, p)
  }

  /** The index of the pending callback of k's whose chain ends last, or -1. */
  function Last(ts: seq<Timer>, d: Delays, k: Key): (p: int)
    ensures -1 <= p < |ts|
    ensures 0 <= p ==> Steers(ts[p], k)
  {
    if ts == [] then -1
    else
      var n := |ts| - 1;
      var p := Last(ts[..n], d, k);
      if Steers(ts[n], k) && (p < 0 || EndsBefore(ts, d, p, n)) then n else p
  }

  lemma {:induction false} LastIsLast(ts: seq<Timer>, d: Delays, k: Key)
    ensures IsLast(ts, d, k, Last(ts, d, k))
  {
    if ts != [] {
      var n := |ts| - 1;
      LastIsLast(ts[..n], d, k);
      var p := Last(ts, d, k);
      forall j | 0 <= j < |ts| && j != p && Steers(ts[j], k)
        ensures 0 <= p && EndsBefore(ts, d, j, p)
      {
        if j < n {
          assert ts[..n][j] == ts[j];
        }
      }
    }
  }

  lemma LastIsUnique(ts: seq<Timer>, d: Delays, k: Key, p: int)
    requires IsLast(ts, d, k, p)
    ensures Last(ts, d, k) == p
  {
    LastIsLast(ts, d, k);
  }

  ghost function FateOf(ts: seq<Timer>, d: Delays, k: Key, m: Machine): Fate {
    if Pending(ts, Reap(k)) then Gone
    else
      var p := Last(ts, d, k);
      Rests(if p < 0 then m.state else Goal(ts[p].fn, m.config))
  }

  ghost function FateIn(w: World, d: Delays, k: Key): Fate {
    match Lookup(w.apps, k)
    case Err(_) => Gone
    case Ok(m) => FateOf(w.clk.timers, d, k, m)
  }

  // ---- changes to the list ----

  /** What is aimed at k is what it was, wherever else the list has changed. */
  ghost predicate AlikeFor(ts: seq<Timer>, ts': seq<Timer>, k: Key) {
    && |ts| <= |ts'|
    && (forall j :: 0 <= j < |ts| && (ts[j].fn.key == k || ts'[j].fn.key == k) ==> ts'[j] == ts[j])
    && (forall j :: |ts| <= j < |ts'| ==> ts'[j].fn.key != k)
  }

  lemma FateOfAlike(ts: seq<Timer>, ts': seq<Timer>, d: Delays, k: Key, m: Machine)
    requires AlikeFor(ts, ts', k)
    ensures FateOf(ts', d, k, m) == FateOf(ts, d, k, m)
  {
    LastIsLast(ts, d, k);
    LastIsUnique(ts', d, k, Last(ts, d, k)) by {
      assert forall j :: 0 <= j < |ts'| && Steers(ts'[j], k) ==> j < |ts| && ts'[j] == ts[j];
    }
    PendingAlike(ts, ts', Reap(k));
  }

  lemma PendingAlike(ts: seq<Timer>, ts': seq<Timer>, fn: Callback)
    requires AlikeFor(ts, ts', fn.key)
    ensures Pending(ts', fn) <==> Pending(ts, fn)
  {
    if Pending(ts, fn) {
      var j :| 0 <= j < |ts| && ts[j].Live() && ts[j].fn == fn;
      assert ts'[j] == ts[j];
    }
  }

  /** After marking a timer fired, what is aimed at anything else is what it was. */
  lemma PendingAfterMark(ts: seq<Timer>, i: nat, fn: Callback)
    requires i < |ts| && ts[i].Live() && ts[i].fn != fn
    ensures Pending(ts[i := ts[i].(fired := true)], fn) <==> Pending(ts, fn)
  {
    var ts' := ts[i := ts[i].(fired := true)];
    if Pending(ts, fn) {
      var j :| 0 <= j < |ts| && ts[j].Live() && ts[j].fn == fn;
      assert ts'[j] == ts[j];
    }
  }

  lemma PendingAfterAppend(ts: seq<Timer>, t: Timer, fn: Callback)
    requires t.Live()
    ensures Pending(ts + [t], fn) <==> t.fn == fn || Pending(ts, fn)
  {
    var ts' := ts + [t];
    assert ts'[|ts|] == t;
    if Pending(ts, fn) {
      var j :| 0 <= j < |ts| && ts[j].Live() && ts[j].fn == fn;
      assert ts'[j] == ts[j];
    }
  }

  /** A callback appended for k decides unless some pending chain ends after it. */
  lemma LastAfterAppend(ts: seq<Timer>, t: Timer, d: Delays, k: Key)
    requires Steers(t, k)
    ensures
      var p, n := Last(ts, d, k), |ts|;
      Last(ts + [t], d, k) == if 0 <= p && !EndsBefore(ts + [t], d, p, n) then p else n
  {
    assert (ts + [t])[..|ts|] == ts;
  }

  // ---- time does not change fate ----

  lemma FateAfterFireOfOther(w: World, i: nat, at: int, o: Options, k: Key)
    requires i < |w.clk.timers| && w.clk.timers[i].Live() && w.clk.timers[i].fn.key != k
    ensures FateIn(FireAt(w, i, at, o), o.delays, k) == FateIn(w, o.delays, k)
  {
    hide FateOf;
    RunCallbackFrame(w.apps, w.clk.timers[i].fn);
    FireShape(w.clk, i, at, o.delays);
    assert AlikeFor(w.clk.timers, FireAt(w, i, at, o).clk.timers, k);
    if Lookup(w.apps, k).Ok? {
      FateOfAlike(w.clk.timers, FireAt(w, i, at, o).clk.timers, o.delays, k, Lookup(w.apps, k).value);
    }
  }

  /** The first boot step hands its place in the order of endings to the settle it registers. */
  lemma LastAfterBootFirst(ts: seq<Timer>, i: nat, d: Delays, target: int)
    requires IsNext(ts, target, i) && ts[i].fn.BootFirst?
    ensures
      var k := ts[i].fn.key;
      var settle := Timer(ts[i].deadline + d.start, BootSettle(k), false, false);
      var p := Last(ts, d, k);
      Last(ts[i := ts[i].(fired := true)] + [settle], d, k) == if p == i then |ts| else p
  {
    var k := ts[i].fn.key;
    var settle := Timer(ts[i].deadline + d.start, BootSettle(k), false, false);
    var ts', p := ts[i := ts[i].(fired := true)] + [settle], Last(ts, d, k);
    var p' := if p == i then |ts| else p;
    LastIsLast(ts, d, k);
    forall j | 0 <= j < |ts'| && j != p' && Steers(ts'[j], k)
      ensures EndsBefore(ts', d, j, p')
    {
      if j < |ts| {
        assert ts'[j] == ts[j] && j != i;
        assert Due(ts[j], target) ==> Precedes(ts, i, j);
      } else {
        assert EndsBefore(ts, d, i, p);
      }
    }
    assert IsLast(ts', d, k, p');
    LastIsUnique(ts', d, k, p');
  }

  lemma FateAfterBootFirst(w: World, i: nat, o: Options, target: int)
    requires IsNext(w.clk.timers, target, i) && w.clk.timers[i].fn.BootFirst?
    ensures
      var k := w.clk.timers[i].fn.key;
      FateIn(FireAt(w, i, w.clk.timers[i].deadline, o), o.delays, k) == FateIn(w, o.delays, k)
  {
    hide Last;
    var ts, k := w.clk.timers, w.clk.timers[i].fn.key;
    var marked := ts[i := ts[i].(fired := true)];
    var settle := Timer(ts[i].deadline + o.delays.start, BootSettle(k), false, false);
    LookupUpdate(w.apps, k, Mark(Starting));
    FireShape(w.clk, i, ts[i].deadline, o.delays);
    PendingAfterMark(ts, i, Reap(k));
    PendingAfterAppend(marked, settle, Reap(k));
    LastAfterBootFirst(ts, i, o.delays, target);
    LastIsLast(ts, o.delays, k);
    var p := Last(ts, o.delays, k);
    assert p != i ==> (marked + [settle])[p] == ts[p];
  }

  /** A callback that settles its machine: either another chain will decide, or this was the only one left. */
  lemma LastAfterEnding(ts: seq<Timer>, i: nat, d: Delays, target: int)
    requires IsNext(ts, target, i) && !ts[i].fn.BootFirst? && !ts[i].fn.Reap? && 0 <= d.start
    ensures
      var k := ts[i].fn.key;
      var p := Last(ts, d, k);
      Last(ts[i := ts[i].(fired := true)], d, k) == if p == i then -1 else p
  {
    var k := ts[i].fn.key;
    var ts', p := ts[i := ts[i].(fired := true)], Last(ts, d, k);
    LastIsLast(ts, d, k);
    forall j | 0 <= j < |ts| && j != i && Steers(ts[j], k)
      ensures p != i
    {
      assert Due(ts[j], target) ==> Precedes(ts, i, j);
    }
    assert IsLast(ts', d, k, if p == i then -1 else p);
    LastIsUnique(ts', d, k, if p == i then -1 else p);
  }

  lemma FateAfterEnding(w: World, i: nat, o: Options, target: int)
    requires IsNext(w.clk.timers, target, i) && 0 <= o.delays.start
    requires !w.clk.timers[i].fn.BootFirst? && !w.clk.timers[i].fn.Reap?
    ensures
      var k := w.clk.timers[i].fn.key;
      FateIn(FireAt(w, i, w.clk.timers[i].deadline, o), o.delays, k) == FateIn(w, o.delays, k)
  {
    hide Last;
    var ts, k := w.clk.timers, w.clk.timers[i].fn.key;
    var marked := ts[i := ts[i].(fired := true)];
    LookupUpdate(w.apps, k, Effect(ts[i].fn));
    FireShape(w.clk, i, ts[i].deadline, o.delays);
    assert FireAt(w, i, ts[i].deadline, o).clk.timers == marked;
    PendingAfterMark(ts, i, Reap(k));
    LastAfterEnding(ts, i, o.delays, target);
    LastIsLast(ts, o.delays, k);
  }

  lemma FateAfterFire(w: World, i: nat, o: Options, target: int, k: Key)
    requires IsNext(w.clk.timers, target, i) && 0 <= o.delays.start
    ensures FateIn(FireAt(w, i, w.clk.timers[i].deadline, o), o.delays, k) == FateIn(w, o.delays, k)
  {
    var fn := w.clk.timers[i].fn;
    hide FateIn;
    if fn.key != k {
      FateAfterFireOfOther(w, i, w.clk.timers[i].deadline, o, k);
    } else if fn.BootFirst? {
      FateAfterBootFirst(w, i, o, target);
    } else if fn.Reap? {
      ReapMeansGone(w, i, o);
    } else {
      FateAfterEnding(w, i, o, target);
    }
  }

  lemma ReapMeansGone(w: World, i: nat, o: Options)
    requires i < |w.clk.timers| && w.clk.timers[i].Live() && w.clk.timers[i].fn.Reap?
    ensures
      var k := w.clk.timers[i].fn.key;
      FateIn(w, o.delays, k) == Gone && FateIn(FireAt(w, i, w.clk.timers[i].deadline, o), o.delays, k) == Gone
  {
    RunCallbackFrame(w.apps, w.clk.timers[i].fn);
  }

  lemma {:induction false} FateAfterAdvance(w: World, target: int, o: Options, k: Key)
    requires 0 <= o.delays.start
    ensures FateIn(AdvanceWorld(w, target, o), o.delays, k) == FateIn(w, o.delays, k)
    decreases Weight(w.clk.timers)
  {
    hide FateOf;
    var i := Next(w.clk.timers, target);
    if 0 <= i {
      NextIsFirst(w.clk.timers, target);
      FireDecreasesWeight(w.clk, i, w.clk.timers[i].deadline, o.delays);
      FateAfterFire(w, i, o, target, k);
      FateAfterAdvance(FireAt(w, i, w.clk.timers[i].deadline, o), target, o, k);
    }
  }

  // ---- fulfilment ----

  ghost predicate MachineEndsBy(ts: seq<Timer>, k: Key, d: Delays, limit: int) {
    forall j :: 0 <= j < |ts| && ts[j].Live() && ts[j].fn.key == k ==> ChainEnd(ts[j], d) <= limit
  }

  ghost predicate NoneLiveFor(ts: seq<Timer>, k: Key) {
    forall j :: 0 <= j < |ts| ==> !(ts[j].Live() && ts[j].fn.key == k)
  }

  lemma {:induction false} MachineEndsByAfterAdvance(w: World, target: int, o: Options, k: Key, limit: int)
    requires MachineEndsBy(w.clk.timers, k, o.delays, limit) && 0 <= o.delays.start
    ensures MachineEndsBy(AdvanceWorld(w, target, o).clk.timers, k, o.delays, limit)
    ensures limit <= target ==> NoneLiveFor(AdvanceWorld(w, target, o).clk.timers, k)
    decreases Weight(w.clk.timers)
  {
    var i := Next(w.clk.timers, target);
    if i < 0 {
      NextIsFirst(w.clk.timers, target);
      forall j | 0 <= j < |w.clk.timers| && w.clk.timers[j].Live() && w.clk.timers[j].fn.key == k
        ensures target < limit
      {
        assert !Due(w.clk.timers[j], target);
      }
    } else {
      FireDecreasesWeight(w.clk, i, w.clk.timers[i].deadline, o.delays);
      FireShape(w.clk, i, w.clk.timers[i].deadline, o.delays);
      MachineEndsByAfterAdvance(FireAt(w, i, w.clk.timers[i].deadline, o), target, o, k, limit);
    }
  }

  /** With nothing pending for it, a machine's fate is where it is. */
  lemma RestedFate(w: World, d: Delays, k: Key)
    requires NoneLiveFor(w.clk.timers, k)
    ensures FateIn(w, d, k) == match Lookup(w.apps, k) case Err(_) => Gone case Ok(m) => Rests(m.state)
  {
    LastIsUnique(w.clk.timers, d, k, -1);
  }
}
