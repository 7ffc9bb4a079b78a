/**
 The fake clock as a value: its reading and its timer list, which only ever grows.
 Selection, firing and advancing are the functions the class Clock.Fake is proved against.
 */
module EventQueue {
  import opened Callbacks

  datatype Timer = Timer(deadline: int, fn: Callback, fired: bool, stopped: bool) {
    predicate Live() { !fired && !stopped }
  }

  datatype Queue = Queue(now: int, timers: seq<Timer>)

  predicate Due(t: Timer, target: int) {
    t.Live() && t.deadline <= target
  }

  /** AfterFunc: the timer's index in the list is its registration index. */
  function Register(q: Queue, delay: int, fn: Callback): Queue {
    q.(timers := q.timers + [Timer(q.now + delay, fn, false, false)])
  }

  function RegisterAll(q: Queue, rs: seq<Registration>): Queue
    decreases rs
  {
    if rs == [] then q else RegisterAll(Register(q, rs[0].delay, rs[0].fn), rs[1..])
  }

  /** fakeTimer.Stop on the timer with index i. */
  function Stop(q: Queue, i: nat): Queue
    requires i < |q.timers|
  {
    if q.timers[i].Live() then q.(timers := q.timers[i := q.timers[i].(stopped := true)]) else q
  }

  /** No live timer is overdue. */
  ghost predicate NotOverdue(q: Queue) {
    forall j :: 0 <= j < |q.timers| && q.timers[j].Live() ==> q.now <= q.timers[j].deadline
  }

  // ---- selection ----

  /** The index the scan of the timer list ends with, or -1. */
  function Next(ts: seq<Timer>, target: int): (i: int)
    ensures -1 <= i < |ts|
    ensures 0 <= i ==> Due(ts[i], target)
  {
    if ts == [] then -1
    else
      var n := |ts| - 1;
      var best := Next(ts[..n], target);
      if Due(ts[n], target) && (best < 0 || ts[n].deadline < ts[best].deadline) then n else best
  }

  /** Deadline order, ties broken by registration order. */
  predicate Precedes(ts: seq<Timer>, i: nat, j: nat)
    requires i < |ts| && j < |ts|
  {
    ts[i].deadline < ts[j].deadline || (ts[i].deadline == ts[j].deadline && i < j)
  }

  ghost predicate IsNext(ts: seq<Timer>, target: int, i: int) {
    if i == -1 then forall j :: 0 <= j < |ts| ==> !Due(ts[j], target)
    else
      && 0 <= i < |ts| && Due(ts[i], target)
      && forall j :: 0 <= j < |ts| && j != i && Due(ts[j], target) ==> Precedes(ts, i, j)
  }

  /** The scan finds the due timer that precedes every other due timer. */
  lemma {:induction false} NextIsFirst(ts: seq<Timer>, target: int)
    ensures IsNext(ts, target, Next(ts, target))
  {
    if ts != [] {
      var n := |ts| - 1;
      NextIsFirst(ts[..n], target);
      var i := Next(ts, target);
      forall j | 0 <= j < |ts| && j != i && Due(ts[j], target)
        ensures 0 <= i && Precedes(ts, i, j)
      {
        if j < n {
          assert ts[..n][j] == ts[j];
        }
      }
    }
  }

  lemma NextIsUnique(ts: seq<Timer>, target: int, i: int)
    requires IsNext(ts, target, i)
    ensures Next(ts, target) == i
  {
    NextIsFirst(ts, target);
  }

  // ---- firing and advancing ----

  /** Marks timer i fired with the clock reading `at`, then lets its callback register what follows. */
  function Fire(q: Queue, i: nat, at: int, d: Delays): Queue
    requires i < |q.timers|
  {
    RegisterAll(Queue(at, q.timers[i := q.timers[i].(fired := true)]), Follow(q.timers[i].fn, d))
  }

  function Weight(ts: seq<Timer>): nat {
    if ts == [] then 0
    else
      var n := |ts| - 1;
      Weight(ts[..n]) + if ts[n].Live() then Depth(ts[n].fn) else 0
  }

  lemma {:induction false} WeightOfUpdate(ts: seq<Timer>, i: nat, t: Timer)
    requires i < |ts| && ts[i].Live() && !t.Live()
    ensures Weight(ts[i := t]) == Weight(ts) - Depth(ts[i].fn)
  {
    var n := |ts| - 1;
    if i == n {
      assert ts[i := t][..n] == ts[..n];
    } else {
      assert ts[i := t][..n] == ts[..n][i := t];
      WeightOfUpdate(ts[..n], i, t);
    }
  }

  lemma FireShape(q: Queue, i: nat, at: int, d: Delays)
    requires i < |q.timers|
    ensures
      var t, marked := q.timers[i], q.timers[i := q.timers[i].(fired := true)];
      Fire(q, i, at, d) == Queue(at, marked + if t.fn.BootFirst?
                                              then [Timer(at + d.start, BootSettle(t.fn.key), false, false)]
                                              else [])
  {
    var t, marked := q.timers[i], q.timers[i := q.timers[i].(fired := true)];
    if t.fn.BootFirst? {
      var r := Registration(d.start, BootSettle(t.fn.key));
      assert Follow(t.fn, d) == [r] && [r][1..] == [];
      assert RegisterAll(Queue(at, marked), [r]) == RegisterAll(Register(Queue(at, marked), r.delay, r.fn), []);
    } else {
      assert marked + [] == marked;
    }
  }

  /** Each firing uses up one callback of the chains still to run, whatever it registers. */
  lemma FireDecreasesWeight(q: Queue, i: nat, at: int, d: Delays)
    requires i < |q.timers| && q.timers[i].Live()
    ensures Weight(Fire(q, i, at, d).timers) == Weight(q.timers) - 1
  {
    var t := q.timers[i];
    var marked := q.timers[i := t.(fired := true)];
    FireShape(q, i, at, d);
    WeightOfUpdate(q.timers, i, t.(fired := true));
    var ts := Fire(q, i, at, d).timers;
    if t.fn.BootFirst? {
      assert ts[..|ts| - 1] == marked;
    } else {
      assert ts == marked;
    }
  }

  function FireNext(q: Queue, i: nat, d: Delays): (r: Queue)
    requires i < |q.timers| && q.timers[i].Live()
    ensures Weight(r.timers) < Weight(q.timers)
  {
    FireDecreasesWeight(q, i, q.timers[i].deadline, d);
    Fire(q, i, q.timers[i].deadline, d)
  }

  /** Advance, with the absolute target its first line computes. */
  function AdvanceTo(q: Queue, target: int, d: Delays): Queue
    decreases Weight(q.timers)
  {
    var i := Next(q.timers, target);
    if i < 0 then q.(now := target) else AdvanceTo(FireNext(q, i, d), target, d)
  }

  /** One entry of the firing log. */
  datatype Shot = Shot(index: nat, deadline: int, fn: Callback)

  /** The firings of AdvanceTo, in order. */
  function Shots(q: Queue, target: int, d: Delays): seq<Shot>
    decreases Weight(q.timers)
  {
    var i := Next(q.timers, target);
    if i < 0 then []
    else [Shot(i, q.timers[i].deadline, q.timers[i].fn)] + Shots(FireNext(q, i, d), target, d)
  }

  /** The starting reading is irrelevant to an advance: only deadlines drive it. */
  lemma AdvanceIgnoresNow(q: Queue, now: int, target: int, d: Delays)
    ensures AdvanceTo(q.(now := now), target, d) == AdvanceTo(q, target, d)
    ensures Shots(q.(now := now), target, d) == Shots(q, target, d)
  {
    var i := Next(q.timers, target);
    if 0 <= i {
      assert FireNext(q.(now := now), i, d) == FireNext(q, i, d);
    }
  }

  /** A timer chosen for the nearer target is chosen for the farther one too. */
  lemma NextForFartherTarget(ts: seq<Timer>, t1: int, t2: int)
    requires t1 <= t2 && 0 <= Next(ts, t1)
    ensures Next(ts, t2) == Next(ts, t1)
  {
    NextIsFirst(ts, t1);
    NextIsUnique(ts, t2, Next(ts, t1));
  }

  /** Chunking time does not matter: same clock, same timer list, same firings. */
  lemma {:induction false} AdvanceComposes(q: Queue, t1: int, t2: int, d: Delays)
    requires t1 <= t2
    ensures AdvanceTo(AdvanceTo(q, t1, d), t2, d) == AdvanceTo(q, t2, d)
    ensures Shots(q, t1, d) + Shots(AdvanceTo(q, t1, d), t2, d) == Shots(q, t2, d)
    decreases Weight(q.timers)
  {
    var i := Next(q.timers, t1);
    if i < 0 {
      AdvanceIgnoresNow(q, t1, t2, d);
      assert [] + Shots(q, t2, d) == Shots(q, t2, d);
    } else {
      NextForFartherTarget(q.timers, t1, t2);
      var q' := FireNext(q, i, d);
      AdvanceComposes(q', t1, t2, d);
      var s := [Shot(i, q.timers[i].deadline, q.timers[i].fn)];
      assert (s + Shots(q', t1, d)) + Shots(AdvanceTo(q', t1, d), t2, d)
          == s + (Shots(q', t1, d) + Shots(AdvanceTo(q', t1, d), t2, d));
    }
  }
}
