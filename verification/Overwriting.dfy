/**
 When a stale callback overwrites `destroying`. On the fake clock: exactly when one is due sooner than every
 reap of the machine. Under an arbitrary scheduler: exactly when one is pending at all.
 */
module Overwriting {
  import opened Flaps
  import opened Callbacks
  import opened EventQueue
  import opened Emulator
  import opened Runs
  import opened Invariants
  import opened Safety
  import opened History
  import opened Destruction
  import opened SystemLog

  /** A live timer of k's. */
  predicate IsFor(t: Timer, k: Key) { t.Live() && t.fn.key == k }

  /** With a reap about to be registered for `due`: no other callback of k's is due sooner than all of its reaps. */
  ghost predicate Outrun(ts: seq<Timer>, k: Key, due: int) {
    forall j :: 0 <= j < |ts| && IsFor(ts[j], k) && !ts[j].fn.Reap? ==>
      due <= ts[j].deadline || PendingBy(ts, Reap(k), ts[j].deadline)
  }

  /** The same once it is registered. */
  ghost predicate ReapsFirst(ts: seq<Timer>, k: Key) {
    forall j :: 0 <= j < |ts| && IsFor(ts[j], k) ==> PendingBy(ts, Reap(k), ts[j].deadline)
  }

  lemma OutrunOnceRegistered(q: Queue, k: Key, delay: int)
    ensures Outrun(q.timers, k, q.now + delay) <==> ReapsFirst(Register(q, delay, Reap(k)).timers, k)
  {
    var ts, ts' := q.timers, Register(q, delay, Reap(k)).timers;
    var n := |ts|;
    assert ts'[n] == Timer(q.now + delay, Reap(k), false, false);
    forall j | 0 <= j < n && IsFor(ts[j], k)
      ensures PendingBy(ts', Reap(k), ts[j].deadline) <==>
        q.now + delay <= ts[j].deadline || PendingBy(ts, Reap(k), ts[j].deadline)
    {
      if PendingBy(ts, Reap(k), ts[j].deadline) {
        var x :| 0 <= x < n && ts[x].Live() && ts[x].fn == Reap(k) && ts[x].deadline <= ts[j].deadline;
        assert ts'[x] == ts[x];
      }
    }
    if Outrun(ts, k, q.now + delay) {
      forall j | 0 <= j < |ts'| && IsFor(ts'[j], k)
        ensures PendingBy(ts', Reap(k), ts'[j].deadline)
      {
        if j < n {
          assert ts'[j] == ts[j];
        }
      }
    }
    if ReapsFirst(ts', k) {
      forall j | 0 <= j < n && IsFor(ts[j], k)
        ensures PendingBy(ts', Reap(k), ts[j].deadline)
      {
        assert ts'[j] == ts[j];
      }
    }
  }

  predicate StillDestroying(w: World, k: Key) {
    Lookup(w.apps, k).Ok? ==> Lookup(w.apps, k).value.state == Destroying
  }

  /** Whatever is requested and however far the fake clock is driven. */
  ghost predicate AlwaysDestroying(s: Sys, k: Key, o: Options) {
    forall steps :: LegalRun(s, steps, o) && OnFakeClock(steps) ==> StillDestroying(Run(s, steps, o).w, k)
  }

  // ---- nothing sooner: it stays ----

  /** Gone, or being destroyed with a reap due by `first` and nothing of k's due before. */
  ghost predicate Guarded(w: World, k: Key, first: int) {
    Lookup(w.apps, k).Ok? ==>
      && Lookup(w.apps, k).value.state == Destroying && PendingBy(w.clk.timers, Reap(k), first)
      && forall j :: 0 <= j < |w.clk.timers| && IsFor(w.clk.timers[j], k) ==> first <= w.clk.timers[j].deadline
  }

  lemma GuardedAfterFireElsewhere(w: World, i: nat, at: int, o: Options, k: Key, first: int)
    requires i < |w.clk.timers| && w.clk.timers[i].Live() && w.clk.timers[i].fn.key != k && Guarded(w, k, first)
    ensures Guarded(FireAt(w, i, at, o), k, first)
  {
    var ts, ts' := w.clk.timers, FireAt(w, i, at, o).clk.timers;
    RunCallbackFrame(w.apps, ts[i].fn);
    FireShape(w.clk, i, at, o.delays);
    if Lookup(w.apps, k).Ok? {
      var j :| 0 <= j < |ts| && ts[j].Live() && ts[j].fn == Reap(k) && ts[j].deadline <= first;
      assert ts'[j] == ts[j];
    }
  }

  lemma {:induction false} GuardedAfterAdvance(w: World, target: int, o: Options, k: Key, first: int)
    requires Guarded(w, k, first)
    ensures Guarded(AdvanceWorld(w, target, o), k, first)
    decreases Weight(w.clk.timers)
  {
    if !Lookup(w.apps, k).Ok? {
      AdvanceKeepsAbsent(w, target, o, k);
    } else if first <= target {
      DoomedAfterAdvance(w, target, o, k, first);
    } else {
      var i := Next(w.clk.timers, target);
      if 0 <= i {
        var at := w.clk.timers[i].deadline;
        assert !IsFor(w.clk.timers[i], k);
        FireDecreasesWeight(w.clk, i, at, o.delays);
        GuardedAfterFireElsewhere(w, i, at, o, k, first);
        GuardedAfterAdvance(FireAt(w, i, at, o), target, o, k, first);
      }
    }
  }

  lemma GuardedAfterRequest(s: Sys, r: Request, o: Options, k: Key, first: int)
    requires FreshRequest(r, s.used) && k.id in s.used
    requires Guarded(s.w, k, first) && first <= s.w.clk.now + o.delays.destroy
    ensures Guarded(Handle(s.w, r, o).w, k, first)
  {
    hide Handle, Lookup, Booking;
    assert r.CreateMachine? ==> r.id in Minted(r);
    if Lookup(s.w.apps, k).Ok? {
      DestroyingIsTerminal(s.w, r, o, k);
      DestroyingRegistersReaps(s.w, r, o, k);
      RequestKeepsTimers(s.w, r, o);
      var ts, ts' := s.w.clk.timers, Handle(s.w, r, o).w.clk.timers;
      var j :| 0 <= j < |ts| && ts[j].Live() && ts[j].fn == Reap(k) && ts[j].deadline <= first;
      assert ts'[j] == ts[j];
    } else {
      RequestKeepsAbsent(s, r, o, k);
    }
  }

  lemma {:induction false} GuardedAfterRun(s: Sys, steps: seq<Step>, o: Options, k: Key, first: int)
    requires LegalRun(s, steps, o) && OnFakeClock(steps) && k.id in s.used
    requires Guarded(s.w, k, first) && first <= s.w.clk.now + o.delays.destroy
    ensures Guarded(Run(s, steps, o).w, k, first)
    decreases steps
  {
    hide Handle, AdvanceWorld, Lookup, Guarded;
    if steps != [] {
      var step, rest := steps[0], steps[1..];
      assert step.Req? || step.Advance?;
      assert forall n :: 0 <= n < |rest| ==> rest[n] == steps[n + 1];
      if step.Req? {
        GuardedAfterRequest(s, step.r, o, k, first);
        RequestKeepsTimers(s.w, step.r, o);
      } else {
        AdvanceReaches(s.w, s.w.clk.now + step.amount, o);
        GuardedAfterAdvance(s.w, s.w.clk.now + step.amount, o, k, first);
      }
      GuardedAfterRun(Exec(s, step, o), rest, o, k, first);
    }
  }

  /** The deadline of the first reap due. */
  lemma {:induction false} EarliestReap(ts: seq<Timer>, k: Key, j: nat) returns (first: int)
    requires j < |ts| && ts[j].Live() && ts[j].fn == Reap(k)
    ensures first <= ts[j].deadline && PendingBy(ts, Reap(k), first)
    ensures forall n :: 0 <= n < |ts| && ts[n].Live() && ts[n].fn == Reap(k) ==> first <= ts[n].deadline
  {
    first := ts[j].deadline;
    for n := 0 to |ts|
      invariant first <= ts[j].deadline && PendingBy(ts, Reap(k), first)
      invariant forall x :: 0 <= x < n && ts[x].Live() && ts[x].fn == Reap(k) ==> first <= ts[x].deadline
    {
      if ts[n].Live() && ts[n].fn == Reap(k) && ts[n].deadline < first {
        first := ts[n].deadline;
      }
    }
  }

  // ---- something sooner: it is overwritten ----

  /** No longer `destroying`, or about not to be; and no reap due by the target. */
  ghost predicate Overtaken(w: World, target: int, k: Key) {
    && Lookup(w.apps, k).Ok? && !PendingBy(w.clk.timers, Reap(k), target)
    && (|| Lookup(w.apps, k).value.state != Destroying
        || exists j :: 0 <= j < |w.clk.timers| && IsFor(w.clk.timers[j], k) && w.clk.timers[j].deadline <= target)
  }

  lemma NoReapAfterFire(q: Queue, i: nat, at: int, d: Delays, target: int, k: Key)
    requires i < |q.timers| && !PendingBy(q.timers, Reap(k), target)
    ensures !PendingBy(Fire(q, i, at, d).timers, Reap(k), target)
  {
    FireShape(q, i, at, d);
  }

  lemma OvertakenAfterFire(w: World, target: int, o: Options, k: Key, i: nat, at: int)
    requires i < |w.clk.timers| && Due(w.clk.timers[i], target) && Overtaken(w, target, k)
    ensures Overtaken(FireAt(w, i, at, o), target, k)
  {
    var ts, ts' := w.clk.timers, FireAt(w, i, at, o).clk.timers;
    NoReapAfterFire(w.clk, i, at, o.delays, target, k);
    RunCallbackFrame(w.apps, ts[i].fn);
    if ts[i].fn.key == k {
      LookupUpdate(w.apps, k, Effect(ts[i].fn));
    } else if Lookup(w.apps, k).value.state == Destroying {
      var j :| 0 <= j < |ts| && IsFor(ts[j], k) && ts[j].deadline <= target;
      FireShape(w.clk, i, at, o.delays);
      assert ts'[j] == ts[j];
    }
  }

  /** An advance that reaches a callback of k's but none of its reaps takes it out of `destroying`. */
  lemma {:induction false} OverwrittenByAdvance(w: World, target: int, o: Options, k: Key)
    requires Overtaken(w, target, k)
    ensures !StillDestroying(AdvanceWorld(w, target, o), k)
    decreases Weight(w.clk.timers)
  {
    hide Lookup, Fire, Weight;
    var ts, i := w.clk.timers, Next(w.clk.timers, target);
    if i < 0 {
      NextIsFirst(ts, target);
      assert forall j :: 0 <= j < |ts| && IsFor(ts[j], k) && ts[j].deadline <= target ==> Due(ts[j], target);
    } else {
      var at := ts[i].deadline;
      FireDecreasesWeight(w.clk, i, at, o.delays);
      OvertakenAfterFire(w, target, o, k, i, at);
      OverwrittenByAdvance(FireAt(w, i, at, o), target, o, k);
    }
  }

  lemma OutrunStays(s: Sys, k: Key, j: nat, o: Options)
    requires k.id in s.used && Lookup(s.w.apps, k).Ok? && Lookup(s.w.apps, k).value.state == Destroying
    requires j < |s.w.clk.timers| && s.w.clk.timers[j].Live() && s.w.clk.timers[j].fn == Reap(k)
    requires s.w.clk.timers[j].deadline <= s.w.clk.now + o.delays.destroy
    requires ReapsFirst(s.w.clk.timers, k)
    ensures AlwaysDestroying(s, k, o)
  {
    hide LegalRun, Run, Lookup;
    var first := EarliestReap(s.w.clk.timers, k, j);
    assert Guarded(s.w, k, first);
    forall steps | LegalRun(s, steps, o) && OnFakeClock(steps)
      ensures StillDestroying(Run(s, steps, o).w, k)
    {
      GuardedAfterRun(s, steps, o, k, first);
    }
  }

  lemma OvertakenIsOverwritten(s: Sys, k: Key, o: Options)
    requires Lookup(s.w.apps, k).Ok? && NotOverdue(s.w.clk) && !ReapsFirst(s.w.clk.timers, k)
    ensures !AlwaysDestroying(s, k, o)
  {
    hide LegalRun, Run, Lookup, AdvanceWorld, PendingBy;
    var ts := s.w.clk.timers;
    var j :| 0 <= j < |ts| && IsFor(ts[j], k) && !PendingBy(ts, Reap(k), ts[j].deadline);
    var amount := ts[j].deadline - s.w.clk.now;
    OverwrittenByAdvance(s.w, ts[j].deadline, o, k);
    AdvanceAlone(s, amount, o);
    assert !StillDestroying(Run(s, [Step.Advance(amount)], o).w, k);
  }

  /**
   After a delete accepted at T, on the fake clock: the machine is `destroying` in every later state in which it
   exists, if and only if each of its other callbacks pending at T was due no sooner than T + Destroy or some
   reap pending already.
   */
  lemma DestroyingHoldsIff(s: Sys, k: Key, nonce: string, o: Options)
    requires ReachableOnFakeClock(s, o) && o.delays.NonNegative()
    requires HandleDeleteMachine(s.w, k, nonce, o).resp.Accepted?
    ensures
      AlwaysDestroying(Exec(s, Req(DeleteMachine(k, nonce)), o), k, o)
      <==> Outrun(s.w.clk.timers, k, s.w.clk.now + o.delays.destroy)
  {
    hide Lookup, HandleDeleteMachine, AlwaysDestroying, Outrun, ReapsFirst, Reachable, ReachableOnFakeClock;
    FakeClockIsOneScheduler(s, o);
    ReachableIsGood(s, o);
    NeverOverdue(s, o);
    var s1 := Exec(s, Req(DeleteMachine(k, nonce)), o);
    DeleteRegistersReap(s.w, k, nonce, o);
    assert MachineOK(k, Lookup(s.w.apps, k).value, s.used);
    OutrunOnceRegistered(s.w.clk, k, o.delays.destroy);
    var j := |s.w.clk.timers|;
    assert s1.w.clk.timers[j] == Timer(s.w.clk.now + o.delays.destroy, Reap(k), false, false);
    if ReapsFirst(s1.w.clk.timers, k) {
      OutrunStays(s1, k, j, o);
    } else {
      OvertakenIsOverwritten(s1, k, o);
    }
  }

  // ---- under an arbitrary scheduler ----

  /** Whatever is requested and in whatever order pending callbacks fire. */
  ghost predicate AlwaysDestroyingInAnyOrder(s: Sys, k: Key, o: Options) {
    forall steps :: LegalRun(s, steps, o) ==> StillDestroying(Run(s, steps, o).w, k)
  }

  /** A callback of k's other than a reap, fired next, takes it out of `destroying`. */
  lemma FiredFirst(s: Sys, i: nat, o: Options, k: Key)
    requires i < |s.w.clk.timers| && IsFor(s.w.clk.timers[i], k) && !s.w.clk.timers[i].fn.Reap?
    requires Lookup(s.w.apps, k).Ok?
    ensures !AlwaysDestroyingInAnyOrder(s, k, o)
  {
    var step := FireAny(i, s.w.clk.now);
    LookupUpdate(s.w.apps, k, Effect(s.w.clk.timers[i].fn));
    assert !StillDestroying(Exec(s, step, o).w, k);
    assert [step][1..] == [];
    assert LegalRun(s, [step], o) && Run(s, [step], o) == Run(Exec(s, step, o), [], o);
  }

  /**
   After an accepted delete, under any firing order: the machine is `destroying` in every later state in which
   it exists, if and only if none of its callbacks but reaps was pending.
   */
  lemma DestroyingHoldsInAnyOrderIff(s: Sys, k: Key, nonce: string, o: Options)
    requires Good(s) && HandleDeleteMachine(s.w, k, nonce, o).resp.Accepted?
    ensures
      AlwaysDestroyingInAnyOrder(Exec(s, Req(DeleteMachine(k, nonce)), o), k, o)
      <==> OnlyReapsPending(s.w.clk.timers, k)
  {
    hide Lookup, HandleDeleteMachine, LegalRun, Run;
    var s1, ts := Exec(s, Req(DeleteMachine(k, nonce)), o), s.w.clk.timers;
    DeleteRegistersReap(s.w, k, nonce, o);
    if OnlyReapsPending(ts, k) {
      forall steps | LegalRun(s1, steps, o)
        ensures StillDestroying(Run(s1, steps, o).w, k)
      {
        DestroyingInAnyOrder(s, k, nonce, steps, o);
      }
    } else {
      var i :| 0 <= i < |ts| && ts[i].Live() && ts[i].fn.key == k && ts[i].fn != Reap(k);
      assert s1.w.clk.timers[i] == ts[i];
      FiredFirst(s1, i, o, k);
    }
  }

  lemma AdvanceAlone(s: Sys, amount: int, o: Options)
    requires 0 <= amount
    ensures LegalRun(s, [Step.Advance(amount)], o) && OnFakeClock([Step.Advance(amount)])
    ensures Run(s, [Step.Advance(amount)], o).w == AdvanceWorld(s.w, s.w.clk.now + amount, o)
  {
    hide AdvanceWorld;
    assert [Step.Advance(amount)][1..] == [];
  }
}
