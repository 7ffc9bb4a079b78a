/** Destruction is final: when, and what the machine looks like until then. */
module Destruction {
  import opened Flaps
  import opened Callbacks
  import opened EventQueue
  import opened Emulator
  import opened Runs
  import opened Invariants
  import opened Safety
  import opened History
  import FiringLog

  /** A callback is pending and due no later than the deadline. */
  ghost predicate PendingBy(ts: seq<Timer>, fn: Callback, deadline: int) {
    exists j :: 0 <= j < |ts| && ts[j].Live() && ts[j].fn == fn && ts[j].deadline <= deadline
  }

  ghost predicate Doomed(w: World, k: Key, deadline: int) {
    !Lookup(w.apps, k).Ok? || PendingBy(w.clk.timers, Reap(k), deadline)
  }

  /** A request registers at most one callback: its booking. */
  lemma RequestOnClock(w: World, r: Request, o: Options)
    ensures
      var clk', b := Handle(w, r, o).w.clk, Booking(r, o);
      clk' == w.clk || (b.Some? && clk' == Register(w.clk, b.value.delay, b.value.fn))
  {
  }

  lemma RequestKeepsTimers(w: World, r: Request, o: Options)
    ensures KeepsPending(w.clk.timers, Handle(w, r, o).w.clk.timers)
    ensures Handle(w, r, o).w.clk.now == w.clk.now
  {
    RequestOnClock(w, r, o);
  }

  lemma DoomedAfterFire(w: World, i: nat, at: int, o: Options, k: Key, deadline: int)
    requires i < |w.clk.timers| && Doomed(w, k, deadline)
    ensures Doomed(FireAt(w, i, at, o), k, deadline)
  {
    var ts, ts' := w.clk.timers, FireAt(w, i, at, o).clk.timers;
    RunCallbackFrame(w.apps, ts[i].fn);
    FireShape(w.clk, i, at, o.delays);
    if Lookup(w.apps, k).Ok? {
      var j :| 0 <= j < |ts| && ts[j].Live() && ts[j].fn == Reap(k) && ts[j].deadline <= deadline;
      if j != i {
        assert ts'[j] == ts[j];
      }
    }
  }

  lemma {:induction false} DoomedAfterAdvance(w: World, target: int, o: Options, k: Key, deadline: int)
    requires Doomed(w, k, deadline)
    ensures Doomed(AdvanceWorld(w, target, o), k, deadline)
    ensures deadline <= target ==> !Lookup(AdvanceWorld(w, target, o).apps, k).Ok?
    decreases Weight(w.clk.timers)
  {
    var i := Next(w.clk.timers, target);
    if i < 0 {
      NextIsFirst(w.clk.timers, target);
    } else {
      var at := w.clk.timers[i].deadline;
      FireDecreasesWeight(w.clk, i, at, o.delays);
      DoomedAfterFire(w, i, at, o, k, deadline);
      DoomedAfterAdvance(FireAt(w, i, at, o), target, o, k, deadline);
    }
  }

  lemma DoomedAfterRequest(s: Sys, r: Request, o: Options, k: Key, deadline: int)
    requires FreshRequest(r, s.used) && k.id in s.used && Doomed(s.w, k, deadline)
    ensures Doomed(Handle(s.w, r, o).w, k, deadline)
  {
    var ts, ts' := s.w.clk.timers, Handle(s.w, r, o).w.clk.timers;
    if Lookup(s.w.apps, k).Ok? {
      RequestKeepsTimers(s.w, r, o);
      var j :| 0 <= j < |ts| && ts[j].Live() && ts[j].fn == Reap(k) && ts[j].deadline <= deadline;
      assert ts'[j] == ts[j];
    } else {
      RequestKeepsAbsent(s, r, o, k);
    }
  }

  predicate HasAdvance(steps: seq<Step>) {
    exists n :: 0 <= n < |steps| && steps[n].Advance?
  }

  lemma AdvanceReaches(w: World, target: int, o: Options)
    ensures AdvanceWorld(w, target, o).clk.now == target
  {
    AdvanceReplaysLog(w, target, o);
    FiringLog.AdvanceCompletes(w.clk, target, o.delays);
  }

  lemma StepMovesClockOn(s: Sys, step: Step, o: Options)
    requires Enabled(s, step)
    ensures s.w.clk.now <= Exec(s, step, o).w.clk.now
    ensures !step.Req? ==> Exec(s, step, o).w.leases == s.w.leases
  {
    match step
    case Req(r) => RequestKeepsTimers(s.w, r, o);
    case Advance(amount) =>
      AdvanceReaches(s.w, s.w.clk.now + amount, o);
      AdvanceReplaysLog(s.w, s.w.clk.now + amount, o);
    case Tick(_) =>
    case FireAny(i, at) => FireShape(s.w.clk, i, at, o.delays);
  }

  lemma {:induction false} RunMovesClockOn(s: Sys, steps: seq<Step>, o: Options)
    requires LegalRun(s, steps, o)
    ensures s.w.clk.now <= Run(s, steps, o).w.clk.now
    decreases steps
  {
    if steps != [] {
      StepMovesClockOn(s, steps[0], o);
      RunMovesClockOn(Exec(s, steps[0], o), steps[1..], o);
    }
  }

  lemma {:induction false} ClockNeedsAdvance(s: Sys, steps: seq<Step>, o: Options)
    requires LegalRun(s, steps, o) && OnFakeClock(steps)
    ensures s.w.clk.now <= Run(s, steps, o).w.clk.now
    ensures !HasAdvance(steps) ==> Run(s, steps, o).w.clk.now == s.w.clk.now
    decreases steps
  {
    if steps != [] {
      var step := steps[0];
      assert step.Req? || step.Advance?;
      if step.Req? {
        RequestKeepsTimers(s.w, step.r, o);
      } else {
        AdvanceReaches(s.w, s.w.clk.now + step.amount, o);
      }
      assert forall n :: 0 <= n < |steps[1..]| ==> steps[1..][n] == steps[n + 1];
      ClockNeedsAdvance(Exec(s, step, o), steps[1..], o);
    }
  }

  lemma DoomedAfterStep(s: Sys, step: Step, o: Options, k: Key, deadline: int)
    requires Enabled(s, step) && k.id in s.used && Doomed(s.w, k, deadline)
    ensures Doomed(Exec(s, step, o).w, k, deadline)
  {
    hide Handle, AdvanceWorld, Doomed;
    match step
    case Req(r) => DoomedAfterRequest(s, r, o, k, deadline);
    case Advance(amount) => DoomedAfterAdvance(s.w, s.w.clk.now + amount, o, k, deadline);
    case Tick(to) => DoomedIgnoresNow(s.w, to, k, deadline);
    case FireAny(i, at) => DoomedAfterFire(s.w, i, at, o, k, deadline);
  }

  lemma DoomedIgnoresNow(w: World, now: int, k: Key, deadline: int)
    requires Doomed(w, k, deadline)
    ensures Doomed(w.(clk := w.clk.(now := now)), k, deadline)
  {
  }

  /**
   A pending reap stays pending until its machine is gone, in any firing order; on the fake clock it removes the
   machine by the first advance that reaches its deadline.
   */
  lemma {:induction false} ReapedByDeadline(s: Sys, steps: seq<Step>, o: Options, k: Key, deadline: int)
    requires LegalRun(s, steps, o) && k.id in s.used && Doomed(s.w, k, deadline)
    ensures Doomed(Run(s, steps, o).w, k, deadline)
    ensures OnFakeClock(steps) && HasAdvance(steps) && deadline <= Run(s, steps, o).w.clk.now ==>
      !Lookup(Run(s, steps, o).w.apps, k).Ok?
    decreases steps
  {
    hide Handle, AdvanceWorld, FireAt, Doomed, Lookup;
    if steps != [] {
      var step, rest := steps[0], steps[1..];
      var s' := Exec(s, step, o);
      assert k.id in s'.used;
      DoomedAfterStep(s, step, o, k, deadline);
      ReapedByDeadline(s', rest, o, k, deadline);
      if OnFakeClock(steps) {
        assert forall n :: 0 <= n < |rest| ==> rest[n] == steps[n + 1];
        if HasAdvance(steps) && !HasAdvance(rest) {
          assert step.Advance?;
          ClockNeedsAdvance(s', rest, o);
          DoomedAfterAdvance(s.w, s.w.clk.now + step.amount, o, k, deadline);
          AdvanceReaches(s.w, s.w.clk.now + step.amount, o);
          if !Lookup(s'.w.apps, k).Ok? {
            GoneForGood(s', rest, o, k);
          }
        }
      }
    }
  }

  lemma DeleteRegistersReap(w: World, k: Key, nonce: string, o: Options)
    requires HandleDeleteMachine(w, k, nonce, o).resp.Accepted?
    ensures
      var w' := HandleDeleteMachine(w, k, nonce, o).w;
      && Lookup(w.apps, k).Ok? && Lookup(w'.apps, k).Ok? && Lookup(w'.apps, k).value.state == Destroying
      && w'.clk == Register(w.clk, o.delays.destroy, Reap(k))
      && PendingBy(w'.clk.timers, Reap(k), w.clk.now + o.delays.destroy)
  {
    var w' := HandleDeleteMachine(w, k, nonce, o).w;
    assert w'.clk == Register(w.clk, o.delays.destroy, Reap(k));
    var j := |w.clk.timers|;
    assert w'.clk.timers[j] == Timer(w.clk.now + o.delays.destroy, Reap(k), false, false);
    TouchedTwice(w.apps, k, Enter(Destroying), w.clk.now);
    MutateAllTwo(Lookup(w.apps, k).value, Enter(Destroying), Touch(w.clk.now));
  }

  /**
   After a delete accepted at time T the machine is absent from every later state whose clock has
   reached T + Destroy, whatever was requested in between, app deletion and re-creation included. When
   Destroy is zero this needs one advance, since nothing fires before the clock is driven.
   */
  lemma DestructionIsFinal(s: Sys, k: Key, nonce: string, steps: seq<Step>, o: Options)
    requires Good(s) && HandleDeleteMachine(s.w, k, nonce, o).resp.Accepted?
    requires LegalRun(Exec(s, Req(DeleteMachine(k, nonce)), o), steps, o) && OnFakeClock(steps)
    ensures
      var s' := Run(Exec(s, Req(DeleteMachine(k, nonce)), o), steps, o);
      s.w.clk.now + o.delays.destroy <= s'.w.clk.now && (0 < o.delays.destroy || HasAdvance(steps)) ==>
        !Lookup(s'.w.apps, k).Ok?
  {
    var s1 := Exec(s, Req(DeleteMachine(k, nonce)), o);
    DeleteRegistersReap(s.w, k, nonce, o);
    assert MachineOK(k, Lookup(s.w.apps, k).value, s.used);
    ReapedByDeadline(s1, steps, o, k, s.w.clk.now + o.delays.destroy);
    ClockNeedsAdvance(s1, steps, o);
  }

  /**
   In any firing order: after an accepted delete an existing machine has a reap pending, due by T + Destroy; so once
   none is pending the machine is gone, and stays gone.
   */
  lemma DestructionIsFinalInAnyOrder(s: Sys, k: Key, nonce: string, steps: seq<Step>, later: seq<Step>, o: Options)
    requires Good(s) && HandleDeleteMachine(s.w, k, nonce, o).resp.Accepted?
    requires LegalRun(Exec(s, Req(DeleteMachine(k, nonce)), o), steps, o)
    requires LegalRun(Run(Exec(s, Req(DeleteMachine(k, nonce)), o), steps, o), later, o)
    ensures
      var s' := Run(Exec(s, Req(DeleteMachine(k, nonce)), o), steps, o);
      && (Lookup(s'.w.apps, k).Ok? ==> PendingBy(s'.w.clk.timers, Reap(k), s.w.clk.now + o.delays.destroy))
      && (!Pending(s'.w.clk.timers, Reap(k)) ==>
           !Lookup(s'.w.apps, k).Ok? && !Lookup(Run(s', later, o).w.apps, k).Ok?)
  {
    hide LegalRun, Run, HandleDeleteMachine, Lookup;
    var s1 := Exec(s, Req(DeleteMachine(k, nonce)), o);
    var s' := Run(s1, steps, o);
    DeleteRegistersReap(s.w, k, nonce, o);
    assert MachineOK(k, Lookup(s.w.apps, k).value, s.used);
    ReapedByDeadline(s1, steps, o, k, s.w.clk.now + o.delays.destroy);
    if !Lookup(s'.w.apps, k).Ok? {
      UsedOnlyGrows(s1, steps, o);
      GoneForGood(s', later, o, k);
    }
  }

  lemma {:induction false} UsedOnlyGrows(s: Sys, steps: seq<Step>, o: Options)
    requires LegalRun(s, steps, o)
    ensures s.used <= Run(s, steps, o).used
    decreases steps
  {
    if steps != [] {
      UsedOnlyGrows(Exec(s, steps[0], o), steps[1..], o);
    }
  }

  // ---- until then ----

  /** Nothing but reaps of k's is pending. */
  ghost predicate OnlyReapsPending(ts: seq<Timer>, k: Key) {
    forall j :: 0 <= j < |ts| && ts[j].Live() && ts[j].fn.key == k ==> ts[j].fn == Reap(k)
  }

  /** Nothing but reaps, none due before `earliest`, is pending for a machine being destroyed. */
  ghost predicate Dying(w: World, k: Key, earliest: int) {
    && (Lookup(w.apps, k).Ok? ==> Lookup(w.apps, k).value.state == Destroying)
    && OnlyReapsPending(w.clk.timers, k)
    && forall j :: 0 <= j < |w.clk.timers| && w.clk.timers[j].Live() && w.clk.timers[j].fn.key == k ==>
         earliest <= w.clk.timers[j].deadline
  }

  lemma DyingAfterFire(w: World, i: nat, at: int, o: Options, k: Key, earliest: int)
    requires i < |w.clk.timers| && w.clk.timers[i].Live() && Dying(w, k, earliest)
    ensures Dying(FireAt(w, i, at, o), k, earliest)
    ensures Lookup(w.apps, k).Ok? && w.clk.timers[i].deadline < earliest ==> Lookup(FireAt(w, i, at, o).apps, k).Ok?
  {
    RunCallbackFrame(w.apps, w.clk.timers[i].fn);
    FireShape(w.clk, i, at, o.delays);
  }

  lemma {:induction false} DyingAfterAdvance(w: World, target: int, o: Options, k: Key, earliest: int)
    requires Dying(w, k, earliest)
    ensures Dying(AdvanceWorld(w, target, o), k, earliest)
    ensures Lookup(w.apps, k).Ok? && target < earliest ==> Lookup(AdvanceWorld(w, target, o).apps, k).Ok?
    decreases Weight(w.clk.timers)
  {
    var i := Next(w.clk.timers, target);
    if 0 <= i {
      var at := w.clk.timers[i].deadline;
      FireDecreasesWeight(w.clk, i, at, o.delays);
      DyingAfterFire(w, i, at, o, k, earliest);
      DyingAfterAdvance(FireAt(w, i, at, o), target, o, k, earliest);
    }
  }

  /** A machine being destroyed refuses every request that would change its course; another delete changes nothing. */
  lemma DestroyingIsTerminal(w: World, r: Request, o: Options, k: Key)
    requires Lookup(w.apps, k).Ok? && Lookup(w.apps, k).value.state == Destroying
    requires r.CreateMachine? ==> Subject(r) != Some(k)
    ensures
      var after := Lookup(Handle(w, r, o).w.apps, k);
      (after.Ok? ==> after.value.state == Destroying) && (r != DeleteApp(k.app) ==> after.Ok?)
  {
    RequestOnMachine(w, r, o, k);
    if Subject(r) == Some(k) {
      if r.Act? || r.UpdateMachine? {
        assert Handle(w, r, o).w.apps == w.apps;
      } else if |Mutations(r, w.clk.now)| == 2 {
        MutateAllTwo(Lookup(w.apps, k).value, Mutations(r, w.clk.now)[0], Touch(w.clk.now));
      }
    }
  }

  lemma DestroyingRegistersReaps(w: World, r: Request, o: Options, k: Key)
    requires Lookup(w.apps, k).Ok? ==> Lookup(w.apps, k).value.state == Destroying
    requires r.CreateMachine? ==> Subject(r) != Some(k)
    ensures
      var clk' := Handle(w, r, o).w.clk;
      || clk' == w.clk || clk' == Register(w.clk, o.delays.destroy, Reap(k))
      || exists delay, fn: Callback :: fn.key != k && clk' == Register(w.clk, delay, fn)
  {
    if Subject(r) != Some(k) {
      RequestOnClock(w, r, o);
    }
  }

  lemma DyingAfterRequest(s: Sys, r: Request, o: Options, k: Key, earliest: int)
    requires FreshRequest(r, s.used) && k.id in s.used
    requires Dying(s.w, k, earliest) && earliest <= s.w.clk.now + o.delays.destroy
    ensures Dying(Handle(s.w, r, o).w, k, earliest)
    ensures Lookup(s.w.apps, k).Ok? && r != DeleteApp(k.app) ==> Lookup(Handle(s.w, r, o).w.apps, k).Ok?
  {
    hide Handle, Lookup, Booking;
    assert r.CreateMachine? ==> r.id in Minted(r);
    DestroyingRegistersReaps(s.w, r, o, k);
    if Lookup(s.w.apps, k).Ok? {
      DestroyingIsTerminal(s.w, r, o, k);
    } else {
      RequestKeepsAbsent(s, r, o, k);
    }
  }

  lemma DyingAfterStep(s: Sys, step: Step, o: Options, k: Key, earliest: int)
    requires Enabled(s, step) && k.id in s.used
    requires Dying(s.w, k, earliest) && earliest <= s.w.clk.now + o.delays.destroy
    ensures Dying(Exec(s, step, o).w, k, earliest)
  {
    hide Handle, AdvanceWorld;
    match step
    case Req(r) => DyingAfterRequest(s, r, o, k, earliest);
    case Advance(amount) => DyingAfterAdvance(s.w, s.w.clk.now + amount, o, k, earliest);
    case Tick(_) =>
    case FireAny(i, at) => DyingAfterFire(s.w, i, at, o, k, earliest);
  }

  /** The machine is there until `earliest`, on the fake clock, unless its app is deleted. */
  lemma StaysUntil(s: Sys, step: Step, o: Options, k: Key, earliest: int)
    requires Enabled(s, step) && k.id in s.used && (step.Req? || step.Advance?) && step != Req(DeleteApp(k.app))
    requires Dying(s.w, k, earliest) && earliest <= s.w.clk.now + o.delays.destroy
    requires Lookup(s.w.apps, k).Ok? && Exec(s, step, o).w.clk.now < earliest
    ensures Lookup(Exec(s, step, o).w.apps, k).Ok?
  {
    hide Handle, AdvanceWorld;
    if step.Req? {
      DyingAfterRequest(s, step.r, o, k, earliest);
    } else {
      AdvanceReaches(s.w, s.w.clk.now + step.amount, o);
      DyingAfterAdvance(s.w, s.w.clk.now + step.amount, o, k, earliest);
    }
  }

  /** Whatever is requested and in whatever order pending callbacks fire. */
  lemma {:induction false} StaysDestroying(s: Sys, steps: seq<Step>, o: Options, k: Key, earliest: int)
    requires LegalRun(s, steps, o) && k.id in s.used
    requires Dying(s.w, k, earliest) && earliest <= s.w.clk.now + o.delays.destroy
    ensures Dying(Run(s, steps, o).w, k, earliest)
    ensures
      && Lookup(s.w.apps, k).Ok? && OnFakeClock(steps) && Req(DeleteApp(k.app)) !in steps
      && Run(s, steps, o).w.clk.now < earliest
      ==> Lookup(Run(s, steps, o).w.apps, k).Ok?
    decreases steps
  {
    hide Handle, AdvanceWorld, FireAt, Lookup, Dying;
    if steps != [] {
      var step, rest := steps[0], steps[1..];
      var s' := Exec(s, step, o);
      assert k.id in s'.used;
      DyingAfterStep(s, step, o, k, earliest);
      StepMovesClockOn(s, step, o);
      RunMovesClockOn(s', rest, o);
      StaysDestroying(s', rest, o, k, earliest);
      if Lookup(s.w.apps, k).Ok? && OnFakeClock(steps) && Req(DeleteApp(k.app)) !in steps
         && Run(s, steps, o).w.clk.now < earliest {
        assert forall n :: 0 <= n < |rest| ==> rest[n] == steps[n + 1];
        assert step in steps && (step.Req? || step.Advance?);
        StaysUntil(s, step, o, k, earliest);
      }
    }
  }

  /** A time no later than any deadline of the list, nor than a given one. */
  function Soonest(ts: seq<Timer>, limit: int): (t: int)
    ensures t <= limit && forall j :: 0 <= j < |ts| ==> t <= ts[j].deadline
  {
    if ts == [] then limit
    else
      var n := |ts| - 1;
      var t := Soonest(ts[..n], limit);
      assert forall j :: 0 <= j < n ==> ts[..n][j] == ts[j];
      if t < ts[n].deadline then t else ts[n].deadline
  }

  /**
   If nothing of the machine's but reaps was pending when its delete was accepted, it is `destroying` in every
   later state in which it exists, under any firing order.
   */
  lemma DestroyingInAnyOrder(s: Sys, k: Key, nonce: string, steps: seq<Step>, o: Options)
    requires Good(s) && HandleDeleteMachine(s.w, k, nonce, o).resp.Accepted? && OnlyReapsPending(s.w.clk.timers, k)
    requires LegalRun(Exec(s, Req(DeleteMachine(k, nonce)), o), steps, o)
    ensures
      var last := Lookup(Run(Exec(s, Req(DeleteMachine(k, nonce)), o), steps, o).w.apps, k);
      last.Ok? ==> last.value.state == Destroying
  {
    hide LegalRun, Run, HandleDeleteMachine;
    var s1 := Exec(s, Req(DeleteMachine(k, nonce)), o);
    DeleteRegistersReap(s.w, k, nonce, o);
    assert MachineOK(k, Lookup(s.w.apps, k).value, s.used);
    StaysDestroying(s1, steps, o, k, Soonest(s1.w.clk.timers, s1.w.clk.now + o.delays.destroy));
  }

  /**
   If nothing else was pending for the machine when its delete was accepted at T, it is `destroying` in every
   later state in which it exists, under any firing order; and on the fake clock it exists until the clock
   reaches T + Destroy unless its app is deleted.
   */
  lemma DestroyingUntilReaped(s: Sys, k: Key, nonce: string, steps: seq<Step>, o: Options)
    requires Good(s) && HandleDeleteMachine(s.w, k, nonce, o).resp.Accepted?
    requires forall j :: 0 <= j < |s.w.clk.timers| && s.w.clk.timers[j].Live() ==> s.w.clk.timers[j].fn.key != k
    requires LegalRun(Exec(s, Req(DeleteMachine(k, nonce)), o), steps, o)
    ensures
      var s' := Run(Exec(s, Req(DeleteMachine(k, nonce)), o), steps, o);
      && (Lookup(s'.w.apps, k).Ok? ==> Lookup(s'.w.apps, k).value.state == Destroying)
      && (OnFakeClock(steps) && s'.w.clk.now < s.w.clk.now + o.delays.destroy && Req(DeleteApp(k.app)) !in steps ==>
           Lookup(s'.w.apps, k).Ok?)
  {
    hide LegalRun, Run, HandleDeleteMachine;
    DeleteRegistersReap(s.w, k, nonce, o);
    assert MachineOK(k, Lookup(s.w.apps, k).value, s.used);
    StaysDestroying(Exec(s, Req(DeleteMachine(k, nonce)), o), steps, o, k, s.w.clk.now + o.delays.destroy);
  }
}
