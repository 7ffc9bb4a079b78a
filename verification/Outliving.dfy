/**
 When a lease outlives its machine: the reap does not clear it, so one taken while the machine was being destroyed
 stays in force.
 */
module Outliving {
  import opened Flaps
  import opened Callbacks
  import opened Emulator
  import opened Runs
  import opened Invariants
  import opened Safety
  import opened History
  import opened Destruction
  import opened Isolation
  import L = Leases

  /**
   The step that takes a machine away leaves a lease in force on it exactly if it is no request, so a reap fires, and
   the lease was in force and lasts beyond that moment.
   */
  lemma RemovalLeavesLeaseIff(s: Sys, step: Step, o: Options, k: Key)
    requires Good(s) && Enabled(s, step) && Lookup(s.w.apps, k).Ok? && !Lookup(Exec(s, step, o).w.apps, k).Ok?
    ensures
      var held, s' := L.InForce(s.w.leases, LeaseKey(k), s.w.clk.now), Exec(s, step, o);
      L.InForce(s'.w.leases, LeaseKey(k), s'.w.clk.now).Some? <==>
        !step.Req? && held.Some? && s'.w.clk.now < held.value.expiresAt
  {
    hide AdvanceWorld;
    assert MachineOK(k, Lookup(s.w.apps, k).value, s.used);
    StepMovesClockOn(s, step, o);
    if step.Req? {
      hide Handle;
      assert step.r.CreateMachine? ==> step.r.id in Minted(step.r);
      RequestOnMachine(s.w, step.r, o, k);
      assert step.r == DeleteApp(k.app);
      ClearedByAppDeletion(s.w, o, k);
    }
  }

  lemma ClearedByAppDeletion(w: World, o: Options, k: Key)
    requires Lookup(w.apps, k).Ok?
    ensures L.InForce(Handle(w, DeleteApp(k.app), o).w.leases, LeaseKey(k), w.clk.now) == None
  {
    ClearedOnDelete(w, k);
  }

  /** A lease request that acquires. */
  predicate Acquires(step: Step, k: Key) {
    step.Req? && step.r.AcquireLease? && step.r.k == k && step.r.nonce == ""
  }

  /** A request about k other than acquiring leaves no lease where there was none. */
  lemma NoLeaseAfterRequest(w: World, r: Request, o: Options, k: Key)
    requires L.InForce(w.leases, LeaseKey(k), w.clk.now) == None && Concerns(r, k) && !Acquires(Req(r), k)
    ensures L.InForce(Handle(w, r, o).w.leases, LeaseKey(k), w.clk.now) == None
  {
  }

  lemma NoLeaseAfterStep(s: Sys, step: Step, o: Options, k: Key)
    requires Good(s) && NoSlash(k.id) && Enabled(s, step) && !Acquires(step, k)
    requires L.InForce(s.w.leases, LeaseKey(k), s.w.clk.now) == None
    ensures L.InForce(Exec(s, step, o).w.leases, LeaseKey(k), Exec(s, step, o).w.clk.now) == None
  {
    hide Handle, AdvanceWorld, Concerns, Good, NoSlash;
    StepMovesClockOn(s, step, o);
    if step.Req? {
      RequestKeepsTimers(s.w, step.r, o);
      if Concerns(step.r, k) {
        NoLeaseAfterRequest(s.w, step.r, o, k);
      } else {
        UnconcernedIsInvisible(s, step.r, o, k);
      }
    }
  }

  lemma {:induction false} NoLeaseAfterRun(s: Sys, steps: seq<Step>, o: Options, k: Key)
    requires Good(s) && NoSlash(k.id) && LegalRun(s, steps, o)
    requires forall n :: 0 <= n < |steps| ==> !Acquires(steps[n], k)
    requires L.InForce(s.w.leases, LeaseKey(k), s.w.clk.now) == None
    ensures L.InForce(Run(s, steps, o).w.leases, LeaseKey(k), Run(s, steps, o).w.clk.now) == None
    decreases steps
  {
    hide Exec, Enabled, Good, NoSlash, L.InForce;
    if steps != [] {
      assert forall n :: 0 <= n < |steps[1..]| ==> steps[1..][n] == steps[n + 1];
      NoLeaseAfterStep(s, steps[0], o, k);
      GoodAfterStep(s, steps[0], o);
      NoLeaseAfterRun(Exec(s, steps[0], o), steps[1..], o, k);
    }
  }

  lemma DeleteClears(w: World, k: Key, nonce: string, o: Options)
    requires HandleDeleteMachine(w, k, nonce, o).resp.Accepted?
    ensures L.InForce(HandleDeleteMachine(w, k, nonce, o).w.leases, LeaseKey(k), w.clk.now) == None
  {
  }

  /** A delete clears the lease, so a lease that is there afterwards, machine or no machine, was acquired since. */
  lemma OnlyIfAcquiredSince(s: Sys, k: Key, nonce: string, steps: seq<Step>, o: Options)
    requires Good(s) && HandleDeleteMachine(s.w, k, nonce, o).resp.Accepted?
    requires LegalRun(Exec(s, Req(DeleteMachine(k, nonce)), o), steps, o)
    ensures
      var s' := Run(Exec(s, Req(DeleteMachine(k, nonce)), o), steps, o);
      L.InForce(s'.w.leases, LeaseKey(k), s'.w.clk.now).Some? ==>
        exists n :: 0 <= n < |steps| && Acquires(steps[n], k)
  {
    hide LegalRun, Run, L.InForce, HandleDeleteMachine;
    var s1 := Exec(s, Req(DeleteMachine(k, nonce)), o);
    DeleteRegistersReap(s.w, k, nonce, o);
    assert MachineOK(k, Lookup(s.w.apps, k).value, s.used);
    DeleteClears(s.w, k, nonce, o);
    GoodAfterStep(s, Req(DeleteMachine(k, nonce)), o);
    if forall n :: 0 <= n < |steps| ==> !Acquires(steps[n], k) {
      NoLeaseAfterRun(s1, steps, o, k);
    }
  }
}
