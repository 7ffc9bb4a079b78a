/**
 Runs from a new server that reach the corners the theorems carve out: each exception stated elsewhere is met by
 some sequence of requests on the fake clock.
 */
module Witnesses {
  import opened Flaps
  import opened Callbacks
  import opened EventQueue
  import opened Emulator
  import opened Runs
  import opened Invariants
  import opened Safety
  import opened History
  import opened Holder
  import opened Overwriting
  import opened LastRequest
  import Cloning
  import Destruction
  import L = Leases
  import Waiting

  const OPTIONS := Options(DEFAULT_DELAYS, L.DEFAULT_TTL)
  const MACHINE := Key("shop", "m1")

  /** One more request or advance leads from a reachable state to a reachable one. */
  lemma OneMore(s: Sys, step: Step, o: Options)
    requires ReachableOnFakeClock(s, o) && Enabled(s, step) && (step.Req? || step.Advance?)
    ensures ReachableOnFakeClock(Exec(s, step, o), o)
  {
    hide Exec, Enabled;
    var now, steps :| ReachedBy(now, steps, s, o) && OnFakeClock(steps);
    assert [step][1..] == [];
    assert Run(s, [step], o) == Run(Exec(s, step, o), [], o);
    RunOfConcat(NewServer(now), steps, [step], o);
    assert ReachedBy(now, steps + [step], Exec(s, step, o), o);
  }

  lemma NewServerIsReachable(o: Options)
    ensures ReachableOnFakeClock(NewServer(0), o)
  {
    assert ReachedBy(0, [], NewServer(0), o) && OnFakeClock([]);
  }

  function TheMachine(skipLaunch: bool): Machine {
    Cloned(NewMachine("", "", None, skipLaunch, "m1", "v1", 0))
  }

  /** A server with one app and one machine, launched or not. */
  function Start(skipLaunch: bool): Sys {
    Sys(World(Queue(0, if skipLaunch then [] else [Timer(OPTIONS.delays.create, BootFirst(MACHINE), false, false)]),
              map["shop" := App("org", "deployed", map["m1" := TheMachine(skipLaunch)])], map[]),
        {"m1", "v1"})
  }

  lemma StartIsReachable(skipLaunch: bool)
    ensures ReachableOnFakeClock(Start(skipLaunch), OPTIONS)
  {
    NewServerIsReachable(OPTIONS);
    var s1 := Exec(NewServer(0), Req(CreateApp("shop", "org")), OPTIONS);
    OneMore(NewServer(0), Req(CreateApp("shop", "org")), OPTIONS);
    var r := CreateMachine("shop", "", "", None, skipLaunch, "m1", "v1");
    assert FreshRequest(r, s1.used);
    OneMore(s1, Req(r), OPTIONS);
    var s2 := Exec(s1, Req(r), OPTIONS);
    assert s2.w.apps == Start(skipLaunch).w.apps;
    assert s2.w.clk == Start(skipLaunch).w.clk;
    assert s2 == Start(skipLaunch);
  }

  // ---- what a lease does not stop ----

  /** The machine created, and another client's lease taken on it. */
  function Leased(): Sys {
    Sys(World(Queue(0, []), Start(true).w.apps, map[LeaseKey(MACHINE) := L.Lease("n1", "mudflaps", "", L.DEFAULT_TTL)]),
        {"m1", "v1", "n1"})
  }

  lemma LeasedIsReachable()
    ensures ReachableOnFakeClock(Leased(), OPTIONS)
  {
    var r := AcquireLease(MACHINE, "", 0, "", "n1");
    StartIsReachable(true);
    OneMore(Start(true), Req(r), OPTIONS);
    assert Exec(Start(true), Req(r), OPTIONS) == Leased();
  }

  /** Without the nonce a stop is refused, but metadata is written and the app deleted. */
  lemma LeaseHeldByAnother() returns (s: Sys, l: L.Lease)
    ensures ReachableOnFakeClock(s, OPTIONS) && Lookup(s.w.apps, MACHINE).Ok?
    ensures L.InForce(s.w.leases, LeaseKey(MACHINE), s.w.clk.now) == Some(l) && l.nonce != ""
    ensures Handle(s.w, Act(MACHINE, "", Stop), OPTIONS).resp == Response.Leased
    ensures
      var after := Lookup(Handle(s.w, SetMetadata(MACHINE, "owner", "me"), OPTIONS).w.apps, MACHINE);
      after.Ok? && after.value.config == Some(EMPTY_CONFIG.(metadata := Some(map["owner" := "me"])))
      && after.value.config != Lookup(s.w.apps, MACHINE).value.config
    ensures !Lookup(Handle(s.w, DeleteApp("shop"), OPTIONS).w.apps, MACHINE).Ok?
  {
    s, l := Leased(), L.Lease("n1", "mudflaps", "", L.DEFAULT_TTL);
    LeasedIsReachable();
    assert Lookup(s.w.apps, MACHINE) == Ok(TheMachine(true)) && TheMachine(true).config == None;
    FakeClockIsOneScheduler(s, OPTIONS);
    ReachableIsGood(s, OPTIONS);
    UngatedIffMetadata(s, Act(MACHINE, "", Stop), OPTIONS, MACHINE, l);
    AppDeletionIgnoresLeases(s.w, OPTIONS, MACHINE);
    MetadataWritten(s.w, TheMachine(true));
  }

  lemma MetadataWritten(w: World, m: Machine)
    requires Lookup(w.apps, MACHINE) == Ok(m) && m.config == None
    ensures
      var after := Lookup(Handle(w, SetMetadata(MACHINE, "owner", "me"), OPTIONS).w.apps, MACHINE);
      after.Ok? && after.value.config == Some(EMPTY_CONFIG.(metadata := Some(map["owner" := "me"])))
  {
    TouchedTwice(w.apps, MACHINE, PutMetadata("owner", "me"), w.clk.now);
    MutateAllTwo(m, PutMetadata("owner", "me"), Touch(w.clk.now));
  }

  /** A stop without the nonce is refused; reading the lease shows the nonce, and with it the stop is accepted. */
  lemma NonceReadFromTheLease() returns (s: Sys)
    ensures ReachableOnFakeClock(s, OPTIONS)
    ensures Handle(s.w, Act(MACHINE, "", Stop), OPTIONS).resp == Response.Leased
    ensures Handle(s.w, GetLease(MACHINE), OPTIONS) == Outcome(s.w, LeaseIs("n1", "mudflaps", L.DEFAULT_TTL))
    ensures Handle(s.w, Act(MACHINE, "n1", Stop), OPTIONS).resp.PreviousState?
  {
    s := Leased();
    LeasedIsReachable();
    var l := L.Lease("n1", "mudflaps", "", L.DEFAULT_TTL);
    assert Lookup(s.w.apps, MACHINE) == Ok(TheMachine(true));
    GetLeaseShowsIt(s.w, OPTIONS, MACHINE, l);
    FakeClockIsOneScheduler(s, OPTIONS);
    ReachableIsGood(s, OPTIONS);
    UngatedIffMetadata(s, Act(MACHINE, "", Stop), OPTIONS, MACHINE, l);
    HolderMayStop(s.w, "n1");
  }

  lemma HolderMayStop(w: World, nonce: string)
    requires Lookup(w.apps, MACHINE) == Ok(TheMachine(true)) && !RejectedByLease(w, MACHINE, nonce)
    ensures Handle(w, Act(MACHINE, nonce, Stop), OPTIONS).resp.PreviousState?
  {
  }

  /** The holder asks for one second more, and the lease that had thirty seconds to go ends after one. */
  lemma RefreshShortens() returns (s: Sys, l: L.Lease)
    ensures ReachableOnFakeClock(s, OPTIONS) && Lookup(s.w.apps, MACHINE).Ok?
    ensures L.InForce(s.w.leases, LeaseKey(MACHINE), s.w.clk.now) == Some(l) && l.expiresAt == 30 * L.SECOND
    ensures
      Handle(s.w, AcquireLease(MACHINE, l.nonce, 1, "", "n2"), OPTIONS).resp == LeaseIs(l.nonce, l.owner, 1 * L.SECOND)
  {
    s, l := Leased(), L.Lease("n1", "mudflaps", "", L.DEFAULT_TTL);
    LeasedIsReachable();
    assert Lookup(s.w.apps, MACHINE) == Ok(TheMachine(true));
  }

  // ---- a lease without a machine ----

  lemma FoundAtStart()
    ensures Lookup(Start(true).w.apps, MACHINE) == Ok(TheMachine(true))
  {
  }

  lemma AcquireWhileDestroying(w: World, nonce: string)
    requires Lookup(w.apps, MACHINE).Ok? && w.leases == map[] && w.clk.now == 0
    ensures
      Handle(w, AcquireLease(MACHINE, "", 0, "", nonce), OPTIONS).w ==
      w.(leases := map[LeaseKey(MACHINE) := L.Lease(nonce, "mudflaps", "", L.DEFAULT_TTL)])
  {
  }

  lemma DeletedAtStart()
    ensures
      var w' := Handle(Start(true).w, DeleteMachine(MACHINE, ""), OPTIONS).w;
      && Lookup(w'.apps, MACHINE).Ok? && w'.leases == map[] && w'.clk.now == 0
      && Destruction.PendingBy(w'.clk.timers, Reap(MACHINE), OPTIONS.delays.destroy)
  {
    hide HandleDeleteMachine;
    FoundAtStart();
    DeleteAccepted(Start(true).w);
    Destruction.DeleteRegistersReap(Start(true).w, MACHINE, "", OPTIONS);
  }

  /** A delete, a lease acquired on the machine being destroyed, and the reap: the machine is gone, the lease is not. */
  lemma LeaseOutlivesMachine() returns (s: Sys)
    ensures ReachableOnFakeClock(s, OPTIONS) && !Lookup(s.w.apps, MACHINE).Ok?
    ensures L.InForce(s.w.leases, LeaseKey(MACHINE), s.w.clk.now).Some?
  {
    hide Handle, AdvanceWorld, ReachableOnFakeClock, Lookup;
    var s0, r, wait := Start(true), AcquireLease(MACHINE, "", 0, "", "n1"), OPTIONS.delays.destroy;
    StartIsReachable(true);
    DeletedAtStart();
    OneMore(s0, Req(DeleteMachine(MACHINE, "")), OPTIONS);
    var s1 := Exec(s0, Req(DeleteMachine(MACHINE, "")), OPTIONS);
    AcquireWhileDestroying(s1.w, "n1");
    assert FreshRequest(r, s1.used);
    OneMore(s1, Req(r), OPTIONS);
    var s2 := Exec(s1, Req(r), OPTIONS);
    Destruction.DoomedAfterAdvance(s2.w, wait, OPTIONS, MACHINE, wait);
    Destruction.AdvanceReaches(s2.w, wait, OPTIONS);
    Destruction.StepMovesClockOn(s2, Advance(wait), OPTIONS);
    OneMore(s2, Advance(wait), OPTIONS);
    s := Exec(s2, Advance(wait), OPTIONS);
  }

  // ---- destroying, overwritten ----

  /** What a stop leaves: one timer, and the machine stopping. */
  lemma StopAccepted(skipLaunch: bool)
    ensures
      var w, w' := Start(skipLaunch).w, Handle(Start(skipLaunch).w, Act(MACHINE, "", Stop), OPTIONS).w;
      && Handle(w, Act(MACHINE, "", Stop), OPTIONS).resp.PreviousState?
      && w'.clk == Register(w.clk, 75 * MILLISECOND, StopEnd(MACHINE)) && w'.leases == map[]
      && Lookup(w'.apps, MACHINE).Ok? && Lookup(w'.apps, MACHINE).value.state == Stopping
  {
    var m := TheMachine(skipLaunch);
    assert Lookup(Start(skipLaunch).w.apps, MACHINE) == Ok(m);
    TouchedTwice(Start(skipLaunch).w.apps, MACHINE, Enter(Stopping), 0);
    MutateAllTwo(m, Enter(Stopping), Touch(0));
  }

  /** A clock on which nothing is due moves on without more. */
  lemma QuietAdvance(s: Sys, amount: nat, o: Options)
    requires forall j :: 0 <= j < |s.w.clk.timers| ==> !Due(s.w.clk.timers[j], s.w.clk.now + amount)
    ensures Exec(s, Advance(amount), o) == s.(w := s.w.(clk := s.w.clk.(now := s.w.clk.now + amount)))
  {
    NextIsUnique(s.w.clk.timers, s.w.clk.now + amount, -1);
  }

  lemma DeleteAccepted(w: World)
    requires w.leases == map[] && Lookup(w.apps, MACHINE).Ok?
    ensures HandleDeleteMachine(w, MACHINE, "", OPTIONS).resp.Accepted?
    ensures HandleDeleteMachine(w, MACHINE, "", OPTIONS).w.leases == map[]
  {
  }

  /**
   A stop, and a delete one millisecond later: when the stop's callback comes due the machine being destroyed reads
   as stopped, one millisecond before it is gone.
   */
  lemma StopOverwritesDestroying() returns (s: Sys)
    ensures ReachableOnFakeClock(s, OPTIONS) && HandleDeleteMachine(s.w, MACHINE, "", OPTIONS).resp.Accepted?
    ensures !Outrun(s.w.clk.timers, MACHINE, s.w.clk.now + OPTIONS.delays.destroy)
    ensures !AlwaysDestroying(Exec(s, Req(DeleteMachine(MACHINE, "")), OPTIONS), MACHINE, OPTIONS)
  {
    hide Handle, AdvanceWorld, ReachableOnFakeClock, HandleDeleteMachine, AlwaysDestroying, Lookup;
    StartIsReachable(true);
    StopAccepted(true);
    OneMore(Start(true), Req(Act(MACHINE, "", Stop)), OPTIONS);
    var s1 := Exec(Start(true), Req(Act(MACHINE, "", Stop)), OPTIONS);
    assert s1.w.clk == Queue(0, [Timer(75 * MILLISECOND, StopEnd(MACHINE), false, false)]);
    QuietAdvance(s1, MILLISECOND, OPTIONS);
    OneMore(s1, Advance(MILLISECOND), OPTIONS);
    s := Exec(s1, Advance(MILLISECOND), OPTIONS);
    assert IsFor(s.w.clk.timers[0], MACHINE) && s.w.clk.timers[0].deadline < s.w.clk.now + OPTIONS.delays.destroy;
    DeleteAccepted(s.w);
    DestroyingHoldsIff(s, MACHINE, "", OPTIONS);
  }

  // ---- a stop that does not stick ----

  /** A stop accepted before the boot's first step has fired: two delays later the machine is not stopped. */
  lemma StopDuringBootIsOverridden() returns (s: Sys)
    ensures ReachableOnFakeClock(s, OPTIONS) && AcceptedCourse(s.w, Act(MACHINE, "", Stop), OPTIONS, MACHINE)
    ensures
      var stopping := Exec(s, Req(Act(MACHINE, "", Stop)), OPTIONS);
      var last := Lookup(Exec(stopping, Advance(150 * MILLISECOND), OPTIONS).w.apps, MACHINE);
      last.Ok? && last.value.state != Stopped
  {
    hide Handle, AdvanceWorld, ReachableOnFakeClock, Lookup;
    s := Start(false);
    StartIsReachable(false);
    StopAccepted(false);
    var r := Act(MACHINE, "", Stop);
    var ts := s.w.clk.timers;
    assert ts[0].fn == BootFirst(MACHINE) && Pending(ts, BootFirst(MACHINE)) && !Pending(ts, Reap(MACHINE));
    var s1 := Exec(s, Req(r), OPTIONS);
    Destruction.AdvanceReaches(s1.w, s1.w.clk.now + 150 * MILLISECOND, OPTIONS);
    LastRequestWinsIff(s, r, [], 150 * MILLISECOND, OPTIONS, 75 * MILLISECOND, MACHINE);
  }

  // ---- a copy that is not exact ----

  /** An update whose configuration has an empty, non-nil handler list: what is stored is not what is handed out. */
  lemma CopyLosesEmptyHandlers() returns (s: Sys)
    ensures ReachableOnFakeClock(s, OPTIONS) && Lookup(s.w.apps, MACHINE).Ok?
    ensures Cloned(Lookup(s.w.apps, MACHINE).value) != Lookup(s.w.apps, MACHINE).value
  {
    var config := EMPTY_CONFIG.(services := Some([Service("tcp", 80, Some([Port(80, Some([]))]))]));
    var r := UpdateMachine(MACHINE, "", Some(config), "", "v2");
    var s0 := Start(true);
    StartIsReachable(true);
    assert FreshRequest(r, s0.used);
    OneMore(s0, Req(r), OPTIONS);
    s := Exec(s0, Req(r), OPTIONS);
    assert Lookup(s0.w.apps, MACHINE) == Ok(TheMachine(true));
    Waiting.UpdateChurns(s0.w, r, OPTIONS);
    var m := Lookup(s.w.apps, MACHINE).value;
    assert m.config == Some(config);
    assert config.services.value[0].ports.value[0].handlers == Some([]);
    Cloning.CopyIsExactIff(m);
  }
}
