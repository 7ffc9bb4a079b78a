/** What a lease protects, over whole runs: only requests carrying its nonce change the machine. */
module Holder {
  import opened Flaps
  import opened Callbacks
  import opened EventQueue
  import opened Emulator
  import opened Runs
  import opened Invariants
  import opened Safety
  import opened History
  import opened Destruction
  import opened Isolation
  import Fates
  import LastRequest
  import L = Leases

  /** The nonce a request presents, if its endpoint reads one. */
  function Presented(r: Request): Option<string> {
    match r
    case UpdateMachine(_, nonce, _, _, _) => Some(nonce)
    case DeleteMachine(_, nonce) => Some(nonce)
    case Act(_, nonce, _) => Some(nonce)
    case SetCordon(_, nonce, _) => Some(nonce)
    case AcquireLease(_, nonce, _, _, _) => Some(nonce)
    case ReleaseLease(_, nonce) => Some(nonce)
    case _ => None
  }

  /** A request that neither carries the nonce to k nor deletes k's app. */
  predicate NotFromHolder(r: Request, k: Key, nonce: string) {
    r != DeleteApp(k.app) && (Subject(r) == Some(k) ==> Presented(r) != Some(nonce))
  }

  /** A configuration apart from its metadata; writing metadata gives a nil configuration its zero value. */
  function Bare(c: Option<Config>): Config {
    (if c.Some? then c.value else EMPTY_CONFIG).(metadata := None)
  }

  /** All that differs is metadata and the update time. */
  predicate Unaltered(m: Machine, m': Machine) {
    m'.(config := m.config, updatedAt := m.updatedAt) == m && Bare(m'.config) == Bare(m.config)
  }

  function VersionIDs(m: Machine): seq<string> {
    seq(|m.versions|, n requires 0 <= n < |m.versions| => m.versions[n].instanceID)
  }

  /** What stays even while callbacks fire. */
  predicate Protected(m: Machine, m': Machine) {
    && m'.name == m.name && m'.region == m.region && m'.cordoned == m.cordoned && m'.instanceID == m.instanceID
    && VersionIDs(m') == VersionIDs(m) && Bare(m'.config) == Bare(m.config)
  }

  /** Lease and pending callbacks are as they were; the machine, if there is one, is unaltered. */
  predicate LeftAlone(w: World, w': World, k: Key, l: L.Lease) {
    && L.InForce(w'.leases, LeaseKey(k), w'.clk.now) == Some(l)
    && Mine(w'.clk.timers, k) == Mine(w.clk.timers, k)
    && (match Lookup(w.apps, k)
        case Err(_) => !Lookup(w'.apps, k).Ok?
        case Ok(m) => Lookup(w'.apps, k).Ok? && Unaltered(m, Lookup(w'.apps, k).value))
  }

  lemma SameProjectionLeavesAlone(w: World, w': World, k: Key, l: L.Lease)
    requires Project(w', k) == Project(w, k) && L.InForce(w.leases, LeaseKey(k), w.clk.now) == Some(l)
    ensures LeftAlone(w, w', k, l)
  {
  }

  lemma GatedLeavesAlone(w: World, r: Request, o: Options, k: Key, l: L.Lease)
    requires L.InForce(w.leases, LeaseKey(k), w.clk.now) == Some(l) && Subject(r) == Some(k)
    requires (r.UpdateMachine? || r.DeleteMachine? || r.Act? || r.SetCordon?) && r.nonce != l.nonce
    ensures LeftAlone(w, Handle(w, r, o).w, k, l)
  {
    hide Handle, Mine;
    AcceptedIsChange(w, r, o);
    assert RejectedByLease(w, k, r.nonce);
  }

  lemma MetadataLeavesAlone(w: World, r: Request, o: Options, k: Key, l: L.Lease)
    requires L.InForce(w.leases, LeaseKey(k), w.clk.now) == Some(l) && Subject(r) == Some(k) && AboutMetadata(r)
    ensures LeftAlone(w, Handle(w, r, o).w, k, l)
  {
    hide Mine;
    ProjectChanged(w, k, MetadataMutation(r), Touch(w.clk.now), None, k);
  }

  lemma LeaseCallLeavesAlone(w: World, r: Request, o: Options, k: Key, l: L.Lease)
    requires L.InForce(w.leases, LeaseKey(k), w.clk.now) == Some(l) && Subject(r) == Some(k) && AboutLease(r)
    requires Presented(r) != Some(l.nonce)
    ensures LeftAlone(w, Handle(w, r, o).w, k, l)
  {
    hide Mine;
  }

  /** While a lease is in force, a request without its nonce leaves machine, lease and pending callbacks alone. */
  lemma NonHolderIsPowerless(s: Sys, r: Request, o: Options, k: Key, l: L.Lease)
    requires Good(s) && FreshRequest(r, s.used) && k.id in s.used && NoSlash(k.id)
    requires L.InForce(s.w.leases, LeaseKey(k), s.w.clk.now) == Some(l) && NotFromHolder(r, k, l.nonce)
    ensures LeftAlone(s.w, Handle(s.w, r, o).w, k, l)
  {
    if r.CreateApp? {
      assert Handle(s.w, r, o).w.clk == s.w.clk && Handle(s.w, r, o).w.leases == s.w.leases;
    } else if Subject(r) != Some(k) {
      UnconcernedIsInvisible(s, r, o, k);
      SameProjectionLeavesAlone(s.w, Handle(s.w, r, o).w, k, l);
    } else if AboutMetadata(r) {
      MetadataLeavesAlone(s.w, r, o, k, l);
    } else if AboutLease(r) {
      LeaseCallLeavesAlone(s.w, r, o, k, l);
    } else {
      assert r.CreateMachine? ==> k.id in Minted(r);
      GatedLeavesAlone(s.w, r, o, k, l);
    }
  }

  // ---- how far the exclusion goes ----

  /**
   With a lease in force on an existing machine, a request about it without the nonce, the lease endpoints apart,
   gets past the gate if and only if it writes or deletes metadata; the others are all answered as leased and
   leave store and clock as they were.
   */
  lemma UngatedIffMetadata(s: Sys, r: Request, o: Options, k: Key, l: L.Lease)
    requires Good(s) && FreshRequest(r, s.used) && Lookup(s.w.apps, k).Ok?
    requires L.InForce(s.w.leases, LeaseKey(k), s.w.clk.now) == Some(l)
    requires Subject(r) == Some(k) && !AboutLease(r) && Presented(r) != Some(l.nonce)
    ensures
      var out := Handle(s.w, r, o);
      && (out.resp != Leased <==> AboutMetadata(r)) && (out.resp.Accepted? <==> AboutMetadata(r))
      && (!AboutMetadata(r) ==> out.w.apps == s.w.apps && out.w.clk == s.w.clk)
  {
    assert MachineOK(k, Lookup(s.w.apps, k).value, s.used);
  }

  /** Without the nonce, acquiring and releasing are refused, and refusing tells at most the holder and the expiry. */
  lemma LeaseEndpointsRefuse(w: World, r: Request, o: Options, k: Key, l: L.Lease)
    requires Lookup(w.apps, k).Ok? && L.InForce(w.leases, LeaseKey(k), w.clk.now) == Some(l)
    requires Subject(r) == Some(k) && (r.AcquireLease? || r.ReleaseLease?) && Presented(r) != Some(l.nonce)
    ensures
      Handle(w, r, o).resp ==
      if r.AcquireLease? && r.nonce == "" then LeaseHeld(l.owner, l.expiresAt) else LeaseRejected(L.NonceMismatch)
    ensures Handle(w, r, o).w == w
  {
  }

  /** Reading the lease presents no nonce and is answered with the whole lease, nonce included. */
  lemma GetLeaseShowsIt(w: World, o: Options, k: Key, l: L.Lease)
    requires Lookup(w.apps, k).Ok? && L.InForce(w.leases, LeaseKey(k), w.clk.now) == Some(l)
    ensures Handle(w, GetLease(k), o) == Outcome(w, LeaseIs(l.nonce, l.owner, l.expiresAt))
  {
  }

  /** Of the requests about a leased machine that lack the nonce, exactly the one that reads the lease is told it. */
  lemma NonceShownIffRead(s: Sys, r: Request, o: Options, k: Key, l: L.Lease)
    requires Good(s) && FreshRequest(r, s.used) && Lookup(s.w.apps, k).Ok?
    requires L.InForce(s.w.leases, LeaseKey(k), s.w.clk.now) == Some(l)
    requires Subject(r) == Some(k) && Presented(r) != Some(l.nonce)
    ensures
      var resp := Handle(s.w, r, o).resp;
      (resp.LeaseIs? <==> r.GetLease?) && (resp.LeaseIs? ==> resp == LeaseIs(l.nonce, l.owner, l.expiresAt))
  {
    hide Handle;
    if r.GetLease? {
      GetLeaseShowsIt(s.w, o, k, l);
    } else if AboutLease(r) {
      LeaseEndpointsRefuse(s.w, r, o, k, l);
    } else {
      UngatedIffMetadata(s, r, o, k, l);
    }
  }

  /** Deleting the app takes machine and lease away, whoever asks and whatever lease is in force. */
  lemma AppDeletionIgnoresLeases(w: World, o: Options, k: Key)
    requires Lookup(w.apps, k).Ok?
    ensures
      var out := Handle(w, DeleteApp(k.app), o);
      out.resp.Accepted? && !Lookup(out.w.apps, k).Ok? && L.InForce(out.w.leases, LeaseKey(k), out.w.clk.now) == None
  {
    ClearedOnDelete(w, k);
  }

  lemma CallbackProtects(apps: Apps, fn: Callback, k: Key)
    requires Lookup(apps, k).Ok?
    ensures
      var after := Lookup(RunCallback(apps, fn), k);
      after.Ok? ==> Protected(Lookup(apps, k).value, after.value)
  {
    RunCallbackFrame(apps, fn);
    if fn.key == k && !fn.Reap? {
      LookupUpdate(apps, k, Effect(fn));
    }
  }

  lemma {:induction false} AdvanceProtects(w: World, target: int, o: Options, k: Key)
    requires Lookup(w.apps, k).Ok?
    ensures
      var after := Lookup(AdvanceWorld(w, target, o).apps, k);
      after.Ok? ==> Protected(Lookup(w.apps, k).value, after.value)
    decreases Weight(w.clk.timers)
  {
    var i := Next(w.clk.timers, target);
    if 0 <= i {
      FireDecreasesWeight(w.clk, i, w.clk.timers[i].deadline, o.delays);
      CallbackProtects(w.apps, w.clk.timers[i].fn, k);
      var w' := FireAt(w, i, w.clk.timers[i].deadline, o);
      if Lookup(w'.apps, k).Ok? {
        AdvanceProtects(w', target, o, k);
      } else {
        AdvanceKeepsAbsent(w', target, o, k);
      }
    }
  }

  ghost predicate WithoutHolder(steps: seq<Step>, k: Key, nonce: string) {
    forall n :: 0 <= n < |steps| && steps[n].Req? ==> NotFromHolder(steps[n].r, k, nonce)
  }

  lemma StepProtects(s: Sys, step: Step, o: Options, k: Key, l: L.Lease)
    requires Good(s) && Enabled(s, step) && k.id in s.used && NoSlash(k.id)
    requires L.InForce(s.w.leases, LeaseKey(k), s.w.clk.now) == Some(l)
    requires step.Req? ==> NotFromHolder(step.r, k, l.nonce)
    requires Exec(s, step, o).w.clk.now < l.expiresAt
    ensures L.InForce(Exec(s, step, o).w.leases, LeaseKey(k), Exec(s, step, o).w.clk.now) == Some(l)
    ensures
      var before, after := Lookup(s.w.apps, k), Lookup(Exec(s, step, o).w.apps, k);
      after.Ok? ==> before.Ok? && Protected(before.value, after.value)
  {
    hide Handle, AdvanceWorld, RunCallback, Mine, Good, NotFromHolder;
    StepMovesClockOn(s, step, o);
    if step.Req? {
      NonHolderIsPowerless(s, step.r, o, k, l);
    } else if !Lookup(s.w.apps, k).Ok? {
      StepKeepsAbsent(s, step, o, k);
    } else {
      match step
      case Advance(amount) => AdvanceProtects(s.w, s.w.clk.now + amount, o, k);
      case Tick(_) =>
      case FireAny(i, _) => CallbackProtects(s.w.apps, s.w.clk.timers[i].fn, k);
    }
  }

  /**
   Over any run in which no request carries the held nonce, and until the lease expires, the lease stays in
   force and a surviving machine keeps its name, region, cordon flag, instance id, version ids and
   configuration apart from metadata, whatever other requests are made and whatever callbacks fire.
   */
  lemma {:induction false} OnlyTheHolderChanges(s: Sys, steps: seq<Step>, o: Options, k: Key, l: L.Lease)
    requires Good(s) && LegalRun(s, steps, o) && k.id in s.used && NoSlash(k.id)
    requires L.InForce(s.w.leases, LeaseKey(k), s.w.clk.now) == Some(l) && WithoutHolder(steps, k, l.nonce)
    requires Run(s, steps, o).w.clk.now < l.expiresAt
    ensures L.InForce(Run(s, steps, o).w.leases, LeaseKey(k), Run(s, steps, o).w.clk.now) == Some(l)
    ensures
      var before, after := Lookup(s.w.apps, k), Lookup(Run(s, steps, o).w.apps, k);
      after.Ok? ==> before.Ok? && Protected(before.value, after.value)
    decreases steps
  {
    if steps != [] {
      var s' := Exec(s, steps[0], o);
      RunMovesClockOn(s', steps[1..], o);
      StepProtects(s, steps[0], o, k, l);
      GoodAfterStep(s, steps[0], o);
      assert k.id in s'.used;
      assert forall n :: 0 <= n < |steps[1..]| ==> steps[1..][n] == steps[n + 1];
      OnlyTheHolderChanges(s', steps[1..], o, k, l);
    }
  }

  // ---- the machine's course ----

  /** A request without the nonce is refused, or leaves the machine's course alone. */
  lemma NonHolderIsNeutral(s: Sys, r: Request, o: Options, k: Key, l: L.Lease)
    requires FreshRequest(r, s.used) && k.id in s.used
    requires L.InForce(s.w.leases, LeaseKey(k), s.w.clk.now) == Some(l) && NotFromHolder(r, k, l.nonce)
    ensures LastRequest.Neutral(s.w, r, o, k)
  {
    if Subject(r) == Some(k) && (r.UpdateMachine? || r.DeleteMachine? || r.Act? || r.SetCordon?) {
      assert RejectedByLease(s.w, k, r.nonce);
      AcceptedIsChange(s.w, r, o);
    } else {
      assert r.CreateMachine? ==> r.id in Minted(r);
    }
  }

  /**
   Nor does the machine's course change while its lease lasts: on the fake clock, over any run without the held
   nonce, where the machine will end stays what it was when the lease was taken.
   */
  lemma {:induction false} OnlyTheHolderSetsTheCourse(s: Sys, steps: seq<Step>, o: Options, k: Key, l: L.Lease)
    requires Good(s) && LegalRun(s, steps, o) && OnFakeClock(steps) && k.id in s.used && NoSlash(k.id)
    requires L.InForce(s.w.leases, LeaseKey(k), s.w.clk.now) == Some(l) && WithoutHolder(steps, k, l.nonce)
    requires Run(s, steps, o).w.clk.now < l.expiresAt && 0 <= o.delays.start
    ensures Fates.FateIn(Run(s, steps, o).w, o.delays, k) == Fates.FateIn(s.w, o.delays, k)
    decreases steps
  {
    hide Handle, AdvanceWorld, Fates.FateIn, LastRequest.Neutral, Good, Protected, L.InForce, NoSlash, Lookup;
    if steps != [] {
      var step, rest := steps[0], steps[1..];
      var s' := Exec(s, step, o);
      assert step.Req? || step.Advance?;
      assert forall n :: 0 <= n < |rest| ==> rest[n] == steps[n + 1];
      RunMovesClockOn(s', rest, o);
      StepProtects(s, step, o, k, l);
      GoodAfterStep(s, step, o);
      assert k.id in s'.used;
      if step.Req? {
        NonHolderIsNeutral(s, step.r, o, k, l);
        LastRequest.FateAfterNeutral(s, step.r, o, k);
      } else {
        Fates.FateAfterAdvance(s.w, s.w.clk.now + step.amount, o, k);
      }
      OnlyTheHolderSetsTheCourse(s', rest, o, k, l);
    }
  }
}
