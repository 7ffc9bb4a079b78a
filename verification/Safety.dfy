/** The invariants hold in every reachable state. */
module Safety {
  import opened Flaps
  import opened Callbacks
  import opened EventQueue
  import opened Emulator
  import opened Runs
  import opened Invariants

  lemma GoodAfterGate(s: Sys, k: Key, nonce: string)
    requires Good(s)
    ensures Good(s.(w := AfterCheck(s.w, k, nonce)))
  {
    GoodAfterShrink(s, s.(w := AfterCheck(s.w, k, nonce)));
  }

  /** Two mutations of one machine in a row, and possibly one registration aimed at it. */
  lemma GoodAfterUpdates(s: Sys, s': Sys, k: Key, f: Mutation, g: Mutation, fn: Option<Registration>)
    requires Good(s) && Lookup(s.w.apps, k).Ok? && s.used <= s'.used && "" !in s'.used
    requires Sensible(f) && Sensible(g) && !g.Churn? && !g.Enter? && !g.Mark? && !g.SettleBoot?
    requires f.Churn? ==> f.instance !in s.used && f.instance in s'.used
    requires s'.w.apps == Update(Update(s.w.apps, k, f), k, g)
    requires s'.w.clk == if fn.Some? then Register(s.w.clk, fn.value.delay, fn.value.fn) else s.w.clk
    requires
      var m := Mutate(Lookup(s.w.apps, k).value, f);
      if fn.Some? then fn.value.fn.key == k && Transient(m.state) && fn.value.fn == Rescue(k, m.state)
      else m.state == Lookup(s.w.apps, k).value.state
    ensures Good(s')
  {
    var m := Lookup(s.w.apps, k).value;
    assert MachineOK(k, m, s.used) && Progressing(k, m, s.w.clk.timers);
    LookupUpdate(s.w.apps, k, f);
    LookupUpdate(Update(s.w.apps, k, f), k, g);
    MutateKeepsMachineOK(k, m, f, s.used, s'.used);
    MutateKeepsMachineOK(k, Mutate(m, f), g, s'.used, s'.used);
    var m2 := Mutate(Mutate(m, f), g);
    assert m2.state == Mutate(m, f).state;
    hide Mutate, Update, Good, Lookup, MachineOK;
    ProgressAfter(s.w.clk, s'.w.clk, k, m, m2, fn);
    GoodAfterPut(s, s', k, m2);
  }

  /** A state change comes with the registration that will end it. */
  lemma ProgressAfter(q: Queue, q': Queue, k: Key, m: Machine, m': Machine, fn: Option<Registration>)
    requires Progressing(k, m, q.timers)
    requires q' == if fn.Some? then Register(q, fn.value.delay, fn.value.fn) else q
    requires
      if fn.Some? then Transient(m'.state) && fn.value.fn == Rescue(k, m'.state)
      else m'.state == m.state
    ensures Progressing(k, m', q'.timers) && KeepsPending(q.timers, q'.timers)
  {
    hide Pending;
    if fn.Some? {
      PendingAfterRegister(q, fn.value.delay, fn.value.fn);
    }
  }

  /** Churning sets the update time itself, so touching afterwards changes nothing. */
  lemma ChurnIsTouched(apps: Apps, k: Key, f: Mutation)
    requires Lookup(apps, k).Ok? && f.Churn?
    ensures Update(Update(apps, k, f), k, Touch(f.now)) == Update(apps, k, f)
  {
    LookupUpdate(apps, k, f);
    var apps', m := Update(apps, k, f), Mutate(Lookup(apps, k).value, f);
    assert Mutate(m, Touch(f.now)) == m;
    assert apps'[k.app].machines[k.id := m] == apps'[k.app].machines;
  }

  lemma NewMachineOK(r: Request, now: int, used: set<string>)
    requires r.CreateMachine? && r.id in used && r.instance in used && NoSlash(r.id)
    ensures
      var m := Cloned(NewMachine(r.name, r.region, r.config, r.skipLaunch, r.id, r.instance, now));
      MachineOK(Key(r.app, r.id), m, used) && m.state == if r.skipLaunch then Created else Creating
  {
  }

  lemma GoodAfterCreateMachine(s: Sys, r: Request, o: Options)
    requires Good(s) && r.CreateMachine? && FreshRequest(r, s.used)
    ensures Good(Exec(s, Req(r), o))
  {
    hide MachineOK, Cloned, NewMachine, Put, Pending;
    if r.app in s.w.apps {
      var k, s' := Key(r.app, r.id), Exec(s, Req(r), o);
      var m := Cloned(NewMachine(r.name, r.region, r.config, r.skipLaunch, r.id, r.instance, s.w.clk.now));
      assert r.id in Minted(r) && r.instance in Minted(r);
      NewMachineOK(r, s.w.clk.now, s'.used);
      LookupPut(s.w.apps, k, m);
      PendingAfterRegister(s.w.clk, o.delays.create, BootFirst(k));
      GoodAfterPut(s, s', k, m);
    } else {
      GoodAfterShrink(s, Exec(s, Req(r), o));
    }
  }

  lemma GoodAfterUpdateMachine(s: Sys, r: Request, o: Options)
    requires Good(s) && r.UpdateMachine? && FreshRequest(r, s.used)
    ensures Good(Exec(s, Req(r), o))
  {
    var g, s' := s.(w := AfterCheck(s.w, r.k, r.nonce)), Exec(s, Req(r), o);
    GoodAfterGate(s, r.k, r.nonce);
    if HandleUpdateMachine(s.w, r, o).resp.MachineIs? {
      var f := Churn(r.config, r.name, r.instance, g.w.clk.now);
      assert r.instance in Minted(r);
      ChurnIsTouched(g.w.apps, r.k, f);
      GoodAfterUpdates(g, s', r.k, f, Touch(g.w.clk.now), Some(Registration(o.delays.update, BootSettle(r.k))));
    } else {
      GoodAfterShrink(g, s');
    }
  }

  lemma GoodAfterDeleteMachine(s: Sys, k: Key, nonce: string, o: Options)
    requires Good(s)
    ensures Good(Exec(s, Req(DeleteMachine(k, nonce)), o))
  {
    var g, s' := s.(w := AfterCheck(s.w, k, nonce)), Exec(s, Req(DeleteMachine(k, nonce)), o);
    GoodAfterGate(s, k, nonce);
    if HandleDeleteMachine(s.w, k, nonce, o).resp.Accepted? {
      GoodAfterUpdates(g, s', k, Enter(Destroying), Touch(g.w.clk.now), Some(Registration(o.delays.destroy, Reap(k))));
    } else {
      GoodAfterShrink(g, s');
    }
  }

  lemma GoodAfterAct(s: Sys, k: Key, nonce: string, a: Action, o: Options)
    requires Good(s)
    ensures Good(Exec(s, Req(Act(k, nonce, a)), o))
  {
    var g, s' := s.(w := AfterCheck(s.w, k, nonce)), Exec(s, Req(Act(k, nonce, a)), o);
    GoodAfterGate(s, k, nonce);
    if HandleAct(s.w, k, nonce, a, o).resp.PreviousState? {
      GoodAfterUpdates(g, s', k, Enter(Entering(a)), Touch(g.w.clk.now), Some(Ending(a, k, o.delays)));
    } else {
      GoodAfterShrink(g, s');
    }
  }

  lemma GoodAfterSetCordon(s: Sys, k: Key, nonce: string, b: bool, o: Options)
    requires Good(s)
    ensures Good(Exec(s, Req(SetCordon(k, nonce, b)), o))
  {
    var g, s' := s.(w := AfterCheck(s.w, k, nonce)), Exec(s, Req(SetCordon(k, nonce, b)), o);
    GoodAfterGate(s, k, nonce);
    if HandleSetCordon(s.w, k, nonce, b).resp.Accepted? {
      GoodAfterUpdates(g, s', k, Cordon(b), Touch(g.w.clk.now), None);
    } else {
      GoodAfterShrink(g, s');
    }
  }

  lemma GoodAfterMetadata(s: Sys, k: Key, f: Mutation)
    requires Good(s) && (f.PutMetadata? || f.DropMetadata?)
    ensures Good(s.(w := HandleMetadata(s.w, k, f).w))
  {
    var s' := s.(w := HandleMetadata(s.w, k, f).w);
    if Lookup(s.w.apps, k).Ok? {
      GoodAfterUpdates(s, s', k, f, Touch(s.w.clk.now), None);
    }
  }

  lemma GoodAfterDeleteApp(s: Sys, app: string, o: Options)
    requires Good(s)
    ensures Good(Exec(s, Req(DeleteApp(app)), o))
  {
    GoodAfterShrink(s, Exec(s, Req(DeleteApp(app)), o));
  }

  lemma GoodAfterCreateApp(s: Sys, app: string, org: string, o: Options)
    requires Good(s)
    ensures Good(Exec(s, Req(CreateApp(app, org)), o))
  {
    GoodAfterShrink(s, Exec(s, Req(CreateApp(app, org)), o));
  }

  lemma GoodAfterRequest(s: Sys, r: Request, o: Options)
    requires Good(s) && FreshRequest(r, s.used)
    ensures Good(Exec(s, Req(r), o))
  {
    match r
    case CreateApp(app, org) => GoodAfterCreateApp(s, app, org, o);
    case DeleteApp(app) => GoodAfterDeleteApp(s, app, o);
    case CreateMachine(_, _, _, _, _, _, _) => GoodAfterCreateMachine(s, r, o);
    case UpdateMachine(_, _, _, _, _) => GoodAfterUpdateMachine(s, r, o);
    case DeleteMachine(k, nonce) => GoodAfterDeleteMachine(s, k, nonce, o);
    case Act(k, nonce, a) => GoodAfterAct(s, k, nonce, a, o);
    case SetCordon(k, nonce, b) => GoodAfterSetCordon(s, k, nonce, b, o);
    case SetMetadata(k, key, value) => GoodAfterMetadata(s, k, PutMetadata(key, value));
    case DeleteMetadata(k, key) => GoodAfterMetadata(s, k, DropMetadata(key));
    case GetLease(k) => GoodAfterShrink(s, Exec(s, Req(r), o));
    case AcquireLease(k, _, _, _, _) => GoodAfterShrink(s, Exec(s, Req(r), o));
    case ReleaseLease(k, nonce) => GoodAfterShrink(s, Exec(s, Req(r), o));
  }

  // ---- callbacks ----

  /** A machine the firing callback is not aimed at keeps what it waits for. */
  lemma OthersUnmoved(s: Sys, i: nat, at: int, o: Options, x: Key)
    requires Good(s) && i < |s.w.clk.timers| && s.w.clk.timers[i].Live() && s.w.clk.timers[i].fn.key != x
    requires Lookup(s.w.apps, x).Ok?
    ensures Lookup(FireAt(s.w, i, at, o).apps, x) == Lookup(s.w.apps, x)
    ensures MachineOK(x, Lookup(s.w.apps, x).value, s.used)
    ensures Progressing(x, Lookup(s.w.apps, x).value, FireAt(s.w, i, at, o).clk.timers)
  {
    var ts, ts', m := s.w.clk.timers, FireAt(s.w, i, at, o).clk.timers, Lookup(s.w.apps, x).value;
    FireShape(s.w.clk, i, at, o.delays);
    RunCallbackFrame(s.w.apps, ts[i].fn);
    assert Progressing(x, m, ts);
    if Transient(m.state) {
      var j :| 0 <= j < |ts| && ts[j].Live() && ts[j].fn == Rescue(x, m.state);
      assert ts'[j] == ts[j];
    }
  }

  lemma RunCallbackFrame(apps: Apps, fn: Callback)
    ensures SameElsewhere(apps, RunCallback(apps, fn), fn.key)
    ensures RunCallback(apps, fn).Keys == apps.Keys
    ensures fn.Reap? ==> !Lookup(RunCallback(apps, fn), fn.key).Ok?
    ensures !Lookup(apps, fn.key).Ok? ==> RunCallback(apps, fn) == apps
  {
    match fn
    case BootFirst(k) => LookupUpdate(apps, k, Mark(Starting));
    case BootSettle(k) => LookupUpdate(apps, k, SettleBoot);
    case StopEnd(k) => LookupUpdate(apps, k, Mark(Stopped));
    case SuspendEnd(k) => LookupUpdate(apps, k, Mark(Suspended));
    case Reap(k) => LookupRemove(apps, k);
  }

  /** The mutation a callback other than the reap applies. */
  function Effect(fn: Callback): Mutation
    requires !fn.Reap?
  {
    match fn
    case BootFirst(_) => Mark(Starting)
    case BootSettle(_) => SettleBoot
    case StopEnd(_) => Mark(Stopped)
    case SuspendEnd(_) => Mark(Suspended)
  }

  /** Whatever stale callback fires, its machine ends at rest or starting with a settle on its way. */
  lemma TargetGood(s: Sys, i: nat, at: int, o: Options)
    requires Good(s) && i < |s.w.clk.timers| && s.w.clk.timers[i].Live()
    ensures
      var k, w' := s.w.clk.timers[i].fn.key, FireAt(s.w, i, at, o);
      Lookup(w'.apps, k).Ok? ==>
        MachineOK(k, Lookup(w'.apps, k).value, s.used) && Progressing(k, Lookup(w'.apps, k).value, w'.clk.timers)
  {
    hide HistoryOK, FailsToBoot, MarkLast, VerdictOK, AgreementOK;
    var fn, w' := s.w.clk.timers[i].fn, FireAt(s.w, i, at, o);
    var k := fn.key;
    RunCallbackFrame(s.w.apps, fn);
    if Lookup(w'.apps, k).Ok? {
      var m := Lookup(s.w.apps, k).value;
      assert MachineOK(k, m, s.used);
      LookupUpdate(s.w.apps, k, Effect(fn));
      MutateKeepsMachineOK(k, m, Effect(fn), s.used, s.used);
      FireShape(s.w.clk, i, at, o.delays);
      if fn.BootFirst? {
        assert w'.clk.timers[|s.w.clk.timers|].fn == BootSettle(k);
      }
    }
  }

  lemma GoodAfterFire(s: Sys, i: nat, at: int, o: Options)
    requires Good(s) && i < |s.w.clk.timers| && s.w.clk.timers[i].Live()
    ensures Good(s.(w := FireAt(s.w, i, at, o)))
  {
    var s' := s.(w := FireAt(s.w, i, at, o));
    var k := s.w.clk.timers[i].fn.key;
    RunCallbackFrame(s.w.apps, s.w.clk.timers[i].fn);
    TargetGood(s, i, at, o);
    forall x | Lookup(s'.w.apps, x).Ok?
      ensures MachineOK(x, Lookup(s'.w.apps, x).value, s'.used)
      ensures Progressing(x, Lookup(s'.w.apps, x).value, s'.w.clk.timers)
    {
      if x != k {
        OthersUnmoved(s, i, at, o, x);
      }
    }
    FireShape(s.w.clk, i, at, o.delays);
  }

  lemma {:induction false} GoodAfterAdvance(s: Sys, target: int, o: Options)
    requires Good(s)
    ensures Good(s.(w := AdvanceWorld(s.w, target, o)))
    decreases Weight(s.w.clk.timers)
  {
    var w := s.w;
    var i := Next(w.clk.timers, target);
    if 0 <= i {
      FireDecreasesWeight(w.clk, i, w.clk.timers[i].deadline, o.delays);
      GoodAfterFire(s, i, w.clk.timers[i].deadline, o);
      GoodAfterAdvance(s.(w := FireAt(w, i, w.clk.timers[i].deadline, o)), target, o);
    }
  }

  lemma GoodAfterStep(s: Sys, step: Step, o: Options)
    requires Good(s) && Enabled(s, step)
    ensures Good(Exec(s, step, o))
  {
    match step
    case Req(r) => GoodAfterRequest(s, r, o);
    case Advance(amount) => GoodAfterAdvance(s, s.w.clk.now + amount, o);
    case Tick(to) =>
    case FireAny(i, at) => GoodAfterFire(s, i, at, o);
  }

  lemma {:induction false} GoodAfterRun(s: Sys, steps: seq<Step>, o: Options)
    requires Good(s) && LegalRun(s, steps, o)
    ensures Good(Run(s, steps, o))
    decreases steps
  {
    if steps != [] {
      GoodAfterStep(s, steps[0], o);
      GoodAfterRun(Exec(s, steps[0], o), steps[1..], o);
    }
  }

  /**
   Every reachable state is good, under any requests and any firing order: histories are current,
   replaced everywhere but at their end and free of repeats; machine and version states agree at rest;
   started and failed tell the boot verdict of the current configuration; and every transient machine
   has the callback that ends its state pending.
   */
  lemma ReachableIsGood(s: Sys, o: Options)
    requires Reachable(s, o)
    ensures Good(s)
  {
    var now, steps :| ReachedBy(now, steps, s, o);
    GoodAfterRun(NewServer(now), steps, o);
  }

  /** Once nothing is pending, every machine rests, in agreement with its last version and its boot verdict. */
  lemma NothingPendingMeansRest(s: Sys, o: Options, k: Key)
    requires Reachable(s, o) && Lookup(s.w.apps, k).Ok?
    requires forall j :: 0 <= j < |s.w.clk.timers| ==> !s.w.clk.timers[j].Live()
    ensures
      var m := Lookup(s.w.apps, k).value;
      && Resting(m.state) && |m.versions| > 0 && m.state == m.versions[|m.versions| - 1].state
      && (m.state == Started ==> !FailsToBoot(m.config)) && (m.state == Failed ==> FailsToBoot(m.config))
  {
    ReachableIsGood(s, o);
    var m := Lookup(s.w.apps, k).value;
    assert MachineOK(k, m, s.used) && Progressing(k, m, s.w.clk.timers);
  }
}
