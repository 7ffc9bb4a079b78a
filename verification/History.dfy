/** How one machine changes over a run: it is never re-created, and its history only grows by append. */
module History {
  import opened Flaps
  import opened Callbacks
  import opened EventQueue
  import opened Emulator
  import opened Runs
  import opened Invariants
  import opened Safety
  import L = Leases

  /** The machine a request is about, if it is about one. */
  function Subject(r: Request): Option<Key> {
    match r
    case CreateApp(_, _) => None
    case DeleteApp(_) => None
    case CreateMachine(app, _, _, _, _, id, _) => Some(Key(app, id))
    case UpdateMachine(k, _, _, _, _) => Some(k)
    case DeleteMachine(k, _) => Some(k)
    case Act(k, _, _) => Some(k)
    case SetCordon(k, _, _) => Some(k)
    case SetMetadata(k, _, _) => Some(k)
    case DeleteMetadata(k, _) => Some(k)
    case GetLease(k) => Some(k)
    case AcquireLease(k, _, _, _, _) => Some(k)
    case ReleaseLease(k, _) => Some(k)
  }

  /** The callback a request has the advancer schedule when it is accepted. */
  function Booking(r: Request, o: Options): (b: Option<Registration>)
    ensures b.Some? ==> Subject(r) == Some(b.value.fn.key)
  {
    match r
    case CreateMachine(app, _, _, _, _, id, _) => Some(Registration(o.delays.create, BootFirst(Key(app, id))))
    case UpdateMachine(k, _, _, _, _) => Some(Registration(o.delays.update, BootSettle(k)))
    case DeleteMachine(k, _) => Some(Registration(o.delays.destroy, Reap(k)))
    case Act(k, _, a) => Some(Ending(a, k, o.delays))
    case _ => None
  }

  /** The mutations a request about an existing machine applies to it when it is accepted. */
  function Mutations(r: Request, now: int): seq<Mutation> {
    match r
    case UpdateMachine(_, _, config, name, instance) => [Churn(config, name, instance, now)]
    case DeleteMachine(_, _) => [Enter(Destroying), Touch(now)]
    case Act(_, _, a) => [Enter(Entering(a)), Touch(now)]
    case SetCordon(_, _, b) => [Cordon(b), Touch(now)]
    case SetMetadata(_, key, value) => [PutMetadata(key, value), Touch(now)]
    case DeleteMetadata(_, key) => [DropMetadata(key), Touch(now)]
    case _ => []
  }

  function MutateAll(m: Machine, fs: seq<Mutation>): Machine
    decreases fs
  {
    if fs == [] then m else MutateAll(Mutate(m, fs[0]), fs[1..])
  }

  lemma MutateAllTwo(m: Machine, f: Mutation, g: Mutation)
    ensures MutateAll(m, [f, g]) == Mutate(Mutate(m, f), g)
  {
    assert [f, g][1..] == [g] && [g][1..] == [];
    assert MutateAll(m, [f, g]) == MutateAll(Mutate(m, f), [g]);
    assert MutateAll(Mutate(m, f), [g]) == MutateAll(Mutate(Mutate(m, f), g), []);
  }

  /** A request changes no machine but its subject; and to an existing subject it does all or nothing. */
  lemma RequestOnMachine(w: World, r: Request, o: Options, k: Key)
    requires Lookup(w.apps, k).Ok?
    requires r.CreateMachine? ==> Subject(r) != Some(k)
    ensures
      var m, after := Lookup(w.apps, k).value, Lookup(Handle(w, r, o).w.apps, k);
      || after == Ok(m)
      || (Subject(r) == Some(k) && after == Ok(MutateAll(m, Mutations(r, w.clk.now))))
      || (r.DeleteApp? && r.app == k.app && !after.Ok?)
  {
    hide Cloned, NewMachine, Mutate, L.Exec, Register, FailsToBoot;
    var now := w.clk.now;
    match r {
      case CreateApp(_, _) =>
      case DeleteApp(_) =>
      case CreateMachine(app, _, _, _, _, id, _) =>
        if app in w.apps {
          var m := NewMachine(r.name, r.region, r.config, r.skipLaunch, id, r.instance, now);
          LookupPut(w.apps, Key(app, id), Cloned(m));
        }
      case UpdateMachine(x, _, config, name, instance) =>
        var f := Churn(config, name, instance, now);
        LookupUpdate(w.apps, x, f);
        assert [f][1..] == [];
      case DeleteMachine(x, _) => TouchedTwice(w.apps, x, Enter(Destroying), now);
      case Act(x, _, a) => TouchedTwice(w.apps, x, Enter(Entering(a)), now);
      case SetCordon(x, _, b) => TouchedTwice(w.apps, x, Cordon(b), now);
      case SetMetadata(x, key, value) => TouchedTwice(w.apps, x, PutMetadata(key, value), now);
      case DeleteMetadata(x, key) => TouchedTwice(w.apps, x, DropMetadata(key), now);
      case GetLease(_) =>
      case AcquireLease(_, _, _, _, _) =>
      case ReleaseLease(_, _) =>
    }
  }

  lemma TouchedTwice(apps: Apps, k: Key, f: Mutation, now: int)
    ensures
      var apps' := Update(Update(apps, k, f), k, Touch(now));
      && SameElsewhere(apps, apps', k)
      && (Lookup(apps, k).Ok? ==> Lookup(apps', k) == Ok(MutateAll(Lookup(apps, k).value, [f, Touch(now)])))
      && (!Lookup(apps, k).Ok? ==> apps' == apps)
  {
    LookupUpdate(apps, k, f);
    LookupUpdate(Update(apps, k, f), k, Touch(now));
    if Lookup(apps, k).Ok? {
      MutateAllTwo(Lookup(apps, k).value, f, Touch(now));
    }
  }

  // ---- absence ----

  /** A request cannot bring back a machine whose id was minted before. */
  lemma RequestKeepsAbsent(s: Sys, r: Request, o: Options, k: Key)
    requires FreshRequest(r, s.used) && k.id in s.used && !Lookup(s.w.apps, k).Ok?
    ensures !Lookup(Handle(s.w, r, o).w.apps, k).Ok?
  {
    hide Cloned, NewMachine, Mutate, L.Exec, Register, FailsToBoot;
    var w, now := s.w, s.w.clk.now;
    match r {
      case CreateApp(_, _) =>
      case DeleteApp(_) =>
      case CreateMachine(app, _, _, _, _, id, _) =>
        assert id in Minted(r);
        if app in w.apps {
          var m := NewMachine(r.name, r.region, r.config, r.skipLaunch, id, r.instance, now);
          LookupPut(w.apps, Key(app, id), Cloned(m));
        }
      case UpdateMachine(x, _, config, name, instance) => LookupUpdate(w.apps, x, Churn(config, name, instance, now));
      case DeleteMachine(x, _) => TouchedTwice(w.apps, x, Enter(Destroying), now);
      case Act(x, _, a) => TouchedTwice(w.apps, x, Enter(Entering(a)), now);
      case SetCordon(x, _, b) => TouchedTwice(w.apps, x, Cordon(b), now);
      case SetMetadata(x, key, value) => TouchedTwice(w.apps, x, PutMetadata(key, value), now);
      case DeleteMetadata(x, key) => TouchedTwice(w.apps, x, DropMetadata(key), now);
      case GetLease(_) =>
      case AcquireLease(_, _, _, _, _) =>
      case ReleaseLease(_, _) =>
    }
  }

  lemma {:induction false} AdvanceKeepsAbsent(w: World, target: int, o: Options, k: Key)
    requires !Lookup(w.apps, k).Ok?
    ensures !Lookup(AdvanceWorld(w, target, o).apps, k).Ok?
    decreases Weight(w.clk.timers)
  {
    var i := Next(w.clk.timers, target);
    if 0 <= i {
      FireDecreasesWeight(w.clk, i, w.clk.timers[i].deadline, o.delays);
      RunCallbackFrame(w.apps, w.clk.timers[i].fn);
      AdvanceKeepsAbsent(FireAt(w, i, w.clk.timers[i].deadline, o), target, o, k);
    }
  }

  lemma StepKeepsAbsent(s: Sys, step: Step, o: Options, k: Key)
    requires Enabled(s, step) && k.id in s.used && !Lookup(s.w.apps, k).Ok?
    ensures k.id in Exec(s, step, o).used && !Lookup(Exec(s, step, o).w.apps, k).Ok?
  {
    match step
    case Req(r) => RequestKeepsAbsent(s, r, o, k);
    case Advance(amount) => AdvanceKeepsAbsent(s.w, s.w.clk.now + amount, o, k);
    case Tick(_) =>
    case FireAny(i, _) => RunCallbackFrame(s.w.apps, s.w.clk.timers[i].fn);
  }

  /** A machine that is gone never reappears, whatever is requested and whatever fires. */
  lemma {:induction false} GoneForGood(s: Sys, steps: seq<Step>, o: Options, k: Key)
    requires LegalRun(s, steps, o) && k.id in s.used && !Lookup(s.w.apps, k).Ok?
    ensures !Lookup(Run(s, steps, o).w.apps, k).Ok?
    decreases steps
  {
    if steps != [] {
      StepKeepsAbsent(s, steps[0], o, k);
      GoneForGood(Exec(s, steps[0], o), steps[1..], o, k);
    }
  }

  // ---- growth ----

  /** The id list of `m` is a prefix of that of `m'`, and what was superseded is unchanged. */
  ghost predicate Grows(m: Machine, m': Machine) {
    && |m.versions| <= |m'.versions|
    && (forall n :: 0 <= n < |m.versions| ==> m'.versions[n].instanceID == m.versions[n].instanceID)
    && (forall n :: 0 <= n < |m.versions| - 1 ==> m'.versions[n] == m.versions[n])
  }

  lemma GrowsIsTransitive(a: Machine, b: Machine, c: Machine)
    requires Grows(a, b) && Grows(b, c)
    ensures Grows(a, c)
  {
  }

  lemma {:induction false} MutateAllGrows(m: Machine, fs: seq<Mutation>)
    ensures Grows(m, MutateAll(m, fs))
    decreases fs
  {
    if fs != [] {
      MutateAllGrows(Mutate(m, fs[0]), fs[1..]);
      GrowsIsTransitive(m, Mutate(m, fs[0]), MutateAll(m, fs));
    }
  }

  lemma {:induction false} AdvanceGrows(w: World, target: int, o: Options, k: Key)
    requires Lookup(w.apps, k).Ok?
    ensures
      var after := Lookup(AdvanceWorld(w, target, o).apps, k);
      after.Ok? ==> Grows(Lookup(w.apps, k).value, after.value)
    decreases Weight(w.clk.timers)
  {
    var i := Next(w.clk.timers, target);
    if 0 <= i {
      FireDecreasesWeight(w.clk, i, w.clk.timers[i].deadline, o.delays);
      var w' := FireAt(w, i, w.clk.timers[i].deadline, o);
      FireGrows(w.apps, w.clk.timers[i].fn, k);
      if Lookup(w'.apps, k).Ok? {
        AdvanceGrows(w', target, o, k);
      } else {
        AdvanceKeepsAbsent(w', target, o, k);
      }
    }
  }

  lemma FireGrows(apps: Apps, fn: Callback, k: Key)
    requires Lookup(apps, k).Ok?
    ensures
      var after := Lookup(RunCallback(apps, fn), k);
      after.Ok? ==> Grows(Lookup(apps, k).value, after.value)
  {
    RunCallbackFrame(apps, fn);
    if k == fn.key && !fn.Reap? {
      LookupUpdate(apps, k, Effect(fn));
    }
  }

  lemma StepGrows(s: Sys, step: Step, o: Options, k: Key)
    requires Good(s) && Enabled(s, step) && Lookup(s.w.apps, k).Ok?
    ensures
      var after := Lookup(Exec(s, step, o).w.apps, k);
      after.Ok? ==> Grows(Lookup(s.w.apps, k).value, after.value)
  {
    hide Handle, AdvanceWorld, RunCallback, Mutations, MutateAll, HistoryOK;
    var m := Lookup(s.w.apps, k).value;
    assert MachineOK(k, m, s.used);
    match step
    case Req(r) =>
      assert r.CreateMachine? ==> r.id in Minted(r);
      RequestOnMachine(s.w, r, o, k);
      MutateAllGrows(m, Mutations(r, s.w.clk.now));
    case Advance(amount) => AdvanceGrows(s.w, s.w.clk.now + amount, o, k);
    case Tick(_) =>
    case FireAny(i, _) => FireGrows(s.w.apps, s.w.clk.timers[i].fn, k);
  }

  /** Over any run a surviving machine's id list grows by append, and superseded entries never change. */
  lemma {:induction false} HistoryGrowsByAppend(s: Sys, steps: seq<Step>, o: Options, k: Key)
    requires Good(s) && LegalRun(s, steps, o)
    requires Lookup(s.w.apps, k).Ok? && Lookup(Run(s, steps, o).w.apps, k).Ok?
    ensures Grows(Lookup(s.w.apps, k).value, Lookup(Run(s, steps, o).w.apps, k).value)
    decreases steps
  {
    if steps != [] {
      var s' := Exec(s, steps[0], o);
      GoodAfterStep(s, steps[0], o);
      StepGrows(s, steps[0], o, k);
      assert MachineOK(k, Lookup(s.w.apps, k).value, s.used);
      if !Lookup(s'.w.apps, k).Ok? {
        GoneForGood(s', steps[1..], o, k);
      }
      HistoryGrowsByAppend(s', steps[1..], o, k);
      GrowsIsTransitive(Lookup(s.w.apps, k).value, Lookup(s'.w.apps, k).value,
                        Lookup(Run(s, steps, o).w.apps, k).value);
    }
  }

  /** After an accepted update the old instance id is never current again. */
  lemma SupersededForGood(s: Sys, r: Request, steps: seq<Step>, o: Options)
    requires Good(s) && r.UpdateMachine? && Enabled(s, Req(r)) && LegalRun(Exec(s, Req(r), o), steps, o)
    requires Handle(s.w, r, o).resp.MachineIs?
    requires Lookup(Run(Exec(s, Req(r), o), steps, o).w.apps, r.k).Ok?
    ensures Lookup(s.w.apps, r.k).Ok?
    ensures
      Lookup(Run(Exec(s, Req(r), o), steps, o).w.apps, r.k).value.instanceID
      != Lookup(s.w.apps, r.k).value.instanceID
  {
    var s1 := Exec(s, Req(r), o);
    var s2 := Run(s1, steps, o);
    var m, f := Lookup(s.w.apps, r.k).value, Churn(r.config, r.name, r.instance, s.w.clk.now);
    LookupUpdate(s.w.apps, r.k, f);
    GoodAfterStep(s, Req(r), o);
    GoodAfterRun(s1, steps, o);
    HistoryGrowsByAppend(s1, steps, o, r.k);
    var n := |m.versions| - 1;
    assert MachineOK(r.k, m, s.used);
    var m1, m2 := Lookup(s1.w.apps, r.k).value, Lookup(s2.w.apps, r.k).value;
    assert MachineOK(r.k, m2, s2.used);
    assert m1.versions[n].instanceID == m.instanceID;
    assert m2.versions[n].instanceID == m.instanceID;
  }
}
