/**
 The server over the real objects. Each handler is proved to do what the function of the same name in
 Emulator says, on everything: clock, store, leases and reply. Every theorem about runs of the
 emulator is thereby one about these objects.
 */
module MachinesServer {
  import opened Flaps
  import opened Callbacks
  import opened Clock
  import opened LeaseManager
  import opened MachineStore
  import opened LifecycleAdvancer
  import opened Decoding
  import E = Emulator
  import L = Leases
  import Q = EventQueue
  import R = Runs
  import T = Timeouts
  import W = Waiting

  /** A machine in a reply is a private copy: intact, and out of the server's reach. */
  ghost predicate Private(r: E.Reply<MachineRecord>, reach: set<object>)
    reads if r.MachineIs? then {r.machine} + r.machine.Repr else {}
  {
    r.MachineIs? ==> r.machine.Valid() && r.machine.Repr !! reach
  }

  /** The reply as a value. */
  ghost function Encoded(r: E.Reply<MachineRecord>): E.Response
    requires r.MachineIs? ==> r.machine.Valid()
    reads if r.MachineIs? then {r.machine} + r.machine.Repr else {}
  {
    match r
    case BadRequest => E.BadRequest
    case Missing(e) => E.Missing(e)
    case Conflicting(e) => E.Conflicting(e)
    case Leased => E.Leased
    case Terminal(s) => E.Terminal(s)
    case AppIs(name, app) => E.AppIs(name, app)
    case MachineIs(m) => E.MachineIs(m.Value())
    case PreviousState(s) => E.PreviousState(s)
    case Accepted => E.Accepted
    case LeaseIs(nonce, owner, expiresAt) => E.LeaseIs(nonce, owner, expiresAt)
    case LeaseHeld(owner, expiresAt) => E.LeaseHeld(owner, expiresAt)
    case LeaseRejected(e) => E.LeaseRejected(e)
  }

  function WithoutMachine(r: E.Response): (x: E.Reply<MachineRecord>)
    requires !r.MachineIs?
    ensures !x.MachineIs? && Encoded(x) == r
  {
    match r
    case BadRequest => E.BadRequest
    case Missing(e) => E.Missing(e)
    case Conflicting(e) => E.Conflicting(e)
    case Leased => E.Leased
    case Terminal(s) => E.Terminal(s)
    case AppIs(name, app) => E.AppIs(name, app)
    case PreviousState(s) => E.PreviousState(s)
    case Accepted => E.Accepted
    case LeaseIs(nonce, owner, expiresAt) => E.LeaseIs(nonce, owner, expiresAt)
    case LeaseHeld(owner, expiresAt) => E.LeaseHeld(owner, expiresAt)
    case LeaseRejected(e) => E.LeaseRejected(e)
  }

  class Server {
    const clk: Fake
    const store: Store
    const leases: Manager
    const advancer: Advancer
    const leaseTTL: int

    ghost predicate Valid()
      reads clk, store, store.Repr, leases
    {
      && advancer.store == store && advancer.clk == clk && leases.clk == clk
      && advancer.Valid() && leases.Valid() && leases.Repr() !! store.Repr + clk.Repr()
    }

    ghost function Repr(): (r: set<object>)
      reads clk, store, leases
      ensures clk in r
    {
      clk.Repr() + store.Repr + leases.Repr()
    }

    ghost function Value(): E.World
      requires Valid()
      reads clk, clk.timers, store, store.Repr, leases, leases.m.Values
    {
      E.World(clk.Value(), store.Value(), leases.Value())
    }

    lemma ClockReads()
      requires Valid()
      ensures Value().clk.now == clk.now
    {
    }

    ghost function Opts(): E.Options {
      E.Options(advancer.delays, leaseTTL)
    }

    constructor (clk: Fake, o: E.Options)
      requires clk.Valid()
      ensures this.clk == clk && Valid() && fresh(Repr() - clk.Repr())
      ensures Value() == E.World(clk.Value(), map[], map[]) && Opts() == E.WithDefaults(o)
    {
      var delays, ttl := o.delays, o.leaseTTL;
      if delays == Delays(0, 0, 0, 0, 0, 0, 0) {
        delays := E.DEFAULT_DELAYS;
      }
      if ttl <= 0 {
        ttl := L.DEFAULT_TTL;
      }
      var st := new Store();
      var mgr := new Manager(clk);
      var adv := new Advancer(st, clk, delays);
      this.clk, store, leases, advancer, leaseTTL := clk, st, mgr, adv, ttl;
    }

    // ---- one object at a time: what the others do not notice ----

    method RejectIfLeased(k: Key, nonce: string) returns (rejected: bool)
      requires Valid()
      modifies Repr()
      ensures Valid() && forall x :: x in Repr() ==> x in old(Repr()) || fresh(x)
      ensures Value() == E.AfterCheck(old(Value()), k, nonce) && rejected == E.RejectedByLease(old(Value()), k, nonce)
    {
      hide Store.Valid, Store.Value, Fake.Valid, Manager.Value, L.Exec;
      var r := leases.Check(E.LeaseKey(k), nonce);
      rejected := r == L.Rejected(L.Conflict);
    }

    method ClearLease(key: string)
      requires Valid()
      modifies Repr()
      ensures Valid() && forall x :: x in Repr() ==> x in old(Repr()) || fresh(x)
      ensures Value() == old(Value()).(leases := L.Exec(old(Value()).leases, L.Clear(key), old(Value()).clk.now).table)
    {
      hide Store.Valid, Store.Value, Fake.Valid, Manager.Value, L.Exec;
      leases.Clear(key);
    }

    method UpdateStored(k: Key, f: E.Mutation, config: MachineConfig?) returns (r: E.Result<MachineRecord>)
      requires Valid()
      requires config != null ==> f.Churn? && config.Valid() && config.Repr !! Repr()
      modifies Repr()
      ensures Valid() && forall x :: x in Repr() ==> x in old(Repr()) || x in old(ConfigRepr(config)) || fresh(x)
      ensures Value() == old(Value()).(apps := E.Update(old(Value()).apps, k, Meant(f, old(ConfigValue(config)))))
      ensures
        match E.Lookup(old(Value()).apps, k)
        case Err(e) => r == E.Err(e)
        case Ok(m) =>
          && r.Ok? && r.value.Valid() && fresh(r.value.Repr) && r.value.Repr !! Repr()
          && r.value.Value() == E.Cloned(E.Mutate(m, Meant(f, old(ConfigValue(config)))))
    {
      hide Store.Valid, Store.Value, Fake.Valid, Fake.Value, Manager.Valid, Manager.Value, MachineRecord.Valid,
           MachineRecord.Value, MachineConfig.Valid, MachineConfig.Value, ConfigValue, Meant, E.Update, E.Mutate,
           E.Cloned, E.Lookup;
      r := store.UpdateMachine(k, f, config, None);
    }

    /** Every closure but an update's: no configuration comes with it. */
    method Change(k: Key, f: E.Mutation) returns (r: E.Result<()>)
      requires Valid() && !f.Churn?
      modifies Repr()
      ensures Valid() && forall x :: x in Repr() ==> x in old(Repr()) || fresh(x)
      ensures Value() == old(Value()).(apps := E.Update(old(Value()).apps, k, f))
      ensures
        match E.Lookup(old(Value()).apps, k)
        case Err(e) => r == E.Err(e)
        case Ok(_) => r == E.Ok(())
    {
      hide Valid, Value, Repr, E.Update, E.Lookup;
      var updated := UpdateStored(k, f, null);
      r := if updated.Ok? then E.Ok(()) else E.Err(updated.error);
    }

    method TouchMachine(k: Key)
      requires Valid()
      modifies Repr()
      ensures Valid() && forall x :: x in Repr() ==> x in old(Repr()) || fresh(x)
      ensures Value() == E.Touched(old(Value()), k)
    {
      hide Valid, Repr, Store.Valid, Store.Value, Manager.Value, E.Update;
      var _ := Change(k, E.Touch(clk.now));
    }

    method FindCopy(k: Key) returns (r: E.Result<MachineRecord>)
      requires Valid()
      ensures Valid() && Value() == old(Value())
      ensures
        match E.Lookup(Value().apps, k)
        case Err(e) => r == E.Err(e)
        case Ok(m) => r.Ok? && r.value.Valid() && fresh(r.value.Repr) && r.value.Value() == E.Cloned(m)
    {
      hide Store.Valid, Store.Value, Fake.Valid, Fake.Value, Manager.Value, MachineRecord.Valid, MachineRecord.Value,
           E.Cloned;
      r := store.GetMachine(k);
    }

    method RejectIfTerminal(k: Key) returns (r: Option<MachineState>)
      requires Valid()
      ensures
        r == if E.RejectedAsTerminal(Value(), k) then Some(E.Lookup(Value().apps, k).value.state) else None
    {
      hide Valid, Value, MachineRecord.Valid;
      r := None;
      var found := FindCopy(k);
      if found.Ok? {
        var s := found.value.state;
        if s == Destroying || s == Destroyed {
          r := Some(s);
        }
      }
    }

    // ---- scheduling ----

    method ScheduleCreate(k: Key)
      requires Valid()
      modifies clk
      ensures Valid() && forall x :: x in Repr() ==> x in old(Repr()) || fresh(x)
      ensures Value() == old(Value()).(clk := Q.Register(old(Value()).clk, advancer.delays.create, BootFirst(k)))
    {
      hide Store.Valid, Store.Value, Fake.Valid, Fake.Value, Manager.Valid, Manager.Value, Q.Register;
      advancer.Create(k);
    }

    method ScheduleUpdate(k: Key)
      requires Valid()
      modifies clk
      ensures Valid() && forall x :: x in Repr() ==> x in old(Repr()) || fresh(x)
      ensures Value() == old(Value()).(clk := Q.Register(old(Value()).clk, advancer.delays.update, BootSettle(k)))
    {
      hide Store.Valid, Store.Value, Fake.Valid, Fake.Value, Manager.Valid, Manager.Value, Q.Register;
      advancer.Update(k);
    }

    method ScheduleDestroy(k: Key)
      requires Valid()
      modifies clk
      ensures Valid() && forall x :: x in Repr() ==> x in old(Repr()) || fresh(x)
      ensures Value() == old(Value()).(clk := Q.Register(old(Value()).clk, advancer.delays.destroy, Reap(k)))
    {
      hide Store.Valid, Store.Value, Fake.Valid, Fake.Value, Manager.Valid, Manager.Value, Q.Register;
      advancer.Destroy(k);
    }

    method ScheduleEnd(a: E.Action, k: Key)
      requires Valid()
      modifies clk
      ensures Valid() && forall x :: x in Repr() ==> x in old(Repr()) || fresh(x)
      ensures
        var end := E.Ending(a, k, advancer.delays);
        Value() == old(Value()).(clk := Q.Register(old(Value()).clk, end.delay, end.fn))
    {
      hide Store.Valid, Store.Value, Fake.Valid, Fake.Value, Manager.Valid, Manager.Value, Q.Register, E.Ending;
      advancer.Schedules(a, k);
    }

    // ---- handlers ----

    method CreateApp(app: string, org: string) returns (r: E.Response)
      requires Valid()
      modifies Repr()
      ensures Valid() && forall x :: x in Repr() ==> x in old(Repr()) || fresh(x)
      ensures E.Outcome(Value(), r) == E.HandleCreateApp(old(Value()), app, org)
    {
      hide Store.Valid, Store.Value, Fake.Valid, Fake.Value, Manager.Value;
      if app == "" || org == "" {
        return E.BadRequest;
      }
      var created := store.CreateApp(app, org, "");
      if created.Err? {
        return E.Conflicting(created.error);
      }
      r := E.AppIs(app, created.value);
    }

    method DeleteMachine(k: Key, nonce: string) returns (r: E.Response)
      requires Valid()
      modifies Repr()
      ensures Valid() && forall x :: x in Repr() ==> x in old(Repr()) || fresh(x)
      ensures E.Outcome(Value(), r) == E.HandleDeleteMachine(old(Value()), k, nonce, Opts())
    {
      hide Valid, Value, Repr, E.AfterCheck, E.RejectedByLease, E.Touched, E.Lookup, L.Exec;
      var leased := RejectIfLeased(k, nonce);
      if leased {
        return E.Leased;
      }
      var found := Change(k, E.Enter(Destroying));
      if found.Err? {
        return E.Missing(found.error);
      }
      ClearLease(E.LeaseKey(k));
      TouchMachine(k);
      ScheduleDestroy(k);
      r := E.Accepted;
    }

    /** Start, stop, restart and suspend: enter the transient state, schedule the end, report the state left. */
    method Transition(k: Key, nonce: string, a: E.Action) returns (r: E.Response)
      requires Valid()
      modifies Repr()
      ensures Valid() && forall x :: x in Repr() ==> x in old(Repr()) || fresh(x)
      ensures E.Outcome(Value(), r) == E.HandleAct(old(Value()), k, nonce, a, Opts())
    {
      hide Valid, Value, Repr, E.AfterCheck, E.RejectedByLease, E.RejectedAsTerminal, E.Touched, E.Lookup, E.Ending,
           E.Entering;
      var leased := RejectIfLeased(k, nonce);
      if leased {
        return E.Leased;
      }
      var terminal := RejectIfTerminal(k);
      if terminal.Some? {
        return E.Terminal(terminal.value);
      }
      var found := FindCopy(k);
      if found.Err? {
        return E.Missing(found.error);
      }
      r := E.PreviousState(found.value.state);
      var _ := Change(k, E.Enter(E.Entering(a)));
      TouchMachine(k);
      ScheduleEnd(a, k);
    }

    method SetCordon(k: Key, nonce: string, cordoned: bool) returns (r: E.Response)
      requires Valid()
      modifies Repr()
      ensures Valid() && forall x :: x in Repr() ==> x in old(Repr()) || fresh(x)
      ensures E.Outcome(Value(), r) == E.HandleSetCordon(old(Value()), k, nonce, cordoned)
    {
      hide Valid, Value, Repr, E.AfterCheck, E.RejectedByLease, E.RejectedAsTerminal, E.Touched, E.Lookup;
      var leased := RejectIfLeased(k, nonce);
      if leased {
        return E.Leased;
      }
      var terminal := RejectIfTerminal(k);
      if terminal.Some? {
        return E.Terminal(terminal.value);
      }
      var found := Change(k, E.Cordon(cordoned));
      if found.Err? {
        return E.Missing(found.error);
      }
      TouchMachine(k);
      r := E.Accepted;
    }

    method SetMetadata(k: Key, key: string, value: string) returns (r: E.Response)
      requires Valid()
      modifies Repr()
      ensures Valid() && forall x :: x in Repr() ==> x in old(Repr()) || fresh(x)
      ensures E.Outcome(Value(), r) == E.HandleMetadata(old(Value()), k, E.PutMetadata(key, value))
    {
      hide Valid, Value, Repr, E.Touched, E.Lookup;
      var found := Change(k, E.PutMetadata(key, value));
      if found.Err? {
        return E.Missing(found.error);
      }
      TouchMachine(k);
      r := E.Accepted;
    }

    method DeleteMetadata(k: Key, key: string) returns (r: E.Response)
      requires Valid()
      modifies Repr()
      ensures Valid() && forall x :: x in Repr() ==> x in old(Repr()) || fresh(x)
      ensures E.Outcome(Value(), r) == E.HandleMetadata(old(Value()), k, E.DropMetadata(key))
    {
      hide Valid, Value, Repr, E.Touched, E.Lookup;
      var found := Change(k, E.DropMetadata(key));
      if found.Err? {
        return E.Missing(found.error);
      }
      TouchMachine(k);
      r := E.Accepted;
    }

    /** The configuration of an update comes in by pointer and becomes the machine's own. */
    method UpdateMachine(k: Key, nonce: string, config: MachineConfig?, name: string, instance: string)
      returns (r: E.Reply<MachineRecord>)
      requires Valid() && (config != null ==> config.Valid() && config.Repr !! Repr())
      modifies Repr()
      ensures Valid() && forall x :: x in Repr() ==> x in old(Repr()) || x in old(ConfigRepr(config)) || fresh(x)
      ensures Private(r, Repr())
      ensures
        var request := E.UpdateMachine(k, nonce, old(ConfigValue(config)), name, instance);
        E.Outcome(Value(), Encoded(r)) == E.HandleUpdateMachine(old(Value()), request, Opts())
    {
      hide Valid, Value, Repr, MachineRecord.Valid, MachineRecord.Value, MachineConfig.Valid, MachineConfig.Value,
           E.AfterCheck, E.RejectedByLease, E.RejectedAsTerminal, E.Lookup, E.Mutate, E.Cloned;
      var leased := RejectIfLeased(k, nonce);
      if leased {
        return E.Leased;
      }
      var terminal := RejectIfTerminal(k);
      if terminal.Some? {
        return E.Terminal(terminal.value);
      }
      var now := clk.now;
      ClockReads();
      var updated := UpdateStored(k, E.Churn(None, name, instance, now), config);
      if updated.Err? {
        return E.Missing(updated.error);
      }
      ScheduleUpdate(k);
      r := E.MachineIs(updated.value);
    }

    /** The request's configuration is copied into the store: the caller's objects stay the caller's. */
    method CreateMachine(app: string, name: string, region: string, config: MachineConfig?, skipLaunch: bool,
                         id: string, instance: string) returns (r: E.Reply<MachineRecord>)
      requires Valid() && (config != null ==> config.Valid())
      modifies Repr()
      ensures Valid() && forall x :: x in Repr() ==> x in old(Repr()) || fresh(x)
      ensures Private(r, Repr())
      ensures E.Outcome(Value(), Encoded(r)) == E.HandleCreateMachine(old(Value()),
        E.CreateMachine(app, name, region, old(ConfigValue(config)), skipLaunch, id, instance), Opts())
    {
      hide Valid, Value, Repr, MachineRecord.Valid, MachineRecord.Value, MachineConfig.Valid, MachineConfig.Value,
           ConfigValue, E.Cloned, E.NewMachine, E.Put;
      var known := AppIsKnown(app);
      if !known {
        return E.Missing(E.AppNotFound);
      }
      ClockReads();
      var m := NewRecord(name, region, config, skipLaunch, id, instance);
      var created := AddMachine(app, m);
      if !skipLaunch {
        ScheduleCreate(Key(app, id));
      }
      r := E.MachineIs(created);
    }

    method AppIsKnown(app: string) returns (known: bool)
      requires Valid()
      ensures known == (app in Value().apps)
    {
      hide Store.Value;
      known := store.HasApp(app);
    }

    method NewRecord(name: string, region: string, config: MachineConfig?, skipLaunch: bool, id: string,
                     instance: string) returns (m: MachineRecord)
      requires config != null ==> config.Valid()
      ensures m.Valid() && m.Value().id == id
      ensures m.Value() == E.NewMachine(name, region, ConfigValue(config), skipLaunch, id, instance, clk.now)
    {
      hide MachineConfig.Valid, MachineConfig.Value;
      var now := clk.now;
      var initial := Creating;
      if skipLaunch {
        initial := Created;
      }
      var versions := new Version[1](_ => Version(instance, initial));
      assert versions[..] == [Version(instance, initial)];
      m := new MachineRecord(id, name, initial, E.DefaultString(region, "local"), instance, E.PRIVATE_IP, config, null,
                             now, now, versions, false);
      if m.name == "" {
        m.name := "machine-" + m.id;
      }
    }

    method AddMachine(app: string, m: MachineRecord) returns (created: MachineRecord)
      requires Valid() && m.Valid() && app in Value().apps
      modifies Repr()
      ensures Valid() && forall x :: x in Repr() ==> x in old(Repr()) || fresh(x)
      ensures
        var v := old(m.Value());
        Value() == old(Value()).(apps := E.Put(old(Value()).apps, Key(app, v.id), E.Cloned(v)))
      ensures created.Valid() && fresh(created.Repr) && created.Repr !! Repr()
      ensures created.Value() == E.Cloned(old(m.Value()))
    {
      hide Store.Valid, Store.Value, Fake.Valid, Fake.Value, Manager.Valid, Manager.Value, MachineRecord.Valid,
           MachineRecord.Value, E.Cloned, E.Put;
      var r := store.CreateMachine(app, m);
      created := r.value;
    }

    /** Clears the leases of the app's machines one by one, then drops the app. */
    method DeleteApp(app: string) returns (r: E.Response)
      requires Valid()
      modifies Repr()
      ensures Valid() && forall x :: x in Repr() ==> x in old(Repr()) || fresh(x)
      ensures E.Outcome(Value(), r) == E.HandleDeleteApp(old(Value()), app)
    {
      hide Valid, Value, Repr, E.LeaseKey;
      ClearLeasesOf(app);
      r := DropApp(app);
    }

    method DropApp(app: string) returns (r: E.Response)
      requires Valid()
      modifies Repr()
      ensures Valid() && forall x :: x in Repr() ==> x in old(Repr()) || fresh(x)
      ensures Value() == old(Value()).(apps := old(Value()).apps - {app})
      ensures r == if app in old(Value()).apps then E.Accepted else E.Missing(E.AppNotFound)
    {
      hide Store.Valid, Store.Value, Fake.Valid, Fake.Value, Manager.Valid, Manager.Value;
      var dropped := store.DeleteApp(app);
      if dropped.Err? {
        return E.Missing(dropped.error);
      }
      r := E.Accepted;
    }

    method ClearLeasesOf(app: string)
      requires Valid()
      modifies Repr()
      ensures Valid() && forall x :: x in Repr() ==> x in old(Repr()) || fresh(x)
      ensures
        var w := old(Value());
        var cleared := if app in w.apps then set id | id in w.apps[app].machines :: E.LeaseKey(Key(app, id)) else {};
        Value() == w.(leases := w.leases - cleared)
    {
      hide Valid, Value, Repr, E.LeaseKey, MachineRecord.Valid, MachineRecord.Value;
      ghost var w, cleared := Value(), {};
      assert w.leases - cleared == w.leases;
      var listed, ids := ListMachines(app);
      if listed.Ok? {
        for i := 0 to |listed.value|
          invariant Valid() && forall x :: x in Repr() ==> x in old(Repr()) || fresh(x)
          invariant forall n :: 0 <= n < |ids| ==> listed.value[n].id == ids[n] && listed.value[n] !in Repr()
          invariant cleared == set n | 0 <= n < i :: E.LeaseKey(Key(app, ids[n]))
          invariant Value() == w.(leases := w.leases - cleared)
        {
          var key := E.LeaseKey(Key(app, listed.value[i].id));
          ClearLease(key);
          cleared := cleared + {key};
          assert Value().leases == w.leases - cleared;
        }
      }
    }

    /** Copies of an app's machines. */
    method ListMachines(app: string) returns (r: E.Result<seq<MachineRecord>>, ghost ids: seq<string>)
      requires Valid()
      ensures Valid() && Value() == old(Value()) && Repr() == old(Repr())
      ensures app !in Value().apps ==> r == E.Err(E.AppNotFound)
      ensures app in Value().apps ==>
        && r.Ok? && |r.value| == |ids| && (forall id :: id in ids <==> id in Value().apps[app].machines)
        && (forall i :: 0 <= i < |ids| ==> r.value[i].id == ids[i])
      ensures r.Ok? ==> forall i :: 0 <= i < |r.value| ==> r.value[i] !in Repr()
    {
      hide Store.Valid, Store.Value, Fake.Valid, Fake.Value, Manager.Valid, Manager.Value, IsListing;
      r, ids := store.ListMachines(app);
      if r.Ok? {
        store.ListedIds(app, r.value, ids);
      }
    }

    // ---- leases ----

    method GetLease(k: Key) returns (r: E.Response)
      requires Valid()
      modifies Repr()
      ensures Valid() && forall x :: x in Repr() ==> x in old(Repr()) || fresh(x)
      ensures E.Outcome(Value(), r) == E.HandleLease(old(Value()), k, L.Get(E.LeaseKey(k)))
    {
      hide Store.Valid, Store.Value, Fake.Valid, Manager.Value, L.Exec, E.Lookup;
      var found := FindCopy(k);
      if found.Err? {
        return E.Missing(found.error);
      }
      var l := leases.Get(E.LeaseKey(k));
      r := E.LeaseEnvelope(l);
    }

    method ReleaseLease(k: Key, nonce: string) returns (r: E.Response)
      requires Valid()
      modifies Repr()
      ensures Valid() && forall x :: x in Repr() ==> x in old(Repr()) || fresh(x)
      ensures E.Outcome(Value(), r) == E.HandleLease(old(Value()), k, L.Release(E.LeaseKey(k), nonce))
    {
      hide Store.Valid, Store.Value, Fake.Valid, Manager.Value, L.Exec, E.Lookup;
      var found := FindCopy(k);
      if found.Err? {
        return E.Missing(found.error);
      }
      var l := leases.Release(E.LeaseKey(k), nonce);
      r := E.LeaseEnvelope(l);
    }

    /** A request that carries a nonce refreshes; one without acquires. */
    method AcquireLease(k: Key, nonce: string, ttl: int, description: string, minted: string) returns (r: E.Response)
      requires Valid()
      modifies Repr()
      ensures Valid() && forall x :: x in Repr() ==> x in old(Repr()) || fresh(x)
      ensures E.Outcome(Value(), r)
        == E.HandleLease(old(Value()), k, E.LeaseOp(E.AcquireLease(k, nonce, ttl, description, minted), Opts()))
    {
      hide Store.Valid, Store.Value, Fake.Valid, Manager.Value, L.Exec, E.Lookup;
      var found := FindCopy(k);
      if found.Err? {
        return E.Missing(found.error);
      }
      var d := leaseTTL;
      if 0 < ttl {
        d := E.Wrap64(ttl * L.SECOND);
      }
      var l;
      if nonce != "" {
        l := leases.Refresh(E.LeaseKey(k), nonce, d);
      } else {
        l := leases.Acquire(E.LeaseKey(k), "mudflaps", description, d, minted);
      }
      r := E.LeaseEnvelope(l);
    }

    // ---- time ----

    /** Moves the fake clock on, firing what falls due. */
    method Advance(d: int)
      requires Valid()
      modifies Repr()
      ensures Valid() && forall x :: x in Repr() ==> x in old(Repr()) || fresh(x)
      ensures Value() == E.AdvanceWorld(old(Value()), old(clk.now) + d, Opts())
    {
      hide Store.Valid, Store.Value, Fake.Valid, Fake.Value, Manager.Valid, Manager.Value, Q.AdvanceTo, Q.Shots,
           E.RunCallbacks, E.AdvanceWorld;
      E.AdvanceReplaysLog(Value(), clk.now + d, Opts());
      advancer.Advance(d);
    }

    /** Lets time pass with nothing firing, as an arbitrary scheduler may. */
    method Tick(to: int)
      requires Valid()
      modifies Repr()
      ensures Valid() && forall x :: x in Repr() ==> x in old(Repr()) || fresh(x)
      ensures Value() == old(Value()).(clk := old(Value()).clk.(now := to))
    {
      hide Store.Valid, Store.Value, Fake.Value, Manager.Valid, Manager.Value;
      clk.MoveTo(to);
    }

    /** Fires any live timer's callback, with the clock at any reading, as an arbitrary scheduler may. */
    method FireAny(i: nat, at: int)
      requires Valid() && i < |Value().clk.timers| && Value().clk.timers[i].Live()
      modifies Repr()
      ensures Valid() && forall x :: x in Repr() ==> x in old(Repr()) || fresh(x)
      ensures Value() == E.FireAt(old(Value()), i, at, Opts())
    {
      hide Store.Valid, Store.Value, Fake.Valid, Manager.Valid, Manager.Value, E.RunCallback, Q.Fire;
      advancer.FireAny(i, at);
    }

    // ---- whole runs ----

    /** Dispatches a request that is not answered with a machine. */
    method ServePlainly(r: E.Request) returns (resp: E.Response)
      requires Valid() && !r.CreateMachine? && !r.UpdateMachine?
      modifies Repr()
      ensures Valid() && forall x :: x in Repr() ==> x in old(Repr()) || fresh(x)
      ensures E.Outcome(Value(), resp) == E.Handle(old(Value()), r, Opts())
    {
      hide Valid, Value, Repr, E.HandleCreateApp, E.HandleDeleteApp, E.HandleDeleteMachine, E.HandleAct,
           E.HandleSetCordon, E.HandleMetadata, E.HandleLease, E.LeaseOp, E.LeaseKey;
      match r {
        case CreateApp(app, org) => resp := CreateApp(app, org);
        case DeleteApp(app) => resp := DeleteApp(app);
        case DeleteMachine(k, nonce) => resp := DeleteMachine(k, nonce);
        case Act(k, nonce, a) => resp := Transition(k, nonce, a);
        case SetCordon(k, nonce, b) => resp := SetCordon(k, nonce, b);
        case SetMetadata(k, key, value) => resp := SetMetadata(k, key, value);
        case DeleteMetadata(k, key) => resp := DeleteMetadata(k, key);
        case GetLease(k) => resp := GetLease(k);
        case AcquireLease(k, nonce, ttl, description, minted) =>
          resp := AcquireLease(k, nonce, ttl, description, minted);
        case ReleaseLease(k, nonce) => resp := ReleaseLease(k, nonce);
      }
    }

    /** Decodes and dispatches any request. */
    method Serve(r: E.Request) returns (resp: E.Reply<MachineRecord>)
      requires Valid()
      modifies Repr()
      ensures Valid() && forall x :: x in Repr() ==> x in old(Repr()) || fresh(x)
      ensures Private(resp, Repr())
      ensures E.Outcome(Value(), Encoded(resp)) == E.Handle(old(Value()), r, Opts())
    {
      hide Valid, Value, Repr, MachineRecord.Valid, MachineRecord.Value, MachineConfig.Valid, MachineConfig.Value,
           ConfigValue, E.HandleCreateApp, E.HandleDeleteApp, E.HandleDeleteMachine, E.HandleAct, E.HandleSetCordon,
           E.HandleMetadata, E.HandleLease, E.LeaseOp, E.HandleCreateMachine, E.HandleUpdateMachine;
      if r.CreateMachine? {
        var config := Decode(r.config);
        resp := CreateMachine(r.app, r.name, r.region, config, r.skipLaunch, r.id, r.instance);
      } else if r.UpdateMachine? {
        var config := Decode(r.config);
        resp := UpdateMachine(r.k, r.nonce, config, r.name, r.instance);
      } else {
        PlainRequests(Value(), r, Opts());
        var plain := ServePlainly(r);
        resp := WithoutMachine(plain);
      }
    }

    method Decode(value: Option<Config>) returns (c: MachineConfig?)
      requires Valid()
      ensures Valid() && Value() == old(Value()) && Repr() == old(Repr())
      ensures c != null ==> c.Valid() && fresh(c.Repr) && c.Repr !! Repr()
      ensures ConfigValue(c) == value
    {
      hide Store.Valid, Store.Value, Fake.Valid, Fake.Value, Manager.Valid, Manager.Value, MachineConfig.Valid,
           ConfigValue;
      c := DecodeConfig(value);
    }

    lemma PlainRequests(w: E.World, r: E.Request, o: E.Options)
      requires !r.CreateMachine? && !r.UpdateMachine?
      ensures !E.Handle(w, r, o).resp.MachineIs?
    {
    }

    /** One step: a request, an advance of the fake clock, or a scheduler's choice. */
    method Perform(step: R.Step, ghost used: set<string>)
      requires Valid() && R.Enabled(R.Sys(Value(), used), step)
      modifies Repr()
      ensures Valid() && forall x :: x in Repr() ==> x in old(Repr()) || fresh(x)
      ensures Value() == R.Exec(R.Sys(old(Value()), used), step, Opts()).w
    {
      hide Valid, Value, Repr, E.Handle, E.AdvanceWorld, E.FireAt, Private, Encoded;
      match step {
        case Req(r) => var _ := Serve(r);
        case Advance(amount) =>
          ClockReads();
          Advance(amount);
        case Tick(to) => Tick(to);
        case FireAny(i, at) => FireAny(i, at);
      }
    }

    /** A whole run, under any mix of clock and scheduler: what is proved of runs is true of these objects. */
    method Drive(steps: seq<R.Step>, ghost used: set<string>)
      requires Valid() && R.LegalRun(R.Sys(Value(), used), steps, Opts())
      modifies Repr()
      ensures Valid() && forall x :: x in Repr() ==> x in old(Repr()) || fresh(x)
      ensures Value() == R.Run(R.Sys(old(Value()), used), steps, Opts()).w
    {
      hide Valid, Value, Repr, R.Enabled, R.Exec;
      ghost var s := R.Sys(Value(), used);
      for n := 0 to |steps|
        invariant Valid() && forall x :: x in Repr() ==> x in old(Repr()) || fresh(x)
        invariant s.w == Value() && R.LegalRun(s, steps[n..], Opts())
        invariant R.Run(s, steps[n..], Opts()) == R.Run(R.Sys(old(Value()), used), steps, Opts())
      {
        assert steps[n..][0] == steps[n] && steps[n..][1..] == steps[n + 1..];
        ghost var next := R.Exec(s, steps[n], Opts());
        Perform(steps[n], s.used);
        s := next;
      }
    }

    /**
     The wait endpoint. Before its n-th poll come the requests, advances and firings of gaps[n]; the client hangs up
     when they run out.
     */
    method WaitMachine(k: Key, query: seq<string>, version: string, instanceID: string, timeout: string,
                       gaps: seq<seq<R.Step>>, ghost used: set<string>) returns (r: W.WaitReply)
      requires Valid() && W.LegalGaps(R.Sys(Value(), used), gaps, Opts())
      modifies Repr()
      ensures Valid() && forall x :: x in Repr() ==> x in old(Repr()) || fresh(x)
      ensures
        var states, wanted := if query == [] then ["started"] else query, if version != "" then version else instanceID;
        var deadline := old(clk.now) + T.ClampTimeout(timeout);
        var polls := W.Observations(R.Sys(old(Value()), used), gaps, Opts(), k);
        r == W.WaitOn(polls, states, wanted, deadline)
    {
      hide Valid, Value, Repr, R.LegalRun, R.Run, W.WaitOn, W.Observations, W.Decide, E.Lookup,
           T.ClampTimeout;
      var states := query;
      if query == [] {
        states := [StateText(Started)];
      }
      var wanted := version;
      if wanted == "" {
        wanted := instanceID;
      }
      var deadline := clk.now + T.ClampTimeout(timeout);
      ghost var s := R.Sys(Value(), used);
      for n := 0 to |gaps|
        invariant Valid() && forall x :: x in Repr() ==> x in old(Repr()) || fresh(x)
        invariant s.w == Value() && W.LegalGaps(s, gaps[n..], Opts())
        invariant W.WaitOn(W.Observations(s, gaps[n..], Opts(), k), states, wanted, deadline)
          == W.WaitOn(W.Observations(R.Sys(old(Value()), used), gaps, Opts(), k), states, wanted, deadline)
      {
        assert gaps[n..][0] == gaps[n] && gaps[n..][1..] == gaps[n + 1..];
        W.FirstObservation(s, gaps[n..], Opts(), k, states, wanted, deadline);
        Drive(gaps[n], s.used);
        s := R.Run(s, gaps[n], Opts());
        ClockReads();
        r := PollOnce(k, states, wanted, deadline);
        if r != W.StillWaiting {
          return;
        }
      }
      r := W.StillWaiting;
      W.NoObservation(s, Opts(), k, states, wanted, deadline);
    }

    /** One round of the wait loop. */
    method PollOnce(k: Key, states: seq<string>, wanted: string, deadline: int) returns (r: W.WaitReply)
      requires Valid()
      ensures Valid() && Value() == old(Value()) && Repr() == old(Repr())
      ensures r == W.Decide(W.Poll(E.Lookup(Value().apps, k), clk.now), states, wanted, deadline)
    {
      hide Valid, Value, Repr, MachineRecord.Valid;
      var found := FindCopy(k);
      match found {
        case Err(MachineNotFound) =>
          return if StateText(Destroyed) in states then W.Reached else W.NotThere(E.MachineNotFound);
        case Err(e) =>
          return W.NotThere(e);
        case Ok(m) =>
          if StateText(m.state) in states && (wanted == "" || wanted == m.instanceID) {
            return W.Reached;
          }
          if deadline < clk.now {
            return W.TimedOut;
          }
          return W.StillWaiting;
      }
    }
  }
}
