/**
 The lifecycle advancer over the real store and clock. A closure handed to the clock is a Callback value,
 so Fake.Advance's outer loop, which runs closures, sits here beside their dispatch.
 */
module LifecycleAdvancer {
  import opened Flaps
  import opened Callbacks
  import opened Clock
  import opened MachineStore
  import E = Emulator
  import Q = EventQueue

  class Advancer {
    const store: Store
    const clk: Fake
    const delays: Delays

    ghost predicate Valid()
      reads store, store.Repr, clk
    {
      store.Valid() && clk.Valid() && store.Repr !! clk.Repr()
    }

    constructor (store: Store, clk: Fake, delays: Delays)
      requires store.Valid() && clk.Valid() && store.Repr !! clk.Repr()
      ensures this.store == store && this.clk == clk && this.delays == delays && Valid()
    {
      this.store, this.clk, this.delays := store, clk, delays;
    }

    /** Everything the advancer's objects reach. */
    ghost function Repr(): set<object>
      reads store, clk
    {
      store.Repr + clk.Repr()
    }

    // ---- scheduling ----

    method Schedule(d: int, fn: Callback)
      requires Valid()
      modifies clk
      ensures Valid() && fresh(clk.Repr() - old(clk.Repr()))
      ensures clk.Value() == Q.Register(old(clk.Value()), d, fn)
    {
      hide Store.Valid, Store.Value;
      var t := clk.AfterFunc(d, fn);
    }

    method Create(k: Key)
      requires Valid()
      modifies clk
      ensures Valid() && fresh(clk.Repr() - old(clk.Repr()))
      ensures clk.Value() == Q.Register(old(clk.Value()), delays.create, BootFirst(k))
    {
      Schedule(delays.create, BootFirst(k));
    }

    /** Start, Stop, Restart and Suspend differ in their delay and in the closure they schedule. */
    method Schedules(a: E.Action, k: Key)
      requires Valid()
      modifies clk
      ensures Valid() && fresh(clk.Repr() - old(clk.Repr()))
      ensures clk.Value() == Q.Register(old(clk.Value()), E.Ending(a, k, delays).delay, E.Ending(a, k, delays).fn)
    {
      match a {
        case Start => Schedule(delays.start, BootSettle(k));
        case Stop => Schedule(delays.stop, StopEnd(k));
        case Restart => Schedule(delays.restart, BootSettle(k));
        case Suspend => Schedule(delays.suspend, SuspendEnd(k));
      }
    }

    method Destroy(k: Key)
      requires Valid()
      modifies clk
      ensures Valid() && fresh(clk.Repr() - old(clk.Repr()))
      ensures clk.Value() == Q.Register(old(clk.Value()), delays.destroy, Reap(k))
    {
      Schedule(delays.destroy, Reap(k));
    }

    method Update(k: Key)
      requires Valid()
      modifies clk
      ensures Valid() && fresh(clk.Repr() - old(clk.Repr()))
      ensures clk.Value() == Q.Register(old(clk.Value()), delays.update, BootSettle(k))
    {
      Schedule(delays.update, BootSettle(k));
    }

    // ---- the closures ----

    /** Drives a booting machine to its resting state, judged on its configuration at this moment. */
    method Settle(k: Key)
      requires Valid()
      modifies store.Repr
      ensures Valid() && fresh(store.Repr - old(store.Repr))
      ensures store.Value() == E.Update(old(store.Value()), k, E.SettleBoot)
    {
      hide Store.Valid, Store.Value;
      var _ := store.UpdateMachine(k, E.SettleBoot, null, None);
    }

    method Set(k: Key, s: MachineState)
      requires Valid()
      modifies store.Repr
      ensures Valid() && fresh(store.Repr - old(store.Repr))
      ensures store.Value() == E.Update(old(store.Value()), k, E.Mark(s))
    {
      hide Store.Valid, Store.Value;
      var _ := store.UpdateMachine(k, E.Mark(s), null, None);
    }

    /** Runs a closure. */
    method Run(fn: Callback)
      requires Valid()
      modifies store.Repr, clk
      ensures Valid() && fresh(Repr() - old(Repr()))
      ensures store.Value() == E.RunCallback(old(store.Value()), fn)
      ensures clk.Value() == Q.RegisterAll(old(clk.Value()), Follow(fn, delays))
    {
      hide Store.Valid, Store.Value, E.Update;
      match fn {
        case BootFirst(k) =>
          Set(k, Starting);
          Schedule(delays.start, BootSettle(k));
        case BootSettle(k) => Settle(k);
        case StopEnd(k) => Set(k, Stopped);
        case SuspendEnd(k) => Set(k, Suspended);
        case Reap(k) => var _ := store.DeleteMachine(k);
      }
      OneRegistration(old(clk.Value()), fn);
    }

    lemma OneRegistration(q: Q.Queue, fn: Callback)
      ensures Q.RegisterAll(q, Follow(fn, delays)) ==
              if fn.BootFirst? then Q.Register(q, delays.start, BootSettle(fn.key)) else q
    {
      if fn.BootFirst? {
        var r := Registration(delays.start, BootSettle(fn.key));
        assert [r][1..] == [];
        assert Q.RegisterAll(q, [r]) == Q.RegisterAll(Q.Register(q, r.delay, r.fn), []);
      }
    }

    /** Fake.Advance: moves the clock on by d, firing every due callback in deadline order. */
    method Advance(d: int)
      requires Valid()
      modifies store.Repr, clk, clk.timers
      ensures Valid() && fresh(Repr() - old(Repr()))
      ensures clk.Value() == Q.AdvanceTo(old(clk.Value()), old(clk.now) + d, delays)
      ensures store.Value() == E.RunCallbacks(old(store.Value()), Q.Shots(old(clk.Value()), old(clk.now) + d, delays))
    {
      hide Store.Valid, Store.Value, E.RunCallback, E.RunCallbacks, Q.AdvanceTo, Q.Shots, Q.Fire, Q.Weight, Q.Next,
           Fake.Value;
      var target := clk.now + d;
      var next := clk.Earliest(target);
      while 0 <= next
        invariant Valid() && fresh(Repr() - old(Repr()))
        invariant next < |clk.timers| && next == Q.Next(clk.Value().timers, target)
        invariant Q.AdvanceTo(clk.Value(), target, delays) == Q.AdvanceTo(old(clk.Value()), target, delays)
        invariant E.RunCallbacks(store.Value(), Q.Shots(clk.Value(), target, delays))
                  == E.RunCallbacks(old(store.Value()), Q.Shots(old(clk.Value()), target, delays))
        decreases Q.Weight(clk.Value().timers)
      {
        ghost var q, apps := clk.Value(), store.Value();
        FireOne(next);
        Unroll(q, next, target, apps);
        next := clk.Earliest(target);
      }
      Exhausted(clk.Value(), target, store.Value());
      clk.MoveTo(target);
    }

    lemma Exhausted(q: Q.Queue, target: int, apps: E.Apps)
      requires Q.Next(q.timers, target) < 0
      ensures Q.AdvanceTo(q, target, delays) == q.(now := target)
      ensures E.RunCallbacks(apps, Q.Shots(q, target, delays)) == apps
    {
    }

    /** One round of the loop's body: mark, move, run. */
    method FireOne(next: nat)
      requires Valid() && next < |clk.timers| && clk.Value().timers[next].Live()
      modifies store.Repr, clk, clk.timers
      ensures Valid() && fresh(Repr() - old(Repr()))
      ensures clk.Value() == Q.FireNext(old(clk.Value()), next, delays)
      ensures store.Value() == E.RunCallback(old(store.Value()), old(clk.Value()).timers[next].fn)
    {
      hide Store.Valid, Store.Value, E.RunCallback;
      var fn := clk.BeginFire(next);
      Run(fn);
    }

    /** A callback fired by an arbitrary scheduler: any live timer's, with the clock at any reading. */
    method FireAny(i: nat, at: int)
      requires Valid() && i < |clk.timers| && clk.Value().timers[i].Live()
      modifies store.Repr, clk, clk.timers
      ensures Valid() && fresh(Repr() - old(Repr()))
      ensures clk.Value() == Q.Fire(old(clk.Value()), i, at, delays)
      ensures store.Value() == E.RunCallback(old(store.Value()), old(clk.Value()).timers[i].fn)
    {
      hide Store.Valid, Store.Value, E.RunCallback;
      var fn := clk.BeginFire(i);
      clk.MoveTo(at);
      Run(fn);
    }

    /** What one round does to the rest of the advance. */
    lemma Unroll(q: Q.Queue, next: nat, target: int, apps: E.Apps)
      requires next == Q.Next(q.timers, target)
      ensures
        var q' := Q.FireNext(q, next, delays);
        && Q.Weight(q'.timers) < Q.Weight(q.timers)
        && Q.AdvanceTo(q', target, delays) == Q.AdvanceTo(q, target, delays)
        && E.RunCallbacks(E.RunCallback(apps, q.timers[next].fn), Q.Shots(q', target, delays))
           == E.RunCallbacks(apps, Q.Shots(q, target, delays))
    {
      hide E.RunCallback;
      var rest := Q.Shots(Q.FireNext(q, next, delays), target, delays);
      var s := Q.Shot(next, q.timers[next].deadline, q.timers[next].fn);
      assert ([s] + rest)[1..] == rest;
    }
  }
}
