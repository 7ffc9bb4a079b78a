/**
 Machines do not interfere, although all share one timer list: what one machine's client can observe
 (its machine, its lease, its app's existence, every reply) is what it would observe alone.
 */
module Isolation {
  import opened Flaps
  import opened Callbacks
  import opened EventQueue
  import opened Emulator
  import opened Runs
  import opened Invariants
  import opened Safety
  import opened History
  import opened Destruction
  import L = Leases

  // ---- one machine's share of the timer list ----

  function Mine(ts: seq<Timer>, k: Key): seq<Timer> {
    if ts == [] then []
    else
      var n := |ts| - 1;
      Mine(ts[..n], k) + if ts[n].Live() && ts[n].fn.key == k then [ts[n]] else []
  }

  lemma MineOfAppend(ts: seq<Timer>, t: Timer, k: Key)
    ensures Mine(ts + [t], k) == Mine(ts, k) + if t.Live() && t.fn.key == k then [t] else []
  {
    assert (ts + [t])[..|ts|] == ts;
  }

  /** Marking a timer fired takes it out of its machine's share, and leaves the other shares alone. */
  lemma {:induction false} MineAfterMark(ts: seq<Timer>, i: nat, k: Key)
    requires i < |ts| && ts[i].Live()
    ensures
      var mine, mine', rank := Mine(ts, k), Mine(ts[i := ts[i].(fired := true)], k), |Mine(ts[..i], k)|;
      if ts[i].fn.key == k then rank < |mine| && mine[rank] == ts[i] && mine' == mine[..rank] + mine[rank + 1..]
      else mine' == mine
  {
    var ts', n := ts[i := ts[i].(fired := true)], |ts| - 1;
    if i == n {
      assert ts'[..n] == ts[..n];
    } else {
      assert ts'[..n] == ts[..n][i := ts[i].(fired := true)];
      assert ts[..n][..i] == ts[..i];
      MineAfterMark(ts[..n], i, k);
    }
  }

  /** The timer the clock selects next, if it is k's, is the one k's own share would select. */
  lemma {:induction false} NextOfMine(ts: seq<Timer>, k: Key, target: int)
    ensures
      var i, p := Next(ts, target), Next(Mine(ts, k), target);
      && (0 <= p ==> 0 <= i && ts[i].deadline <= Mine(ts, k)[p].deadline)
      && (0 <= i && ts[i].fn.key == k ==> p == |Mine(ts[..i], k)| && Mine(ts, k)[p] == ts[i])
  {
    if ts != [] {
      var n := |ts| - 1;
      NextOfMine(ts[..n], k, target);
      var mine := Mine(ts[..n], k);
      var best := Next(ts[..n], target);
      if 0 <= best {
        assert ts[..n][..best] == ts[..best];
      }
      if ts[n].Live() && ts[n].fn.key == k {
        assert (mine + [ts[n]])[..|mine|] == mine;
      } else {
        assert mine + [] == mine;
      }
    }
  }

  // ---- what one machine's world consists of ----

  datatype Core = Core(there: bool, machine: Option<Machine>, mine: seq<Timer>)

  datatype Local = Local(now: int, core: Core, lease: Option<L.Lease>)

  function Found(apps: Apps, k: Key): Option<Machine> {
    match Lookup(apps, k)
    case Ok(m) => Some(m)
    case Err(_) => None
  }

  function CoreOf(w: World, k: Key): Core {
    Core(k.app in w.apps, Found(w.apps, k), Mine(w.clk.timers, k))
  }

  function Project(w: World, k: Key): Local {
    Local(w.clk.now, CoreOf(w, k), L.InForce(w.leases, LeaseKey(k), w.clk.now))
  }

  // ---- time, seen by one machine ----

  function RunLocally(m: Option<Machine>, fn: Callback): Option<Machine> {
    if fn.Reap? || m.None? then None else Some(Mutate(m.value, Effect(fn)))
  }

  function FireLocally(c: Core, p: nat, at: int, d: Delays): Core
    requires p < |c.mine|
  {
    var fn := c.mine[p].fn;
    Core(c.there, RunLocally(c.machine, fn), c.mine[..p] + c.mine[p + 1..] + Spawned(fn, at, d))
  }

  lemma {:induction false} WeightOfConcat(a: seq<Timer>, b: seq<Timer>)
    ensures Weight(a + b) == Weight(a) + Weight(b)
  {
    if b == [] {
      assert a + b == a;
    } else {
      var n := |b| - 1;
      assert (a + b)[..|a| + n] == a + b[..n];
      WeightOfConcat(a, b[..n]);
    }
  }

  lemma FireLocallyDecreases(c: Core, p: nat, at: int, d: Delays)
    requires p < |c.mine| && c.mine[p].Live()
    ensures Weight(FireLocally(c, p, at, d).mine) < Weight(c.mine)
  {
    var mine := c.mine;
    var extra := FireLocally(c, p, at, d).mine[|mine| - 1..];
    assert mine == mine[..p] + [mine[p]] + mine[p + 1..];
    WeightOfConcat(mine[..p], [mine[p]]);
    WeightOfConcat(mine[..p] + [mine[p]], mine[p + 1..]);
    WeightOfConcat(mine[..p], mine[p + 1..]);
    WeightOfConcat(mine[..p] + mine[p + 1..], extra);
    assert FireLocally(c, p, at, d).mine == mine[..p] + mine[p + 1..] + extra;
    assert [mine[p]][..0] == [];
    assert Weight([mine[p]]) == Depth(mine[p].fn);
    if |extra| == 1 {
      assert extra[..0] == [];
    }
  }

  function AdvanceLocally(c: Core, target: int, d: Delays): Core
    decreases Weight(c.mine)
  {
    var p := Next(c.mine, target);
    if p < 0 then c
    else
      FireLocallyDecreases(c, p, c.mine[p].deadline, d);
      AdvanceLocally(FireLocally(c, p, c.mine[p].deadline, d), target, d)
  }

  lemma FoundAfterCallback(apps: Apps, fn: Callback, k: Key)
    ensures (k.app in RunCallback(apps, fn)) == (k.app in apps)
    ensures Found(RunCallback(apps, fn), k) == if fn.key == k then RunLocally(Found(apps, k), fn) else Found(apps, k)
  {
    RunCallbackFrame(apps, fn);
    if fn.key == k && !fn.Reap? {
      LookupUpdate(apps, k, Effect(fn));
    }
  }

  /** The timer a first boot step registers when it fires at `at`. */
  function Spawned(fn: Callback, at: int, d: Delays): seq<Timer> {
    if fn.BootFirst? then [Timer(at + d.start, BootSettle(fn.key), false, false)] else []
  }

  lemma MineAfterFire(q: Queue, i: nat, at: int, d: Delays, k: Key)
    requires i < |q.timers| && q.timers[i].Live()
    ensures
      var mine, rank, t := Mine(q.timers, k), |Mine(q.timers[..i], k)|, q.timers[i];
      var mine' := Mine(Fire(q, i, at, d).timers, k);
      if t.fn.key != k then mine' == mine
      else rank < |mine| && mine[rank] == t && mine' == mine[..rank] + mine[rank + 1..] + Spawned(t.fn, at, d)
  {
    var ts, t := q.timers, q.timers[i];
    var marked := ts[i := t.(fired := true)];
    MineAfterMark(ts, i, k);
    FireShape(q, i, at, d);
    if t.fn.BootFirst? {
      MineOfAppend(marked, Spawned(t.fn, at, d)[0], k);
    } else {
      assert Fire(q, i, at, d).timers == marked;
    }
  }

  /** A firing aimed elsewhere is invisible; one aimed at k is k's own. */
  lemma CoreAfterFire(w: World, i: nat, at: int, o: Options, k: Key)
    requires i < |w.clk.timers| && w.clk.timers[i].Live()
    ensures
      var c' := CoreOf(FireAt(w, i, at, o), k);
      var rank := |Mine(w.clk.timers[..i], k)|;
      if w.clk.timers[i].fn.key != k then c' == CoreOf(w, k)
      else rank < |Mine(w.clk.timers, k)| && c' == FireLocally(CoreOf(w, k), rank, at, o.delays)
  {
    MineAfterFire(w.clk, i, at, o.delays, k);
    FoundAfterCallback(w.apps, w.clk.timers[i].fn, k);
  }

  lemma {:induction false} CoreAfterAdvance(w: World, target: int, o: Options, k: Key)
    ensures CoreOf(AdvanceWorld(w, target, o), k) == AdvanceLocally(CoreOf(w, k), target, o.delays)
    decreases Weight(w.clk.timers)
  {
    var i := Next(w.clk.timers, target);
    NextOfMine(w.clk.timers, k, target);
    if 0 <= i {
      FireDecreasesWeight(w.clk, i, w.clk.timers[i].deadline, o.delays);
      CoreAfterFire(w, i, w.clk.timers[i].deadline, o, k);
      CoreAfterAdvance(FireAt(w, i, w.clk.timers[i].deadline, o), target, o, k);
    }
  }

  /** A lease in force later is one in force now. */
  lemma LeaseAfterAdvance(w: World, target: int, o: Options, k: Key)
    requires w.clk.now <= target
    ensures
      var l := L.InForce(w.leases, LeaseKey(k), w.clk.now);
      Project(AdvanceWorld(w, target, o), k).lease == if l.Some? && target < l.value.expiresAt then l else None
  {
    AdvanceReplaysLog(w, target, o);
    AdvanceReaches(w, target, o);
  }

  lemma SameAfterAdvance(w: World, v: World, amount: int, o: Options, k: Key)
    requires Project(w, k) == Project(v, k) && 0 <= amount
    ensures Project(AdvanceWorld(w, w.clk.now + amount, o), k) == Project(AdvanceWorld(v, v.clk.now + amount, o), k)
  {
    hide AdvanceWorld, AdvanceLocally, CoreOf, L.InForce;
    var target := w.clk.now + amount;
    CoreAfterAdvance(w, target, o, k);
    CoreAfterAdvance(v, target, o, k);
    LeaseAfterAdvance(w, target, o, k);
    LeaseAfterAdvance(v, target, o, k);
    AdvanceReaches(w, target, o);
    AdvanceReaches(v, target, o);
  }

  // ---- lease keys ----

  /** Machine ids hold no slash, so distinct machines never share a lease key. */
  lemma LeaseKeysAreDistinct(a: Key, b: Key)
    requires NoSlash(a.id) && NoSlash(b.id) && LeaseKey(a) == LeaseKey(b)
    ensures a == b
  {
    var s := LeaseKey(a);
    var p, q := |a.app|, |b.app|;
    assert s[p] == '/' && s[q] == '/';
    assert s[p + 1..] == a.id && s[q + 1..] == b.id;
    assert s[..p] == a.app && s[..q] == b.app;
  }

  lemma SameAppKeys(app: string, a: string, b: string)
    requires LeaseKey(Key(app, a)) == LeaseKey(Key(app, b))
    ensures a == b
  {
    var s := LeaseKey(Key(app, a));
    assert s[|app| + 1..] == a && s[|app| + 1..] == b;
  }

  // ---- requests ----

  /** The requests one machine's client notices. */
  predicate Concerns(r: Request, k: Key) {
    Subject(r) == Some(k) || (r.CreateApp? && r.app == k.app) || (r.DeleteApp? && r.app == k.app)
  }

  lemma LookupAlike(w: World, v: World, k: Key)
    requires CoreOf(w, k) == CoreOf(v, k)
    ensures Lookup(w.apps, k) == Lookup(v.apps, k)
  {
  }

  lemma LeaseExecAlike(m: L.Table, n: L.Table, op: L.Op, now: int)
    requires L.InForce(m, op.key, now) == L.InForce(n, op.key, now)
    ensures L.Exec(m, op, now).reply == L.Exec(n, op, now).reply
    ensures L.InForce(L.Exec(m, op, now).table, op.key, now) == L.InForce(L.Exec(n, op, now).table, op.key, now)
  {
  }

  lemma LeaseExecElsewhere(m: L.Table, op: L.Op, now: int, key: string)
    requires key != op.key || op.Check?
    ensures L.InForce(L.Exec(m, op, now).table, key, now) == L.InForce(m, key, now)
  {
  }

  /** The lease gate is invisible: it only drops what is no longer in force. */
  lemma GateIsInvisible(w: World, x: Key, nonce: string, k: Key)
    ensures Project(AfterCheck(w, x, nonce), k) == Project(w, k)
  {
    LeaseExecElsewhere(w.leases, L.Check(LeaseKey(x), nonce), w.clk.now, LeaseKey(k));
  }

  /** Mutating k twice and registering at most one callback aimed at it. */
  function Changed(w: World, k: Key, f: Mutation, g: Mutation, reg: Option<Registration>): World {
    w.(apps := Update(Update(w.apps, k, f), k, g),
       clk := if reg.Some? then Register(w.clk, reg.value.delay, reg.value.fn) else w.clk)
  }

  lemma ProjectChanged(w: World, x: Key, f: Mutation, g: Mutation, reg: Option<Registration>, k: Key)
    requires reg.Some? ==> reg.value.fn.key == x
    ensures
      var p, p' := Project(w, k), Project(Changed(w, x, f, g, reg), k);
      if x != k then p' == p
      else
        var m, booked := p.core.machine,
          if reg.Some? then [Timer(w.clk.now + reg.value.delay, reg.value.fn, false, false)] else [];
        p' == p.(core := Core(p.core.there, if m.Some? then Some(Mutate(Mutate(m.value, f), g)) else None,
                              p.core.mine + booked))
  {
    LookupUpdate(w.apps, x, f);
    LookupUpdate(Update(w.apps, x, f), x, g);
    if reg.Some? {
      MineOfAppend(w.clk.timers, Timer(w.clk.now + reg.value.delay, reg.value.fn, false, false), k);
    }
  }

  /** Every accepted request about an existing machine is one such change, after the lease step. */
  lemma AcceptedIsChange(w0: World, r: Request, o: Options)
    requires r.UpdateMachine? || r.DeleteMachine? || r.Act? || r.SetCordon?
    ensures
      var k, out := Subject(r).value, Handle(w0, r, o);
      var w := AfterCheck(w0, k, r.nonce);
      if RejectedByLease(w0, k, r.nonce) then out == Outcome(w, Leased)
      else if !r.DeleteMachine? && RejectedAsTerminal(w, k) then
        out == Outcome(w, Terminal(Lookup(w.apps, k).value.state))
      else if !Lookup(w.apps, k).Ok? then out == Outcome(w, Missing(Lookup(w.apps, k).error))
      else
        var leases' := if r.DeleteMachine? then w.leases - {LeaseKey(k)} else w.leases;
        out.w == Changed(w, k, First(r, w.clk.now), Touch(w.clk.now), Booking(r, o)).(leases := leases')
        && out.resp == Answer(r, Lookup(w.apps, k).value, w.clk.now)
  {
    var k := Subject(r).value;
    var w := AfterCheck(w0, k, r.nonce);
    if r.UpdateMachine? && Lookup(w.apps, k).Ok? {
      ChurnIsTouched(w.apps, k, First(r, w.clk.now));
    }
  }

  function First(r: Request, now: int): Mutation
    requires r.UpdateMachine? || r.DeleteMachine? || r.Act? || r.SetCordon?
  {
    match r
    case UpdateMachine(_, _, config, name, instance) => Churn(config, name, instance, now)
    case DeleteMachine(_, _) => Enter(Destroying)
    case Act(_, _, a) => Enter(Entering(a))
    case SetCordon(_, _, b) => Cordon(b)
  }

  function Answer(r: Request, m: Machine, now: int): Response
    requires r.UpdateMachine? || r.DeleteMachine? || r.Act? || r.SetCordon?
  {
    match r
    case UpdateMachine(_, _, _, _, _) => MachineIs(Cloned(Mutate(m, First(r, now))))
    case DeleteMachine(_, _) => Accepted
    case Act(_, _, _) => PreviousState(m.state)
    case SetCordon(_, _, _) => Accepted
  }

  lemma GatedAlike(w: World, v: World, r: Request, o: Options, k: Key)
    requires Project(w, k) == Project(v, k) && Subject(r) == Some(k)
    requires r.UpdateMachine? || r.DeleteMachine? || r.Act? || r.SetCordon?
    ensures Handle(w, r, o).resp == Handle(v, r, o).resp
    ensures Project(Handle(w, r, o).w, k) == Project(Handle(v, r, o).w, k)
  {
    hide Handle, Mine, Changed, L.Exec, Booking, Mutate, First;
    var w1, v1 := AfterCheck(w, k, r.nonce), AfterCheck(v, k, r.nonce);
    AcceptedIsChange(w, r, o);
    AcceptedIsChange(v, r, o);
    GateIsInvisible(w, k, r.nonce, k);
    GateIsInvisible(v, k, r.nonce, k);
    LeaseExecAlike(w.leases, v.leases, L.Check(LeaseKey(k), r.nonce), w.clk.now);
    LookupAlike(w1, v1, k);
    ProjectChanged(w1, k, First(r, w.clk.now), Touch(w.clk.now), Booking(r, o), k);
    ProjectChanged(v1, k, First(r, w.clk.now), Touch(w.clk.now), Booking(r, o), k);
  }

  lemma GatedElsewhere(s: Sys, r: Request, o: Options, k: Key)
    requires Good(s) && NoSlash(k.id) && Subject(r) != Some(k)
    requires r.UpdateMachine? || r.DeleteMachine? || r.Act? || r.SetCordon?
    ensures Project(Handle(s.w, r, o).w, k) == Project(s.w, k)
  {
    var w, x := s.w, Subject(r).value;
    var w1 := AfterCheck(w, x, r.nonce);
    AcceptedIsChange(w, r, o);
    GateIsInvisible(w, x, r.nonce, k);
    ProjectChanged(w1, x, First(r, w.clk.now), Touch(w.clk.now), Booking(r, o), k);
    if r.DeleteMachine? && Lookup(w.apps, x).Ok? {
      assert MachineOK(x, Lookup(w.apps, x).value, s.used);
      if LeaseKey(x) == LeaseKey(k) {
        LeaseKeysAreDistinct(x, k);
      }
    }
  }

  predicate AboutMetadata(r: Request) { r.SetMetadata? || r.DeleteMetadata? }

  function MetadataMutation(r: Request): Mutation
    requires AboutMetadata(r)
  {
    if r.SetMetadata? then PutMetadata(r.key, r.value) else DropMetadata(r.key)
  }

  lemma MetadataAlike(w: World, v: World, r: Request, o: Options, k: Key)
    requires Project(w, k) == Project(v, k) && Subject(r) == Some(k) && AboutMetadata(r)
    ensures Handle(w, r, o).resp == Handle(v, r, o).resp
    ensures Project(Handle(w, r, o).w, k) == Project(Handle(v, r, o).w, k)
  {
    LookupAlike(w, v, k);
    ProjectChanged(w, k, MetadataMutation(r), Touch(w.clk.now), None, k);
    ProjectChanged(v, k, MetadataMutation(r), Touch(w.clk.now), None, k);
  }

  predicate AboutLease(r: Request) { r.GetLease? || r.AcquireLease? || r.ReleaseLease? }

  function LeaseOpOf(r: Request, o: Options): L.Op
    requires AboutLease(r)
  {
    match r
    case GetLease(k) => L.Get(LeaseKey(k))
    case AcquireLease(_, _, _, _, _) => LeaseOp(r, o)
    case ReleaseLease(k, nonce) => L.Release(LeaseKey(k), nonce)
  }

  lemma LeaseAlike(w: World, v: World, r: Request, o: Options, k: Key)
    requires Project(w, k) == Project(v, k) && Subject(r) == Some(k) && AboutLease(r)
    ensures Handle(w, r, o).resp == Handle(v, r, o).resp
    ensures Project(Handle(w, r, o).w, k) == Project(Handle(v, r, o).w, k)
  {
    LookupAlike(w, v, k);
    LeaseExecAlike(w.leases, v.leases, LeaseOpOf(r, o), w.clk.now);
  }

  lemma LeaseElsewhere(s: Sys, r: Request, o: Options, k: Key)
    requires Good(s) && NoSlash(k.id) && Subject(r) != Some(k) && AboutLease(r)
    ensures Project(Handle(s.w, r, o).w, k) == Project(s.w, k)
  {
    var x := Subject(r).value;
    if Lookup(s.w.apps, x).Ok? {
      assert MachineOK(x, Lookup(s.w.apps, x).value, s.used);
      if LeaseKey(x) == LeaseKey(k) {
        LeaseKeysAreDistinct(x, k);
      }
      LeaseExecElsewhere(s.w.leases, LeaseOpOf(r, o), s.w.clk.now, LeaseKey(k));
    }
  }

  lemma ProjectCreated(w: World, r: Request, o: Options, k: Key)
    requires r.CreateMachine? && Subject(r) == Some(k) && k.app in w.apps
    ensures
      var m := Cloned(NewMachine(r.name, r.region, r.config, r.skipLaunch, r.id, r.instance, w.clk.now));
      var t := Timer(w.clk.now + o.delays.create, BootFirst(k), false, false);
      && Handle(w, r, o).resp == MachineIs(m)
      && Project(Handle(w, r, o).w, k) ==
           Project(w, k).(core := Core(true, Some(m), Mine(w.clk.timers, k) + if r.skipLaunch then [] else [t]))
  {
    hide Cloned, Mine, L.InForce;
    var m := Cloned(NewMachine(r.name, r.region, r.config, r.skipLaunch, r.id, r.instance, w.clk.now));
    LookupPut(w.apps, k, m);
    MineOfAppend(w.clk.timers, Timer(w.clk.now + o.delays.create, BootFirst(k), false, false), k);
  }

  lemma CreateMachineAlike(w: World, v: World, r: Request, o: Options, k: Key)
    requires Project(w, k) == Project(v, k) && r.CreateMachine? && Subject(r) == Some(k)
    ensures Handle(w, r, o).resp == Handle(v, r, o).resp
    ensures Project(Handle(w, r, o).w, k) == Project(Handle(v, r, o).w, k)
  {
    if k.app in w.apps {
      ProjectCreated(w, r, o, k);
      ProjectCreated(v, r, o, k);
    }
  }

  lemma CreateMachineElsewhere(w: World, r: Request, o: Options, k: Key)
    requires r.CreateMachine? && Subject(r) != Some(k)
    ensures Project(Handle(w, r, o).w, k) == Project(w, k)
  {
    if r.app in w.apps {
      var x := Key(r.app, r.id);
      LookupPut(w.apps, x, Cloned(NewMachine(r.name, r.region, r.config, r.skipLaunch, r.id, r.instance, w.clk.now)));
      MineOfAppend(w.clk.timers, Timer(w.clk.now + o.delays.create, BootFirst(x), false, false), k);
    }
  }

  lemma AppAlike(w: World, v: World, r: Request, o: Options, k: Key)
    requires Project(w, k) == Project(v, k) && (r.CreateApp? || r.DeleteApp?) && r.app == k.app
    ensures Handle(w, r, o).resp == Handle(v, r, o).resp
    ensures Project(Handle(w, r, o).w, k) == Project(Handle(v, r, o).w, k)
  {
    LookupAlike(w, v, k);
    if r.DeleteApp? && k.app in w.apps {
      ClearedOnDelete(w, k);
      ClearedOnDelete(v, k);
    }
  }

  /** Deleting k's app clears k's lease exactly if k exists. */
  lemma ClearedOnDelete(w: World, k: Key)
    requires k.app in w.apps
    ensures
      L.InForce(HandleDeleteApp(w, k.app).w.leases, LeaseKey(k), w.clk.now) ==
      if Lookup(w.apps, k).Ok? then None else L.InForce(w.leases, LeaseKey(k), w.clk.now)
  {
    var ids := w.apps[k.app].machines.Keys;
    var cleared := set id | id in w.apps[k.app].machines :: LeaseKey(Key(k.app, id));
    if LeaseKey(k) in cleared {
      var id :| id in ids && LeaseKey(Key(k.app, id)) == LeaseKey(k);
      SameAppKeys(k.app, id, k.id);
    }
  }

  lemma AppElsewhere(s: Sys, r: Request, o: Options, k: Key)
    requires Good(s) && NoSlash(k.id) && (r.CreateApp? || r.DeleteApp?) && r.app != k.app
    ensures Project(Handle(s.w, r, o).w, k) == Project(s.w, k)
  {
    if r.DeleteApp? && r.app in s.w.apps {
      var cleared := set id | id in s.w.apps[r.app].machines :: LeaseKey(Key(r.app, id));
      if LeaseKey(k) in cleared {
        var id :| id in s.w.apps[r.app].machines && LeaseKey(Key(r.app, id)) == LeaseKey(k);
        assert Lookup(s.w.apps, Key(r.app, id)).Ok?;
        assert MachineOK(Key(r.app, id), Lookup(s.w.apps, Key(r.app, id)).value, s.used);
        LeaseKeysAreDistinct(Key(r.app, id), k);
      }
    }
  }

  /** A request that concerns k gets the same answer, and has the same effect, in any two worlds alike for k. */
  lemma SameAfterConcern(w: World, v: World, r: Request, o: Options, k: Key)
    requires Project(w, k) == Project(v, k) && Concerns(r, k)
    ensures Handle(w, r, o).resp == Handle(v, r, o).resp
    ensures Project(Handle(w, r, o).w, k) == Project(Handle(v, r, o).w, k)
  {
    if r.CreateApp? || r.DeleteApp? {
      AppAlike(w, v, r, o, k);
    } else if r.CreateMachine? {
      CreateMachineAlike(w, v, r, o, k);
    } else if AboutMetadata(r) {
      MetadataAlike(w, v, r, o, k);
    } else if AboutLease(r) {
      LeaseAlike(w, v, r, o, k);
    } else {
      GatedAlike(w, v, r, o, k);
    }
  }

  /** A request that does not concern k changes nothing k's client can see. */
  lemma UnconcernedIsInvisible(s: Sys, r: Request, o: Options, k: Key)
    requires Good(s) && NoSlash(k.id) && !Concerns(r, k)
    ensures Project(Handle(s.w, r, o).w, k) == Project(s.w, k)
  {
    if r.CreateApp? || r.DeleteApp? {
      AppElsewhere(s, r, o, k);
    } else if r.CreateMachine? {
      CreateMachineElsewhere(s.w, r, o, k);
    } else if AboutMetadata(r) {
      ProjectChanged(s.w, Subject(r).value, MetadataMutation(r), Touch(s.w.clk.now), None, k);
    } else if AboutLease(r) {
      LeaseElsewhere(s, r, o, k);
    } else {
      GatedElsewhere(s, r, o, k);
    }
  }

  // ---- firings ----

  /** The index, in the whole list, of the timer of a given rank in k's share. */
  function IndexOfMine(ts: seq<Timer>, k: Key, rank: nat): (i: nat)
    requires rank < |Mine(ts, k)|
    ensures i < |ts| && ts[i] == Mine(ts, k)[rank] && ts[i].Live() && ts[i].fn.key == k
    ensures |Mine(ts[..i], k)| == rank
  {
    var n := |ts| - 1;
    if rank < |Mine(ts[..n], k)| then
      var i := IndexOfMine(ts[..n], k, rank);
      assert ts[..n][..i] == ts[..i];
      i
    else n
  }

  /** The lease part of a projection, once the clock has moved on. */
  function StillHeld(l: Option<L.Lease>, now: int): Option<L.Lease> {
    if l.Some? && now < l.value.expiresAt then l else None
  }

  lemma ProjectAfterTick(w: World, to: int, k: Key)
    requires w.clk.now <= to
    ensures
      var p := Project(w, k);
      Project(w.(clk := w.clk.(now := to)), k) == Local(to, p.core, StillHeld(p.lease, to))
  {
  }

  lemma ProjectAfterFire(w: World, i: nat, at: int, o: Options, k: Key)
    requires i < |w.clk.timers| && w.clk.timers[i].Live() && w.clk.now <= at
    ensures
      var p, rank := Project(w, k), |Mine(w.clk.timers[..i], k)|;
      var p' := Project(FireAt(w, i, at, o), k);
      if w.clk.timers[i].fn.key != k then p' == Local(at, p.core, StillHeld(p.lease, at))
      else rank < |p.core.mine| && p' == Local(at, FireLocally(p.core, rank, at, o.delays), StillHeld(p.lease, at))
  {
    hide Mine;
    CoreAfterFire(w, i, at, o, k);
    FireShape(w.clk, i, at, o.delays);
  }

  // ---- runs ----

  /**
   What a step is to k's client, next to a world in which only k is served: its requests and the passage of time
   are what they are, a callback of k's is the one of equal rank among its own, and the rest is at most time.
   */
  function Alone(s: Sys, alone: Sys, step: Step, k: Key): seq<Step>
    requires step.FireAny? ==> step.i < |s.w.clk.timers|
  {
    match step
    case Req(r) => if Concerns(r, k) then [step] else []
    case Advance(_) => [step]
    case Tick(_) => [step]
    case FireAny(i, at) =>
      var rank := |Mine(s.w.clk.timers[..i], k)|;
      if s.w.clk.timers[i].fn.key == k && rank < |Mine(alone.w.clk.timers, k)|
      then [FireAny(IndexOfMine(alone.w.clk.timers, k, rank), at)]
      else [Tick(at)]
  }

  /** Where a lone step, if there is one and it may be taken, leads. */
  function AfterAlone(alone: Sys, lone: seq<Step>, o: Options): Sys {
    if lone != [] && Enabled(alone, lone[0]) then Exec(alone, lone[0], o) else alone
  }

  /** The run of k alone that a run shows k's client. */
  function RunAlone(s: Sys, alone: Sys, steps: seq<Step>, o: Options, k: Key): seq<Step>
    requires LegalRun(s, steps, o)
    decreases steps
  {
    if steps == [] then []
    else
      var lone := Alone(s, alone, steps[0], k);
      lone + RunAlone(Exec(s, steps[0], o), AfterAlone(alone, lone, o), steps[1..], o, k)
  }

  /** The answers to the requests that concern k. */
  function Answers(s: Sys, steps: seq<Step>, o: Options, k: Key): seq<Response>
    requires LegalRun(s, steps, o)
    decreases steps
  {
    if steps == [] then [] else AnswerTo(s, steps[0], o, k) + Answers(Exec(s, steps[0], o), steps[1..], o, k)
  }

  function AnswerTo(s: Sys, step: Step, o: Options, k: Key): seq<Response> {
    if step.Req? && Concerns(step.r, k) then [Handle(s.w, step.r, o).resp] else []
  }

  /** One step and its lone counterpart are alike to k's client. */
  lemma StepAlone(s: Sys, alone: Sys, step: Step, o: Options, k: Key)
    requires Good(s) && NoSlash(k.id) && Enabled(s, step)
    requires Project(s.w, k) == Project(alone.w, k) && alone.used <= s.used
    ensures
      var lone := Alone(s, alone, step, k);
      var s', alone' := Exec(s, step, o), AfterAlone(alone, lone, o);
      && (lone == [] || (|lone| == 1 && Enabled(alone, lone[0])))
      && Project(s'.w, k) == Project(alone'.w, k) && alone'.used <= s'.used
      && AnswerTo(s, step, o, k) == if lone == [] then [] else AnswerTo(alone, lone[0], o, k)
  {
    hide Handle, AdvanceWorld, FireAt, Good, Concerns, NoSlash, CoreOf, Mine;
    match step {
      case Req(r) =>
        if Concerns(r, k) {
          SameAfterConcern(s.w, alone.w, r, o, k);
        } else {
          UnconcernedIsInvisible(s, r, o, k);
        }
      case Advance(amount) => SameAfterAdvance(s.w, alone.w, amount, o, k);
      case Tick(to) =>
        ProjectAfterTick(s.w, to, k);
        ProjectAfterTick(alone.w, to, k);
      case FireAny(i, at) =>
        ProjectAfterFire(s.w, i, at, o, k);
        if s.w.clk.timers[i].fn.key == k {
          MineIsAlike(s.w, alone.w, k);
          ProjectAfterFire(alone.w, IndexOfMine(alone.w.clk.timers, k, |Mine(s.w.clk.timers[..i], k)|), at, o, k);
        } else {
          ProjectAfterTick(alone.w, at, k);
        }
    }
  }

  lemma MineIsAlike(w: World, v: World, k: Key)
    requires Project(w, k) == Project(v, k)
    ensures Mine(w.clk.timers, k) == Mine(v.clk.timers, k) == Project(w, k).core.mine
  {
  }

  /**
   Any run, in any firing order, seen by one machine's client, is a run of that machine alone: same final machine,
   version history, lease and pending callbacks, and the same answer to every request.
   */
  lemma {:induction false} NonInterference(s: Sys, alone: Sys, steps: seq<Step>, o: Options, k: Key)
    requires Good(s) && NoSlash(k.id) && LegalRun(s, steps, o)
    requires Project(s.w, k) == Project(alone.w, k) && alone.used <= s.used
    ensures LegalRun(alone, RunAlone(s, alone, steps, o, k), o)
    ensures Project(Run(s, steps, o).w, k) == Project(Run(alone, RunAlone(s, alone, steps, o, k), o).w, k)
    ensures Answers(s, steps, o, k) == Answers(alone, RunAlone(s, alone, steps, o, k), o, k)
    decreases steps
  {
    hide Exec, Project, Good, NoSlash, Alone, AnswerTo;
    if steps != [] {
      var lone := Alone(s, alone, steps[0], k);
      var s', alone' := Exec(s, steps[0], o), AfterAlone(alone, lone, o);
      var rest := RunAlone(s', alone', steps[1..], o, k);
      StepAlone(s, alone, steps[0], o, k);
      GoodAfterStep(s, steps[0], o);
      NonInterference(s', alone', steps[1..], o, k);
      if lone == [] {
        assert lone + rest == rest;
        assert [] + Answers(s', steps[1..], o, k) == Answers(s', steps[1..], o, k);
      } else {
        assert (lone + rest)[0] == lone[0] && (lone + rest)[1..] == rest;
      }
    }
  }

  predicate Kept(step: Step, k: Key) {
    step.Advance? || (step.Req? && Concerns(step.r, k))
  }

  /** The part of a run on the fake clock that concerns k: its requests and the passage of time. */
  function Filter(steps: seq<Step>, k: Key): seq<Step>
    decreases steps
  {
    if steps == [] then []
    else (if Kept(steps[0], k) then [steps[0]] else []) + Filter(steps[1..], k)
  }

  lemma {:induction false} RunAloneOnFakeClock(s: Sys, alone: Sys, steps: seq<Step>, o: Options, k: Key)
    requires LegalRun(s, steps, o) && OnFakeClock(steps)
    ensures RunAlone(s, alone, steps, o, k) == Filter(steps, k)
    decreases steps
  {
    hide Exec, Enabled, Concerns;
    if steps != [] {
      assert steps[0].Req? || steps[0].Advance?;
      assert forall n :: 0 <= n < |steps[1..]| ==> steps[1..][n] == steps[n + 1];
      RunAloneOnFakeClock(Exec(s, steps[0], o), AfterAlone(alone, Alone(s, alone, steps[0], k), o), steps[1..], o, k);
    }
  }

  /** On the fake clock the run of the machine alone is what is left when the requests about others are dropped. */
  lemma NonInterferenceOnFakeClock(s: Sys, alone: Sys, steps: seq<Step>, o: Options, k: Key)
    requires Good(s) && NoSlash(k.id) && LegalRun(s, steps, o) && OnFakeClock(steps)
    requires Project(s.w, k) == Project(alone.w, k) && alone.used <= s.used
    ensures LegalRun(alone, Filter(steps, k), o)
    ensures Project(Run(s, steps, o).w, k) == Project(Run(alone, Filter(steps, k), o).w, k)
    ensures Answers(s, steps, o, k) == Answers(alone, Filter(steps, k), o, k)
  {
    hide LegalRun, Run, Project, Answers, Good;
    RunAloneOnFakeClock(s, alone, steps, o, k);
    NonInterference(s, alone, steps, o, k);
  }
}
