/**
 The whole emulator as a value: clock, store and lease table, with one function per store mutation,
 per callback and per request handler. The classes of Machine.dfy and Server.dfy are proved against
 these functions; the theorems of the other files are about them.
 */
module Emulator {
  import opened Flaps
  import opened Callbacks
  import opened EventQueue
  import L = Leases

  // ---- the store ----

  datatype App = App(org: string, status: string, machines: map<string, Machine>)

  type Apps = map<string, App>

  datatype StoreError = AppNotFound | AppExists | MachineNotFound

  datatype Result<+T> = Ok(value: T) | Err(error: StoreError)

  function Lookup(apps: Apps, k: Key): Result<Machine> {
    if k.app !in apps then Err(AppNotFound)
    else if k.id !in apps[k.app].machines then Err(MachineNotFound)
    else Ok(apps[k.app].machines[k.id])
  }

  function Put(apps: Apps, k: Key, m: Machine): Apps
    requires k.app in apps
  {
    apps[k.app := apps[k.app].(machines := apps[k.app].machines[k.id := m])]
  }

  function Remove(apps: Apps, k: Key): Apps {
    if Lookup(apps, k).Ok? then apps[k.app := apps[k.app].(machines := apps[k.app].machines - {k.id})] else apps
  }

  // ---- cloning: copying an empty, non-nil handler list yields a nil one ----

  function ClonedPort(p: Port): Port {
    p.(handlers := if p.handlers == Some([]) then None else p.handlers)
  }

  function ClonedService(s: Service): Service {
    match s.ports
    case None => s
    case Some(ports) => s.(ports := Some(seq(|ports|, i requires 0 <= i < |ports| => ClonedPort(ports[i]))))
  }

  function ClonedConfig(c: Config): Config {
    match c.services
    case None => c
    case Some(svcs) => c.(services := Some(seq(|svcs|, i requires 0 <= i < |svcs| => ClonedService(svcs[i]))))
  }

  function Cloned(m: Machine): Machine {
    m.(config := if m.config.Some? then Some(ClonedConfig(m.config.value)) else None)
  }

  // ---- the closures passed to UpdateMachine ----

  datatype Mutation =
    | Mark(state: MachineState)
    | SettleBoot
    | Churn(config: Option<Config>, name: string, instance: string, now: int)
    | Enter(state: MachineState)
    | Cordon(cordoned: bool)
    | PutMetadata(key: string, value: string)
    | DropMetadata(key: string)
    | Touch(now: int)

  /** Overwrites the state of the last version, if there is one. */
  function MarkLast(vs: seq<Version>, s: MachineState): seq<Version> {
    if vs == [] then [] else vs[|vs| - 1 := vs[|vs| - 1].(state := s)]
  }

  function Mutate(m: Machine, f: Mutation): Machine {
    match f
    case Mark(s) => m.(state := s, versions := MarkLast(m.versions, s))
    case SettleBoot => m.(state := Verdict(m.config), versions := MarkLast(m.versions, Verdict(m.config)))
    case Churn(config, name, instance, now) =>
      m.(config := if config.Some? then config else m.config,
         name := if name != "" then name else m.name,
         instanceID := instance, state := Replacing,
         versions := MarkLast(m.versions, Replaced) + [Version(instance, Replacing)],
         updatedAt := now)
    case Enter(s) => m.(state := s)
    case Cordon(b) => m.(cordoned := b)
    case PutMetadata(key, value) =>
      var c := if m.config.Some? then m.config.value else EMPTY_CONFIG;
      var md := if c.metadata.Some? then c.metadata.value else map[];
      m.(config := Some(c.(metadata := Some(md[key := value]))))
    case DropMetadata(key) =>
      if m.config.Some? && m.config.value.metadata.Some?
      then m.(config := Some(m.config.value.(metadata := Some(m.config.value.metadata.value - {key})))) else m
    case Touch(now) => m.(updatedAt := now)
  }

  function Update(apps: Apps, k: Key, f: Mutation): Apps {
    match Lookup(apps, k)
    case Err(_) => apps
    case Ok(m) => Put(apps, k, Mutate(m, f))
  }

  // ---- the advancer ----

  function RunCallback(apps: Apps, fn: Callback): Apps {
    match fn
    case BootFirst(k) => Update(apps, k, Mark(Starting))
    case BootSettle(k) => Update(apps, k, SettleBoot)
    case StopEnd(k) => Update(apps, k, Mark(Stopped))
    case SuspendEnd(k) => Update(apps, k, Mark(Suspended))
    case Reap(k) => Remove(apps, k)
  }

  /** The machine operations a client requests besides create, update and delete. */
  datatype Action = Start | Stop | Restart | Suspend

  function Entering(a: Action): MachineState {
    match a
    case Start => Starting
    case Stop => Stopping
    case Restart => Restarting
    case Suspend => Suspending
  }

  function Ending(a: Action, k: Key, d: Delays): Registration {
    match a
    case Start => Registration(d.start, BootSettle(k))
    case Stop => Registration(d.stop, StopEnd(k))
    case Restart => Registration(d.restart, BootSettle(k))
    case Suspend => Registration(d.suspend, SuspendEnd(k))
  }

  // ---- the server ----

  datatype Options = Options(delays: Delays, leaseTTL: int)

  const MILLISECOND: int := 1_000_000

  const DEFAULT_DELAYS := Delays(75 * MILLISECOND, 75 * MILLISECOND, 75 * MILLISECOND, 75 * MILLISECOND,
                                 75 * MILLISECOND, 75 * MILLISECOND, 75 * MILLISECOND)

  /** A new server's options: the zero Delays and a non-positive lease TTL stand for the defaults. */
  function WithDefaults(o: Options): Options {
    Options(if o.delays == Delays(0, 0, 0, 0, 0, 0, 0) then DEFAULT_DELAYS else o.delays,
            if o.leaseTTL <= 0 then L.DEFAULT_TTL else o.leaseTTL)
  }

  datatype World = World(clk: Queue, apps: Apps, leases: L.Table)

  datatype Request =
    | CreateApp(app: string, org: string)
    | DeleteApp(app: string)
    | CreateMachine(app: string, name: string, region: string, config: Option<Config>, skipLaunch: bool,
                    id: string, instance: string)
    | UpdateMachine(k: Key, nonce: string, config: Option<Config>, name: string, instance: string)
    | DeleteMachine(k: Key, nonce: string)
    | Act(k: Key, nonce: string, action: Action)
    | SetCordon(k: Key, nonce: string, cordoned: bool)
    | SetMetadata(k: Key, key: string, value: string)
    | DeleteMetadata(k: Key, key: string)
    | GetLease(k: Key)
    | AcquireLease(k: Key, nonce: string, ttl: int, description: string, minted: string)
    | ReleaseLease(k: Key, nonce: string)

  /** A reply; M is how its body carries a machine. */
  datatype Reply<+M> =
    | BadRequest
    | Missing(error: StoreError)
    | Conflicting(error: StoreError)
    | Leased
    | Terminal(state: MachineState)
    | AppIs(name: string, app: App)
    | MachineIs(machine: M)
    | PreviousState(state: MachineState)
    | Accepted
    | LeaseIs(nonce: string, owner: string, expiresAt: int)
    | LeaseHeld(owner: string, expiresAt: int)
    | LeaseRejected(why: L.LeaseError)

  type Response = Reply<Machine>

  datatype Outcome = Outcome(w: World, resp: Response)

  function LeaseKey(k: Key): string { k.app + "/" + k.id }

  function DefaultString(v: string, fallback: string): string {
    if v == "" then fallback else v
  }

  const PRIVATE_IP := "fdaa:0:0:a7b:0:1::"

  /** A value stored in a signed 64-bit register. */
  function Wrap64(n: int): int {
    (n + 0x8000_0000_0000_0000) % 0x1_0000_0000_0000_0000 - 0x8000_0000_0000_0000
  }

  // The gate every mutating handler passes: the lease check, which drops an expired lease it meets ...

  function AfterCheck(w: World, k: Key, nonce: string): World {
    w.(leases := L.Exec(w.leases, L.Check(LeaseKey(k), nonce), w.clk.now).table)
  }

  predicate RejectedByLease(w: World, k: Key, nonce: string) {
    L.Exec(w.leases, L.Check(LeaseKey(k), nonce), w.clk.now).reply == L.Rejected(L.Conflict)
  }

  // ... and the terminal check.

  predicate RejectedAsTerminal(w: World, k: Key) {
    var found := Lookup(w.apps, k);
    found.Ok? && (found.value.state == Destroying || found.value.state == Destroyed)
  }

  function Touched(w: World, k: Key): World {
    w.(apps := Update(w.apps, k, Touch(w.clk.now)))
  }

  function HandleCreateApp(w: World, app: string, org: string): Outcome {
    if app == "" || org == "" then Outcome(w, BadRequest)
    else if app in w.apps then Outcome(w, Conflicting(AppExists))
    else
      var entry := App(org, "deployed", map[]);
      Outcome(w.(apps := w.apps[app := entry]), AppIs(app, entry))
  }

  function HandleDeleteApp(w: World, app: string): Outcome {
    if app !in w.apps then Outcome(w, Missing(AppNotFound))
    else
      var cleared := set id | id in w.apps[app].machines :: LeaseKey(Key(app, id));
      Outcome(w.(leases := w.leases - cleared, apps := w.apps - {app}), Accepted)
  }

  function NewMachine(name: string, region: string, config: Option<Config>, skipLaunch: bool,
                      id: string, instance: string, now: int): Machine {
    var s := if skipLaunch then Created else Creating;
    Machine(id, if name == "" then "machine-" + id else name, s, DefaultString(region, "local"), instance,
            PRIVATE_IP, config, None, now, now, [Version(instance, s)], false)
  }

  function HandleCreateMachine(w: World, r: Request, o: Options): Outcome
    requires r.CreateMachine?
  {
    if r.app !in w.apps then Outcome(w, Missing(AppNotFound))
    else
      var k := Key(r.app, r.id);
      var m := Cloned(NewMachine(r.name, r.region, r.config, r.skipLaunch, r.id, r.instance, w.clk.now));
      var w' := w.(apps := Put(w.apps, k, m));
      Outcome(if r.skipLaunch then w' else w'.(clk := Register(w'.clk, o.delays.create, BootFirst(k))), MachineIs(m))
  }

  function HandleUpdateMachine(w0: World, r: Request, o: Options): Outcome
    requires r.UpdateMachine?
  {
    var w := AfterCheck(w0, r.k, r.nonce);
    if RejectedByLease(w0, r.k, r.nonce) then Outcome(w, Leased)
    else if RejectedAsTerminal(w, r.k) then Outcome(w, Terminal(Lookup(w.apps, r.k).value.state))
    else
      match Lookup(w.apps, r.k)
      case Err(e) => Outcome(w, Missing(e))
      case Ok(m) =>
        var m' := Mutate(m, Churn(r.config, r.name, r.instance, w.clk.now));
        Outcome(w.(apps := Put(w.apps, r.k, m'), clk := Register(w.clk, o.delays.update, BootSettle(r.k))),
                MachineIs(Cloned(m')))
  }

  function HandleDeleteMachine(w0: World, k: Key, nonce: string, o: Options): Outcome {
    var w := AfterCheck(w0, k, nonce);
    if RejectedByLease(w0, k, nonce) then Outcome(w, Leased)
    else
      match Lookup(w.apps, k)
      case Err(e) => Outcome(w, Missing(e))
      case Ok(_) =>
        var w1 := w.(apps := Update(w.apps, k, Enter(Destroying)),
                     leases := L.Exec(w.leases, L.Clear(LeaseKey(k)), w.clk.now).table);
        var w2 := Touched(w1, k);
        Outcome(w2.(clk := Register(w2.clk, o.delays.destroy, Reap(k))), Accepted)
  }

  function HandleAct(w0: World, k: Key, nonce: string, a: Action, o: Options): Outcome {
    var w := AfterCheck(w0, k, nonce);
    if RejectedByLease(w0, k, nonce) then Outcome(w, Leased)
    else if RejectedAsTerminal(w, k) then Outcome(w, Terminal(Lookup(w.apps, k).value.state))
    else
      match Lookup(w.apps, k)
      case Err(e) => Outcome(w, Missing(e))
      case Ok(m) =>
        var w1 := Touched(w.(apps := Update(w.apps, k, Enter(Entering(a)))), k);
        var r := Ending(a, k, o.delays);
        Outcome(w1.(clk := Register(w1.clk, r.delay, r.fn)), PreviousState(m.state))
  }

  function HandleSetCordon(w0: World, k: Key, nonce: string, cordoned: bool): Outcome {
    var w := AfterCheck(w0, k, nonce);
    if RejectedByLease(w0, k, nonce) then Outcome(w, Leased)
    else if RejectedAsTerminal(w, k) then Outcome(w, Terminal(Lookup(w.apps, k).value.state))
    else
      match Lookup(w.apps, k)
      case Err(e) => Outcome(w, Missing(e))
      case Ok(_) => Outcome(Touched(w.(apps := Update(w.apps, k, Cordon(cordoned))), k), Accepted)
  }

  /** The metadata endpoints: not lease-gated, and open on a machine being destroyed. */
  function HandleMetadata(w: World, k: Key, f: Mutation): Outcome {
    match Lookup(w.apps, k)
    case Err(e) => Outcome(w, Missing(e))
    case Ok(_) => Outcome(Touched(w.(apps := Update(w.apps, k, f)), k), Accepted)
  }

  /** A lease request's time to live: whole seconds, multiplied in 64-bit arithmetic. */
  function RequestedTtl(ttl: int, o: Options): int {
    if 0 < ttl then Wrap64(ttl * L.SECOND) else o.leaseTTL
  }

  /** A grant, and reading the lease, show the nonce; a refusal does not. */
  function LeaseEnvelope(r: L.Reply): Response {
    match r
    case Granted(l) => LeaseIs(l.nonce, l.owner, l.expiresAt)
    case Held(l) => LeaseHeld(l.owner, l.expiresAt)
    case Rejected(e) => LeaseRejected(e)
    case Done => Accepted
  }

  function LeaseCall(w: World, op: L.Op): Outcome {
    var r := L.Exec(w.leases, op, w.clk.now);
    Outcome(w.(leases := r.table), LeaseEnvelope(r.reply))
  }

  function HandleLease(w: World, k: Key, op: L.Op): Outcome {
    match Lookup(w.apps, k)
    case Err(e) => Outcome(w, Missing(e))
    case Ok(_) => LeaseCall(w, op)
  }

  /** A lease request that carries a nonce refreshes; one without acquires. */
  function LeaseOp(r: Request, o: Options): L.Op
    requires r.AcquireLease?
  {
    var ttl := RequestedTtl(r.ttl, o);
    if r.nonce != "" then L.Refresh(LeaseKey(r.k), r.nonce, ttl)
    else L.Acquire(LeaseKey(r.k), "mudflaps", r.description, ttl, r.minted)
  }

  function Handle(w: World, r: Request, o: Options): Outcome {
    match r
    case CreateApp(app, org) => HandleCreateApp(w, app, org)
    case DeleteApp(app) => HandleDeleteApp(w, app)
    case CreateMachine(_, _, _, _, _, _, _) => HandleCreateMachine(w, r, o)
    case UpdateMachine(_, _, _, _, _) => HandleUpdateMachine(w, r, o)
    case DeleteMachine(k, nonce) => HandleDeleteMachine(w, k, nonce, o)
    case Act(k, nonce, a) => HandleAct(w, k, nonce, a, o)
    case SetCordon(k, nonce, b) => HandleSetCordon(w, k, nonce, b)
    case SetMetadata(k, key, value) => HandleMetadata(w, k, PutMetadata(key, value))
    case DeleteMetadata(k, key) => HandleMetadata(w, k, DropMetadata(key))
    case GetLease(k) => HandleLease(w, k, L.Get(LeaseKey(k)))
    case AcquireLease(k, _, _, _, _) => HandleLease(w, k, LeaseOp(r, o))
    case ReleaseLease(k, nonce) => HandleLease(w, k, L.Release(LeaseKey(k), nonce))
  }

  // ---- time ----

  /** Fires timer i with the clock reading `at`. */
  function FireAt(w: World, i: nat, at: int, o: Options): World
    requires i < |w.clk.timers|
  {
    World(Fire(w.clk, i, at, o.delays), RunCallback(w.apps, w.clk.timers[i].fn), w.leases)
  }

  /** Fake.Advance on the whole emulator, to an absolute target. */
  function AdvanceWorld(w: World, target: int, o: Options): World
    decreases Weight(w.clk.timers)
  {
    var i := Next(w.clk.timers, target);
    if i < 0 then w.(clk := w.clk.(now := target))
    else
      FireDecreasesWeight(w.clk, i, w.clk.timers[i].deadline, o.delays);
      AdvanceWorld(FireAt(w, i, w.clk.timers[i].deadline, o), target, o)
  }

  /** What the callbacks of a firing log do to the store. */
  function RunCallbacks(apps: Apps, shots: seq<Shot>): Apps
    decreases shots
  {
    if shots == [] then apps else RunCallbacks(RunCallback(apps, shots[0].fn), shots[1..])
  }

  lemma {:induction false} RunCallbacksOfConcat(apps: Apps, s: seq<Shot>, t: seq<Shot>)
    ensures RunCallbacks(apps, s + t) == RunCallbacks(RunCallbacks(apps, s), t)
    decreases s
  {
    if s == [] {
      assert s + t == t;
    } else {
      assert (s + t)[1..] == s[1..] + t;
      RunCallbacksOfConcat(RunCallback(apps, s[0].fn), s[1..], t);
    }
  }

  /** The clock runs on its own: the store only replays its firing log. */
  lemma {:induction false} AdvanceReplaysLog(w: World, target: int, o: Options)
    ensures AdvanceWorld(w, target, o) ==
      World(AdvanceTo(w.clk, target, o.delays), RunCallbacks(w.apps, Shots(w.clk, target, o.delays)), w.leases)
    decreases Weight(w.clk.timers)
  {
    var i := Next(w.clk.timers, target);
    if 0 <= i {
      FireDecreasesWeight(w.clk, i, w.clk.timers[i].deadline, o.delays);
      var w' := FireAt(w, i, w.clk.timers[i].deadline, o);
      AdvanceReplaysLog(w', target, o);
      var s := Shot(i, w.clk.timers[i].deadline, w.clk.timers[i].fn);
      var rest := Shots(w'.clk, target, o.delays);
      assert ([s] + rest)[1..] == rest;
    }
  }

  /** Advancing in two steps is advancing once: no state depends on how time is chunked. */
  lemma AdvanceWorldComposes(w: World, t1: int, t2: int, o: Options)
    requires t1 <= t2
    ensures AdvanceWorld(AdvanceWorld(w, t1, o), t2, o) == AdvanceWorld(w, t2, o)
  {
    AdvanceReplaysLog(w, t1, o);
    AdvanceReplaysLog(AdvanceWorld(w, t1, o), t2, o);
    AdvanceReplaysLog(w, t2, o);
    AdvanceComposes(w.clk, t1, t2, o.delays);
    RunCallbacksOfConcat(w.apps, Shots(w.clk, t1, o.delays), Shots(AdvanceTo(w.clk, t1, o.delays), t2, o.delays));
  }
}
