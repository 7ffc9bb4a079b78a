/**
 Runs of the emulator. A run interleaves requests with time; time either follows the fake clock
 (Advance) or an arbitrary scheduler (Tick and FireAny: any pending callback may fire next, as with
 goroutines on the real clock). Randomness is replaced by freshness: an id or nonce is minted once.
 */
module Runs {
  import opened EventQueue
  import opened Emulator

  datatype Sys = Sys(w: World, used: set<string>)

  datatype Step =
    | Req(r: Request)
    | Advance(amount: int)
    | Tick(to: int)
    | FireAny(i: nat, at: int)

  predicate NoSlash(s: string) { '/' !in s }

  /** The ids and nonces a request mints. */
  function Minted(r: Request): set<string> {
    match r
    case CreateMachine(_, _, _, _, _, id, instance) => {id, instance}
    case UpdateMachine(_, _, _, _, instance) => {instance}
    case AcquireLease(_, _, _, _, minted) => {minted}
    case _ => {}
  }

  /** Minted ids are new, non-empty and distinct; a machine id is hexadecimal, so it holds no slash. */
  predicate FreshRequest(r: Request, used: set<string>) {
    && Minted(r) !! used
    && "" !in Minted(r)
    && (r.CreateMachine? ==> NoSlash(r.id) && r.id != r.instance)
  }

  predicate Enabled(s: Sys, step: Step) {
    match step
    case Req(r) => FreshRequest(r, s.used)
    case Advance(amount) => 0 <= amount
    case Tick(to) => s.w.clk.now <= to
    case FireAny(i, at) => i < |s.w.clk.timers| && s.w.clk.timers[i].Live() && s.w.clk.now <= at
  }

  function Exec(s: Sys, step: Step, o: Options): Sys
    requires Enabled(s, step)
  {
    match step
    case Req(r) => Sys(Handle(s.w, r, o).w, s.used + Minted(r))
    case Advance(amount) => s.(w := AdvanceWorld(s.w, s.w.clk.now + amount, o))
    case Tick(to) => s.(w := s.w.(clk := s.w.clk.(now := to)))
    case FireAny(i, at) => s.(w := FireAt(s.w, i, at, o))
  }

  predicate LegalRun(s: Sys, steps: seq<Step>, o: Options)
    decreases steps
  {
    steps == [] || (Enabled(s, steps[0]) && LegalRun(Exec(s, steps[0], o), steps[1..], o))
  }

  function Run(s: Sys, steps: seq<Step>, o: Options): Sys
    requires LegalRun(s, steps, o)
    decreases steps
  {
    if steps == [] then s else Run(Exec(s, steps[0], o), steps[1..], o)
  }

  /** A run on the fake clock. */
  predicate OnFakeClock(steps: seq<Step>) {
    forall n :: 0 <= n < |steps| ==> steps[n].Req? || steps[n].Advance?
  }

  /** A new server. */
  function NewServer(now: int): Sys { Sys(World(Queue(now, []), map[], map[]), {}) }

  ghost predicate ReachedBy(now: int, steps: seq<Step>, s: Sys, o: Options) {
    LegalRun(NewServer(now), steps, o) && s == Run(NewServer(now), steps, o)
  }

  /** Some run, under any mix of clock and scheduler, leads from a new server to this state. */
  ghost predicate Reachable(s: Sys, o: Options) {
    exists now, steps :: ReachedBy(now, steps, s, o)
  }

  /** Some run on the fake clock leads here. */
  ghost predicate ReachableOnFakeClock(s: Sys, o: Options) {
    exists now, steps :: ReachedBy(now, steps, s, o) && OnFakeClock(steps)
  }

  lemma FakeClockIsOneScheduler(s: Sys, o: Options)
    requires ReachableOnFakeClock(s, o)
    ensures Reachable(s, o)
  {
  }

  lemma {:induction false} RunOfConcat(s: Sys, a: seq<Step>, b: seq<Step>, o: Options)
    requires LegalRun(s, a, o) && LegalRun(Run(s, a, o), b, o)
    ensures LegalRun(s, a + b, o) && Run(s, a + b, o) == Run(Run(s, a, o), b, o)
    decreases a
  {
    if a == [] {
      assert a + b == b;
    } else {
      assert (a + b)[1..] == a[1..] + b;
      RunOfConcat(Exec(s, a[0], o), a[1..], b, o);
    }
  }

  /** The scheduler's choices that reproduce an advance of the fake clock. */
  function Schedule(w: World, target: int, o: Options): seq<Step>
    decreases Weight(w.clk.timers)
  {
    var i := Next(w.clk.timers, target);
    if i < 0 then [Tick(target)]
    else
      FireDecreasesWeight(w.clk, i, w.clk.timers[i].deadline, o.delays);
      [FireAny(i, w.clk.timers[i].deadline)] + Schedule(FireAt(w, i, w.clk.timers[i].deadline, o), target, o)
  }

  /** An advance of the fake clock is one schedule an arbitrary scheduler could have chosen. */
  lemma {:induction false} AdvanceIsASchedule(s: Sys, target: int, o: Options)
    requires NotOverdue(s.w.clk) && s.w.clk.now <= target && o.delays.NonNegative()
    ensures LegalRun(s, Schedule(s.w, target, o), o)
    ensures Run(s, Schedule(s.w, target, o), o) == s.(w := AdvanceWorld(s.w, target, o))
    ensures forall step :: step in Schedule(s.w, target, o) ==> step.Tick? || step.FireAny?
    decreases Weight(s.w.clk.timers)
  {
    var w := s.w;
    var i := Next(w.clk.timers, target);
    if 0 <= i {
      var at := w.clk.timers[i].deadline;
      NextIsFirst(w.clk.timers, target);
      FireDecreasesWeight(w.clk, i, at, o.delays);
      FireShape(w.clk, i, at, o.delays);
      var s' := s.(w := FireAt(w, i, at, o));
      AdvanceIsASchedule(s', target, o);
      assert ([FireAny(i, at)] + Schedule(s'.w, target, o))[1..] == Schedule(s'.w, target, o);
    } else {
      assert [Tick(target)][1..] == [];
      assert Run(s, [Tick(target)], o) == Run(Exec(s, Tick(target), o), [], o);
    }
  }
}
