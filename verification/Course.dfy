/**
 What a lease protects, in full: while it lasts and its nonce is not used, the machine, metadata and update time apart,
 is in any firing order what it would be if no request at all were made.
 */
module Course {
  import opened Flaps
  import opened Callbacks
  import opened EventQueue
  import opened Emulator
  import opened Runs
  import opened Invariants
  import opened Safety
  import opened Destruction
  import opened Isolation
  import opened Holder
  import LastRequest
  import L = Leases

  /** A machine without what anyone may write: its metadata and its update time. */
  function Husk(m: Machine): Machine {
    m.(config := Some(Bare(m.config)), updatedAt := 0)
  }

  function HuskOf(m: Option<Machine>): Option<Machine> {
    if m.Some? then Some(Husk(m.value)) else None
  }

  /** The machine's husk and its own pending callbacks. */
  function HuskCore(c: Core): Core {
    Core(true, HuskOf(c.machine), c.mine)
  }

  predicate AlikeButMetadata(w: World, v: World, k: Key) {
    w.clk.now == v.clk.now && HuskCore(CoreOf(w, k)) == HuskCore(CoreOf(v, k))
  }

  // ---- callbacks do not look at metadata ----

  lemma HuskAfterCallback(m: Machine, fn: Callback)
    requires !fn.Reap?
    ensures Husk(Mutate(m, Effect(fn))) == Husk(Mutate(Husk(m), Effect(fn)))
  {
    LastRequest.EmptyImageBoots();
  }

  lemma HuskAfterFire(c: Core, p: nat, at: int, d: Delays)
    requires p < |c.mine|
    ensures HuskCore(FireLocally(c, p, at, d)) == HuskCore(FireLocally(HuskCore(c), p, at, d))
  {
    hide Mutate;
    if c.machine.Some? && !c.mine[p].fn.Reap? {
      HuskAfterCallback(c.machine.value, c.mine[p].fn);
    }
  }

  lemma FireAlike(c: Core, e: Core, p: nat, at: int, d: Delays)
    requires HuskCore(c) == HuskCore(e) && p < |c.mine|
    ensures HuskCore(FireLocally(c, p, at, d)) == HuskCore(FireLocally(e, p, at, d))
  {
    HuskAfterFire(c, p, at, d);
    HuskAfterFire(e, p, at, d);
  }

  lemma {:induction false} AdvanceAlike(c: Core, e: Core, target: int, d: Delays)
    requires HuskCore(c) == HuskCore(e)
    ensures HuskCore(AdvanceLocally(c, target, d)) == HuskCore(AdvanceLocally(e, target, d))
    decreases Weight(c.mine)
  {
    hide FireLocally;
    var p := Next(c.mine, target);
    assert e.mine == c.mine;
    if 0 <= p {
      FireLocallyDecreases(c, p, c.mine[p].deadline, d);
      FireLocallyDecreases(e, p, c.mine[p].deadline, d);
      FireAlike(c, e, p, c.mine[p].deadline, d);
      AdvanceAlike(FireLocally(c, p, c.mine[p].deadline, d), FireLocally(e, p, c.mine[p].deadline, d), target, d);
    }
  }

  // ---- requests without the nonce change nothing else ----

  lemma LeftAloneIsAlike(w: World, w': World, k: Key, l: L.Lease)
    requires LeftAlone(w, w', k, l) && w'.clk.now == w.clk.now
    ensures AlikeButMetadata(w, w', k)
  {
  }

  // ---- the run with all requests dropped ----

  /** A step's counterpart in a world in which no request is made. */
  function Idle(s: Sys, idle: Sys, step: Step, k: Key): seq<Step>
    requires step.FireAny? ==> step.i < |s.w.clk.timers|
  {
    if step.Req? then [] else Alone(s, idle, step, k)
  }

  function RunIdle(s: Sys, idle: Sys, steps: seq<Step>, o: Options, k: Key): seq<Step>
    requires LegalRun(s, steps, o)
    decreases steps
  {
    if steps == [] then []
    else
      var lone := Idle(s, idle, steps[0], k);
      lone + RunIdle(Exec(s, steps[0], o), AfterAlone(idle, lone, o), steps[1..], o, k)
  }

  lemma TimeAlike(s: Sys, idle: Sys, step: Step, o: Options, k: Key)
    requires Enabled(s, step) && !step.Req? && AlikeButMetadata(s.w, idle.w, k)
    ensures
      var lone := Idle(s, idle, step, k);
      && |lone| == 1 && Enabled(idle, lone[0]) && !lone[0].Req?
      && AlikeButMetadata(Exec(s, step, o).w, Exec(idle, lone[0], o).w, k)
  {
    hide AdvanceWorld, FireAt, Mine, FireLocally, AdvanceLocally, IndexOfMine;
    match step {
      case Advance(amount) =>
        var target := s.w.clk.now + amount;
        CoreAfterAdvance(s.w, target, o, k);
        CoreAfterAdvance(idle.w, target, o, k);
        AdvanceAlike(CoreOf(s.w, k), CoreOf(idle.w, k), target, o.delays);
        AdvanceReaches(s.w, target, o);
        AdvanceReaches(idle.w, target, o);
      case Tick(to) =>
      case FireAny(i, at) => FiringAlike(s, idle, i, at, o, k);
    }
  }

  lemma FiringAlike(s: Sys, idle: Sys, i: nat, at: int, o: Options, k: Key)
    requires Enabled(s, FireAny(i, at)) && AlikeButMetadata(s.w, idle.w, k)
    ensures
      var lone := Idle(s, idle, FireAny(i, at), k);
      && |lone| == 1 && Enabled(idle, lone[0]) && !lone[0].Req?
      && AlikeButMetadata(FireAt(s.w, i, at, o), Exec(idle, lone[0], o).w, k)
  {
    hide AdvanceWorld, Mine, FireLocally;
    CoreAfterFire(s.w, i, at, o, k);
    FireShape(s.w.clk, i, at, o.delays);
    var rank := |Mine(s.w.clk.timers[..i], k)|;
    if s.w.clk.timers[i].fn.key == k {
      assert CoreOf(s.w, k).mine == CoreOf(idle.w, k).mine;
      var j := IndexOfMine(idle.w.clk.timers, k, rank);
      CoreAfterFire(idle.w, j, at, o, k);
      FireShape(idle.w.clk, j, at, o.delays);
      FireAlike(CoreOf(s.w, k), CoreOf(idle.w, k), rank, at, o.delays);
    }
  }

  /**
   Over any run without the held nonce and without app deletion, until the lease expires, in any firing order: the
   machine, apart from metadata and update time, and its pending callbacks are those of the run in which all requests
   are dropped, its callbacks firing by rank.
   */
  lemma {:induction false} OnlyPendingCallbacksMoveIt(s: Sys, idle: Sys, steps: seq<Step>, o: Options, k: Key,
                                                      l: L.Lease)
    requires Good(s) && LegalRun(s, steps, o) && k.id in s.used && NoSlash(k.id)
    requires L.InForce(s.w.leases, LeaseKey(k), s.w.clk.now) == Some(l) && WithoutHolder(steps, k, l.nonce)
    requires Run(s, steps, o).w.clk.now < l.expiresAt && AlikeButMetadata(s.w, idle.w, k)
    ensures
      var lone := RunIdle(s, idle, steps, o, k);
      && LegalRun(idle, lone, o) && (forall step :: step in lone ==> !step.Req?)
      && AlikeButMetadata(Run(s, steps, o).w, Run(idle, lone, o).w, k)
    decreases steps
  {
    hide Handle, AdvanceWorld, FireAt, Good, NoSlash, AlikeButMetadata, L.InForce, Protected, LeftAlone, Idle;
    if steps != [] {
      var step, rest := steps[0], steps[1..];
      var s' := Exec(s, step, o);
      var lone := Idle(s, idle, step, k);
      assert forall n :: 0 <= n < |rest| ==> rest[n] == steps[n + 1];
      RunMovesClockOn(s', rest, o);
      StepProtects(s, step, o, k, l);
      GoodAfterStep(s, step, o);
      assert k.id in s'.used;
      StepIdle(s, idle, step, o, k, l);
      OnlyPendingCallbacksMoveIt(s', AfterAlone(idle, lone, o), rest, o, k, l);
      var more := RunIdle(s', AfterAlone(idle, lone, o), rest, o, k);
      if lone == [] {
        assert lone + more == more;
      } else {
        assert (lone + more)[0] == lone[0] && (lone + more)[1..] == more;
      }
    }
  }

  lemma StepIdle(s: Sys, idle: Sys, step: Step, o: Options, k: Key, l: L.Lease)
    requires Good(s) && Enabled(s, step) && k.id in s.used && NoSlash(k.id)
    requires L.InForce(s.w.leases, LeaseKey(k), s.w.clk.now) == Some(l)
    requires step.Req? ==> NotFromHolder(step.r, k, l.nonce)
    requires AlikeButMetadata(s.w, idle.w, k)
    ensures
      var lone := Idle(s, idle, step, k);
      && (lone == [] || (|lone| == 1 && Enabled(idle, lone[0]) && !lone[0].Req?))
      && AlikeButMetadata(Exec(s, step, o).w, AfterAlone(idle, lone, o).w, k)
  {
    hide Handle, AdvanceWorld, FireAt, Good, NoSlash, L.InForce, LeftAlone;
    if step.Req? {
      NonHolderIsPowerless(s, step.r, o, k, l);
      RequestKeepsTimers(s.w, step.r, o);
      LeftAloneIsAlike(s.w, Handle(s.w, step.r, o).w, k, l);
    } else {
      TimeAlike(s, idle, step, o, k);
    }
  }
}
