/** On the fake clock everything settles within a fixed horizon of the last request. */
module Quiescence {
  import opened Flaps
  import opened Callbacks
  import opened EventQueue
  import opened Emulator
  import opened Runs
  import opened Invariants
  import opened Safety
  import opened Destruction

  function Max(a: int, b: int): int { if a < b then b else a }

  /** The longest time a request can keep anything pending. */
  function Horizon(d: Delays): (h: int)
    ensures d.create + d.start <= h && d.stop <= h && d.restart <= h
    ensures d.suspend <= h && d.update <= h && d.destroy <= h
    ensures h in {d.create + d.start, d.stop, d.restart, d.suspend, d.update, d.destroy}
  {
    Max(d.create + d.start, Max(d.stop, Max(d.restart, Max(d.suspend, Max(d.update, d.destroy)))))
  }

  /** When the last callback of a timer's chain is due. */
  function ChainEnd(t: Timer, d: Delays): int {
    if t.fn.BootFirst? then t.deadline + d.start else t.deadline
  }

  ghost predicate EndsBy(ts: seq<Timer>, d: Delays, limit: int) {
    forall j :: 0 <= j < |ts| && ts[j].Live() ==> ChainEnd(ts[j], d) <= limit
  }

  ghost predicate NothingLive(ts: seq<Timer>) {
    forall j :: 0 <= j < |ts| ==> !ts[j].Live()
  }

  lemma EndsByAfterFire(q: Queue, i: nat, d: Delays, limit: int)
    requires i < |q.timers| && q.timers[i].Live() && EndsBy(q.timers, d, limit)
    ensures EndsBy(FireNext(q, i, d).timers, d, limit)
  {
    FireShape(q, i, q.timers[i].deadline, d);
  }

  lemma {:induction false} EndsByAfterAdvance(q: Queue, target: int, d: Delays, limit: int)
    requires EndsBy(q.timers, d, limit)
    ensures EndsBy(AdvanceTo(q, target, d).timers, d, limit)
    decreases Weight(q.timers)
  {
    var i := Next(q.timers, target);
    if 0 <= i {
      EndsByAfterFire(q, i, d, limit);
      EndsByAfterAdvance(FireNext(q, i, d), target, d, limit);
    }
  }

  lemma {:induction false} AdvanceEmpties(q: Queue, target: int, d: Delays)
    requires EndsBy(q.timers, d, target) && 0 <= d.start
    ensures NothingLive(AdvanceTo(q, target, d).timers)
    decreases Weight(q.timers)
  {
    var i := Next(q.timers, target);
    if i < 0 {
      NextIsFirst(q.timers, target);
      forall j | 0 <= j < |q.timers|
        ensures !q.timers[j].Live()
      {
        assert !Due(q.timers[j], target);
      }
    } else {
      EndsByAfterFire(q, i, d, target);
      AdvanceEmpties(FireNext(q, i, d), target, d);
    }
  }

  lemma RequestEndsBy(w: World, r: Request, o: Options)
    requires EndsBy(w.clk.timers, o.delays, w.clk.now + Horizon(o.delays)) && o.delays.NonNegative()
    ensures EndsBy(Handle(w, r, o).w.clk.timers, o.delays, w.clk.now + Horizon(o.delays))
  {
    hide Handle;
    RequestOnClock(w, r, o);
  }

  /** Over any run of the fake clock, nothing pending outlives the horizon. */
  lemma {:induction false} PendingWithinHorizon(s: Sys, steps: seq<Step>, o: Options)
    requires LegalRun(s, steps, o) && OnFakeClock(steps) && o.delays.NonNegative()
    requires EndsBy(s.w.clk.timers, o.delays, s.w.clk.now + Horizon(o.delays))
    ensures
      var s' := Run(s, steps, o);
      EndsBy(s'.w.clk.timers, o.delays, s'.w.clk.now + Horizon(o.delays))
    decreases steps
  {
    if steps != [] {
      var step, rest := steps[0], steps[1..];
      assert step.Req? || step.Advance?;
      assert forall n :: 0 <= n < |rest| ==> rest[n] == steps[n + 1];
      if step.Req? {
        RequestEndsBy(s.w, step.r, o);
        RequestKeepsTimers(s.w, step.r, o);
      } else {
        var target := s.w.clk.now + step.amount;
        AdvanceReaches(s.w, target, o);
        AdvanceReplaysLog(s.w, target, o);
        EndsByAfterAdvance(s.w.clk, target, o.delays, s.w.clk.now + Horizon(o.delays));
      }
      PendingWithinHorizon(Exec(s, step, o), rest, o);
    }
  }

  /** A good state with nothing live is at rest everywhere. */
  lemma NothingLiveMeansRest(s: Sys, k: Key)
    requires Good(s) && NothingLive(s.w.clk.timers) && Lookup(s.w.apps, k).Ok?
    ensures Resting(Lookup(s.w.apps, k).value.state)
  {
    assert MachineOK(k, Lookup(s.w.apps, k).value, s.used);
    assert Progressing(k, Lookup(s.w.apps, k).value, s.w.clk.timers);
  }

  /** Advancing by the horizon past the last request leaves no callback pending. */
  lemma EmptyAfterHorizon(s: Sys, amount: int, o: Options)
    requires ReachableOnFakeClock(s, o) && o.delays.NonNegative() && Horizon(o.delays) <= amount
    ensures NothingLive(Exec(s, Advance(amount), o).w.clk.timers)
  {
    hide Run, LegalRun, AdvanceWorld, AdvanceTo, Handle, Horizon;
    var now, steps :| ReachedBy(now, steps, s, o) && OnFakeClock(steps);
    PendingWithinHorizon(NewServer(now), steps, o);
    AdvanceReplaysLog(s.w, s.w.clk.now + amount, o);
    AdvanceEmpties(s.w.clk, s.w.clk.now + amount, o.delays);
  }

  /** ... and every surviving machine created, started, stopped, suspended or failed. */
  lemma SettledAfterHorizon(s: Sys, amount: int, o: Options)
    requires ReachableOnFakeClock(s, o) && o.delays.NonNegative() && Horizon(o.delays) <= amount
    ensures
      var s' := Exec(s, Advance(amount), o);
      && NothingLive(s'.w.clk.timers)
      && forall k :: Lookup(s'.w.apps, k).Ok? ==> Resting(Lookup(s'.w.apps, k).value.state)
  {
    var s' := Exec(s, Advance(amount), o);
    EmptyAfterHorizon(s, amount, o);
    assert Reachable(s, o);
    ReachableIsGood(s, o);
    GoodAfterStep(s, Advance(amount), o);
    forall k | Lookup(s'.w.apps, k).Ok?
      ensures Resting(Lookup(s'.w.apps, k).value.state)
    {
      NothingLiveMeansRest(s', k);
    }
  }
}
