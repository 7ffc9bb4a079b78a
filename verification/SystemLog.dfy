/** The firing log of the whole emulator: runs of requests and advances, not of the clock alone. */
module SystemLog {
  import opened EventQueue
  import opened Emulator
  import opened Runs
  import opened History
  import opened Destruction
  import F = FiringLog

  /** What one step on the fake clock fires. */
  function Fired(s: Sys, step: Step, o: Options): seq<Shot> {
    if step.Advance? then Shots(s.w.clk, s.w.clk.now + step.amount, o.delays) else []
  }

  /** What a run fires, in order. */
  function LogOf(s: Sys, steps: seq<Step>, o: Options): seq<Shot>
    requires LegalRun(s, steps, o)
    decreases steps
  {
    if steps == [] then [] else Fired(s, steps[0], o) + LogOf(Exec(s, steps[0], o), steps[1..], o)
  }

  lemma GoodAfterRequest(w: World, r: Request, o: Options, log: seq<Shot>)
    requires F.Good(F.Trace(w.clk, log)) && o.delays.NonNegative()
    ensures F.Good(F.Trace(Handle(w, r, o).w.clk, log))
  {
    hide Handle, F.Good;
    RequestOnClock(w, r, o);
    var b := Booking(r, o);
    if b.Some? {
      F.GoodAfterRegister(F.Trace(w.clk, log), b.value.delay, b.value.fn);
    }
  }

  lemma GoodAfterStep(s: Sys, step: Step, o: Options, log: seq<Shot>)
    requires F.Good(F.Trace(s.w.clk, log)) && o.delays.NonNegative()
    requires Enabled(s, step) && (step.Req? || step.Advance?)
    ensures F.Good(F.Trace(Exec(s, step, o).w.clk, log + Fired(s, step, o)))
  {
    hide F.Good, Handle, AdvanceWorld, Shots, AdvanceTo;
    if step.Req? {
      GoodAfterRequest(s.w, step.r, o, log);
      assert log + [] == log;
    } else {
      AdvanceReplaysLog(s.w, s.w.clk.now + step.amount, o);
      F.GoodAfterAdvance(F.Trace(s.w.clk, log), s.w.clk.now + step.amount, o.delays);
    }
  }

  /** Over any run on the fake clock, from any well-ordered past, the log stays in strict firing order. */
  lemma {:induction false} GoodAfterSystemRun(s: Sys, log: seq<Shot>, steps: seq<Step>, o: Options)
    requires F.Good(F.Trace(s.w.clk, log)) && o.delays.NonNegative()
    requires LegalRun(s, steps, o) && OnFakeClock(steps)
    ensures F.Good(F.Trace(Run(s, steps, o).w.clk, log + LogOf(s, steps, o)))
    decreases steps
  {
    hide F.Good, Exec, Enabled, Fired;
    if steps == [] {
      assert log + [] == log;
    } else {
      var s', rest, shots := Exec(s, steps[0], o), steps[1..], Fired(s, steps[0], o);
      assert forall n :: 0 <= n < |rest| ==> rest[n] == steps[n + 1];
      GoodAfterStep(s, steps[0], o, log);
      GoodAfterSystemRun(s', log + shots, rest, o);
      assert log + (shots + LogOf(s', rest, o)) == (log + shots) + LogOf(s', rest, o);
    }
  }

  /** From a new server: strictly increasing in (deadline, registration index), so nothing fires twice. */
  lemma SystemFiresInOrder(now: int, steps: seq<Step>, o: Options, m: nat, n: nat)
    requires LegalRun(NewServer(now), steps, o) && OnFakeClock(steps) && o.delays.NonNegative()
    requires m < n < |LogOf(NewServer(now), steps, o)|
    ensures
      var log := LogOf(NewServer(now), steps, o);
      F.ShotBefore(log[m], log[n]) && log[m].index != log[n].index
  {
    hide LegalRun, Run, LogOf;
    GoodAfterSystemRun(NewServer(now), [], steps, o);
    assert [] + LogOf(NewServer(now), steps, o) == LogOf(NewServer(now), steps, o);
  }

  /** On the fake clock no pending callback is ever overdue. */
  lemma NeverOverdue(s: Sys, o: Options)
    requires ReachableOnFakeClock(s, o) && o.delays.NonNegative()
    ensures NotOverdue(s.w.clk)
  {
    hide LegalRun, Run, LogOf;
    var now, steps :| ReachedBy(now, steps, s, o) && OnFakeClock(steps);
    GoodAfterSystemRun(NewServer(now), [], steps, o);
  }

  // ---- the fake clock as one scheduler among others ----

  /** A run with each advance replaced by the firings it consists of. */
  function Unrolled(s: Sys, steps: seq<Step>, o: Options): seq<Step>
    requires LegalRun(s, steps, o)
    decreases steps
  {
    if steps == [] then []
    else
      (if steps[0].Advance? then Schedule(s.w, s.w.clk.now + steps[0].amount, o) else [steps[0]])
      + Unrolled(Exec(s, steps[0], o), steps[1..], o)
  }

  /** Every run on the fake clock is, firing by firing, a run an arbitrary scheduler could have made. */
  lemma {:induction false} FakeClockRunsAreScheduled(s: Sys, log: seq<Shot>, steps: seq<Step>, o: Options)
    requires F.Good(F.Trace(s.w.clk, log)) && o.delays.NonNegative()
    requires LegalRun(s, steps, o) && OnFakeClock(steps)
    ensures LegalRun(s, Unrolled(s, steps, o), o)
    ensures Run(s, Unrolled(s, steps, o), o) == Run(s, steps, o)
    ensures forall step :: step in Unrolled(s, steps, o) ==> !step.Advance?
    decreases steps
  {
    hide Handle, AdvanceWorld, Schedule, Fired;
    if steps != [] {
      var step, rest := steps[0], steps[1..];
      var s' := Exec(s, step, o);
      assert step.Req? || step.Advance?;
      assert forall n :: 0 <= n < |rest| ==> rest[n] == steps[n + 1];
      GoodAfterStep(s, step, o, log);
      FakeClockRunsAreScheduled(s', log + Fired(s, step, o), rest, o);
      var head := if step.Advance? then Schedule(s.w, s.w.clk.now + step.amount, o) else [step];
      if step.Advance? {
        AdvanceIsASchedule(s, s.w.clk.now + step.amount, o);
      } else {
        assert [step][1..] == [];
        assert Run(s, [step], o) == Run(Exec(s, step, o), [], o);
      }
      RunOfConcat(s, head, Unrolled(s', rest, o), o);
    }
  }

  // ---- chunking ----

  function Advances(chunks: seq<nat>): seq<Step> {
    seq(|chunks|, n requires 0 <= n < |chunks| => Step.Advance(chunks[n]))
  }

  function Sum(chunks: seq<nat>): nat {
    if chunks == [] then 0 else chunks[0] + Sum(chunks[1..])
  }

  /**
   However time is cut into advances, the whole emulator ends in the same state and has fired the same
   callbacks in the same order as with one advance.
   */
  lemma {:induction false} ChunkingIsInvisible(s: Sys, chunks: seq<nat>, o: Options)
    requires chunks != []
    ensures
      var many, one := Advances(chunks), [Step.Advance(Sum(chunks))];
      && LegalRun(s, many, o) && LegalRun(s, one, o)
      && Run(s, many, o) == Run(s, one, o) && LogOf(s, many, o) == LogOf(s, one, o)
    decreases chunks
  {
    hide AdvanceWorld, Shots, AdvanceTo;
    var a, rest := chunks[0], chunks[1..];
    var many, one := Advances(chunks), [Step.Advance(Sum(chunks))];
    var s1, now := Exec(s, Step.Advance(a), o), s.w.clk.now;
    assert many[0] == Step.Advance(a) && many[1..] == Advances(rest);
    assert one[1..] == [];
    OneAdvance(s, Sum(chunks), o);
    if rest == [] {
      assert Sum(rest) == 0;
      assert many == one;
    } else {
      ChunkingIsInvisible(s1, rest, o);
      OneAdvance(s1, Sum(rest), o);
      AdvanceReplaysLog(s.w, now + a, o);
      F.AdvanceCompletes(s.w.clk, now + a, o.delays);
      AdvanceWorldComposes(s.w, now + a, now + Sum(chunks), o);
      AdvanceComposes(s.w.clk, now + a, now + Sum(chunks), o.delays);
    }
  }

  lemma OneAdvance(s: Sys, a: nat, o: Options)
    ensures
      var one := [Step.Advance(a)];
      && LegalRun(s, one, o) && Run(s, one, o) == Exec(s, one[0], o)
      && LogOf(s, one, o) == Shots(s.w.clk, s.w.clk.now + a, o.delays)
  {
    hide AdvanceWorld, Shots;
    var one := [Step.Advance(a)];
    assert one[1..] == [];
  }
}
