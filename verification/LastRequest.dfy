/**
 Which request decides where a machine ends. For any delays: the last accepted one, unless a callback still
 pending from before it ends later. With all delays equal, as they are by default: the last accepted one,
 unless a destroy or the first step of a boot is pending. Refused requests do not count.
 */
module LastRequest {
  import opened Flaps
  import opened Callbacks
  import opened EventQueue
  import opened Emulator
  import opened Runs
  import opened Invariants
  import opened Safety
  import opened History
  import opened Destruction
  import opened Quiescence
  import opened Fates
  import SystemLog

  // ---- requests that leave a machine's course alone ----

  predicate Refused(resp: Response) {
    resp.BadRequest? || resp.Missing? || resp.Conflicting? || resp.Leased? || resp.Terminal?
  }

  /** A refused request leaves store and clock as they were. */
  lemma RefusedChangesNothing(w: World, r: Request, o: Options)
    requires Refused(Handle(w, r, o).resp)
    ensures Handle(w, r, o).w.apps == w.apps && Handle(w, r, o).w.clk == w.clk
  {
  }

  /** Requests about others, refused requests, and those about a machine's cordon, metadata and lease. */
  predicate Neutral(w: World, r: Request, o: Options, k: Key) {
    || Refused(Handle(w, r, o).resp)
    || (&& r != DeleteApp(k.app)
        && (Subject(r) == Some(k) ==>
             r.SetCordon? || r.SetMetadata? || r.DeleteMetadata? || r.GetLease? || r.AcquireLease? || r.ReleaseLease?))
  }

  lemma EmptyImageBoots()
    ensures !Unpullable("")
  {
  }

  /** A neutral request keeps an existing machine, its state, its instance and the boot verdict of its configuration. */
  lemma NeutralKeepsCourse(w: World, r: Request, o: Options, k: Key)
    requires Lookup(w.apps, k).Ok? && Neutral(w, r, o, k)
    ensures
      var m, after := Lookup(w.apps, k).value, Lookup(Handle(w, r, o).w.apps, k);
      && after.Ok? && after.value.state == m.state && after.value.instanceID == m.instanceID
      && Verdict(after.value.config) == Verdict(m.config)
  {
    hide Handle, Unpullable;
    EmptyImageBoots();
    if Refused(Handle(w, r, o).resp) {
      RefusedChangesNothing(w, r, o);
    } else {
      RequestOnMachine(w, r, o, k);
      if Subject(r) == Some(k) && (r.SetCordon? || r.SetMetadata? || r.DeleteMetadata?) {
        MutateAllTwo(Lookup(w.apps, k).value, Mutations(r, w.clk.now)[0], Touch(w.clk.now));
      }
    }
  }

  /** A neutral request registers at most one callback, and for another machine. */
  lemma NeutralRegistersElsewhere(w: World, r: Request, o: Options, k: Key)
    requires Neutral(w, r, o, k)
    ensures
      var clk' := Handle(w, r, o).w.clk;
      && clk'.now == w.clk.now && AlikeFor(w.clk.timers, clk'.timers, k)
      && (clk' == w.clk || exists delay, fn: Callback :: fn.key != k && clk' == Register(w.clk, delay, fn))
  {
    hide Handle;
    RequestOnClock(w, r, o);
    if Refused(Handle(w, r, o).resp) {
      RefusedChangesNothing(w, r, o);
    }
  }

  lemma FateAfterNeutral(s: Sys, r: Request, o: Options, k: Key)
    requires FreshRequest(r, s.used) && k.id in s.used && Neutral(s.w, r, o, k)
    ensures FateIn(Handle(s.w, r, o).w, o.delays, k) == FateIn(s.w, o.delays, k)
  {
    hide Handle, Unpullable, Neutral, Last, AlikeFor;
    if Lookup(s.w.apps, k).Ok? {
      NeutralKeepsCourse(s.w, r, o, k);
      NeutralRegistersElsewhere(s.w, r, o, k);
      FateOfAlike(s.w.clk.timers, Handle(s.w, r, o).w.clk.timers, o.delays, k, Lookup(s.w.apps, k).value);
    } else {
      RequestKeepsAbsent(s, r, o, k);
    }
  }

  /** A run in which every request is neutral at the moment it is made. */
  ghost predicate Undisturbed(s: Sys, steps: seq<Step>, o: Options, k: Key)
    requires LegalRun(s, steps, o)
    decreases steps
  {
    steps == [] ||
    (&& (steps[0].Req? ==> Neutral(s.w, steps[0].r, o, k))
     && Undisturbed(Exec(s, steps[0], o), steps[1..], o, k))
  }

  /** Neutral steps keep fate and bound. */
  lemma NeutralStep(s: Sys, step: Step, o: Options, k: Key, limit: int)
    requires Enabled(s, step) && (step.Advance? || (step.Req? && Neutral(s.w, step.r, o, k)))
    requires k.id in s.used && 0 <= o.delays.start && MachineEndsBy(s.w.clk.timers, k, o.delays, limit)
    ensures FateIn(Exec(s, step, o).w, o.delays, k) == FateIn(s.w, o.delays, k)
    ensures MachineEndsBy(Exec(s, step, o).w.clk.timers, k, o.delays, limit)
  {
    hide Handle, AdvanceWorld, FateIn, Lookup, Neutral;
    if step.Req? {
      FateAfterNeutral(s, step.r, o, k);
      NeutralRegistersElsewhere(s.w, step.r, o, k);
    } else {
      FateAfterAdvance(s.w, s.w.clk.now + step.amount, o, k);
      MachineEndsByAfterAdvance(s.w, s.w.clk.now + step.amount, o, k, limit);
    }
  }

  /**
   A machine's fate is fulfilled by the first advance that reaches the end of its pending chains, whatever
   neutral requests come in between.
   */
  lemma {:induction false} FateIsFulfilled(s: Sys, steps: seq<Step>, amount: int, o: Options, k: Key, limit: int)
    requires LegalRun(s, steps, o) && OnFakeClock(steps) && Undisturbed(s, steps, o, k) && 0 <= amount
    requires k.id in s.used && 0 <= o.delays.start && MachineEndsBy(s.w.clk.timers, k, o.delays, limit)
    requires limit <= Run(s, steps, o).w.clk.now + amount
    ensures
      var last := Lookup(Exec(Run(s, steps, o), Step.Advance(amount), o).w.apps, k);
      match FateIn(s.w, o.delays, k)
      case Gone => !last.Ok?
      case Rests(x) => last.Ok? && last.value.state == x
    decreases steps
  {
    hide Handle, AdvanceWorld, FateOf, Neutral, MachineEndsBy;
    if steps == [] {
      NeutralStep(s, Step.Advance(amount), o, k, limit);
      MachineEndsByAfterAdvance(s.w, s.w.clk.now + amount, o, k, limit);
      RestedFate(Exec(s, Step.Advance(amount), o).w, o.delays, k);
    } else {
      assert steps[0].Req? || steps[0].Advance?;
      assert forall n :: 0 <= n < |steps[1..]| ==> steps[1..][n] == steps[n + 1];
      NeutralStep(s, steps[0], o, k, limit);
      FateIsFulfilled(Exec(s, steps[0], o), steps[1..], amount, o, k, limit);
    }
  }

  // ---- the request that sets the course ----

  /** A start, stop, restart, suspend or update that was accepted. */
  predicate AcceptedCourse(w: World, r: Request, o: Options, k: Key) {
    && Subject(r) == Some(k)
    && ((r.Act? && Handle(w, r, o).resp.PreviousState?) || (r.UpdateMachine? && Handle(w, r, o).resp.MachineIs?))
  }

  /** Where such a request means the machine to end, judged on a configuration. */
  function Target(r: Request, config: Option<Config>): MachineState
    requires r.Act? || r.UpdateMachine?
  {
    if r.Act? && r.action.Stop? then Stopped
    else if r.Act? && r.action.Suspend? then Suspended
    else Verdict(config)
  }

  /** When the callback the request schedules is due. */
  function DueAt(w: World, r: Request, o: Options): int
    requires r.Act? || r.UpdateMachine?
  {
    w.clk.now + Booking(r, o).value.delay
  }

  /** A pending callback whose chain ends after one due at `at` and only now registered. */
  predicate Outlasts(t: Timer, d: Delays, at: int) {
    at < ChainEnd(t, d) || (at == ChainEnd(t, d) && t.fn.BootFirst?)
  }

  /** What decides: the pending chain that ends last, if it outlasts the request, or else the request. */
  function Decided(w: World, r: Request, o: Options, k: Key, config: Option<Config>): MachineState
    requires r.Act? || r.UpdateMachine?
  {
    var ts, p := w.clk.timers, Last(w.clk.timers, o.delays, k);
    if 0 <= p && Outlasts(ts[p], o.delays, DueAt(w, r, o)) then Goal(ts[p].fn, config) else Target(r, config)
  }

  lemma CourseOnClock(w: World, r: Request, o: Options, k: Key)
    requires AcceptedCourse(w, r, o, k)
    ensures
      var b := Booking(r, o).value;
      && Handle(w, r, o).w.clk == Register(w.clk, b.delay, b.fn) && b.fn.key == k
      && !b.fn.Reap? && !b.fn.BootFirst? && forall c :: Goal(b.fn, c) == Target(r, c)
    ensures Lookup(w.apps, k).Ok? && Lookup(Handle(w, r, o).w.apps, k).Ok?
  {
    RequestOnMachine(w, r, o, k);
  }

  /** The fate an accepted request leaves. */
  lemma FateAfterCourse(w: World, r: Request, o: Options, k: Key)
    requires AcceptedCourse(w, r, o, k)
    ensures
      var w' := Handle(w, r, o).w;
      && Lookup(w'.apps, k).Ok?
      && FateIn(w', o.delays, k) ==
           if Pending(w.clk.timers, Reap(k)) then Gone
           else Rests(Decided(w, r, o, k, Lookup(w'.apps, k).value.config))
  {
    hide Handle, Unpullable, Last, Pending, Lookup;
    CourseOnClock(w, r, o, k);
    var b, ts := Booking(r, o).value, w.clk.timers;
    var t := Timer(w.clk.now + b.delay, b.fn, false, false);
    PendingAfterAppend(ts, t, Reap(k));
    LastAfterAppend(ts, t, o.delays, k);
    var p := Last(ts, o.delays, k);
    assert 0 <= p ==> (ts + [t])[p] == ts[p];
  }

  // ---- any delays ----

  /** A started or failed machine tells the verdict of the configuration it has now. */
  lemma VerdictIsCurrent(s: Sys, k: Key, earlier: Option<Config>)
    requires Good(s) && Lookup(s.w.apps, k).Ok? && Lookup(s.w.apps, k).value.state == Verdict(earlier)
    ensures Lookup(s.w.apps, k).value.state == Verdict(Lookup(s.w.apps, k).value.config)
  {
    assert MachineOK(k, Lookup(s.w.apps, k).value, s.used);
  }

  /** The state of the emulator after request r, the steps that follow and a final advance. */
  function Later(s: Sys, r: Request, steps: seq<Step>, amount: int, o: Options): Sys
    requires Enabled(s, Req(r)) && LegalRun(Exec(s, Req(r), o), steps, o) && 0 <= amount
  {
    Exec(Run(Exec(s, Req(r), o), steps, o), Step.Advance(amount), o)
  }

  lemma SubjectIsUsed(s: Sys, r: Request, o: Options, k: Key)
    requires Good(s) && AcceptedCourse(s.w, r, o, k)
    ensures k.id in s.used
  {
    hide Handle, AcceptedCourse;
    CourseOnClock(s.w, r, o, k);
    assert MachineOK(k, Lookup(s.w.apps, k).value, s.used);
  }

  /** The run is long enough for everything pending for the machine, the request's own callback included. */
  ghost predicate RunsOut(w: World, r: Request, o: Options, k: Key, end: int)
    requires r.Act? || r.UpdateMachine?
  {
    MachineEndsBy(w.clk.timers, k, o.delays, end) && DueAt(w, r, o) <= end
  }

  lemma CourseSettles(s: Sys, r: Request, steps: seq<Step>, amount: int, o: Options, k: Key)
    requires Good(s) && 0 <= o.delays.start
    requires Enabled(s, Req(r)) && AcceptedCourse(s.w, r, o, k)
    requires LegalRun(Exec(s, Req(r), o), steps, o) && OnFakeClock(steps) && 0 <= amount
    requires Undisturbed(Exec(s, Req(r), o), steps, o, k)
    requires RunsOut(s.w, r, o, k, Later(s, r, steps, amount, o).w.clk.now)
    ensures Good(Later(s, r, steps, amount, o))
    ensures
      var last := Lookup(Later(s, r, steps, amount, o).w.apps, k);
      match FateIn(Exec(s, Req(r), o).w, o.delays, k)
      case Gone => !last.Ok?
      case Rests(x) => last.Ok? && last.value.state == x
  {
    hide LegalRun, Run, Handle, AdvanceWorld, FateOf, Lookup, Good, MachineOK, AcceptedCourse, Undisturbed;
    var s1 := Exec(s, Req(r), o);
    var s2 := Run(s1, steps, o);
    GoodAfterStep(s, Req(r), o);
    GoodAfterRun(s1, steps, o);
    GoodAfterStep(s2, Step.Advance(amount), o);
    AdvanceReaches(s2.w, s2.w.clk.now + amount, o);
    SubjectIsUsed(s, r, o, k);
    CourseOnClock(s.w, r, o, k);
    FateIsFulfilled(s1, steps, amount, o, k, s2.w.clk.now + amount);
  }

  /**
   For any delays, once everything pending has run out after an accepted request and only neutral or refused
   ones since: the machine is gone exactly if a destroy was pending; else it is in the request's target, unless
   the chain pending before the request that ends last outlasts it; then it is where that chain leads. Boot
   success is judged on the final configuration.
   */
  lemma LatestEndingDecides(s: Sys, r: Request, steps: seq<Step>, amount: int, o: Options, k: Key)
    requires Good(s) && 0 <= o.delays.start
    requires Enabled(s, Req(r)) && AcceptedCourse(s.w, r, o, k)
    requires LegalRun(Exec(s, Req(r), o), steps, o) && OnFakeClock(steps) && 0 <= amount
    requires Undisturbed(Exec(s, Req(r), o), steps, o, k)
    requires RunsOut(s.w, r, o, k, Later(s, r, steps, amount, o).w.clk.now)
    ensures
      var last := Lookup(Later(s, r, steps, amount, o).w.apps, k);
      && (last.Ok? <==> !Pending(s.w.clk.timers, Reap(k)))
      && (last.Ok? ==> last.value.state == Decided(s.w, r, o, k, last.value.config))
  {
    hide LegalRun, Run, Handle, AdvanceWorld, FateOf, Lookup, Good, MachineOK, AcceptedCourse, Undisturbed, Unpullable,
         Pending, RunsOut, Last;
    CourseSettles(s, r, steps, amount, o, k);
    FateAfterCourse(s.w, r, o, k);
    var earlier := Lookup(Handle(s.w, r, o).w.apps, k).value.config;
    var last := Later(s, r, steps, amount, o);
    if Lookup(last.w.apps, k).Ok? && Lookup(last.w.apps, k).value.state == Verdict(earlier) {
      VerdictIsCurrent(last, k, earlier);
    }
  }

  /** ... so the last accepted request wins if nothing of the machine's is pending that outlasts it. */
  lemma NothingOutlastsIt(s: Sys, r: Request, steps: seq<Step>, amount: int, o: Options, k: Key)
    requires Good(s) && 0 <= o.delays.start
    requires Enabled(s, Req(r)) && AcceptedCourse(s.w, r, o, k)
    requires LegalRun(Exec(s, Req(r), o), steps, o) && OnFakeClock(steps) && 0 <= amount
    requires Undisturbed(Exec(s, Req(r), o), steps, o, k)
    requires RunsOut(s.w, r, o, k, Later(s, r, steps, amount, o).w.clk.now)
    requires forall j :: 0 <= j < |s.w.clk.timers| && s.w.clk.timers[j].Live() && s.w.clk.timers[j].fn.key == k ==>
      !s.w.clk.timers[j].fn.Reap? && !Outlasts(s.w.clk.timers[j], o.delays, DueAt(s.w, r, o))
    ensures
      var last := Lookup(Later(s, r, steps, amount, o).w.apps, k);
      last.Ok? && last.value.state == Target(r, last.value.config)
  {
    hide LegalRun, Run, Handle, AdvanceWorld, Lookup, Good, AcceptedCourse, Undisturbed, RunsOut, Later;
    LatestEndingDecides(s, r, steps, amount, o, k);
  }

  // ---- equal delays, as in the defaults ----

  predicate AllEqual(d: Delays, c: int) {
    d == Delays(c, c, c, c, c, c, c)
  }

  ghost predicate DueBy(ts: seq<Timer>, limit: int) {
    forall j :: 0 <= j < |ts| && ts[j].Live() ==> ts[j].deadline <= limit
  }

  lemma {:induction false} DueByAfterAdvance(q: Queue, target: int, d: Delays)
    requires DueBy(q.timers, target + d.start)
    ensures DueBy(AdvanceTo(q, target, d).timers, target + d.start)
    decreases Weight(q.timers)
  {
    var i := Next(q.timers, target);
    if 0 <= i {
      FireShape(q, i, q.timers[i].deadline, d);
      DueByAfterAdvance(FireNext(q, i, d), target, d);
    }
  }

  /** With equal delays nothing pending is further off than one delay. */
  lemma {:induction false} WithinOneDelay(s: Sys, steps: seq<Step>, o: Options, c: int)
    requires LegalRun(s, steps, o) && OnFakeClock(steps) && AllEqual(o.delays, c) && 0 <= c
    requires DueBy(s.w.clk.timers, s.w.clk.now + c)
    ensures DueBy(Run(s, steps, o).w.clk.timers, Run(s, steps, o).w.clk.now + c)
    decreases steps
  {
    hide Handle, AdvanceWorld, AdvanceTo;
    if steps != [] {
      var step, rest := steps[0], steps[1..];
      assert step.Req? || step.Advance?;
      assert forall n :: 0 <= n < |rest| ==> rest[n] == steps[n + 1];
      if step.Req? {
        RequestOnClock(s.w, step.r, o);
      } else {
        AdvanceReaches(s.w, s.w.clk.now + step.amount, o);
        AdvanceReplaysLog(s.w, s.w.clk.now + step.amount, o);
        DueByAfterAdvance(s.w.clk, s.w.clk.now + step.amount, o.delays);
      }
      WithinOneDelay(Exec(s, step, o), rest, o, c);
    }
  }

  /** Every pending callback is due between now and one delay from now. */
  lemma DueWithinOneDelay(s: Sys, o: Options, c: int)
    requires ReachableOnFakeClock(s, o) && AllEqual(o.delays, c) && 0 <= c
    ensures NotOverdue(s.w.clk) && DueBy(s.w.clk.timers, s.w.clk.now + c)
  {
    hide LegalRun, Run;
    var now, steps :| ReachedBy(now, steps, s, o) && OnFakeClock(steps);
    WithinOneDelay(NewServer(now), steps, o, c);
    SystemLog.NeverOverdue(s, o);
  }

  /** Only a first boot step outlasts a new request then. */
  lemma OnlyBootsOutlast(w: World, r: Request, o: Options, k: Key, c: int)
    requires NotOverdue(w.clk) && DueBy(w.clk.timers, w.clk.now + c) && AllEqual(o.delays, c) && 0 <= c
    requires r.Act? || r.UpdateMachine?
    ensures DueAt(w, r, o) == w.clk.now + c
    ensures
      MachineEndsBy(w.clk.timers, k, o.delays, w.clk.now + if Pending(w.clk.timers, BootFirst(k)) then 2 * c else c)
    ensures
      var ts, p := w.clk.timers, Last(w.clk.timers, o.delays, k);
      0 <= p && Outlasts(ts[p], o.delays, w.clk.now + c) <==> Pending(ts, BootFirst(k))
    ensures
      var ts, p := w.clk.timers, Last(w.clk.timers, o.delays, k);
      Pending(ts, BootFirst(k)) ==> 0 <= p && ts[p].fn == BootFirst(k)
  {
    var ts, p := w.clk.timers, Last(w.clk.timers, o.delays, k);
    LastIsLast(ts, o.delays, k);
    if Pending(ts, BootFirst(k)) {
      var j :| 0 <= j < |ts| && ts[j].Live() && ts[j].fn == BootFirst(k);
      assert Steers(ts[j], k);
      assert j == p || EndsBefore(ts, o.delays, j, p);
    }
    assert forall j :: 0 <= j < |ts| && ts[j].Live() && ts[j].fn.key == k && ts[j].fn.BootFirst? ==>
        ts[j].fn == BootFirst(k);
  }

  /**
   The last request wins. With all delays equal, a machine with no destroy and no first boot step pending
   ends, one delay after its last accepted start, stop, restart, suspend or update, in that request's
   target, boot success judged on the final configuration; whatever was requested before, at whatever
   instants, and whatever refused or neutral requests come after.
   */
  lemma LastRequestWins(s: Sys, r: Request, steps: seq<Step>, amount: int, o: Options, c: int, k: Key)
    requires ReachableOnFakeClock(s, o) && AllEqual(o.delays, c) && 0 <= c
    requires Enabled(s, Req(r)) && AcceptedCourse(s.w, r, o, k)
    requires !Pending(s.w.clk.timers, Reap(k)) && !Pending(s.w.clk.timers, BootFirst(k))
    requires LegalRun(Exec(s, Req(r), o), steps, o) && OnFakeClock(steps) && 0 <= amount
    requires Undisturbed(Exec(s, Req(r), o), steps, o, k)
    requires s.w.clk.now + c <= Later(s, r, steps, amount, o).w.clk.now
    ensures
      var last := Lookup(Later(s, r, steps, amount, o).w.apps, k);
      last.Ok? && last.value.state == Target(r, last.value.config)
  {
    hide LegalRun, Run, Handle, AdvanceWorld, Lookup, Good, Undisturbed, Later, Reachable,
         ReachableOnFakeClock, Last, Pending, DueBy, NotOverdue;
    FakeClockIsOneScheduler(s, o);
    ReachableIsGood(s, o);
    DueWithinOneDelay(s, o, c);
    OnlyBootsOutlast(s.w, r, o, k, c);
    LatestEndingDecides(s, r, steps, amount, o, k);
  }

  /**
   Exactly when it does: a pending destroy removes the machine, and a pending first boot step makes the boot's
   own settle come last, so a stop or suspend issued before it fires is overridden by the boot verdict.
   */
  lemma LastRequestWinsIff(s: Sys, r: Request, steps: seq<Step>, amount: int, o: Options, c: int, k: Key)
    requires ReachableOnFakeClock(s, o) && AllEqual(o.delays, c) && 0 <= c
    requires Enabled(s, Req(r)) && AcceptedCourse(s.w, r, o, k)
    requires LegalRun(Exec(s, Req(r), o), steps, o) && OnFakeClock(steps) && 0 <= amount
    requires Undisturbed(Exec(s, Req(r), o), steps, o, k)
    requires s.w.clk.now + 2 * c <= Later(s, r, steps, amount, o).w.clk.now
    ensures
      var last, ts := Lookup(Later(s, r, steps, amount, o).w.apps, k), s.w.clk.timers;
      && (last.Ok? <==> !Pending(ts, Reap(k)))
      && (last.Ok? && Pending(ts, BootFirst(k)) ==> last.value.state == Verdict(last.value.config))
      && (last.Ok? && last.value.state == Target(r, last.value.config) <==>
          !Pending(ts, Reap(k)) && (Pending(ts, BootFirst(k)) ==> !(r.Act? && (r.action.Stop? || r.action.Suspend?))))
  {
    hide LegalRun, Run, Handle, AdvanceWorld, Lookup, Good, Undisturbed, Later, Reachable,
         ReachableOnFakeClock, Last, Pending, DueBy, NotOverdue;
    FakeClockIsOneScheduler(s, o);
    ReachableIsGood(s, o);
    DueWithinOneDelay(s, o, c);
    OnlyBootsOutlast(s.w, r, o, k, c);
    LatestEndingDecides(s, r, steps, amount, o, k);
  }
}
