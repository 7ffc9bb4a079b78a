/**
 A deploy as its client sees it: boot a machine, wait for `started`, and the answer tells whether the configuration
 boots.
 */
module Deploying {
  import opened Flaps
  import opened Callbacks
  import opened EventQueue
  import opened Emulator
  import opened Runs
  import opened Invariants
  import opened Safety
  import opened History
  import opened Destruction
  import opened Fates
  import opened LastRequest
  import opened Waiting
  import Effects
  import FiringLog
  import Holder
  import SystemLog

  /** On its way to a boot verdict, due by `end`, as one instance. */
  ghost predicate Booting(s: Sys, o: Options, k: Key, end: int, verdict: MachineState, instance: string) {
    && Good(s) && NotOverdue(s.w.clk) && k.id in s.used
    && MachineEndsBy(s.w.clk.timers, k, o.delays, end) && FateIn(s.w, o.delays, k) == Rests(verdict)
    && Lookup(s.w.apps, k).Ok?
    && Verdict(Lookup(s.w.apps, k).value.config) == verdict && Lookup(s.w.apps, k).value.instanceID == instance
  }

  lemma NotOverdueAfterStep(s: Sys, step: Step, o: Options)
    requires NotOverdue(s.w.clk) && o.delays.NonNegative() && Enabled(s, step) && (step.Req? || step.Advance?)
    ensures NotOverdue(Exec(s, step, o).w.clk)
  {
    hide Handle, AdvanceWorld;
    if step.Req? {
      RequestOnClock(s.w, step.r, o);
    } else {
      var target := s.w.clk.now + step.amount;
      AdvanceReplaysLog(s.w, target, o);
      FiringLog.AdvanceCompletes(s.w.clk, target, o.delays);
      var q := AdvanceTo(s.w.clk, target, o.delays);
      assert forall j :: 0 <= j < |q.timers| && q.timers[j].Live() ==> !Due(q.timers[j], target);
    }
  }

  /** A neutral request or an advance changes neither the instance nor the verdict of the configuration. */
  lemma SameDeployment(s: Sys, step: Step, o: Options, k: Key)
    requires Enabled(s, step) && (step.Advance? || (step.Req? && Neutral(s.w, step.r, o, k)))
    requires Lookup(s.w.apps, k).Ok? && Lookup(Exec(s, step, o).w.apps, k).Ok?
    ensures
      var m, m' := Lookup(s.w.apps, k).value, Lookup(Exec(s, step, o).w.apps, k).value;
      m'.instanceID == m.instanceID && Verdict(m'.config) == Verdict(m.config)
  {
    hide Handle, AdvanceWorld, Neutral, Unpullable;
    if step.Req? {
      NeutralKeepsCourse(s.w, step.r, o, k);
    } else {
      Holder.AdvanceProtects(s.w, s.w.clk.now + step.amount, o, k);
      BareVerdict(Lookup(s.w.apps, k).value.config);
      BareVerdict(Lookup(Exec(s, step, o).w.apps, k).value.config);
    }
  }

  lemma BareVerdict(c: Option<Config>)
    ensures Verdict(c) == Verdict(Some(Holder.Bare(c)))
  {
    EmptyImageBoots();
  }

  lemma BootingAfterStep(s: Sys, step: Step, o: Options, k: Key, end: int, verdict: MachineState, instance: string)
    requires Booting(s, o, k, end, verdict, instance) && o.delays.NonNegative()
    requires Enabled(s, step) && (step.Advance? || (step.Req? && Neutral(s.w, step.r, o, k)))
    ensures Booting(Exec(s, step, o), o, k, end, verdict, instance)
  {
    hide Exec, Neutral, Good, Lookup, NotOverdue, MachineEndsBy, FateOf;
    GoodAfterStep(s, step, o);
    NotOverdueAfterStep(s, step, o);
    NeutralStep(s, step, o, k, end);
    UsedGrows(s, step, o);
    SameDeployment(s, step, o, k);
  }

  lemma UsedGrows(s: Sys, step: Step, o: Options)
    requires Enabled(s, step)
    ensures s.used <= Exec(s, step, o).used
  {
  }

  lemma {:induction false} BootingAfterRun(s: Sys, steps: seq<Step>, o: Options, k: Key, end: int,
                                           verdict: MachineState, instance: string)
    requires Booting(s, o, k, end, verdict, instance) && o.delays.NonNegative()
    requires LegalRun(s, steps, o) && OnFakeClock(steps) && Undisturbed(s, steps, o, k)
    ensures Booting(Run(s, steps, o), o, k, end, verdict, instance)
    decreases steps
  {
    hide Exec, Neutral, Booting;
    if steps != [] {
      assert steps[0].Req? || steps[0].Advance?;
      assert forall n :: 0 <= n < |steps[1..]| ==> steps[1..][n] == steps[n + 1];
      BootingAfterStep(s, steps[0], o, k, end, verdict, instance);
      BootingAfterRun(Exec(s, steps[0], o), steps[1..], o, k, end, verdict, instance);
    }
  }

  /** What a poll can see: the instance, started only if that is the verdict, and the verdict once it is due. */
  predicate Fits(p: Poll, end: int, verdict: MachineState, instance: string) {
    && p.found.Ok? && p.found.value.instanceID == instance
    && (p.found.value.state == Started ==> verdict == Started)
    && (end < p.now ==> p.found.value.state == verdict)
  }

  lemma PollFits(s: Sys, o: Options, k: Key, end: int, verdict: MachineState, instance: string)
    requires Booting(s, o, k, end, verdict, instance) && 0 <= o.delays.start
    ensures Fits(Observe(s, k), end, verdict, instance)
  {
    assert MachineOK(k, Lookup(s.w.apps, k).value, s.used);
    if end < s.w.clk.now {
      RestedFate(s.w, o.delays, k);
    }
  }

  /** The gaps between polls hold advances and requests that leave the machine's course alone. */
  ghost predicate QuietGaps(s: Sys, gaps: seq<seq<Step>>, o: Options, k: Key)
    requires LegalGaps(s, gaps, o)
    decreases gaps
  {
    gaps == [] ||
    (OnFakeClock(gaps[0]) && Undisturbed(s, gaps[0], o, k) && QuietGaps(Run(s, gaps[0], o), gaps[1..], o, k))
  }

  lemma {:induction false} PollsFit(s: Sys, gaps: seq<seq<Step>>, o: Options, k: Key, end: int, verdict: MachineState,
                                    instance: string)
    requires Booting(s, o, k, end, verdict, instance) && o.delays.NonNegative()
    requires LegalGaps(s, gaps, o) && QuietGaps(s, gaps, o, k)
    ensures
      var polls := Observations(s, gaps, o, k);
      |polls| == |gaps| && forall i :: 0 <= i < |polls| ==> Fits(polls[i], end, verdict, instance)
    decreases gaps
  {
    hide LegalRun, Run, Undisturbed, OnFakeClock, Booting, Fits;
    if gaps != [] {
      var s' := Run(s, gaps[0], o);
      BootingAfterRun(s, gaps[0], o, k, end, verdict, instance);
      PollFits(s', o, k, end, verdict, instance);
      PollsFit(s', gaps[1..], o, k, end, verdict, instance);
    }
  }

  // ---- the requests that boot a machine ----

  predicate BootsAlike(fn: Callback) { fn.BootFirst? || fn.BootSettle? }

  /** No reap is pending, and what decides where the machine ends, a pending chain or the request, is a boot. */
  ghost predicate HeadsForBoot(w: World, r: Request, o: Options, k: Key)
    requires r.Act? || r.UpdateMachine?
  {
    var p := Last(w.clk.timers, o.delays, k);
    && !Pending(w.clk.timers, Reap(k))
    && BootsAlike(if 0 <= p && Outlasts(w.clk.timers[p], o.delays, DueAt(w, r, o)) then w.clk.timers[p].fn
                  else Booking(r, o).value.fn)
  }

  /** A launching create, or an accepted request that heads for a boot, which with all else pending is over by `end`. */
  ghost predicate Deploys(s: Sys, r: Request, o: Options, k: Key, end: int) {
    if r.CreateMachine? then
      Subject(r) == Some(k) && Handle(s.w, r, o).resp.MachineIs? && !r.skipLaunch
      && s.w.clk.now + o.delays.create + o.delays.start <= end
    else AcceptedCourse(s.w, r, o, k) && HeadsForBoot(s.w, r, o, k) && RunsOut(s.w, r, o, k, end)
  }

  lemma BootingAfterCourse(s: Sys, r: Request, o: Options, k: Key, end: int)
    requires Good(s) && NotOverdue(s.w.clk) && o.delays.NonNegative() && Enabled(s, Req(r))
    requires !r.CreateMachine? && Deploys(s, r, o, k, end)
    ensures Lookup(Exec(s, Req(r), o).w.apps, k).Ok?
    ensures
      var s1 := Exec(s, Req(r), o);
      var m := Lookup(s1.w.apps, k).value;
      Booting(s1, o, k, end, Verdict(m.config), m.instanceID)
  {
    hide Handle, Good, Unpullable, Lookup;
    FateAfterCourse(s.w, r, o, k);
    CourseOnClock(s.w, r, o, k);
    SubjectIsUsed(s, r, o, k);
    GoodAfterStep(s, Req(r), o);
    NotOverdueAfterStep(s, Req(r), o);
  }

  /** A machine's id is minted with it: nothing was ever pending for it. */
  lemma NothingPendingForNew(s: Sys, r: Request, o: Options, k: Key)
    requires Good(s) && r.CreateMachine? && FreshRequest(r, s.used) && Subject(r) == Some(k)
    ensures forall j :: 0 <= j < |s.w.clk.timers| ==> s.w.clk.timers[j].fn.key != k
  {
    assert k.id in Minted(r);
  }

  lemma CreateOnClock(w: World, r: Request, o: Options, k: Key)
    requires r.CreateMachine? && Subject(r) == Some(k) && Handle(w, r, o).resp.MachineIs? && !r.skipLaunch
    ensures
      var w' := Handle(w, r, o).w;
      w'.clk == Register(w.clk, o.delays.create, BootFirst(k)) && Lookup(w'.apps, k).Ok?
  {
    hide Cloned, NewMachine;
  }

  lemma BootingAfterCreate(s: Sys, r: Request, o: Options, k: Key, end: int)
    requires Good(s) && NotOverdue(s.w.clk) && o.delays.NonNegative() && Enabled(s, Req(r))
    requires r.CreateMachine? && Deploys(s, r, o, k, end)
    ensures Lookup(Exec(s, Req(r), o).w.apps, k).Ok?
    ensures
      var s1 := Exec(s, Req(r), o);
      var m := Lookup(s1.w.apps, k).value;
      Booting(s1, o, k, end, Verdict(m.config), m.instanceID)
  {
    hide Handle, Good, Unpullable, Lookup, Last;
    var s1, ts := Exec(s, Req(r), o), s.w.clk.timers;
    var t := Timer(s.w.clk.now + o.delays.create, BootFirst(k), false, false);
    CreateOnClock(s.w, r, o, k);
    NothingPendingForNew(s, r, o, k);
    LastIsUnique(ts, o.delays, k, -1);
    LastAfterAppend(ts, t, o.delays, k);
    assert s1.w.clk.timers == ts + [t];
    GoodAfterStep(s, Req(r), o);
    NotOverdueAfterStep(s, Req(r), o);
    assert k.id in s1.used by {
      assert k.id in Minted(r);
    }
  }

  /** A poll that decides answers the wait, if no earlier one does. */
  lemma {:induction false} DecisivePollAnswers(polls: seq<Poll>, states: seq<string>, version: string, deadline: int,
                                               n: nat)
    requires n < |polls| && Decide(polls[n], states, version, deadline) != StillWaiting
    ensures WaitOn(polls, states, version, deadline) != StillWaiting
    decreases polls
  {
    hide Decide;
    if 0 < n {
      assert polls[1..][n - 1] == polls[n];
      DecisivePollAnswers(polls[1..], states, version, deadline, n - 1);
    }
  }

  /** Among polls that fit, a wait for `started` that outlasts the boot succeeds exactly if the verdict is good. */
  lemma WaitTellsVerdict(polls: seq<Poll>, version: string, deadline: int, end: int, verdict: MachineState,
                         instance: string)
    requires polls != [] && forall i :: 0 <= i < |polls| ==> Fits(polls[i], end, verdict, instance)
    requires version == "" || version == instance
    requires end < deadline && end < polls[|polls| - 1].now
    ensures WaitOn(polls, [StateText(Started)], version, deadline) == Reached <==> verdict == Started
    ensures verdict != Started && deadline < polls[|polls| - 1].now ==>
      WaitOn(polls, [StateText(Started)], version, deadline) == TimedOut
  {
    var states, n := [StateText(Started)], |polls| - 1;
    if verdict == Started {
      HeldTargetIsReached(polls, states, version, deadline, end + 1);
    } else {
      forall i | 0 <= i < |polls|
        ensures !Matches(polls[i], states, version) && polls[i].found.Ok?
      {
        assert Fits(polls[i], end, verdict, instance);
        StateTextIsInjective(polls[i].found.value.state, Started);
      }
      AnswersAreHonest(polls, states, version, deadline);
      if deadline < polls[n].now {
        DecisivePollAnswers(polls, states, version, deadline, n);
        var answer := AnswerHasAPoll(polls, states, version, deadline);
      }
    }
  }

  /**
   Deploy a machine, by create, start, restart or update, and wait for `started`, for its new instance or for any,
   polling past the time its boot has run its course: the wait succeeds if and only if the configuration boots; if it
   does not, polling past the deadline gives a timeout.
   */
  lemma DeployIsReported(s: Sys, r: Request, gaps: seq<seq<Step>>, o: Options, k: Key, version: string, deadline: int,
                         end: int)
    requires ReachableOnFakeClock(s, o) && o.delays.NonNegative()
    requires Enabled(s, Req(r)) && Deploys(s, r, o, k, end) && end < deadline
    requires gaps != [] && LegalGaps(Exec(s, Req(r), o), gaps, o) && QuietGaps(Exec(s, Req(r), o), gaps, o, k)
    ensures Lookup(Exec(s, Req(r), o).w.apps, k).Ok?
    ensures
      var m := Lookup(Exec(s, Req(r), o).w.apps, k).value;
      var polls := Observations(Exec(s, Req(r), o), gaps, o, k);
      |polls| == |gaps| &&
      ((version == "" || version == m.instanceID) && end < polls[|polls| - 1].now ==>
        var answer := WaitOn(polls, [StateText(Started)], version, deadline);
        && (answer == Reached <==> !FailsToBoot(m.config))
        && (FailsToBoot(m.config) && deadline < polls[|polls| - 1].now ==> answer == TimedOut))
  {
    hide Handle, Deploys, Good, LegalGaps, QuietGaps, Observations, Booting, WaitOn, Reachable, ReachableOnFakeClock,
         NotOverdue, Lookup, Unpullable;
    FakeClockIsOneScheduler(s, o);
    ReachableIsGood(s, o);
    SystemLog.NeverOverdue(s, o);
    if r.CreateMachine? {
      BootingAfterCreate(s, r, o, k, end);
    } else {
      BootingAfterCourse(s, r, o, k, end);
    }
    var s1 := Exec(s, Req(r), o);
    var m := Lookup(s1.w.apps, k).value;
    PollsFit(s1, gaps, o, k, end, Verdict(m.config), m.instanceID);
    var polls := Observations(s1, gaps, o, k);
    if (version == "" || version == m.instanceID) && end < polls[|polls| - 1].now {
      WaitTellsVerdict(polls, version, deadline, end, Verdict(m.config), m.instanceID);
    }
  }

  // ---- the configuration asked for ----

  /** The configuration a request asks for: its own, if it has one, and for an existing machine the one it has. */
  function AskedFor(w: World, r: Request, k: Key): Option<Config> {
    if r.CreateMachine? || (r.UpdateMachine? && r.config.Some?) then r.config
    else if Lookup(w.apps, k).Ok? then Lookup(w.apps, k).value.config
    else None
  }

  lemma StoredAsAsked(w: World, r: Request, o: Options, k: Key)
    requires Subject(r) == Some(k) && (r.CreateMachine? || AcceptedCourse(w, r, o, k))
    requires r.CreateMachine? ==> Handle(w, r, o).resp.MachineIs?
    ensures Lookup(Handle(w, r, o).w.apps, k).Ok?
    ensures FailsToBoot(Lookup(Handle(w, r, o).w.apps, k).value.config) <==> FailsToBoot(AskedFor(w, r, k))
  {
    hide Handle, Unpullable, Lookup, Effects.OnlyMachine, Effects.Books, Effects.Superseding, Effects.Refusal;
    if r.CreateMachine? {
      Effects.CreateEffect(w, r, o);
    } else {
      Effects.GatedIsRefusedIff(w, r, o);
      Effects.RefusalIsNoAcceptance(w, r);
      if r.UpdateMachine? {
        Effects.UpdateEffect(w, r, o);
      } else {
        Effects.ActEffect(w, r, o);
      }
    }
  }

  /** So the wait for a deploy tells whether the image that was asked for can be pulled. */
  lemma DeployJudgesWhatWasAsked(s: Sys, r: Request, gaps: seq<seq<Step>>, o: Options, k: Key, version: string,
                                 deadline: int, end: int)
    requires ReachableOnFakeClock(s, o) && o.delays.NonNegative()
    requires Enabled(s, Req(r)) && Deploys(s, r, o, k, end) && end < deadline
    requires gaps != [] && LegalGaps(Exec(s, Req(r), o), gaps, o) && QuietGaps(Exec(s, Req(r), o), gaps, o, k)
    ensures Lookup(Exec(s, Req(r), o).w.apps, k).Ok?
    ensures
      var m := Lookup(Exec(s, Req(r), o).w.apps, k).value;
      var polls, asked := Observations(Exec(s, Req(r), o), gaps, o, k), AskedFor(s.w, r, k);
      |polls| == |gaps| &&
      ((version == "" || version == m.instanceID) && end < polls[|polls| - 1].now ==>
        (WaitOn(polls, [StateText(Started)], version, deadline) == Reached <==>
         !(asked.Some? && Repository(asked.value.image) == UNPULLABLE_IMAGE)))
  {
    hide Handle, LegalGaps, QuietGaps, Observations, WaitOn, ReachableOnFakeClock, Lookup, Unpullable, Repository,
         RunsOut, HeadsForBoot;
    DeployIsReported(s, r, gaps, o, k, version, deadline, end);
    StoredAsAsked(s.w, r, o, k);
    var asked := AskedFor(s.w, r, k);
    if asked.Some? {
      FailsToBootIffRepositoryIsSentinel(asked.value);
    }
  }
}
