/**
 The wait endpoint. A wait is a sequence of polls, each seeing the machine and the clock at one moment;
 between polls anything may happen.
 */
module Waiting {
  import opened Flaps
  import opened Callbacks
  import opened Emulator
  import opened Runs
  import opened Invariants
  import opened Safety
  import opened History

  datatype Poll = Poll(found: Result<Machine>, now: int)

  datatype WaitReply = Reached | NotThere(error: StoreError) | TimedOut | StillWaiting

  predicate Matches(p: Poll, states: seq<string>, version: string) {
    match p.found
    case Ok(m) => StateText(m.state) in states && (version == "" || version == m.instanceID)
    case Err(e) => e == MachineNotFound && StateText(Destroyed) in states
  }

  /** What one poll decides, if anything. */
  function Decide(p: Poll, states: seq<string>, version: string, deadline: int): WaitReply {
    match p.found
    case Err(e) => if Matches(p, states, version) then Reached else NotThere(e)
    case Ok(_) => if Matches(p, states, version) then Reached else if deadline < p.now then TimedOut else StillWaiting
  }

  /** The loop: the first decisive poll answers. */
  function WaitOn(polls: seq<Poll>, states: seq<string>, version: string, deadline: int): WaitReply
    decreases polls
  {
    if polls == [] then StillWaiting
    else
      var d := Decide(polls[0], states, version, deadline);
      if d != StillWaiting then d else WaitOn(polls[1..], states, version, deadline)
  }

  /** The poll that answers, with every earlier one undecided. */
  ghost predicate AnsweredAt(polls: seq<Poll>, states: seq<string>, version: string, deadline: int, n: nat) {
    && n < |polls|
    && Decide(polls[n], states, version, deadline) != StillWaiting
    && forall i :: 0 <= i < n ==> Decide(polls[i], states, version, deadline) == StillWaiting
  }

  lemma {:induction false} AnswerHasAPoll(polls: seq<Poll>, states: seq<string>, version: string, deadline: int)
    returns (n: nat)
    requires WaitOn(polls, states, version, deadline) != StillWaiting
    ensures AnsweredAt(polls, states, version, deadline, n)
    ensures WaitOn(polls, states, version, deadline) == Decide(polls[n], states, version, deadline)
    decreases polls
  {
    if Decide(polls[0], states, version, deadline) != StillWaiting {
      n := 0;
    } else {
      var rest := AnswerHasAPoll(polls[1..], states, version, deadline);
      n := rest + 1;
      forall i | 0 <= i < n
        ensures Decide(polls[i], states, version, deadline) == StillWaiting
      {
        if 0 < i {
          assert polls[i] == polls[1..][i - 1];
        }
      }
    }
  }

  /** OK is only answered by a poll that really matches; a timeout only past the deadline, nothing having matched. */
  lemma AnswersAreHonest(polls: seq<Poll>, states: seq<string>, version: string, deadline: int)
    ensures WaitOn(polls, states, version, deadline) == Reached ==>
      exists n :: 0 <= n < |polls| && Matches(polls[n], states, version)
    ensures WaitOn(polls, states, version, deadline) == TimedOut ==>
      exists n :: 0 <= n < |polls| && deadline < polls[n].now
                  && forall i :: 0 <= i <= n ==> !Matches(polls[i], states, version)
  {
    if WaitOn(polls, states, version, deadline) != StillWaiting {
      var n := AnswerHasAPoll(polls, states, version, deadline);
      assert Matches(polls[n], states, version) <==> Decide(polls[n], states, version, deadline) == Reached;
      assert forall i :: 0 <= i < n && Matches(polls[i], states, version) ==>
          Decide(polls[i], states, version, deadline) == Reached;
    }
  }

  /** A poll that lets the wait go on: the machine is there, not as waited for, and the deadline has not passed. */
  predicate Undecided(p: Poll, states: seq<string>, version: string, deadline: int) {
    p.found.Ok? && !Matches(p, states, version) && p.now <= deadline
  }

  /** The first poll that lets the wait go on no longer, or their number. */
  function FirstDecisive(polls: seq<Poll>, states: seq<string>, version: string, deadline: int): (n: nat)
    ensures n <= |polls|
    ensures forall i :: 0 <= i < n ==> Undecided(polls[i], states, version, deadline)
    ensures n < |polls| ==> !Undecided(polls[n], states, version, deadline)
    decreases polls
  {
    if polls == [] || !Undecided(polls[0], states, version, deadline) then 0
    else 1 + FirstDecisive(polls[1..], states, version, deadline)
  }

  /**
   Which answer it is: the first poll that does not let the wait go on answers OK if it matches, with its own lookup
   error if it found no machine, and with a timeout if it only came too late; without one there is no answer yet.
   */
  lemma {:induction false} AnswerIff(polls: seq<Poll>, states: seq<string>, version: string, deadline: int)
    ensures
      var n, answer := FirstDecisive(polls, states, version, deadline), WaitOn(polls, states, version, deadline);
      && (answer == StillWaiting <==> n == |polls|)
      && (n < |polls| ==>
           && (answer == Reached <==> Matches(polls[n], states, version))
           && (answer.NotThere? <==> !Matches(polls[n], states, version) && polls[n].found.Err?)
           && (answer.NotThere? ==> polls[n].found == Err(answer.error))
           && (answer == TimedOut <==> !Matches(polls[n], states, version) && polls[n].found.Ok?))
    decreases polls
  {
    hide Matches;
    if polls != [] && Undecided(polls[0], states, version, deadline) {
      AnswerIff(polls[1..], states, version, deadline);
    }
  }

  /** One poll for one word matches the machine in the state of that name, whatever instance, and in no other. */
  lemma WordsMeanStates(m: Machine, now: int)
    ensures
      var p, s := Poll(Ok(m), now), m.state;
      && (Matches(p, ["created"], "") <==> s.Created?) && (Matches(p, ["started"], "") <==> s.Started?)
      && (Matches(p, ["stopped"], "") <==> s.Stopped?) && (Matches(p, ["suspended"], "") <==> s.Suspended?)
      && (Matches(p, ["failed"], "") <==> s.Failed?) && (Matches(p, ["creating"], "") <==> s.Creating?)
      && (Matches(p, ["starting"], "") <==> s.Starting?) && (Matches(p, ["stopping"], "") <==> s.Stopping?)
      && (Matches(p, ["restarting"], "") <==> s.Restarting?) && (Matches(p, ["suspending"], "") <==> s.Suspending?)
      && (Matches(p, ["updating"], "") <==> s.Updating?) && (Matches(p, ["replacing"], "") <==> s.Replacing?)
      && (Matches(p, ["destroying"], "") <==> s.Destroying?) && (Matches(p, ["destroyed"], "") <==> s.Destroyed?)
      && (Matches(p, ["replaced"], "") <==> s.Replaced?)
  {
    NamesAreTheseTexts(m.state);
  }

  lemma NamesAreTheseTexts(s: MachineState)
    ensures forall a: MachineState :: StateText(a) == StateText(s) ==> a == s
  {
    forall a: MachineState | StateText(a) == StateText(s)
      ensures a == s
    {
      StateTextIsInjective(a, s);
    }
  }

  /**
   More words match more, an instance id only narrows; a machine that is gone matches the one word for that, and a
   missing app none.
   */
  lemma MatchesByWordAndInstance(found: Result<Machine>, now: int, states: seq<string>, more: seq<string>,
                                 version: string)
    ensures
      var p := Poll(found, now);
      && (Matches(p, states + more, version) <==> Matches(p, states, version) || Matches(p, more, version))
      && !Matches(p, [], version)
      && (found.Ok? ==>
           (Matches(p, states, version) <==>
            Matches(p, states, "") && (version == "" || found.value.instanceID == version)))
      && (found == Err(MachineNotFound) ==> (Matches(p, states, version) <==> "destroyed" in states))
      && (found == Err(AppNotFound) ==> !Matches(p, states, version))
  {
    hide StateText;
    if found.Err? {
      assert StateText(Destroyed) == "destroyed" by { DestroyedText(); }
    }
  }

  lemma DestroyedText()
    ensures StateText(Destroyed) == "destroyed"
  {
  }

  /** A target held from some moment not after the deadline is never reported as a timeout. */
  lemma HeldTargetNeverTimesOut(polls: seq<Poll>, states: seq<string>, version: string, deadline: int, since: int)
    requires since <= deadline
    requires forall i :: 0 <= i < |polls| && since <= polls[i].now ==> Matches(polls[i], states, version)
    ensures WaitOn(polls, states, version, deadline) != TimedOut
  {
    if WaitOn(polls, states, version, deadline) == TimedOut {
      var n := AnswerHasAPoll(polls, states, version, deadline);
    }
  }

  /** ... and if the machine is there throughout, one poll from that moment on is enough for OK. */
  lemma {:induction false} HeldTargetIsReached(polls: seq<Poll>, states: seq<string>, version: string, deadline: int,
                                               since: int)
    requires since <= deadline && polls != [] && since <= polls[|polls| - 1].now
    requires forall i :: 0 <= i < |polls| && since <= polls[i].now ==> Matches(polls[i], states, version)
    requires forall i :: 0 <= i < |polls| && polls[i].now < since ==> polls[i].found.Ok?
    ensures WaitOn(polls, states, version, deadline) == Reached
    decreases polls
  {
    if Decide(polls[0], states, version, deadline) == StillWaiting {
      var rest := polls[1..];
      assert polls[0].now < since;
      assert forall i :: 0 <= i < |rest| ==> rest[i] == polls[i + 1];
      assert rest[|rest| - 1] == polls[|polls| - 1];
      HeldTargetIsReached(rest, states, version, deadline, since);
    }
  }

  /** When every poll finds the clock advanced by at least `tick`, the loop ends within timeout / tick + 2 polls. */
  lemma {:induction false} WaitTerminates(polls: seq<Poll>, states: seq<string>, version: string, deadline: int,
                                          tick: int)
    requires 0 < tick && polls != []
    requires forall i :: 0 < i < |polls| ==> polls[i - 1].now + tick <= polls[i].now
    requires deadline < polls[0].now + (|polls| - 1) * tick
    ensures WaitOn(polls, states, version, deadline) != StillWaiting
    decreases polls
  {
    if Decide(polls[0], states, version, deadline) == StillWaiting {
      var rest := polls[1..];
      if |polls| > 1 {
        assert forall i :: 0 <= i < |rest| ==> rest[i] == polls[i + 1];
        assert (|polls| - 1) * tick == tick + (|rest| - 1) * tick;
        WaitTerminates(rest, states, version, deadline, tick);
      }
    }
  }

  // ---- polls of the emulator ----

  function Observe(s: Sys, k: Key): Poll {
    Poll(Lookup(s.w.apps, k), s.w.clk.now)
  }

  ghost predicate LegalGaps(s: Sys, gaps: seq<seq<Step>>, o: Options)
    decreases gaps
  {
    gaps == [] || (LegalRun(s, gaps[0], o) && LegalGaps(Run(s, gaps[0], o), gaps[1..], o))
  }

  /** The polls of a wait on the running emulator: one after each stretch of other activity. */
  function Observations(s: Sys, gaps: seq<seq<Step>>, o: Options, k: Key): seq<Poll>
    requires LegalGaps(s, gaps, o)
    decreases gaps
  {
    if gaps == [] then []
    else [Observe(Run(s, gaps[0], o), k)] + Observations(Run(s, gaps[0], o), gaps[1..], o, k)
  }

  lemma FirstObservation(s: Sys, gaps: seq<seq<Step>>, o: Options, k: Key, states: seq<string>, version: string,
                         deadline: int)
    requires gaps != [] && LegalGaps(s, gaps, o)
    ensures
      var s' := Run(s, gaps[0], o);
      var first := Decide(Observe(s', k), states, version, deadline);
      WaitOn(Observations(s, gaps, o, k), states, version, deadline)
      == if first != StillWaiting then first
         else WaitOn(Observations(s', gaps[1..], o, k), states, version, deadline)
  {
    hide LegalRun, Run, Decide;
    var polls := Observations(s, gaps, o, k);
    assert polls[1..] == Observations(Run(s, gaps[0], o), gaps[1..], o, k);
  }

  lemma NoObservation(s: Sys, o: Options, k: Key, states: seq<string>, version: string, deadline: int)
    ensures WaitOn(Observations(s, [], o, k), states, version, deadline) == StillWaiting
  {
  }

  lemma StateTextIsInjective(a: MachineState, b: MachineState)
    ensures StateText(a) == StateText(b) ==> a == b
  {
    assert |"created"| == 7 && |"started"| == 7 && |"stopped"| == 7 && |"updating"| == 8 && |"starting"| == 8;
  }

  /** Superseded ids stay in the history, below its end. */
  ghost predicate Superseded(s: Sys, k: Key, stale: string) {
    && Good(s) && k.id in s.used
    && (Lookup(s.w.apps, k).Ok? ==>
         var m := Lookup(s.w.apps, k).value;
         exists n :: 0 <= n < |m.versions| - 1 && m.versions[n].instanceID == stale)
  }

  lemma {:induction false} SupersededAfterRun(s: Sys, steps: seq<Step>, o: Options, k: Key, stale: string)
    requires Superseded(s, k, stale) && LegalRun(s, steps, o)
    ensures Superseded(Run(s, steps, o), k, stale)
    decreases steps
  {
    if steps != [] {
      var s' := Exec(s, steps[0], o);
      GoodAfterStep(s, steps[0], o);
      assert k.id in s'.used;
      if Lookup(s.w.apps, k).Ok? {
        StepGrows(s, steps[0], o, k);
        var m := Lookup(s.w.apps, k).value;
        var n :| 0 <= n < |m.versions| - 1 && m.versions[n].instanceID == stale;
        assert Lookup(s'.w.apps, k).Ok? ==> Lookup(s'.w.apps, k).value.versions[n].instanceID == stale;
      } else {
        StepKeepsAbsent(s, steps[0], o, k);
      }
      SupersededAfterRun(s', steps[1..], o, k, stale);
    }
  }

  lemma SupersededIsNotCurrent(s: Sys, k: Key, stale: string)
    requires Superseded(s, k, stale) && Lookup(s.w.apps, k).Ok?
    ensures Lookup(s.w.apps, k).value.instanceID != stale
  {
    assert MachineOK(k, Lookup(s.w.apps, k).value, s.used);
  }

  /** The one way a poll can match a superseded id: the machine is gone and `destroyed` is waited for. */
  predicate OnlyAsGone(p: Poll, states: seq<string>, version: string) {
    Matches(p, states, version) ==> p.found == Err(MachineNotFound) && StateText(Destroyed) in states
  }

  lemma {:induction false} SupersededObservations(s: Sys, gaps: seq<seq<Step>>, o: Options, k: Key, stale: string,
                                                  states: seq<string>)
    requires Superseded(s, k, stale) && LegalGaps(s, gaps, o) && stale != ""
    ensures forall p :: p in Observations(s, gaps, o, k) ==> OnlyAsGone(p, states, stale)
    decreases gaps
  {
    if gaps != [] {
      var s' := Run(s, gaps[0], o);
      SupersededAfterRun(s, gaps[0], o, k, stale);
      if Lookup(s'.w.apps, k).Ok? {
        SupersededIsNotCurrent(s', k, stale);
      }
      assert OnlyAsGone(Observe(s', k), states, stale);
      SupersededObservations(s', gaps[1..], o, k, stale, states);
    }
  }

  /** What an accepted update leaves in the store. */
  lemma UpdateChurns(w: World, r: Request, o: Options)
    requires r.UpdateMachine? && Handle(w, r, o).resp.MachineIs?
    ensures Lookup(w.apps, r.k).Ok?
    ensures Lookup(Handle(w, r, o).w.apps, r.k)
            == Ok(Mutate(Lookup(w.apps, r.k).value, Churn(r.config, r.name, r.instance, w.clk.now)))
  {
    hide Mutate;
    LookupPut(w.apps, r.k, Mutate(Lookup(w.apps, r.k).value, Churn(r.config, r.name, r.instance, w.clk.now)));
  }

  /** An accepted update supersedes the id that was current. */
  lemma UpdateSupersedes(s: Sys, r: Request, o: Options)
    requires Good(s) && r.UpdateMachine? && Enabled(s, Req(r)) && Handle(s.w, r, o).resp.MachineIs?
    ensures Lookup(s.w.apps, r.k).Ok?
    ensures Superseded(Exec(s, Req(r), o), r.k, Lookup(s.w.apps, r.k).value.instanceID)
  {
    hide Handle, Lookup;
    UpdateChurns(s.w, r, o);
    var m, s1 := Lookup(s.w.apps, r.k).value, Exec(s, Req(r), o);
    assert MachineOK(r.k, m, s.used);
    GoodAfterStep(s, Req(r), o);
    var n := |m.versions| - 1;
    assert Lookup(s1.w.apps, r.k).value.versions[n].instanceID == m.instanceID;
  }

  lemma CurrentIsMinted(s: Sys, k: Key)
    requires Good(s) && Lookup(s.w.apps, k).Ok?
    ensures Lookup(s.w.apps, k).value.instanceID in s.used && Lookup(s.w.apps, k).value.instanceID != ""
  {
    var m := Lookup(s.w.apps, k).value;
    assert MachineOK(k, m, s.used);
    assert m.versions[|m.versions| - 1].instanceID in s.used;
  }

  /**
   A wait for the instance id an update has superseded never succeeds, except that a wait for `destroyed`
   succeeds once the machine is gone.
   */
  lemma SupersededWaitFails(s: Sys, r: Request, gaps: seq<seq<Step>>, o: Options, states: seq<string>, deadline: int)
    requires Good(s) && r.UpdateMachine? && Enabled(s, Req(r)) && Handle(s.w, r, o).resp.MachineIs?
    requires LegalGaps(Exec(s, Req(r), o), gaps, o)
    ensures Lookup(s.w.apps, r.k).Ok?
    ensures
      var stale := Lookup(s.w.apps, r.k).value.instanceID;
      var polls := Observations(Exec(s, Req(r), o), gaps, o, r.k);
      WaitOn(polls, states, stale, deadline) == Reached ==>
        StateText(Destroyed) in states && exists i :: 0 <= i < |polls| && polls[i].found == Err(MachineNotFound)
  {
    hide Observations, LegalGaps, WaitOn, Handle, Superseded, Lookup, Good;
    UpdateSupersedes(s, r, o);
    var s1, stale := Exec(s, Req(r), o), Lookup(s.w.apps, r.k).value.instanceID;
    CurrentIsMinted(s, r.k);
    SupersededObservations(s1, gaps, o, r.k, stale, states);
    var polls := Observations(s1, gaps, o, r.k);
    AnswersAreHonest(polls, states, stale, deadline);
    if WaitOn(polls, states, stale, deadline) == Reached {
      var i :| 0 <= i < |polls| && Matches(polls[i], states, stale);
      assert OnlyAsGone(polls[i], states, stale);
    }
  }

  /** In a reachable state a poll for `destroyed` matches only a machine that is gone. */
  lemma DestroyedMeansGone(s: Sys, o: Options, k: Key, version: string)
    requires Reachable(s, o) && Matches(Observe(s, k), [StateText(Destroyed)], version)
    ensures Lookup(s.w.apps, k) == Err(MachineNotFound)
  {
    ReachableIsGood(s, o);
    if Lookup(s.w.apps, k).Ok? {
      var m := Lookup(s.w.apps, k).value;
      assert MachineOK(k, m, s.used);
      StateTextIsInjective(m.state, Destroyed);
    }
  }

  /** ... and one for `started` only a machine whose current configuration boots: a failed deploy never reads as up. */
  lemma StartedIsTruthful(s: Sys, o: Options, k: Key, version: string)
    requires Reachable(s, o) && Matches(Observe(s, k), [StateText(Started)], version)
    ensures Lookup(s.w.apps, k).Ok? && !FailsToBoot(Lookup(s.w.apps, k).value.config)
  {
    ReachableIsGood(s, o);
    StateTextIsInjective(Destroyed, Started);
    if Lookup(s.w.apps, k).Ok? {
      var m := Lookup(s.w.apps, k).value;
      assert MachineOK(k, m, s.used);
      StateTextIsInjective(m.state, Started);
    }
  }
}
