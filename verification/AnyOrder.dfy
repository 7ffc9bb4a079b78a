/**
 Which request decides where a machine ends when pending callbacks may fire in any order: the last accepted one for
 certain, exactly if every callback pending from before leads to the same place.
 */
module AnyOrder {
  import opened Flaps
  import opened Callbacks
  import opened EventQueue
  import opened Emulator
  import opened Runs
  import opened Invariants
  import opened Safety
  import opened History
  import opened Fates
  import opened LastRequest

  /** The callback leads where the request does, whatever the configuration. */
  predicate LeadsAlike(fn: Callback, r: Request)
    requires r.Act? || r.UpdateMachine?
  {
    !fn.Reap? && Goal(fn, None) == Target(r, None)
  }

  lemma AlikeForEveryConfig(fn: Callback, r: Request, c: Option<Config>)
    requires (r.Act? || r.UpdateMachine?) && !fn.Reap?
    ensures LeadsAlike(fn, r) <==> Goal(fn, c) == Target(r, c)
  {
  }

  ghost predicate AllAlike(ts: seq<Timer>, k: Key, r: Request)
    requires r.Act? || r.UpdateMachine?
  {
    forall j :: 0 <= j < |ts| && ts[j].Live() && ts[j].fn.key == k ==> LeadsAlike(ts[j].fn, r)
  }

  predicate AtTarget(w: World, k: Key, r: Request)
    requires r.Act? || r.UpdateMachine?
  {
    var found := Lookup(w.apps, k);
    found.Ok? && found.value.state == Target(r, found.value.config)
  }

  /** Once nothing of the machine's is pending, it is in the request's target; in any order, however long it takes. */
  ghost predicate Certain(s: Sys, r: Request, o: Options, k: Key)
    requires r.Act? || r.UpdateMachine?
  {
    forall steps ::
      LegalRun(s, steps, o) && Undisturbed(s, steps, o, k) && NoneLiveFor(Run(s, steps, o).w.clk.timers, k) ==>
        AtTarget(Run(s, steps, o).w, k, r)
  }

  // ---- all alike: it is certain ----

  /** There, with only like callbacks pending; and if none, in the target already. */
  ghost predicate OnCourse(w: World, k: Key, r: Request)
    requires r.Act? || r.UpdateMachine?
  {
    Lookup(w.apps, k).Ok? && AllAlike(w.clk.timers, k, r) && (NoneLiveFor(w.clk.timers, k) ==> AtTarget(w, k, r))
  }

  lemma OnCourseAfterFireElsewhere(w: World, i: nat, at: int, o: Options, k: Key, r: Request)
    requires (r.Act? || r.UpdateMachine?) && OnCourse(w, k, r)
    requires i < |w.clk.timers| && w.clk.timers[i].Live() && w.clk.timers[i].fn.key != k
    ensures OnCourse(FireAt(w, i, at, o), k, r)
  {
    var ts, ts' := w.clk.timers, FireAt(w, i, at, o).clk.timers;
    RunCallbackFrame(w.apps, ts[i].fn);
    FireShape(w.clk, i, at, o.delays);
    assert forall j :: 0 <= j < |ts| && j != i ==> ts'[j] == ts[j];
  }

  lemma OnCourseAfterOwnFire(w: World, i: nat, at: int, o: Options, k: Key, r: Request)
    requires (r.Act? || r.UpdateMachine?) && OnCourse(w, k, r)
    requires i < |w.clk.timers| && w.clk.timers[i].Live() && w.clk.timers[i].fn.key == k
    ensures OnCourse(FireAt(w, i, at, o), k, r)
  {
    var fn, w' := w.clk.timers[i].fn, FireAt(w, i, at, o);
    assert LeadsAlike(fn, r);
    LookupUpdate(w.apps, k, Effect(fn));
    FireShape(w.clk, i, at, o.delays);
    AlikeForEveryConfig(fn, r, Lookup(w.apps, k).value.config);
    if fn.BootFirst? {
      assert w'.clk.timers[|w.clk.timers|] == Timer(at + o.delays.start, BootSettle(k), false, false);
    }
  }

  lemma {:induction false} OnCourseAfterAdvance(w: World, target: int, o: Options, k: Key, r: Request)
    requires (r.Act? || r.UpdateMachine?) && OnCourse(w, k, r)
    ensures OnCourse(AdvanceWorld(w, target, o), k, r)
    decreases Weight(w.clk.timers)
  {
    hide OnCourse;
    var i := Next(w.clk.timers, target);
    if i < 0 {
      OnCourseIgnoresNow(w, target, k, r);
    } else {
      OnCourseAfterFire(w, i, w.clk.timers[i].deadline, o, k, r);
      FireDecreasesWeight(w.clk, i, w.clk.timers[i].deadline, o.delays);
      OnCourseAfterAdvance(FireAt(w, i, w.clk.timers[i].deadline, o), target, o, k, r);
    }
  }

  lemma OnCourseIgnoresNow(w: World, now: int, k: Key, r: Request)
    requires (r.Act? || r.UpdateMachine?) && OnCourse(w, k, r)
    ensures OnCourse(w.(clk := w.clk.(now := now)), k, r)
  {
  }

  lemma OnCourseAfterFire(w: World, i: nat, at: int, o: Options, k: Key, r: Request)
    requires (r.Act? || r.UpdateMachine?) && OnCourse(w, k, r)
    requires i < |w.clk.timers| && w.clk.timers[i].Live()
    ensures OnCourse(FireAt(w, i, at, o), k, r)
  {
    hide OnCourse;
    if w.clk.timers[i].fn.key == k {
      OnCourseAfterOwnFire(w, i, at, o, k, r);
    } else {
      OnCourseAfterFireElsewhere(w, i, at, o, k, r);
    }
  }

  lemma OnCourseAfterNeutral(w: World, q: Request, o: Options, k: Key, r: Request)
    requires (r.Act? || r.UpdateMachine?) && OnCourse(w, k, r) && Neutral(w, q, o, k)
    ensures OnCourse(Handle(w, q, o).w, k, r)
  {
    hide Handle, Neutral, Unpullable;
    NeutralKeepsCourse(w, q, o, k);
    NeutralRegistersElsewhere(w, q, o, k);
    var ts, ts' := w.clk.timers, Handle(w, q, o).w.clk.timers;
    if NoneLiveFor(ts', k) {
      forall j | 0 <= j < |ts|
        ensures !(ts[j].Live() && ts[j].fn.key == k)
      {
        assert ts[j].fn.key == k ==> ts'[j] == ts[j];
      }
    }
  }

  lemma {:induction false} OnCourseAfterRun(s: Sys, steps: seq<Step>, o: Options, k: Key, r: Request)
    requires (r.Act? || r.UpdateMachine?) && OnCourse(s.w, k, r)
    requires LegalRun(s, steps, o) && Undisturbed(s, steps, o, k)
    ensures OnCourse(Run(s, steps, o).w, k, r)
    decreases steps
  {
    hide Handle, AdvanceWorld, FireAt, OnCourse, Neutral;
    if steps != [] {
      match steps[0] {
        case Req(q) => OnCourseAfterNeutral(s.w, q, o, k, r);
        case Advance(amount) => OnCourseAfterAdvance(s.w, s.w.clk.now + amount, o, k, r);
        case Tick(to) => OnCourseIgnoresNow(s.w, to, k, r);
        case FireAny(i, at) => OnCourseAfterFire(s.w, i, at, o, k, r);
      }
      OnCourseAfterRun(Exec(s, steps[0], o), steps[1..], o, k, r);
    }
  }

  // ---- one unlike: it may be the last to fire ----

  /** Not in the target, or about not to be. */
  ghost predicate OffCourse(w: World, k: Key, r: Request)
    requires r.Act? || r.UpdateMachine?
  {
    || (Lookup(w.apps, k).Ok? && !AllAlike(w.clk.timers, k, r))
    || (NoneLiveFor(w.clk.timers, k) && !AtTarget(w, k, r))
    || !Lookup(w.apps, k).Ok?
  }

  /** A live timer of k's to fire next: another than x as long as there is one. */
  ghost predicate Choice(ts: seq<Timer>, k: Key, x: nat, i: nat)
    requires x < |ts|
  {
    && i < |ts| && ts[i].Live() && ts[i].fn.key == k
    && (i == x ==> forall j :: 0 <= j < |ts| && j != x ==> !(ts[j].Live() && ts[j].fn.key == k))
  }

  /** Fired last of all, an unlike callback leaves the machine elsewhere; fired earlier, it is a reap's work. */
  lemma OffCourseAfterChoice(w: World, x: nat, i: nat, at: int, o: Options, k: Key, r: Request)
    requires (r.Act? || r.UpdateMachine?) && Lookup(w.apps, k).Ok?
    requires x < |w.clk.timers| && w.clk.timers[x].Live() && w.clk.timers[x].fn.key == k
    requires !LeadsAlike(w.clk.timers[x].fn, r)
    requires Choice(w.clk.timers, k, x, i)
    ensures OffCourse(FireAt(w, i, at, o), k, r)
  {
    var ts, fn, w' := w.clk.timers, w.clk.timers[i].fn, FireAt(w, i, at, o);
    FireShape(w.clk, i, at, o.delays);
    RunCallbackFrame(w.apps, fn);
    if !fn.Reap? {
      LookupUpdate(w.apps, k, Effect(fn));
      AlikeForEveryConfig(fn, r, Lookup(w.apps, k).value.config);
      if i != x {
        assert w'.clk.timers[x] == ts[x];
      } else if fn.BootFirst? {
        assert w'.clk.timers[|ts|] == Timer(at + o.delays.start, BootSettle(k), false, false);
      } else {
        assert forall j :: 0 <= j < |ts| ==> !(w'.clk.timers[j].Live() && w'.clk.timers[j].fn.key == k);
      }
    }
  }

  /** Firing k's callbacks one by one, an unlike one last, ends off course with none of them pending. */
  lemma {:induction false} DrainsOffCourse(s: Sys, o: Options, k: Key, r: Request) returns (steps: seq<Step>)
    requires (r.Act? || r.UpdateMachine?) && OffCourse(s.w, k, r)
    ensures LegalRun(s, steps, o) && Undisturbed(s, steps, o, k)
    ensures NoneLiveFor(Run(s, steps, o).w.clk.timers, k) && !AtTarget(Run(s, steps, o).w, k, r)
    decreases Weight(s.w.clk.timers)
  {
    var ts := s.w.clk.timers;
    if NoneLiveFor(ts, k) {
      steps := [];
    } else {
      hide OffCourse, FireAt;
      var i := PickNext(s.w, o, k, r);
      var step := FireAny(i, s.w.clk.now);
      FireDecreasesWeight(s.w.clk, i, s.w.clk.now, o.delays);
      assert Exec(s, step, o).w == FireAt(s.w, i, s.w.clk.now, o);
      FireAtClock(s.w, i, s.w.clk.now, o);
      var rest := DrainsOffCourse(Exec(s, step, o), o, k, r);
      steps := [step] + rest;
      assert steps[1..] == rest;
    }
  }

  lemma FireAtClock(w: World, i: nat, at: int, o: Options)
    requires i < |w.clk.timers|
    ensures FireAt(w, i, at, o).clk == Fire(w.clk, i, at, o.delays)
  {
  }

  lemma PickNext(w: World, o: Options, k: Key, r: Request) returns (i: nat)
    requires (r.Act? || r.UpdateMachine?) && OffCourse(w, k, r) && !NoneLiveFor(w.clk.timers, k)
    ensures i < |w.clk.timers| && w.clk.timers[i].Live() && OffCourse(FireAt(w, i, w.clk.now, o), k, r)
  {
    var ts := w.clk.timers;
    if Lookup(w.apps, k).Ok? {
      var x: nat :| x < |ts| && ts[x].Live() && ts[x].fn.key == k && !LeadsAlike(ts[x].fn, r);
      if j: nat :| j < |ts| && j != x && ts[j].Live() && ts[j].fn.key == k {
        i := j;
      } else {
        i := x;
      }
      OffCourseAfterChoice(w, x, i, w.clk.now, o, k, r);
    } else {
      i :| 0 <= i < |ts| && ts[i].Live() && ts[i].fn.key == k;
      RunCallbackFrame(w.apps, ts[i].fn);
    }
  }

  /**
   In any firing order: after an accepted request, with only neutral or refused ones since, the machine is certain
   to be in its target once nothing of it is pending, if and only if every callback pending for it at the request
   leads to the same place. A reap leads nowhere.
   */
  lemma LastRequestIsCertainIff(s: Sys, r: Request, o: Options, k: Key)
    requires Good(s) && Enabled(s, Req(r)) && AcceptedCourse(s.w, r, o, k)
    ensures Certain(Exec(s, Req(r), o), r, o, k) <==> AllAlike(s.w.clk.timers, k, r)
  {
    hide Handle, LegalRun, Run, Undisturbed, Lookup;
    CourseOnClock(s.w, r, o, k);
    var s1, ts, b := Exec(s, Req(r), o), s.w.clk.timers, Booking(r, o).value;
    var n := |ts|;
    assert s1.w.clk.timers[n] == Timer(s.w.clk.now + b.delay, b.fn, false, false) && LeadsAlike(b.fn, r);
    assert forall j :: 0 <= j < n ==> s1.w.clk.timers[j] == ts[j];
    if AllAlike(ts, k, r) {
      assert OnCourse(s1.w, k, r);
      forall steps | LegalRun(s1, steps, o) && Undisturbed(s1, steps, o, k)
                     && NoneLiveFor(Run(s1, steps, o).w.clk.timers, k)
        ensures AtTarget(Run(s1, steps, o).w, k, r)
      {
        OnCourseAfterRun(s1, steps, o, k, r);
      }
    } else {
      var steps := DrainsOffCourse(s1, o, k, r);
    }
  }
}
