/**
 What a whole run of the fake clock fires, and in which order: any interleaving of AfterFunc,
 Stop and Advance, callbacks that register callbacks included.
 */
module FiringLog {
  import opened Callbacks
  import opened EventQueue

  datatype Op = AfterFunc(delay: int, fn: Callback) | StopTimer(i: nat) | Advance(amount: int)

  /** A clock together with everything it has fired so far. */
  datatype Trace = Trace(q: Queue, log: seq<Shot>)

  predicate Legal(tr: Trace, op: Op) {
    match op
    case AfterFunc(delay, _) => 0 <= delay
    case StopTimer(i) => i < |tr.q.timers|
    case Advance(amount) => 0 <= amount
  }

  function Exec(tr: Trace, op: Op, d: Delays): Trace
    requires Legal(tr, op)
  {
    match op
    case AfterFunc(delay, fn) => tr.(q := Register(tr.q, delay, fn))
    case StopTimer(i) => tr.(q := Stop(tr.q, i))
    case Advance(amount) =>
      var target := tr.q.now + amount;
      Trace(AdvanceTo(tr.q, target, d), tr.log + Shots(tr.q, target, d))
  }

  predicate LegalRun(tr: Trace, ops: seq<Op>, d: Delays)
    decreases ops
  {
    ops == [] || (Legal(tr, ops[0]) && LegalRun(Exec(tr, ops[0], d), ops[1..], d))
  }

  function Run(tr: Trace, ops: seq<Op>, d: Delays): Trace
    requires LegalRun(tr, ops, d)
    decreases ops
  {
    if ops == [] then tr else Run(Exec(tr, ops[0], d), ops[1..], d)
  }

  // ---- the order of the log ----

  predicate ShotBefore(a: Shot, b: Shot) {
    a.deadline < b.deadline || (a.deadline == b.deadline && a.index < b.index)
  }

  predicate ShotBeforeTimer(a: Shot, ts: seq<Timer>, j: nat)
    requires j < |ts|
  {
    a.deadline < ts[j].deadline || (a.deadline == ts[j].deadline && a.index < j)
  }

  /** Every logged firing is a timer marked fired and never stopped. */
  ghost predicate LogIsFired(ts: seq<Timer>, log: seq<Shot>) {
    forall n :: 0 <= n < |log| ==>
      log[n].index < |ts| && ts[log[n].index] == Timer(log[n].deadline, log[n].fn, true, false)
  }

  /** Every fired timer has been logged. */
  ghost predicate FiredIsLogged(ts: seq<Timer>, log: seq<Shot>) {
    forall j :: 0 <= j < |ts| && ts[j].fired ==> Shot(j, ts[j].deadline, ts[j].fn) in log
  }

  ghost predicate Ordered(log: seq<Shot>) {
    forall m, n :: 0 <= m < n < |log| ==> ShotBefore(log[m], log[n])
  }

  /** Everything still to fire comes after everything fired, and not before the clock. */
  ghost predicate LogPrecedesLive(q: Queue, log: seq<Shot>) {
    && (forall n, j :: 0 <= n < |log| && 0 <= j < |q.timers| && q.timers[j].Live() ==>
         ShotBeforeTimer(log[n], q.timers, j))
    && (forall n :: 0 <= n < |log| ==> log[n].deadline <= q.now)
  }

  ghost predicate Good(tr: Trace) {
    && LogIsFired(tr.q.timers, tr.log) && FiredIsLogged(tr.q.timers, tr.log)
    && Ordered(tr.log) && LogPrecedesLive(tr.q, tr.log) && NotOverdue(tr.q)
  }

  lemma GoodAfterRegister(tr: Trace, delay: int, fn: Callback)
    requires Good(tr) && 0 <= delay
    ensures Good(tr.(q := Register(tr.q, delay, fn)))
  {
    var ts := Register(tr.q, delay, fn).timers;
    forall j | 0 <= j < |ts| && ts[j].fired
      ensures Shot(j, ts[j].deadline, ts[j].fn) in tr.log
    {
      assert ts[j] == tr.q.timers[j];
    }
  }

  lemma GoodAfterStop(tr: Trace, i: nat)
    requires Good(tr) && i < |tr.q.timers|
    ensures Good(tr.(q := Stop(tr.q, i)))
  {
    var ts := Stop(tr.q, i).timers;
    forall j | 0 <= j < |ts| && ts[j].fired
      ensures Shot(j, ts[j].deadline, ts[j].fn) in tr.log
    {
      assert ts[j] == tr.q.timers[j];
    }
  }

  /** Firing the selected timer appends the one entry that keeps the log in order. */
  lemma GoodAfterMark(tr: Trace, i: nat, target: int)
    requires Good(tr) && IsNext(tr.q.timers, target, i)
    ensures
      var t := tr.q.timers[i];
      Good(Trace(Queue(t.deadline, tr.q.timers[i := t.(fired := true)]), tr.log + [Shot(i, t.deadline, t.fn)]))
  {
    var t := tr.q.timers[i];
    var ts := tr.q.timers[i := t.(fired := true)];
    var log := tr.log + [Shot(i, t.deadline, t.fn)];
    assert t.Live();
    forall j | 0 <= j < |ts| && ts[j].fired
      ensures Shot(j, ts[j].deadline, ts[j].fn) in log
    {
      if j == i {
        assert log[|log| - 1] == Shot(j, ts[j].deadline, ts[j].fn);
      } else {
        assert ts[j] == tr.q.timers[j];
        var n :| 0 <= n < |tr.log| && tr.log[n] == Shot(j, ts[j].deadline, ts[j].fn);
        assert log[n] == tr.log[n];
      }
    }
    forall n, j | 0 <= n < |log| && 0 <= j < |ts| && ts[j].Live()
      ensures ShotBeforeTimer(log[n], ts, j)
    {
      assert ts[j] == tr.q.timers[j];
      if n < |tr.log| {
        assert ShotBeforeTimer(tr.log[n], tr.q.timers, j);
      } else if Due(ts[j], target) {
        assert Precedes(tr.q.timers, i, j);
      }
    }
    forall n | 0 <= n < |log|
      ensures log[n].index < |ts| && ts[log[n].index] == Timer(log[n].deadline, log[n].fn, true, false)
    {
      if n < |tr.log| {
        assert tr.log[n].index != i;
      }
    }
    forall j | 0 <= j < |ts| && ts[j].Live()
      ensures t.deadline <= ts[j].deadline
    {
      assert ts[j] == tr.q.timers[j];
      if Due(ts[j], target) {
        assert Precedes(tr.q.timers, i, j);
      }
    }
  }

  lemma GoodAfterFire(tr: Trace, i: nat, target: int, d: Delays)
    requires Good(tr) && IsNext(tr.q.timers, target, i) && 0 <= d.start
    ensures Good(Trace(FireNext(tr.q, i, d), tr.log + [Shot(i, tr.q.timers[i].deadline, tr.q.timers[i].fn)]))
  {
    var t := tr.q.timers[i];
    var marked := Trace(Queue(t.deadline, tr.q.timers[i := t.(fired := true)]), tr.log + [Shot(i, t.deadline, t.fn)]);
    GoodAfterMark(tr, i, target);
    FireShape(tr.q, i, t.deadline, d);
    if t.fn.BootFirst? {
      GoodAfterRegister(marked, d.start, BootSettle(t.fn.key));
    } else {
      assert FireNext(tr.q, i, d) == marked.q;
    }
  }

  lemma {:induction false} GoodAfterAdvance(tr: Trace, target: int, d: Delays)
    requires Good(tr) && 0 <= d.start
    requires tr.q.now <= target
    ensures Good(Trace(AdvanceTo(tr.q, target, d), tr.log + Shots(tr.q, target, d)))
    decreases Weight(tr.q.timers)
  {
    var i := Next(tr.q.timers, target);
    NextIsFirst(tr.q.timers, target);
    if i < 0 {
      GoodAtTarget(tr, target);
      assert tr.log + [] == tr.log;
    } else {
      var s := Shot(i, tr.q.timers[i].deadline, tr.q.timers[i].fn);
      GoodAfterFire(tr, i, target, d);
      FireShape(tr.q, i, tr.q.timers[i].deadline, d);
      var fired := Trace(FireNext(tr.q, i, d), tr.log + [s]);
      GoodAfterAdvance(fired, target, d);
      assert (tr.log + [s]) + Shots(fired.q, target, d) == tr.log + ([s] + Shots(fired.q, target, d));
    }
  }

  lemma GoodAtTarget(tr: Trace, target: int)
    requires Good(tr) && IsNext(tr.q.timers, target, -1) && tr.q.now <= target
    ensures Good(tr.(q := tr.q.(now := target)))
  {
  }

  lemma GoodAfterExec(tr: Trace, op: Op, d: Delays)
    requires Good(tr) && Legal(tr, op) && d.NonNegative()
    ensures Good(Exec(tr, op, d))
  {
    match op
    case AfterFunc(delay, fn) => GoodAfterRegister(tr, delay, fn);
    case StopTimer(i) => GoodAfterStop(tr, i);
    case Advance(amount) => GoodAfterAdvance(tr, tr.q.now + amount, d);
  }

  /** The state of a timer only moves from live to fired or to stopped; the list only grows. */
  ghost predicate Evolves(ts: seq<Timer>, ts': seq<Timer>) {
    && |ts| <= |ts'|
    && forall j :: 0 <= j < |ts| ==>
         && ts'[j].deadline == ts[j].deadline && ts'[j].fn == ts[j].fn
         && (!ts[j].Live() ==> ts'[j] == ts[j])
  }

  lemma {:induction false} AdvanceEvolves(q: Queue, target: int, d: Delays)
    ensures Evolves(q.timers, AdvanceTo(q, target, d).timers)
    decreases Weight(q.timers)
  {
    var i := Next(q.timers, target);
    if 0 <= i {
      FireShape(q, i, q.timers[i].deadline, d);
      AdvanceEvolves(FireNext(q, i, d), target, d);
    }
  }

  /** Advance ends at its target with nothing live that is due. */
  lemma {:induction false} AdvanceCompletes(q: Queue, target: int, d: Delays)
    ensures AdvanceTo(q, target, d).now == target
    ensures forall j :: 0 <= j < |AdvanceTo(q, target, d).timers| ==> !Due(AdvanceTo(q, target, d).timers[j], target)
    decreases Weight(q.timers)
  {
    var i := Next(q.timers, target);
    if i < 0 {
      NextIsFirst(q.timers, target);
    } else {
      AdvanceCompletes(FireNext(q, i, d), target, d);
    }
  }

  /**
   Over any run: the log is strictly increasing in (deadline, registration index), so no timer fires
   twice; the fired timers are exactly the logged ones; nothing live is overdue; and a timer that was
   fired or stopped at the start of the run keeps that fate.
   */
  lemma {:induction false} RunIsOrdered(tr: Trace, ops: seq<Op>, d: Delays)
    requires Good(tr) && LegalRun(tr, ops, d) && d.NonNegative()
    ensures Good(Run(tr, ops, d))
    ensures Evolves(tr.q.timers, Run(tr, ops, d).q.timers)
    ensures tr.log <= Run(tr, ops, d).log
    decreases ops
  {
    if ops != [] {
      GoodAfterExec(tr, ops[0], d);
      if ops[0].Advance? {
        AdvanceEvolves(tr.q, tr.q.now + ops[0].amount, d);
      }
      RunIsOrdered(Exec(tr, ops[0], d), ops[1..], d);
    }
  }

  /** No timer fires twice over any run from a new clock. */
  lemma FiresAtMostOnce(now: int, ops: seq<Op>, d: Delays, m: nat, n: nat)
    requires LegalRun(Trace(Queue(now, []), []), ops, d) && d.NonNegative()
    requires m < n < |Run(Trace(Queue(now, []), []), ops, d).log|
    ensures
      var log := Run(Trace(Queue(now, []), []), ops, d).log;
      ShotBefore(log[m], log[n]) && log[m].index != log[n].index
  {
    RunIsOrdered(Trace(Queue(now, []), []), ops, d);
  }

  /** A timer whose Stop returned true never fires afterwards. */
  lemma StoppedNeverFires(tr: Trace, i: nat, ops: seq<Op>, d: Delays)
    requires Good(tr) && i < |tr.q.timers| && tr.q.timers[i].Live() && d.NonNegative()
    requires LegalRun(Exec(tr, StopTimer(i), d), ops, d)
    ensures
      var log := Run(Exec(tr, StopTimer(i), d), ops, d).log;
      forall n :: 0 <= n < |log| ==> log[n].index != i
  {
    var tr' := Exec(tr, StopTimer(i), d);
    GoodAfterExec(tr, StopTimer(i), d);
    RunIsOrdered(tr', ops, d);
  }
}
