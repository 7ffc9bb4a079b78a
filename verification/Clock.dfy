/** The fake clock, as the object it is: a reading and a growing list of timers mutated in place. */
module Clock {
  import opened Flaps
  import opened Callbacks
  import Q = EventQueue

  /** The first instant of 2025 (UTC), in nanoseconds since 1970. */
  const EPOCH: int := 1_735_689_600 * 1_000_000_000

  class FakeTimer {
    const deadline: int
    const fn: Callback
    var fired: bool
    var stopped: bool

    constructor (deadline: int, fn: Callback)
      ensures Value() == Q.Timer(deadline, fn, false, false)
    {
      this.deadline, this.fn := deadline, fn;
      fired, stopped := false, false;
    }

    ghost function Value(): Q.Timer
      reads this
    {
      Q.Timer(deadline, fn, fired, stopped)
    }

    /** Cancels the timer, reporting whether it did so before it fired. */
    method Stop() returns (ok: bool)
      modifies `stopped
      ensures ok == old(Value()).Live()
      ensures Value() == if ok then old(Value()).(stopped := true) else old(Value())
    {
      if fired || stopped {
        return false;
      }
      stopped := true;
      return true;
    }
  }

  class Fake {
    var now: int
    var timers: seq<FakeTimer>

    ghost predicate Valid()
      reads this
    {
      forall i, j :: 0 <= i < j < |timers| ==> timers[i] != timers[j]
    }

    /** The clock and every timer it has ever registered. */
    ghost function Repr(): set<object>
      reads this
    {
      {this} + (set t: FakeTimer | t in timers)
    }

    ghost function Value(): Q.Queue
      reads this, timers
    {
      Q.Queue(now, seq(|timers|, i requires 0 <= i < |timers| reads this, timers => timers[i].Value()))
    }

    /** A zero start, which is None here, stands for a fixed epoch. */
    constructor (start: Option<int>)
      ensures Valid() && Value() == Q.Queue(if start.Some? then start.value else EPOCH, []) && Repr() == {this}
    {
      now, timers := if start == None then EPOCH else start.value, [];
    }

    method AfterFunc(d: int, fn: Callback) returns (t: FakeTimer)
      requires Valid()
      modifies this
      ensures Valid() && fresh(t) && timers == old(timers) + [t] && Repr() == old(Repr()) + {t}
      ensures Value() == Q.Register(old(Value()), d, fn)
    {
      t := new FakeTimer(now + d, fn);
      timers := timers + [t];
      assert timers[|timers| - 1] == t;
      assert forall i :: 0 <= i < |timers| - 1 ==> timers[i] == old(timers)[i];
    }

    /** The scan of one round of Advance: the earliest live timer not after the target, first registered first. */
    method Earliest(target: int) returns (next: int)
      ensures -1 <= next < |timers|
      ensures next == Q.Next(Value().timers, target)
    {
      next := -1;
      ghost var ts := Value().timers;
      for n := 0 to |timers|
        invariant next == Q.Next(ts[..n], target)
      {
        var t := timers[n];
        assert ts[..n + 1][..n] == ts[..n];
        if !t.fired && !t.stopped {
          if t.deadline <= target && (next < 0 || t.deadline < timers[next].deadline) {
            next := n;
          }
        }
      }
      assert ts[..|timers|] == ts;
    }

    /** Marks a timer fired and moves the clock to its deadline, ready for its callback to run. */
    method BeginFire(i: nat) returns (fn: Callback)
      requires Valid() && i < |timers|
      modifies this`now, timers[i]
      ensures timers == old(timers) && Valid() && fn == timers[i].fn
      ensures
        var t := old(Value()).timers[i];
        Value() == Q.Queue(t.deadline, old(Value()).timers[i := t.(fired := true)])
    {
      var next := timers[i];
      next.fired := true;
      now := next.deadline;
      fn := next.fn;
      assert Value().timers == old(Value()).timers[i := old(Value()).timers[i].(fired := true)];
    }

    /** The last step of Advance: the clock ends exactly at its target. */
    method MoveTo(target: int)
      modifies `now
      ensures Value() == old(Value()).(now := target)
    {
      now := target;
    }

    /** Stop, called on the i-th registered timer. */
    method StopTimer(i: nat) returns (ok: bool)
      requires Valid() && i < |timers|
      modifies timers[i]
      ensures Valid() && ok == old(Value()).timers[i].Live()
      ensures Value() == Q.Stop(old(Value()), i)
    {
      ok := timers[i].Stop();
      assert Value().timers == Q.Stop(old(Value()), i).timers;
    }
  }
}
