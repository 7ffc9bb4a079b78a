/**
 What every reachable state satisfies, whatever the requests and whatever order pending callbacks
 fire in: version history, agreement of machine and version state, the boot verdict, progress.
 */
module Invariants {
  import opened Flaps
  import opened Callbacks
  import opened EventQueue
  import opened Emulator
  import opened Runs

  // ---- one machine ----

  /** The history is non-empty, current, replaced everywhere but at its end, and free of repeats. */
  ghost predicate HistoryOK(m: Machine) {
    && |m.versions| > 0
    && m.versions[|m.versions| - 1].instanceID == m.instanceID
    && m.versions[|m.versions| - 1].state != Replaced
    && (forall n :: 0 <= n < |m.versions| - 1 ==> m.versions[n].state == Replaced)
    && (forall p, q :: 0 <= p < q < |m.versions| ==> m.versions[p].instanceID != m.versions[q].instanceID)
  }

  /** The machine and its last version disagree only while a client operation is in flight. */
  predicate AgreementOK(m: Machine)
    requires |m.versions| > 0
  {
    m.state == m.versions[|m.versions| - 1].state
    || m.state.Starting? || m.state.Stopping? || m.state.Restarting? || m.state.Suspending? || m.state.Destroying?
  }

  predicate VerdictOK(m: Machine) {
    && (m.state == Started ==> !FailsToBoot(m.config))
    && (m.state == Failed ==> FailsToBoot(m.config))
  }

  ghost predicate MachineOK(k: Key, m: Machine, used: set<string>) {
    && m.id == k.id && k.id in used && NoSlash(k.id)
    && HistoryOK(m) && (forall n :: 0 <= n < |m.versions| ==> m.versions[n].instanceID in used)
    && AgreementOK(m) && VerdictOK(m)
    && (Resting(m.state) || Transient(m.state))
  }

  // ---- progress ----

  /** The callback that ends a transient state. */
  function Rescue(k: Key, s: MachineState): Callback
    requires Transient(s)
  {
    match s
    case Creating => BootFirst(k)
    case Starting => BootSettle(k)
    case Restarting => BootSettle(k)
    case Replacing => BootSettle(k)
    case Stopping => StopEnd(k)
    case Suspending => SuspendEnd(k)
    case Destroying => Reap(k)
  }

  ghost predicate Pending(ts: seq<Timer>, fn: Callback) {
    exists j :: 0 <= j < |ts| && ts[j].Live() && ts[j].fn == fn
  }

  ghost predicate Progressing(k: Key, m: Machine, ts: seq<Timer>) {
    Transient(m.state) ==> Pending(ts, Rescue(k, m.state))
  }

  ghost predicate Good(s: Sys) {
    && (forall k :: Lookup(s.w.apps, k).Ok? ==> MachineOK(k, Lookup(s.w.apps, k).value, s.used))
    && (forall k :: Lookup(s.w.apps, k).Ok? ==> Progressing(k, Lookup(s.w.apps, k).value, s.w.clk.timers))
    && (forall j :: 0 <= j < |s.w.clk.timers| ==> s.w.clk.timers[j].fn.key.id in s.used)
    && "" !in s.used
  }

  // ---- store lemmas ----

  lemma LookupPut(apps: Apps, k: Key, m: Machine)
    requires k.app in apps
    ensures Lookup(Put(apps, k, m), k) == Ok(m)
    ensures forall x: Key :: x != k ==> Lookup(Put(apps, k, m), x) == Lookup(apps, x)
  {
    forall x: Key | x != k
      ensures Lookup(Put(apps, k, m), x) == Lookup(apps, x)
    {
      assert x.app != k.app || x.id != k.id;
    }
  }

  lemma LookupUpdate(apps: Apps, k: Key, f: Mutation)
    ensures
      Lookup(Update(apps, k, f), k) ==
      match Lookup(apps, k)
      case Ok(m) => Ok(Mutate(m, f))
      case Err(e) => Err(e)
    ensures forall x: Key :: x != k ==> Lookup(Update(apps, k, f), x) == Lookup(apps, x)
    ensures Update(apps, k, f).Keys == apps.Keys
  {
    if Lookup(apps, k).Ok? {
      LookupPut(apps, k, Mutate(Lookup(apps, k).value, f));
    }
  }

  lemma LookupRemove(apps: Apps, k: Key)
    ensures !Lookup(Remove(apps, k), k).Ok?
    ensures forall x: Key :: x != k ==> Lookup(Remove(apps, k), x) == Lookup(apps, x)
    ensures Remove(apps, k).Keys == apps.Keys
  {
    forall x: Key | x != k
      ensures Lookup(Remove(apps, k), x) == Lookup(apps, x)
    {
      assert x.app != k.app || x.id != k.id;
    }
  }

  /** The machines other than k's are the ones they were. */
  ghost predicate SameElsewhere(apps: Apps, apps': Apps, k: Key) {
    forall x: Key :: x != k ==> Lookup(apps', x) == Lookup(apps, x)
  }

  // ---- timers ----

  /** A pending callback stays pending unless it is the one that fires. */
  ghost predicate KeepsPending(ts: seq<Timer>, ts': seq<Timer>) {
    |ts| <= |ts'| && forall j :: 0 <= j < |ts| ==> ts'[j] == ts[j]
  }

  lemma PendingKept(ts: seq<Timer>, ts': seq<Timer>, fn: Callback)
    requires KeepsPending(ts, ts') && Pending(ts, fn)
    ensures Pending(ts', fn)
  {
    var j :| 0 <= j < |ts| && ts[j].Live() && ts[j].fn == fn;
    assert ts'[j] == ts[j];
  }

  lemma PendingAfterRegister(q: Queue, delay: int, fn: Callback)
    ensures KeepsPending(q.timers, Register(q, delay, fn).timers)
    ensures Pending(Register(q, delay, fn).timers, fn)
  {
    var ts := Register(q, delay, fn).timers;
    assert ts[|ts| - 1].fn == fn;
  }

  // ---- the mutations ----

  lemma MutateKeepsHistory(m: Machine, f: Mutation, used: set<string>)
    requires HistoryOK(m) && (forall n :: 0 <= n < |m.versions| ==> m.versions[n].instanceID in used)
    requires f.Churn? ==> f.instance !in used
    requires f.Mark? ==> f.state != Replaced
    ensures HistoryOK(Mutate(m, f))
  {
    if f.Churn? {
      var vs, vs' := m.versions, Mutate(m, f).versions;
      forall p, q | 0 <= p < q < |vs'|
        ensures vs'[p].instanceID != vs'[q].instanceID
      {
        assert vs'[p].instanceID == vs[p].instanceID;
        if q < |vs| {
          assert vs'[q].instanceID == vs[q].instanceID;
        } else {
          assert vs'[p].instanceID in used;
        }
      }
    }
  }

  /** The mutations a handler or a callback applies. */
  predicate Sensible(f: Mutation) {
    && (f.Mark? ==> f.state == Starting || f.state == Stopped || f.state == Suspended)
    && (f.Enter? ==>
         f.state.Starting? || f.state.Stopping? || f.state.Restarting? || f.state.Suspending? || f.state.Destroying?)
  }

  lemma MutateKeepsMachineOK(k: Key, m: Machine, f: Mutation, used: set<string>, used': set<string>)
    requires MachineOK(k, m, used) && used <= used' && Sensible(f)
    requires f.Churn? ==> f.instance !in used && f.instance in used'
    ensures MachineOK(k, Mutate(m, f), used')
  {
    MutateKeepsHistory(m, f, used);
    var vs, vs' := m.versions, Mutate(m, f).versions;
    forall n | 0 <= n < |vs'|
      ensures vs'[n].instanceID in used'
    {
      if n < |vs| {
        assert vs'[n].instanceID == vs[n].instanceID;
      }
    }
  }

  /** Replacing one machine, or adding it, in a good state. */
  lemma GoodAfterPut(s: Sys, s': Sys, k: Key, m: Machine)
    requires Good(s) && s.used <= s'.used && "" !in s'.used
    requires SameElsewhere(s.w.apps, s'.w.apps, k) && Lookup(s'.w.apps, k) == Ok(m)
    requires MachineOK(k, m, s'.used) && Progressing(k, m, s'.w.clk.timers)
    requires KeepsPending(s.w.clk.timers, s'.w.clk.timers)
    requires forall j :: |s.w.clk.timers| <= j < |s'.w.clk.timers| ==> s'.w.clk.timers[j].fn.key == k
    ensures Good(s')
  {
    forall x | Lookup(s'.w.apps, x).Ok?
      ensures MachineOK(x, Lookup(s'.w.apps, x).value, s'.used)
      ensures Progressing(x, Lookup(s'.w.apps, x).value, s'.w.clk.timers)
    {
      if x != k {
        var mx := Lookup(s.w.apps, x).value;
        assert MachineOK(x, mx, s.used) && Progressing(x, mx, s.w.clk.timers);
        if Transient(mx.state) {
          PendingKept(s.w.clk.timers, s'.w.clk.timers, Rescue(x, mx.state));
        }
      }
    }
  }

  /** A handler that only takes machines away, or touches no machine at all. */
  lemma GoodAfterShrink(s: Sys, s': Sys)
    requires Good(s) && s.used <= s'.used && "" !in s'.used && s'.w.clk == s.w.clk
    requires forall x :: Lookup(s'.w.apps, x).Ok? ==> Lookup(s'.w.apps, x) == Lookup(s.w.apps, x)
    ensures Good(s')
  {
    forall x | Lookup(s'.w.apps, x).Ok?
      ensures MachineOK(x, Lookup(s'.w.apps, x).value, s'.used)
      ensures Progressing(x, Lookup(s'.w.apps, x).value, s'.w.clk.timers)
    {
      assert MachineOK(x, Lookup(s.w.apps, x).value, s.used);
      assert Progressing(x, Lookup(s.w.apps, x).value, s.w.clk.timers);
    }
  }
}
