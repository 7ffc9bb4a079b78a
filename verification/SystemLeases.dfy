/**
 Lease exclusion in the whole emulator: what its requests and the passage of time do to the lease table is
 a run of the lease manager, so the holds granted over any run of the emulator are disjoint.
 */
module SystemLeases {
  import opened Callbacks
  import opened EventQueue
  import opened Emulator
  import opened Runs
  import FiringLog
  import Timeouts
  import L = Leases
  import X = LeaseExclusion

  // ---- the lease operations of a step ----

  /** Clearing the leases of some machines of an app, in whatever order the listing gives. */
  ghost function Clears(app: string, ids: set<string>): seq<L.Op> {
    if ids == {} then []
    else
      var id :| id in ids;
      [L.Clear(LeaseKey(Key(app, id)))] + Clears(app, ids - {id})
  }

  ghost function OpsOf(w: World, r: Request, o: Options): seq<L.Op> {
    match r
    case DeleteApp(app) => if app in w.apps then Clears(app, w.apps[app].machines.Keys) else []
    case UpdateMachine(k, nonce, _, _, _) => [L.Check(LeaseKey(k), nonce)]
    case DeleteMachine(k, nonce) =>
      [L.Check(LeaseKey(k), nonce)]
      + if RejectedByLease(w, k, nonce) || !Lookup(w.apps, k).Ok? then [] else [L.Clear(LeaseKey(k))]
    case Act(k, nonce, _) => [L.Check(LeaseKey(k), nonce)]
    case SetCordon(k, nonce, _) => [L.Check(LeaseKey(k), nonce)]
    case GetLease(k) => if Lookup(w.apps, k).Ok? then [L.Get(LeaseKey(k))] else []
    case AcquireLease(k, _, _, _, _) => if Lookup(w.apps, k).Ok? then [LeaseOp(r, o)] else []
    case ReleaseLease(k, nonce) => if Lookup(w.apps, k).Ok? then [L.Release(LeaseKey(k), nonce)] else []
    case _ => []
  }

  function Calls(ops: seq<L.Op>): seq<L.Step> {
    seq(|ops|, n requires 0 <= n < |ops| => L.Call(ops[n]))
  }

  ghost function LeaseSteps(s: Sys, step: Step, o: Options): seq<L.Step> {
    match step
    case Req(r) => Calls(OpsOf(s.w, r, o))
    case Advance(amount) => [L.Tick(s.w.clk.now + amount)]
    case Tick(to) => [L.Tick(to)]
    case FireAny(_, at) => [L.Tick(at)]
  }

  // ---- they are what happens to the table ----

  function Leasing(w: World): L.State { L.State(w.leases, w.clk.now) }

  lemma {:induction false} ClearsRun(s: L.State, app: string, ids: set<string>)
    ensures
      L.Run(s, Calls(Clears(app, ids))) == s.(table := s.table - set id | id in ids :: LeaseKey(Key(app, id)))
    decreases ids
  {
    var cleared := set id | id in ids :: LeaseKey(Key(app, id));
    var ops := Clears(app, ids);
    if ids == {} {
      assert s.table - cleared == s.table;
    } else {
      var id :| id in ids && ops == [L.Clear(LeaseKey(Key(app, id)))] + Clears(app, ids - {id});
      var s' := L.Apply(s, L.Call(ops[0]));
      ClearsRun(s', app, ids - {id});
      assert Calls(ops)[1..] == Calls(Clears(app, ids - {id}));
      assert cleared == {LeaseKey(Key(app, id))} + set x | x in ids - {id} :: LeaseKey(Key(app, x));
      assert s'.table - (set x | x in ids - {id} :: LeaseKey(Key(app, x))) == s.table - cleared;
    }
  }

  lemma RunOfOne(s: L.State, op: L.Op)
    ensures L.Run(s, Calls([op])) == L.Apply(s, L.Call(op))
  {
    assert Calls([op])[1..] == [];
  }

  lemma RunOfTwo(s: L.State, a: L.Op, b: L.Op)
    ensures L.Run(s, Calls([a, b])) == L.Apply(L.Apply(s, L.Call(a)), L.Call(b))
  {
    assert Calls([a, b])[1..] == Calls([b]);
    RunOfOne(L.Apply(s, L.Call(a)), b);
  }

  lemma RequestIsLeaseRun(w: World, r: Request, o: Options)
    ensures L.Run(Leasing(w), Calls(OpsOf(w, r, o))) == Leasing(Handle(w, r, o).w)
  {
    var ops := OpsOf(w, r, o);
    if r.DeleteApp? && r.app in w.apps {
      ClearsRun(Leasing(w), r.app, w.apps[r.app].machines.Keys);
    } else if |ops| == 1 {
      assert ops == [ops[0]];
      RunOfOne(Leasing(w), ops[0]);
    } else if |ops| == 2 {
      assert ops == [ops[0], ops[1]];
      RunOfTwo(Leasing(w), ops[0], ops[1]);
    } else {
      assert Calls(ops) == [];
    }
  }

  /** Whatever a step is, the lease table changes by a run of the lease manager. */
  lemma StepIsLeaseRun(s: Sys, step: Step, o: Options)
    requires Enabled(s, step)
    ensures L.Run(Leasing(s.w), LeaseSteps(s, step, o)) == Leasing(Exec(s, step, o).w)
  {
    hide Handle, AdvanceWorld, OpsOf;
    if step.Req? {
      RequestIsLeaseRun(s.w, step.r, o);
    } else {
      if step.Advance? {
        AdvanceReplaysLog(s.w, s.w.clk.now + step.amount, o);
        FiringLog.AdvanceCompletes(s.w.clk, s.w.clk.now + step.amount, o.delays);
      } else if step.FireAny? {
        FireShape(s.w.clk, step.i, step.at, o.delays);
      }
      assert LeaseSteps(s, step, o)[1..] == [];
    }
  }

  // ---- the book of a run ----

  /** The book has the emulator's lease table, is in order, and its nonces have all been minted. */
  ghost predicate Tracks(b: X.Book, s: Sys) {
    && b.s == Leasing(s.w) && X.Good(b)
    && forall i :: 0 <= i < |b.holds| ==> b.holds[i].nonce in s.used && b.holds[i].nonce != ""
  }

  ghost function StepBook(s: Sys, b: X.Book, step: Step, o: Options): X.Book {
    X.RunBook(b, LeaseSteps(s, step, o))
  }

  /** Every hold granted over a run of the emulator. */
  ghost function BookOf(s: Sys, b: X.Book, steps: seq<Step>, o: Options): X.Book
    requires LegalRun(s, steps, o)
    decreases steps
  {
    if steps == [] then b else BookOf(Exec(s, steps[0], o), StepBook(s, b, steps[0], o), steps[1..], o)
  }

  lemma {:induction false} BookFollowsRun(b: X.Book, steps: seq<L.Step>)
    ensures X.RunBook(b, steps).s == L.Run(b.s, steps)
    decreases steps
  {
    if steps != [] {
      BookFollowsRun(X.Record(b, steps[0]), steps[1..]);
    }
  }

  /** Steps that acquire nothing are legal and put no new nonce in the book. */
  lemma {:induction false} QuietSteps(b: X.Book, ops: seq<L.Op>)
    requires forall op :: op in ops ==> !op.Acquire?
    ensures X.Legal(b, Calls(ops))
    ensures |X.RunBook(b, Calls(ops)).holds| == |b.holds|
    ensures forall i :: 0 <= i < |b.holds| ==> X.RunBook(b, Calls(ops)).holds[i].nonce == b.holds[i].nonce
    decreases ops
  {
    if ops != [] {
      assert ops[0] in ops;
      assert Calls(ops)[1..] == Calls(ops[1..]);
      QuietSteps(X.Record(b, L.Call(ops[0])), ops[1..]);
    }
  }

  lemma {:induction false} ClearsOnlyClear(app: string, ids: set<string>)
    ensures forall op :: op in Clears(app, ids) ==> op.Clear?
    decreases ids
  {
    if ids != {} {
      var id :| id in ids && Clears(app, ids) == [L.Clear(LeaseKey(Key(app, id)))] + Clears(app, ids - {id});
      ClearsOnlyClear(app, ids - {id});
    }
  }

  /** The only acquiring request is a lease request without a nonce, and it brings a fresh one. */
  lemma AcquiringRequest(w: World, r: Request, o: Options)
    ensures
      || (forall op :: op in OpsOf(w, r, o) ==> !op.Acquire?)
      || (exists op: L.Op :: op.Acquire? && OpsOf(w, r, o) == [op] && op.nonce in Minted(r))
  {
    if r.DeleteApp? && r.app in w.apps {
      ClearsOnlyClear(r.app, w.apps[r.app].machines.Keys);
    } else if r.AcquireLease? && r.nonce == "" && Lookup(w.apps, r.k).Ok? {
      assert LeaseOp(r, o).Acquire?;
    }
  }

  lemma AcquireIsLegal(b: X.Book, op: L.Op)
    requires op.Acquire? && forall i :: 0 <= i < |b.holds| ==> b.holds[i].nonce != op.nonce
    ensures X.Legal(b, Calls([op]))
    ensures
      forall i :: 0 <= i < |X.RunBook(b, Calls([op])).holds| ==>
        X.RunBook(b, Calls([op])).holds[i].nonce == if i < |b.holds| then b.holds[i].nonce else op.nonce
  {
    assert Calls([op])[1..] == [];
    assert X.RunBook(b, Calls([op])) == X.Record(b, L.Call(op));
  }

  lemma RequestTracks(s: Sys, b: X.Book, r: Request, o: Options)
    requires Tracks(b, s) && FreshRequest(r, s.used)
    ensures X.Legal(b, LeaseSteps(s, Req(r), o))
    ensures
      var b' := StepBook(s, b, Req(r), o);
      forall i :: 0 <= i < |b'.holds| ==> b'.holds[i].nonce in s.used + Minted(r) && b'.holds[i].nonce != ""
  {
    hide OpsOf, X.RunBook, X.Legal, X.Good, Minted;
    AcquiringRequest(s.w, r, o);
    if forall op :: op in OpsOf(s.w, r, o) ==> !op.Acquire? {
      QuietSteps(b, OpsOf(s.w, r, o));
    } else {
      var op: L.Op :| op.Acquire? && OpsOf(s.w, r, o) == [op] && op.nonce in Minted(r);
      AcquireIsLegal(b, op);
    }
  }

  lemma StepTracks(s: Sys, b: X.Book, step: Step, o: Options)
    requires Tracks(b, s) && Enabled(s, step)
    ensures X.Legal(b, LeaseSteps(s, step, o))
    ensures Tracks(StepBook(s, b, step, o), Exec(s, step, o))
  {
    hide Handle, AdvanceWorld, FireAt, X.Good, OpsOf;
    if step.Req? {
      RequestTracks(s, b, step.r, o);
    } else {
      assert LeaseSteps(s, step, o)[1..] == [];
      assert X.RunBook(X.Record(b, LeaseSteps(s, step, o)[0]), []) == X.Record(b, LeaseSteps(s, step, o)[0]);
    }
    StepIsLeaseRun(s, step, o);
    BookFollowsRun(b, LeaseSteps(s, step, o));
    X.HoldsAreDisjoint(b, LeaseSteps(s, step, o));
  }

  /**
   Over any run of the emulator, under any firing order: the holds granted for each lease key are disjoint, the
   open ones are exactly the leases in force, and a hold that has ended stays as it is.
   */
  lemma {:induction false} RunTracks(s: Sys, b: X.Book, steps: seq<Step>, o: Options)
    requires Tracks(b, s) && LegalRun(s, steps, o)
    ensures Tracks(BookOf(s, b, steps, o), Run(s, steps, o))
    ensures
      var b' := BookOf(s, b, steps, o);
      forall i :: 0 <= i < |b.holds| && b.holds[i].finish <= s.w.clk.now ==>
        i < |b'.holds| && b'.holds[i] == b.holds[i] && b'.holds[i].finish <= Run(s, steps, o).w.clk.now
    decreases steps
  {
    hide Exec, Enabled, LeaseSteps, X.Good, X.Legal;
    if steps != [] {
      StepTracks(s, b, steps[0], o);
      forall i | 0 <= i < |b.holds| && b.holds[i].finish <= s.w.clk.now
        ensures
          var b' := StepBook(s, b, steps[0], o);
          i < |b'.holds| && b'.holds[i] == b.holds[i] && b'.holds[i].finish <= b'.s.now
      {
        X.EndedStaysEnded(b, LeaseSteps(s, steps[0], o), i);
      }
      RunTracks(Exec(s, steps[0], o), StepBook(s, b, steps[0], o), steps[1..], o);
    }
  }

  /** From a new server: no two holds of one machine's lease ever overlap. */
  lemma SystemHoldsAreDisjoint(now: int, steps: seq<Step>, o: Options)
    requires LegalRun(NewServer(now), steps, o)
    ensures
      var b := BookOf(NewServer(now), X.Book(L.State(map[], now), []), steps, o);
      X.Disjoint(b.holds) && Tracks(b, Run(NewServer(now), steps, o))
  {
    hide LegalRun, Run, BookOf;
    RunTracks(NewServer(now), X.Book(L.State(map[], now), []), steps, o);
  }

  /** Once a hold has ended, no request presenting its nonce refreshes or releases a lease again. */
  lemma EndedHolderIsRefused(s: Sys, b: X.Book, steps: seq<Step>, o: Options, i: nat, k: Key, ttl: int,
                             description: string, minted: string)
    requires Tracks(b, s) && LegalRun(s, steps, o) && i < |b.holds| && b.holds[i].finish <= s.w.clk.now
    ensures
      var w, nonce := Run(s, steps, o).w, b.holds[i].nonce;
      && !Handle(w, AcquireLease(k, nonce, ttl, description, minted), o).resp.LeaseIs?
      && !Handle(w, ReleaseLease(k, nonce), o).resp.Accepted?
  {
    RunTracks(s, b, steps, o);
    var b', w := BookOf(s, b, steps, o), Run(s, steps, o).w;
    hide LegalRun, Run, BookOf, Lookup, Wrap64, X.Good;
    X.EndedNonceIsPowerless(b', [], i, LeaseKey(k), RequestedTtl(ttl, o));
  }

  /** At the machine's gate an ended nonce counts for nothing: it is stopped by whatever lease there is. */
  lemma EndedHolderIsFenced(s: Sys, b: X.Book, steps: seq<Step>, o: Options, i: nat, k: Key)
    requires Tracks(b, s) && LegalRun(s, steps, o) && i < |b.holds| && b.holds[i].finish <= s.w.clk.now
    ensures
      var w := Run(s, steps, o).w;
      RejectedByLease(w, k, b.holds[i].nonce) <==> L.InForce(w.leases, LeaseKey(k), w.clk.now).Some?
  {
    RunTracks(s, b, steps, o);
    var b' := BookOf(s, b, steps, o);
    assert X.InForceIsOpen(b', LeaseKey(k));
  }

  // ---- a refresh may shorten ----

  /**
   A granted refresh brings the end of the hold forward exactly if what is left is more than the time asked for, or
   than thirty seconds if none is.
   */
  lemma RefreshShortensIff(m: L.Table, key: string, nonce: string, ttl: int, now: int)
    requires L.Exec(m, L.Refresh(key, nonce, ttl), now).reply.Granted?
    ensures
      key in m && (L.Exec(m, L.Refresh(key, nonce, ttl), now).table[key].expiresAt < m[key].expiresAt <==>
                   (if 0 < ttl then ttl else 30_000_000_000) < m[key].expiresAt - now)
  {
  }

  /** So it is at the endpoint, where the time asked for is in seconds and defaults to the server's. */
  lemma RefreshRequestShortensIff(w: World, r: Request, o: Options)
    requires r.AcquireLease? && r.nonce != "" && Handle(w, r, o).resp.LeaseIs?
    ensures
      var held, resp := L.InForce(w.leases, LeaseKey(r.k), w.clk.now), Handle(w, r, o).resp;
      && held.Some? && held.value.nonce == r.nonce == resp.nonce
      && (resp.expiresAt < held.value.expiresAt <==>
          Timeouts.GrantedFor(r.ttl, o.leaseTTL) < held.value.expiresAt - w.clk.now)
  {
    hide RequestedTtl, L.Ttl;
    Timeouts.LeaseTtlHonouredIff(r.ttl, o);
  }
}
