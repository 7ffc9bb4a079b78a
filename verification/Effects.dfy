/**
 What each request and each callback does, seen from outside: the answer, the machine field by field, what is
 scheduled for when, and what is left alone. In the lemmas named for an effect states, delays, times and texts stand as
 they are, and none of the functions that compute them is named.
 */
module Effects {
  import opened Flaps
  import opened Callbacks
  import opened EventQueue
  import opened Emulator
  import opened Invariants
  import opened Cloning
  import opened Timeouts
  import L = Leases

  // ---- what is left alone ----

  /** No other machine changes, and no app but in what machines it has. */
  ghost predicate OnlyMachine(apps: Apps, apps': Apps, k: Key) {
    && SameElsewhere(apps, apps', k) && apps'.Keys == apps.Keys
    && forall a :: a in apps ==> apps'[a].org == apps[a].org && apps'[a].status == apps[a].status
  }

  /** The clock gains one timer, registered last, and nothing else. */
  predicate Books(q: Queue, q': Queue, deadline: int, fn: Callback) {
    q'.now == q.now && q'.timers == q.timers + [Timer(deadline, fn, false, false)]
  }

  /** The lease in force on a machine. */
  function Held(w: World, k: Key): Option<L.Lease> { L.InForce(w.leases, k.app + "/" + k.id, w.clk.now) }

  ghost predicate SameLeases(m: L.Table, m': L.Table, now: int) {
    forall key :: L.InForce(m', key, now) == L.InForce(m, key, now)
  }

  // ---- the gate ----

  predicate Gated(r: Request) { r.UpdateMachine? || r.DeleteMachine? || r.Act? || r.SetCordon? }

  /** Refused, in this order: a nonce not the lease's, what is not there, all but a delete on what is destroyed. */
  function Refusal(w: World, r: Request): Option<Response>
    requires Gated(r)
  {
    var held := Held(w, r.k);
    if held.Some? && held.value.nonce != r.nonce then Some(Leased)
    else if r.k.app !in w.apps then Some(Missing(AppNotFound))
    else if r.k.id !in w.apps[r.k.app].machines then Some(Missing(MachineNotFound))
    else
      var state := w.apps[r.k.app].machines[r.k.id].state;
      if !r.DeleteMachine? && state in {Destroying, Destroyed} then Some(Terminal(state)) else None
  }

  lemma CheckDropsNoneHeld(w: World, k: Key, nonce: string)
    ensures SameLeases(w.leases, AfterCheck(w, k, nonce).leases, w.clk.now)
    ensures Held(w, k).None? ==> k.app + "/" + k.id !in AfterCheck(w, k, nonce).leases
    ensures RejectedByLease(w, k, nonce) <==> Held(w, k).Some? && Held(w, k).value.nonce != nonce
  {
    assert LeaseKey(k) == k.app + "/" + k.id;
  }

  /**
   A gated request is refused in exactly these cases, and then nothing changes; else it is accepted. In any case an
   expired lease it meets is dropped.
   */
  lemma GatedIsRefusedIff(w: World, r: Request, o: Options)
    requires Gated(r)
    ensures
      var out := Handle(w, r, o);
      match Refusal(w, r)
      case Some(resp) =>
        out.resp == resp && out.w.apps == w.apps && out.w.clk == w.clk
        && SameLeases(w.leases, out.w.leases, w.clk.now)
      case None => out.resp.MachineIs? || out.resp.PreviousState? || out.resp.Accepted?
    ensures Held(w, r.k).None? ==> r.k.app + "/" + r.k.id !in Handle(w, r, o).w.leases
  {
    hide RejectedByLease, SameLeases, Mutate, Update, Cloned;
    CheckDropsNoneHeld(w, r.k, r.nonce);
  }

  lemma RefusalIsNoAcceptance(w: World, r: Request)
    requires Gated(r)
    ensures
      var refusal := Refusal(w, r);
      refusal.Some? ==> refusal.value.Leased? || refusal.value.Missing? || refusal.value.Terminal?
  {
  }

  // ---- update ----

  /** The new instance ends the history, and the one before it is replaced. */
  ghost predicate Superseding(vs: seq<Version>, vs': seq<Version>, instance: string) {
    && |vs'| == |vs| + 1 && vs'[|vs|] == Version(instance, Replacing)
    && forall n :: 0 <= n < |vs| ==> vs'[n] == if n == |vs| - 1 then Version(vs[n].instanceID, Replaced) else vs[n]
  }

  /** Storing one machine anew. */
  lemma OnlyPut(apps: Apps, k: Key, m: Machine)
    requires k.app in apps
    ensures OnlyMachine(apps, Put(apps, k, m), k) && Lookup(Put(apps, k, m), k) == Ok(m)
  {
    LookupPut(apps, k, m);
  }

  lemma UpdatePuts(w: World, r: Request, o: Options, m: Machine)
    requires r.UpdateMachine? && Refusal(w, r) == None && Lookup(w.apps, r.k) == Ok(m)
    ensures
      var out, m' := Handle(w, r, o), Mutate(m, Churn(r.config, r.name, r.instance, w.clk.now));
      && out.w.apps == Put(w.apps, r.k, m') && out.resp == MachineIs(Cloned(m'))
      && SameLeases(w.leases, out.w.leases, w.clk.now)
      && Books(w.clk, out.w.clk, w.clk.now + o.delays.update, BootSettle(r.k))
  {
    hide RejectedByLease, SameLeases, Mutate, Cloned;
    CheckDropsNoneHeld(w, r.k, r.nonce);
  }

  /** An accepted update. */
  lemma UpdateEffect(w: World, r: Request, o: Options)
    requires r.UpdateMachine? && Refusal(w, r) == None
    ensures
      var out := Handle(w, r, o);
      var before, after := Lookup(w.apps, r.k), Lookup(out.w.apps, r.k);
      && before.Ok? && after.Ok? && OnlyMachine(w.apps, out.w.apps, r.k)
      && SameLeases(w.leases, out.w.leases, w.clk.now)
      && (var m, m' := before.value, after.value;
          && m'.config == (if r.config.Some? then r.config else m.config)
          && m'.name == (if r.name != "" then r.name else m.name)
          && m'.instanceID == r.instance && m'.state == Replacing && m'.updatedAt == w.clk.now
          && Superseding(m.versions, m'.versions, r.instance)
          && (m'.id, m'.region, m'.privateIP) == (m.id, m.region, m.privateIP)
          && (m'.imageRef, m'.createdAt, m'.cordoned) == (m.imageRef, m.createdAt, m.cordoned)
          && out.resp.MachineIs? && ReadsAs(out.resp.machine, m'))
      && Books(w.clk, out.w.clk, w.clk.now + o.delays.update, BootSettle(r.k))
  {
    hide Handle, OnlyMachine, SameLeases, ReadsAs, Cloned;
    var m := Lookup(w.apps, r.k).value;
    var m' := Mutate(m, Churn(r.config, r.name, r.instance, w.clk.now));
    UpdatePuts(w, r, o, m);
    OnlyPut(w.apps, r.k, m');
    CopyReadsAs(m');
  }

  // ---- create ----

  /** A create in a known app; in an unknown one it is refused. */
  lemma CreateEffect(w: World, r: Request, o: Options)
    requires r.CreateMachine?
    ensures
      var out, k := Handle(w, r, o), Key(r.app, r.id);
      if r.app !in w.apps then out == Outcome(w, Missing(AppNotFound))
      else
        && out.resp.MachineIs? && OnlyMachine(w.apps, out.w.apps, k) && out.w.leases == w.leases
        && (var m, state := out.resp.machine, if r.skipLaunch then Created else Creating;
            && Lookup(out.w.apps, k) == Ok(m)
            && m.id == r.id && m.name == (if r.name != "" then r.name else "machine-" + r.id)
            && m.region == (if r.region != "" then r.region else "local") && m.privateIP == "fdaa:0:0:a7b:0:1::"
            && m.instanceID == r.instance && m.versions == [Version(r.instance, state)] && m.state == state
            && m.createdAt == w.clk.now && m.updatedAt == w.clk.now && m.imageRef == None && !m.cordoned
            && ReadsAs(m, m.(config := r.config)))
        && if r.skipLaunch then out.w.clk == w.clk
           else Books(w.clk, out.w.clk, w.clk.now + o.delays.create, BootFirst(k))
  {
    hide OnlyMachine, ReadsAs, ClonedConfig;
    if r.app in w.apps {
      var made := NewMachine(r.name, r.region, r.config, r.skipLaunch, r.id, r.instance, w.clk.now);
      OnlyPut(w.apps, Key(r.app, r.id), Cloned(made));
      CopyReadsAs(made);
      assert Cloned(made).(config := r.config) == made;
    }
  }

  // ---- start, stop, restart, suspend ----

  lemma UpdatedTwice(apps: Apps, k: Key, f: Mutation, now: int)
    requires Lookup(apps, k).Ok?
    ensures
      var apps' := Update(Update(apps, k, f), k, Touch(now));
      OnlyMachine(apps, apps', k) && Lookup(apps', k) == Ok(Mutate(Lookup(apps, k).value, f).(updatedAt := now))
  {
    hide Put;
    var m := Mutate(Lookup(apps, k).value, f);
    LookupUpdate(apps, k, f);
    OnlyPut(apps, k, m);
    OnlyPut(Put(apps, k, m), k, m.(updatedAt := now));
  }

  /** An accepted start, stop, restart or suspend. */
  lemma ActEffect(w: World, r: Request, o: Options)
    requires r.Act? && Refusal(w, r) == None
    ensures
      var out := Handle(w, r, o);
      var before, after := Lookup(w.apps, r.k), Lookup(out.w.apps, r.k);
      && before.Ok? && OnlyMachine(w.apps, out.w.apps, r.k) && SameLeases(w.leases, out.w.leases, w.clk.now)
      && out.resp == PreviousState(before.value.state)
      && (var m, now, d := before.value.(updatedAt := w.clk.now), w.clk.now, o.delays;
          match r.action
          case Start =>
            after == Ok(m.(state := Starting)) && Books(w.clk, out.w.clk, now + d.start, BootSettle(r.k))
          case Stop =>
            after == Ok(m.(state := Stopping)) && Books(w.clk, out.w.clk, now + d.stop, StopEnd(r.k))
          case Restart =>
            after == Ok(m.(state := Restarting)) && Books(w.clk, out.w.clk, now + d.restart, BootSettle(r.k))
          case Suspend =>
            after == Ok(m.(state := Suspending)) && Books(w.clk, out.w.clk, now + d.suspend, SuspendEnd(r.k)))
  {
    hide OnlyMachine, SameLeases, RejectedByLease, Lookup, Update;
    CheckDropsNoneHeld(w, r.k, r.nonce);
    FoundUnlessRefused(w, r);
    UpdatedTwice(w.apps, r.k, Enter(Entering(r.action)), w.clk.now);
  }

  lemma FoundUnlessRefused(w: World, r: Request)
    requires Gated(r) && Refusal(w, r) == None
    ensures Lookup(w.apps, r.k).Ok?
    ensures !r.DeleteMachine? ==> !RejectedAsTerminal(w, r.k)
  {
  }

  // ---- delete and cordon ----

  /** An accepted delete. */
  lemma DeleteEffect(w: World, r: Request, o: Options)
    requires r.DeleteMachine? && Refusal(w, r) == None
    ensures
      var out := Handle(w, r, o);
      var before, after := Lookup(w.apps, r.k), Lookup(out.w.apps, r.k);
      && before.Ok? && OnlyMachine(w.apps, out.w.apps, r.k)
      && out.resp == Accepted && after == Ok(before.value.(state := Destroying, updatedAt := w.clk.now))
      && Books(w.clk, out.w.clk, w.clk.now + o.delays.destroy, Reap(r.k))
      && r.k.app + "/" + r.k.id !in out.w.leases
      && forall x: Key :: x.app + "/" + x.id != r.k.app + "/" + r.k.id ==> Held(out.w, x) == Held(w, x)
  {
    hide OnlyMachine, RejectedByLease, Lookup, Update;
    CheckDropsNoneHeld(w, r.k, r.nonce);
    FoundUnlessRefused(w, r);
    UpdatedTwice(w.apps, r.k, Enter(Destroying), w.clk.now);
    assert LeaseKey(r.k) == r.k.app + "/" + r.k.id;
  }

  /** An accepted cordon or uncordon. */
  lemma CordonEffect(w: World, r: Request, o: Options)
    requires r.SetCordon? && Refusal(w, r) == None
    ensures
      var out := Handle(w, r, o);
      var before, after := Lookup(w.apps, r.k), Lookup(out.w.apps, r.k);
      && before.Ok? && OnlyMachine(w.apps, out.w.apps, r.k) && out.w.clk == w.clk
      && SameLeases(w.leases, out.w.leases, w.clk.now)
      && out.resp == Accepted && after == Ok(before.value.(cordoned := r.cordoned, updatedAt := w.clk.now))
  {
    hide OnlyMachine, SameLeases, RejectedByLease, Lookup, Update;
    CheckDropsNoneHeld(w, r.k, r.nonce);
    FoundUnlessRefused(w, r);
    UpdatedTwice(w.apps, r.k, Cordon(r.cordoned), w.clk.now);
  }

  // ---- metadata ----

  /** What reading the metadata answers: nothing there reads as empty. */
  function MetadataOf(m: Machine): map<string, string> {
    if m.config.Some? && m.config.value.metadata.Some? then m.config.value.metadata.value else map[]
  }

  /** What of a configuration is not metadata. */
  function ApartFromMetadata(c: Option<Config>): Config {
    (if c.Some? then c.value else Config("", None, None, None, None, None, None)).(metadata := None)
  }

  /** A metadata request on an existing machine: the one key is set or gone, all other keys and fields stay. */
  lemma MetadataEffect(w: World, r: Request, o: Options)
    requires r.SetMetadata? || r.DeleteMetadata?
    ensures
      var out := Handle(w, r, o);
      var before, after := Lookup(w.apps, r.k), Lookup(out.w.apps, r.k);
      if before.Err? then out == Outcome(w, Missing(before.error))
      else
        && out.resp == Accepted && OnlyMachine(w.apps, out.w.apps, r.k) && after.Ok?
        && out.w.leases == w.leases && out.w.clk == w.clk
        && var m, m' := before.value, after.value;
        && m'.(config := m.config) == m.(updatedAt := w.clk.now)
        && ApartFromMetadata(m'.config) == ApartFromMetadata(m.config)
        && MetadataOf(m') == (if r.SetMetadata? then MetadataOf(m)[r.key := r.value] else MetadataOf(m) - {r.key})
        && (r.DeleteMetadata? ==> (m'.config.Some? <==> m.config.Some?))
  {
    hide OnlyMachine, Lookup, Update;
    if Lookup(w.apps, r.k).Ok? {
      var f := if r.SetMetadata? then PutMetadata(r.key, r.value) else DropMetadata(r.key);
      UpdatedTwice(w.apps, r.k, f, w.clk.now);
    }
  }

  // ---- apps ----

  /** Creating an app: it needs a name and an organization, both given, and the name not taken. */
  lemma CreateAppEffect(w: World, r: Request, o: Options)
    requires r.CreateApp?
    ensures
      var out := Handle(w, r, o);
      && out.w.clk == w.clk && out.w.leases == w.leases
      && (r.app == "" || r.org == "" ==> out == Outcome(w, BadRequest))
      && (r.app != "" && r.org != "" && r.app in w.apps ==> out == Outcome(w, Conflicting(AppExists)))
      && (r.app != "" && r.org != "" && r.app !in w.apps ==>
           && out.resp.AppIs? && out.resp.name == r.app && r.app in out.w.apps && out.w.apps[r.app] == out.resp.app
           && (forall a :: a in w.apps ==> a in out.w.apps && out.w.apps[a] == w.apps[a])
           && (forall a :: a in out.w.apps ==> a in w.apps || a == r.app)
           && out.resp.app.org == r.org && out.resp.app.status == "deployed" && out.resp.app.machines == map[])
  {
  }

  /** Deleting an app: it is gone with its machines and their leases, and nothing else is. */
  lemma DeleteAppEffect(w: World, r: Request, o: Options)
    requires r.DeleteApp?
    ensures
      var out := Handle(w, r, o);
      if r.app !in w.apps then out == Outcome(w, Missing(AppNotFound))
      else
        && out.resp == Accepted && out.w.clk == w.clk && r.app !in out.w.apps
        && (forall a :: a in w.apps && a != r.app ==> a in out.w.apps && out.w.apps[a] == w.apps[a])
        && (forall a :: a in out.w.apps ==> a in w.apps)
        && (forall id :: id in w.apps[r.app].machines ==> r.app + "/" + id !in out.w.leases)
        && (forall x: Key :: (forall id :: id in w.apps[r.app].machines ==> x.app + "/" + x.id != r.app + "/" + id) ==>
             Held(out.w, x) == Held(w, x))
  {
    if r.app in w.apps {
      var cleared := set id | id in w.apps[r.app].machines :: LeaseKey(Key(r.app, id));
      forall id | id in w.apps[r.app].machines
        ensures r.app + "/" + id in cleared
      {
        assert LeaseKey(Key(r.app, id)) in cleared;
      }
    }
  }

  // ---- leases ----

  /** The lease stands until it expires, and is not in force from then on. */
  ghost predicate StandsUntilExpiry(m: L.Table, key: string, l: L.Lease) {
    forall t :: L.InForce(m, key, t) == if t < l.expiresAt then Some(l) else None
  }

  /** Nothing of the world changes but what is known of one key's lease. */
  ghost predicate OnlyLease(w: World, w': World, key: string) {
    w'.apps == w.apps && w'.clk == w.clk && w'.leases - {key} == w.leases - {key}
  }

  /** A lease request without a nonce acquires, unless a lease is in force. */
  lemma AcquireEffect(w: World, r: Request, o: Options)
    requires r.AcquireLease? && r.nonce == "" && Lookup(w.apps, r.k).Ok?
    ensures
      var out, key, held := Handle(w, r, o), r.k.app + "/" + r.k.id, Held(w, r.k);
      if held.Some? then out == Outcome(w, LeaseHeld(held.value.owner, held.value.expiresAt))
      else
        var end := w.clk.now + GrantedFor(r.ttl, o.leaseTTL);
        && out.resp == LeaseIs(r.minted, "mudflaps", end) && OnlyLease(w, out.w, key)
        && StandsUntilExpiry(out.w.leases, key, L.Lease(r.minted, "mudflaps", r.description, end))
  {
    hide RequestedTtl, L.Ttl, GrantedFor;
    LeaseTtlHonouredIff(r.ttl, o);
    assert LeaseKey(r.k) == r.k.app + "/" + r.k.id;
  }

  /** One with a nonce refreshes the lease in force if the nonce is its own. */
  lemma RefreshEffect(w: World, r: Request, o: Options)
    requires r.AcquireLease? && r.nonce != "" && Lookup(w.apps, r.k).Ok?
    ensures
      var out, key, held := Handle(w, r, o), r.k.app + "/" + r.k.id, Held(w, r.k);
      && OnlyLease(w, out.w, key)
      && if held.None? then out.resp == LeaseRejected(L.NotFound) && key !in out.w.leases
         else if held.value.nonce != r.nonce then out == Outcome(w, LeaseRejected(L.NonceMismatch))
         else
           var l := held.value.(expiresAt := w.clk.now + GrantedFor(r.ttl, o.leaseTTL));
           out.resp == LeaseIs(l.nonce, l.owner, l.expiresAt) && StandsUntilExpiry(out.w.leases, key, l)
  {
    hide RequestedTtl, L.Ttl, GrantedFor;
    LeaseTtlHonouredIff(r.ttl, o);
    assert LeaseKey(r.k) == r.k.app + "/" + r.k.id;
  }

  /** Releasing, and reading. */
  lemma ReleaseAndGetEffect(w: World, r: Request, o: Options)
    requires (r.ReleaseLease? || r.GetLease?) && Lookup(w.apps, r.k).Ok?
    ensures
      var out, key, held := Handle(w, r, o), r.k.app + "/" + r.k.id, Held(w, r.k);
      && OnlyLease(w, out.w, key)
      && if held.None? then out.resp == LeaseRejected(L.NotFound) && key !in out.w.leases
         else if r.GetLease? then
           out == Outcome(w, LeaseIs(held.value.nonce, held.value.owner, held.value.expiresAt))
         else if held.value.nonce != r.nonce then out == Outcome(w, LeaseRejected(L.NonceMismatch))
         else out.resp == Accepted && key !in out.w.leases
  {
    assert LeaseKey(r.k) == r.k.app + "/" + r.k.id;
  }

  /** Without the machine there is no lease to be had, kept or read. */
  lemma LeaseNeedsMachine(w: World, r: Request, o: Options)
    requires (r.AcquireLease? || r.ReleaseLease? || r.GetLease?) && Lookup(w.apps, r.k).Err?
    ensures Handle(w, r, o) == Outcome(w, Missing(Lookup(w.apps, r.k).error))
  {
  }

  // ---- a callback ----

  /** The last version takes on the state, and no other changes. */
  ghost predicate LastNow(vs: seq<Version>, vs': seq<Version>, s: MachineState) {
    && |vs'| == |vs|
    && forall n :: 0 <= n < |vs| ==> vs'[n] == if n == |vs| - 1 then Version(vs[n].instanceID, s) else vs[n]
  }

  /** The machine, if it is there, and its last version take on the state, and nothing else of it changes. */
  ghost predicate NowIn(before: Result<Machine>, after: Result<Machine>, s: MachineState) {
    if before.Err? then after == before
    else
      && after.Ok? && after.value.(versions := before.value.versions) == before.value.(state := s)
      && LastNow(before.value.versions, after.value.versions, s)
  }

  lemma MarkEffect(apps: Apps, k: Key, f: Mutation)
    requires f.Mark? || f.SettleBoot?
    ensures
      var before, apps' := Lookup(apps, k), Update(apps, k, f);
      && OnlyMachine(apps, apps', k)
      && (f.Mark? ==> NowIn(before, Lookup(apps', k), f.state))
      && (f.SettleBoot? && before.Ok? ==> NowIn(before, Lookup(apps', k), Verdict(before.value.config)))
      && (f.SettleBoot? && before.Err? ==> NowIn(before, Lookup(apps', k), Started))
  {
    hide Verdict;
    if Lookup(apps, k).Ok? {
      hide Put;
      OnlyPut(apps, k, Mutate(Lookup(apps, k).value, f));
    }
  }

  /** What a callback does when it fires, whatever it finds; only a boot's first step schedules another. */
  lemma FiringEffect(w: World, i: nat, at: int, o: Options)
    requires i < |w.clk.timers|
    ensures
      var fn, w', ts := w.clk.timers[i].fn, FireAt(w, i, at, o), w.clk.timers[i := w.clk.timers[i].(fired := true)];
      var before, after := Lookup(w.apps, fn.key), Lookup(w'.apps, fn.key);
      && w'.leases == w.leases && w'.clk.now == at && OnlyMachine(w.apps, w'.apps, fn.key)
      && w'.clk.timers ==
         (if fn.BootFirst? then ts + [Timer(at + o.delays.start, BootSettle(fn.key), false, false)] else ts)
      && match fn
         case BootFirst(_) => NowIn(before, after, Starting)
         case BootSettle(_) =>
           var unpullable := before.Ok? && before.value.config.Some?
                             && Repository(before.value.config.value.image) == "mudflaps/unpullable";
           NowIn(before, after, if unpullable then Failed else Started)
         case StopEnd(_) => NowIn(before, after, Stopped)
         case SuspendEnd(_) => NowIn(before, after, Suspended)
         case Reap(_) => if before.Ok? then after == Err(MachineNotFound) else after == before
  {
    var fn := w.clk.timers[i].fn;
    hide Mutate, Lookup, Update, OnlyMachine, NowIn, Unpullable, Repository;
    FireShape(w.clk, i, at, o.delays);
    match fn {
      case BootFirst(k) => MarkEffect(w.apps, k, Mark(Starting));
      case BootSettle(k) =>
        MarkEffect(w.apps, k, SettleBoot);
        if Lookup(w.apps, k).Ok? {
          SettledByImage(w.apps, k);
        }
      case StopEnd(k) => MarkEffect(w.apps, k, Mark(Stopped));
      case SuspendEnd(k) => MarkEffect(w.apps, k, Mark(Suspended));
      case Reap(k) => ReapEffect(w.apps, k);
    }
  }

  lemma SettledByImage(apps: Apps, k: Key)
    requires Lookup(apps, k).Ok?
    ensures
      var c := Lookup(apps, k).value.config;
      Verdict(c) == if c.Some? && Repository(c.value.image) == "mudflaps/unpullable" then Failed else Started
  {
    hide Repository, Unpullable;
    var c := Lookup(apps, k).value.config;
    if c.Some? {
      FailsToBootIffRepositoryIsSentinel(c.value);
    }
  }

  lemma ReapEffect(apps: Apps, k: Key)
    ensures OnlyMachine(apps, Remove(apps, k), k)
    ensures
      Lookup(Remove(apps, k), k) == if Lookup(apps, k).Ok? then Err(MachineNotFound) else Lookup(apps, k)
  {
    LookupRemove(apps, k);
  }

  // ---- a new server ----

  /** Delays none of which is set are all seventy-five milliseconds; once one is set, all are as given. */
  lemma NewServerOptions(o: Options)
    ensures
      var d, d', ms75 := o.delays, WithDefaults(o).delays, 75_000_000;
      if d.create == 0 && d.start == 0 && d.stop == 0 && d.restart == 0 && d.destroy == 0 && d.update == 0
         && d.suspend == 0
      then
        && d'.create == ms75 && d'.start == ms75 && d'.stop == ms75 && d'.restart == ms75 && d'.destroy == ms75
        && d'.update == ms75 && d'.suspend == ms75
      else d' == d
    ensures WithDefaults(o).leaseTTL == if 0 < o.leaseTTL then o.leaseTTL else 30_000_000_000
  {
  }
}
