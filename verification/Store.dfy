/**
 The store, as the heap structure it is: machines with nested pointers, maps and slices, mutated in
 place. A pointer to a struct or a map is a Cell; a slice is an array; a nil one is null.
 */
module MachineStore {
  import opened Flaps
  import opened Callbacks
  import Cloning
  import E = Emulator

  class Cell<T> {
    var v: T

    constructor (v: T)
      ensures this.v == v
    {
      this.v := v;
    }
  }

  type StringMap = Cell?<map<string, string>>  // a Go map: null when nil

  ghost function CellValue<T>(c: Cell?<T>): Option<T>
    reads c
  {
    if c == null then None else Some(c.v)
  }

  /** The object a pointer points to, if any. */
  ghost function Pointee(o: object?): set<object> {
    if o == null then {} else {o}
  }

  // ---- ports and services: structs that hold slices ----

  datatype HPort = HPort(port: int, handlers: array?<string>)
  datatype HService = HService(protocol: string, internalPort: int, ports: array?<HPort>)

  ghost function PortValue(p: HPort): Port
    reads p.handlers
  {
    Port(p.port, if p.handlers == null then None else Some(p.handlers[..]))
  }

  /** Everything reachable from a ports slice is in R. */
  ghost predicate PortsIn(a: array?<HPort>, R: set<object>)
    reads R
  {
    a != null ==> a in R && forall i :: 0 <= i < a.Length && a[i].handlers != null ==> a[i].handlers in R
  }

  ghost function PortsValue(a: array?<HPort>, R: set<object>): Option<seq<Port>>
    requires PortsIn(a, R)
    reads R
  {
    if a == null then None
    else Some(seq(a.Length, i requires 0 <= i < a.Length && PortsIn(a, R) reads R => PortValue(a[i])))
  }

  ghost function ServiceValue(s: HService, R: set<object>): Service
    requires PortsIn(s.ports, R)
    reads R
  {
    Service(s.protocol, s.internalPort, PortsValue(s.ports, R))
  }

  ghost predicate ServicesIn(a: array?<HService>, R: set<object>)
    reads R
  {
    a != null ==> a in R && forall i :: 0 <= i < a.Length ==> PortsIn(a[i].ports, R)
  }

  ghost function ServicesValue(a: array?<HService>, R: set<object>): Option<seq<Service>>
    requires ServicesIn(a, R)
    reads R
  {
    if a == null then None
    else Some(seq(a.Length, i requires 0 <= i < a.Length && ServicesIn(a, R) reads R => ServiceValue(a[i], R)))
  }

  // ---- cloning, bottom up ----

  method CloneStringMap(src: StringMap) returns (c: StringMap)
    ensures c == null <==> src == null
    ensures c != null ==> fresh(c)
    ensures CellValue(c) == old(CellValue(src))
  {
    if src == null {
      return null;
    }
    c := new Cell(map[]);
    var left := src.v.Keys;
    while left != {}
      invariant left <= src.v.Keys
      invariant c.v.Keys == src.v.Keys - left
      invariant forall k :: k in c.v ==> c.v[k] == src.v[k]
      decreases left
    {
      var k :| k in left;
      c.v := c.v[k := src.v[k]];
      left := left - {k};
    }
    assert c.v == src.v;
  }

  method CloneCell<T>(src: Cell?<T>) returns (c: Cell?<T>)
    ensures c == null <==> src == null
    ensures c != null ==> fresh(c)
    ensures CellValue(c) == old(CellValue(src))
  {
    if src == null {
      return null;
    }
    c := new Cell(src.v);
  }

  /** append([]T(nil), src...): a fresh array, but nil when there is nothing to append. */
  method AppendToNil<T>(src: array<T>) returns (c: array?<T>)
    ensures c == null <==> src.Length == 0
    ensures c != null ==> fresh(c) && c[..] == src[..]
  {
    if src.Length == 0 {
      return null;
    }
    c := new T[src.Length](i requires 0 <= i < src.Length reads src => src[i]);
  }

  method ClonePort(p: HPort) returns (c: HPort)
    ensures c.handlers != null ==> fresh(c.handlers)
    ensures PortValue(c) == E.ClonedPort(old(PortValue(p)))
  {
    c := p;
    if p.handlers != null {
      var h := AppendToNil(p.handlers);
      c := p.(handlers := h);
      assert p.handlers.Length == 0 <==> p.handlers[..] == [];
    }
  }

  method ClonePorts(src: array?<HPort>, ghost R: set<object>) returns (c: array?<HPort>, ghost S: set<object>)
    requires PortsIn(src, R)
    ensures fresh(S) && PortsIn(c, S)
    ensures
      PortsValue(c, S) ==
      match old(PortsValue(src, R))
      case None => None
      case Some(ports) => Some(seq(|ports|, i requires 0 <= i < |ports| => E.ClonedPort(ports[i])))
  {
    hide PortValue, E.ClonedPort;
    S := {};
    if src == null {
      return null, S;
    }
    c := new HPort[src.Length](_ => HPort(0, null));
    S := {c};
    for i := 0 to src.Length
      invariant fresh(S) && PortsIn(c, S) && c in S
      invariant forall j :: i <= j < c.Length ==> c[j] == HPort(0, null)
      invariant forall j :: 0 <= j < i ==> PortValue(c[j]) == E.ClonedPort(old(PortValue(src[j])))
    {
      var p := ClonePort(src[i]);
      c[i] := p;
      S := S + if p.handlers == null then {} else {p.handlers};
    }
    var ports := old(PortsValue(src, R)).value;
    assert PortsValue(c, S).value == seq(|ports|, i requires 0 <= i < |ports| => E.ClonedPort(ports[i]));
  }

  /** A larger footprint changes nothing. */
  lemma ServiceInLarger(s: HService, R: set<object>, S: set<object>)
    requires PortsIn(s.ports, R) && R <= S
    ensures PortsIn(s.ports, S) && ServiceValue(s, S) == ServiceValue(s, R)
  {
    if s.ports != null {
      assert PortsValue(s.ports, S).value == PortsValue(s.ports, R).value;
    }
  }

  method CloneService(src: HService, ghost R: set<object>) returns (c: HService, ghost S: set<object>)
    requires PortsIn(src.ports, R)
    ensures fresh(S) && PortsIn(c.ports, S)
    ensures ServiceValue(c, S) == E.ClonedService(old(ServiceValue(src, R)))
  {
    var ports;
    ports, S := ClonePorts(src.ports, R);
    c := src.(ports := ports);
  }

  method CloneServices(src: array?<HService>, ghost R: set<object>) returns (c: array?<HService>, ghost S: set<object>)
    requires ServicesIn(src, R)
    ensures fresh(S) && ServicesIn(c, S)
    ensures
      ServicesValue(c, S) ==
      match old(ServicesValue(src, R))
      case None => None
      case Some(svcs) => Some(seq(|svcs|, i requires 0 <= i < |svcs| => E.ClonedService(svcs[i])))
  {
    hide ServiceValue, E.ClonedService, PortsIn, PortsValue;
    S := {};
    if src == null {
      return null, S;
    }
    c := new HService[src.Length](_ => HService("", 0, null));
    ghost var P: set<object> := {};
    for i := 0 to src.Length
      invariant fresh(P) && c !in P
      invariant forall j :: 0 <= j < i ==>
        PortsIn(c[j].ports, P) && ServiceValue(c[j], P) == E.ClonedService(old(ServiceValue(src[j], R)))
    {
      ghost var before := P;
      var svc, T := CloneService(src[i], R);
      P := P + T;
      forall j | 0 <= j < i
        ensures PortsIn(c[j].ports, P) && ServiceValue(c[j], P) == E.ClonedService(old(ServiceValue(src[j], R)))
      {
        ServiceInLarger(c[j], before, P);
      }
      ServiceInLarger(svc, T, P);
      c[i] := svc;
    }
    S := P + {c};
    forall j | 0 <= j < c.Length
      ensures PortsIn(c[j].ports, S) && ServiceValue(c[j], S) == E.ClonedService(old(ServiceValue(src[j], R)))
    {
      ServiceInLarger(c[j], P, S);
    }
    var svcs := old(ServicesValue(src, R)).value;
    assert ServicesValue(c, S).value == seq(|svcs|, i requires 0 <= i < |svcs| => E.ClonedService(svcs[i]));
  }

  // ---- configurations ----

  class MachineConfig {
    var image: string
    var env: StringMap
    var metadata: StringMap
    var guest: Cell?<Guest>
    var services: array?<HService>
    var restart: Cell?<RestartPolicy>
    var mounts: array?<Mount>
    ghost var Below: set<object>  // what the services reach
    ghost var Repr: set<object>   // what the whole configuration reaches, itself included

    ghost predicate Valid()
      reads this, Repr
      ensures Valid() ==> this in Repr
    {
      && this in Repr && Below <= Repr && this !in Below
      && (env != null ==> env in Repr)
      && (metadata != null ==> metadata in Repr && metadata != env && metadata !in Below)
      && (guest != null ==> guest in Repr)
      && (restart != null ==> restart in Repr)
      && (mounts != null ==> mounts in Repr)
      && ServicesIn(services, Below)
    }

    ghost function Value(): Config
      requires Valid()
      reads this, Repr
    {
      Config(image, CellValue(env), CellValue(metadata), CellValue(guest), ServicesValue(services, Below),
             CellValue(restart), if mounts == null then None else Some(mounts[..]))
    }

    constructor (image: string, env: StringMap, metadata: StringMap, guest: Cell?<Guest>, services: array?<HService>,
                 restart: Cell?<RestartPolicy>, mounts: array?<Mount>, ghost below: set<object>)
      requires ServicesIn(services, below)
      requires metadata != null ==> metadata != env && metadata !in below
      ensures Valid() && fresh(this)
      ensures forall x :: x in Repr ==>
        x in below || x == this || x == env || x == metadata || x == guest || x == restart || x == mounts
      ensures Value() == Config(image, CellValue(env), CellValue(metadata), CellValue(guest),
                                ServicesValue(services, below), CellValue(restart),
                                if mounts == null then None else Some(mounts[..]))
    {
      this.image, this.env, this.metadata, this.guest := image, env, metadata, guest;
      this.services, this.restart, this.mounts := services, restart, mounts;
      Below := below;
      Repr := {this} + below + Pointee(env) + Pointee(metadata) + Pointee(guest) + Pointee(restart) + Pointee(mounts);
    }

    /** m.Config.Metadata[key] = value, making the map first if it is nil. */
    method PutMetadata(key: string, value: string)
      requires Valid()
      modifies Repr
      ensures Valid() && fresh(Repr - old(Repr))
      ensures
        var before := old(Value());
        var md := if before.metadata.Some? then before.metadata.value else map[];
        Value() == before.(metadata := Some(md[key := value]))
    {
      hide ServicesValue, ServicesIn;
      if metadata == null {
        metadata := new Cell(map[]);
        Repr := Repr + {metadata};
      }
      metadata.v := metadata.v[key := value];
    }

    method DropMetadata(key: string)
      requires Valid()
      modifies Repr
      ensures Valid() && Repr == old(Repr)
      ensures
        var before := old(Value());
        Value() == if before.metadata.Some? then before.(metadata := Some(before.metadata.value - {key})) else before
    {
      if metadata != null {
        metadata.v := metadata.v - {key};
      }
    }
  }

  method CloneMounts(src: array?<Mount>) returns (c: array?<Mount>)
    ensures c == null <==> src == null
    ensures c != null ==> fresh(c) && c[..] == src[..]
  {
    if src == null {
      return null;
    }
    c := new Mount[src.Length](i requires 0 <= i < src.Length reads src => src[i]);
  }

  /** The parts of a configuration that are one object deep. */
  method CloneParts(src: MachineConfig)
    returns (env: StringMap, metadata: StringMap, guest: Cell?<Guest>, restart: Cell?<RestartPolicy>,
             mounts: array?<Mount>)
    requires src.Valid()
    ensures env != null ==> fresh(env)
    ensures metadata != null ==> fresh(metadata) && metadata != env
    ensures guest != null ==> fresh(guest)
    ensures restart != null ==> fresh(restart)
    ensures mounts != null ==> fresh(mounts)
    ensures CellValue(env) == CellValue(src.env) && CellValue(metadata) == CellValue(src.metadata)
    ensures CellValue(guest) == CellValue(src.guest) && CellValue(restart) == CellValue(src.restart)
    ensures mounts == null <==> src.mounts == null
    ensures mounts != null ==> mounts[..] == src.mounts[..]
  {
    env := CloneStringMap(src.env);
    metadata := CloneStringMap(src.metadata);
    guest := CloneCell(src.guest);
    restart := CloneCell(src.restart);
    mounts := CloneMounts(src.mounts);
  }

  method CloneConfig(src: MachineConfig) returns (c: MachineConfig)
    requires src.Valid()
    ensures c.Valid() && fresh(c.Repr)
    ensures c.Value() == E.ClonedConfig(old(src.Value()))
  {
    hide CellValue;
    var env, metadata, guest, restart, mounts := CloneParts(src);
    var services, below := CloneServices(src.services, src.Below);
    c := new MachineConfig(src.image, env, metadata, guest, services, restart, mounts, below);
  }

  class ImageReference {
    var registry: string
    var repository: string
    var tag: string
    var digest: string
    var labels: StringMap

    constructor (registry: string, repository: string, tag: string, digest: string, labels: StringMap)
      ensures this.registry == registry && this.repository == repository && this.tag == tag && this.digest == digest
      ensures this.labels == labels
    {
      this.registry, this.repository, this.tag, this.digest, this.labels := registry, repository, tag, digest, labels;
    }

    ghost function Repr(): set<object>
      reads this
    {
      if labels == null then {this} else {this, labels}
    }

    ghost function Value(): ImageRef
      reads this, labels
    {
      ImageRef(registry, repository, tag, digest, CellValue(labels))
    }
  }

  method CloneImageReference(src: ImageReference) returns (c: ImageReference)
    ensures fresh(c.Repr()) && c.Value() == old(src.Value())
  {
    var labels := CloneStringMap(src.labels);
    c := new ImageReference(src.registry, src.repository, src.tag, src.digest, labels);
  }

  // ---- machines ----

  ghost function ConfigRepr(c: MachineConfig?): set<object>
    reads c
  {
    if c == null then {} else c.Repr
  }

  ghost function ConfigValue(c: MachineConfig?): Option<Config>
    requires c != null ==> c.Valid()
    reads c, if c == null then {} else c.Repr
  {
    if c == null then None else Some(c.Value())
  }

  /** The closure of an update reads the request's configuration through its pointer. */
  ghost function Meant(f: E.Mutation, config: Option<Config>): E.Mutation {
    if f.Churn? then f.(config := config) else f
  }

  class MachineRecord {
    var id: string
    var name: string
    var state: MachineState
    var region: string
    var instanceID: string
    var privateIP: string
    var config: MachineConfig?
    var imageRef: ImageReference?
    var createdAt: int
    var updatedAt: int
    var versions: array?<Version>
    var cordoned: bool
    ghost var Repr: set<object>

    ghost predicate Valid()
      reads this, Repr
      ensures Valid() ==> this in Repr
    {
      && this in Repr
      && (config != null ==> config in Repr && config.Repr <= Repr && this !in config.Repr && config.Valid())
      && (versions != null ==> versions in Repr && (config != null ==> versions !in config.Repr))
      && (imageRef != null ==>
           imageRef in Repr && imageRef.Repr() <= Repr && (config != null ==> imageRef.Repr() !! config.Repr))
    }

    ghost function Value(): Machine
      requires Valid()
      reads this, Repr
    {
      Machine(id, name, state, region, instanceID, privateIP,
              if config == null then None else Some(config.Value()),
              if imageRef == null then None else Some(imageRef.Value()),
              createdAt, updatedAt, if versions == null then [] else versions[..], cordoned)
    }

    constructor (id: string, name: string, state: MachineState, region: string, instanceID: string, privateIP: string,
                 config: MachineConfig?, imageRef: ImageReference?, createdAt: int, updatedAt: int,
                 versions: array?<Version>, cordoned: bool)
      requires config != null ==> config.Valid()
      requires config != null && versions != null ==> versions !in config.Repr
      requires config != null && imageRef != null ==> imageRef.Repr() !! config.Repr
      ensures Valid() && fresh(this)
      ensures Repr == {this} + (if config == null then {} else config.Repr)
                      + (if imageRef == null then {} else imageRef.Repr()) + Pointee(versions)
      ensures Value() == Machine(id, name, state, region, instanceID, privateIP,
                                 if config == null then None else Some(config.Value()),
                                 if imageRef == null then None else Some(imageRef.Value()),
                                 createdAt, updatedAt, if versions == null then [] else versions[..], cordoned)
    {
      this.id, this.name, this.state, this.region, this.instanceID := id, name, state, region, instanceID;
      this.privateIP, this.config, this.imageRef := privateIP, config, imageRef;
      this.createdAt, this.updatedAt, this.versions, this.cordoned := createdAt, updatedAt, versions, cordoned;
      Repr := {this} + (if config == null then {} else config.Repr) + (if imageRef == null then {} else imageRef.Repr())
              + Pointee(versions);
    }

    /** m.Versions[n-1].State = s, when there is a version. */
    method MarkLast(s: MachineState)
      requires Valid()
      modifies versions
      ensures Valid() && Value() == old(Value()).(versions := E.MarkLast(old(Value()).versions, s))
    {
      hide MachineConfig.Valid, MachineConfig.Value, ImageReference.Value;
      if versions != null && versions.Length > 0 {
        var n := versions.Length;
        versions[n - 1] := Version(versions[n - 1].instanceID, s);
      }
    }

    method Mark(s: MachineState)
      requires Valid()
      modifies `state, versions
      ensures Valid() && Value() == E.Mutate(old(Value()), E.Mark(s))
    {
      hide MachineConfig.Valid, MachineConfig.Value, ImageReference.Value;
      state := s;
      MarkLast(s);
    }

    method SettleBoot()
      requires Valid()
      modifies `state, versions
      ensures Valid() && Value() == E.Mutate(old(Value()), E.SettleBoot)
    {
      hide MachineConfig.Valid, ImageReference.Value;
      var s := Started;
      if config != null && Unpullable(config.image) {
        s := Failed;
      }
      Mark(s);
    }

    /** append(m.Versions, v). */
    method AppendVersion(v: Version)
      requires Valid()
      modifies `versions, `Repr
      ensures Valid() && fresh(Repr - old(Repr))
      ensures Value() == old(Value()).(versions := old(Value()).versions + [v])
    {
      hide MachineConfig.Valid, MachineConfig.Value, ImageReference.Value, ImageReference.Repr;
      var n := if versions == null then 0 else versions.Length;
      var vs := versions;
      var grown := new Version[n + 1](
        i requires 0 <= i <= n && (i < n ==> vs != null && i < vs.Length) reads Pointee(vs) =>
          if i < n then vs[i] else v);
      assert grown[..] == (if vs == null then [] else vs[..]) + [v];
      versions := grown;
      Repr := Repr + {grown};
    }

    /** The version churn of an update; the request's configuration, if any, becomes the machine's own. */
    method Churn(config: MachineConfig?, name: string, instance: string, now: int)
      requires Valid()
      requires config != null ==> config.Valid() && config.Repr !! Repr
      modifies this, versions
      ensures Valid() && id == old(id) && fresh(Repr - old(Repr) - old(ConfigRepr(config)))
      ensures Value() == E.Mutate(old(Value()), E.Churn(old(ConfigValue(config)), name, instance, now))
      ensures this.config == if config != null then config else old(this.config)
    {
      hide Valid, Value, MachineConfig.Valid, MachineConfig.Value;
      Adopt(config);
      MarkLast(Replaced);
      AppendVersion(Version(instance, Replacing));
      Restamp(name, instance, now);
    }

    method Restamp(name: string, instance: string, now: int)
      requires Valid()
      modifies `name, `instanceID, `state, `updatedAt
      ensures Valid()
      ensures Value() == old(Value()).(name := if name != "" then name else old(Value()).name, instanceID := instance,
                                       state := Replacing, updatedAt := now)
    {
      hide MachineConfig.Valid, MachineConfig.Value, ImageReference.Value, ImageReference.Repr;
      if name != "" {
        this.name := name;
      }
      instanceID, state, updatedAt := instance, Replacing, now;
    }

    method Adopt(config: MachineConfig?)
      requires Valid()
      requires config != null ==> config.Valid() && config.Repr !! Repr
      modifies `config, `Repr
      ensures Valid() && Repr == old(Repr) + ConfigRepr(config)
      ensures this.config == if config == null then old(this.config) else config
      ensures Value() == old(Value()).(config := if config == null then old(Value()).config else Some(config.Value()))
    {
      hide MachineConfig.Valid, MachineConfig.Value, ImageReference.Value;
      if config != null {
        this.config := config;
        Repr := Repr + config.Repr;
      }
    }

    method PutMetadata(key: string, value: string)
      requires Valid()
      modifies Repr
      ensures Valid() && id == old(id) && fresh(Repr - old(Repr))
      ensures Value() == E.Mutate(old(Value()), E.PutMetadata(key, value))
    {
      hide MachineConfig.Valid, MachineConfig.Value, ImageReference.Value;
      if config == null {
        var c := new MachineConfig("", null, null, null, null, null, null, {});
        Adopt(c);
      }
      config.PutMetadata(key, value);
      Repr := Repr + config.Repr;
    }

    method DropMetadata(key: string)
      requires Valid()
      modifies Repr
      ensures Valid() && id == old(id) && Repr == old(Repr)
      ensures Value() == E.Mutate(old(Value()), E.DropMetadata(key))
    {
      hide MachineConfig.Valid, MachineConfig.Value, ImageReference.Value;
      if config != null {
        config.DropMetadata(key);
      }
    }

    /** The closures that only assign a field. */
    method Assign(f: E.Mutation)
      requires Valid() && (f.Enter? || f.Cordon? || f.Touch?)
      modifies `state, `cordoned, `updatedAt
      ensures Valid() && Value() == E.Mutate(old(Value()), f)
    {
      hide MachineConfig.Valid, MachineConfig.Value, ImageReference.Value, ImageReference.Repr;
      match f {
        case Enter(s) => state := s;
        case Cordon(b) => cordoned := b;
        case Touch(now) => updatedAt := now;
      }
    }

    /** Runs the closure passed to UpdateMachine on the live machine. */
    method Apply(f: E.Mutation, config: MachineConfig?)
      requires Valid()
      requires config != null ==> f.Churn? && config.Valid() && config.Repr !! Repr
      modifies Repr
      ensures Valid() && id == old(id) && fresh(Repr - old(Repr) - old(ConfigRepr(config)))
      ensures Value() == E.Mutate(old(Value()), Meant(f, old(ConfigValue(config))))
    {
      hide Value, E.Mutate, MachineConfig.Valid, MachineConfig.Value;
      match f {
        case Mark(s) => Mark(s);
        case SettleBoot => SettleBoot();
        case Churn(_, name, instance, now) => Churn(config, name, instance, now);
        case PutMetadata(key, value) => PutMetadata(key, value);
        case DropMetadata(key) => DropMetadata(key);
        case _ => Assign(f);
      }
    }
  }

  method ClonePointers(src: MachineRecord) returns (config: MachineConfig?, imageRef: ImageReference?)
    requires src.Valid()
    ensures config != null ==> config.Valid() && fresh(config.Repr)
    ensures imageRef != null ==> fresh(imageRef.Repr()) && (config != null ==> imageRef.Repr() !! config.Repr)
    ensures
      var m := old(src.Value());
      && (if config == null then None else Some(config.Value())) == E.Cloned(m).config
      && (if imageRef == null then None else Some(imageRef.Value())) == m.imageRef
  {
    hide MachineConfig.Valid, MachineConfig.Value, ImageReference.Value, E.ClonedConfig;
    config, imageRef := null, null;
    if src.config != null {
      config := CloneConfig(src.config);
    }
    if src.imageRef != null {
      imageRef := CloneImageReference(src.imageRef);
    }
  }

  /** cloneMachine: a fresh machine sharing no object with its source. */
  method CloneMachine(src: MachineRecord) returns (c: MachineRecord)
    requires src.Valid()
    ensures c.Valid() && fresh(c.Repr) && c.id == src.id
    ensures c.Value() == E.Cloned(old(src.Value()))
  {
    hide MachineConfig.Valid, MachineConfig.Value, ImageReference.Value, E.ClonedConfig;
    var config, imageRef := ClonePointers(src);
    var versions: array?<Version> := null;
    if src.versions != null {
      versions := AppendToNil(src.versions);
    }
    c := new MachineRecord(src.id, src.name, src.state, src.region, src.instanceID, src.privateIP, config, imageRef,
                           src.createdAt, src.updatedAt, versions, src.cordoned);
  }

  // ---- apps ----

  class AppEntry {
    var org: string
    var status: string
    var machines: map<string, MachineRecord>
    ghost var Repr: set<object>

    /** Every machine is intact, and no two share an object. */
    ghost predicate Valid()
      reads this, Repr
      ensures Valid() ==> this in Repr
    {
      && this in Repr
      && (forall id :: id in machines ==>
           && machines[id] in Repr && machines[id].Repr <= Repr && this !in machines[id].Repr
           && machines[id].Valid() && machines[id].id == id)
      && (forall a, b :: a in machines && b in machines && a != b ==> machines[a].Repr !! machines[b].Repr)
    }

    ghost function Value(): E.App
      requires Valid()
      reads this, Repr
    {
      E.App(org, status, map id | id in machines :: machines[id].Value())
    }

    constructor (org: string, status: string)
      ensures Valid() && fresh(Repr) && Value() == E.App(org, status, map[])
    {
      this.org, this.status, machines := org, status, map[];
      Repr := {this};
    }

    method Insert(id: string, m: MachineRecord)
      requires Valid() && m.Valid() && m.Repr !! Repr && m.id == id
      modifies this
      ensures Valid() && Repr == old(Repr) + m.Repr
      ensures Value() == old(Value()).(machines := old(Value()).machines[id := m.Value()])
    {
      hide Valid, MachineRecord.Valid, MachineRecord.Value;
      ghost var before := Value().machines;
      machines := machines[id := m];
      Repr := Repr + m.Repr;
      AfterInsert(id, m);
      ValueIs(before, id, m);
    }

    twostate lemma AfterInsert(id: string, new m: MachineRecord)
      requires old(Valid()) && m.Valid() && m.Repr !! old(Repr) && m.id == id
      requires machines == old(machines)[id := m] && Repr == old(Repr) + m.Repr
      requires forall o :: o in old(Repr) && o != this ==> unchanged(o)
      ensures Valid()
      ensures forall x :: x in old(machines) && x != id ==> machines[x].Value() == old(machines[x].Value())
    {
      hide MachineRecord.Valid, MachineRecord.Value;
      forall x | x in old(machines) && x != id
        ensures machines[x].Valid() && machines[x].id == x && machines[x].Repr == old(machines[x].Repr)
        ensures machines[x].Value() == old(machines[x].Value())
      {
      }
    }

    lemma ValueIs(before: map<string, Machine>, id: string, m: MachineRecord)
      requires Valid() && m.Valid() && machines.Keys == before.Keys + {id} && machines[id] == m
      requires forall x :: x in before && x != id ==> machines[x].Value() == before[x]
      ensures Value() == E.App(org, status, before[id := m.Value()])
    {
      hide MachineRecord.Valid, MachineRecord.Value;
    }

    method Remove(id: string)
      requires Valid()
      modifies this
      ensures Valid() && Repr == old(Repr)
      ensures Value() == old(Value()).(machines := old(Value()).machines - {id})
    {
      hide MachineRecord.Valid, MachineRecord.Value;
      ghost var before := Value().machines;
      machines := machines - {id};
      assert Value().machines == before - {id};
    }

    lemma Contains(id: string)
      requires Valid() && id in machines
      ensures machines[id] in Repr && machines[id].Repr <= Repr && this !in machines[id].Repr
      ensures machines[id].Valid() && machines[id].id == id
      ensures id in Value().machines && Value().machines[id] == machines[id].Value()
    {
    }

    lemma Ids()
      requires Valid()
      ensures Value().machines.Keys == machines.Keys
    {
    }

    lemma OrgIs()
      requires Valid()
      ensures Value().org == org
    {
    }

    /** A change confined to one machine's objects leaves the entry intact and the other machines as they were. */
    twostate lemma OthersIntact(id: string, new extra: set<object>)
      requires old(Valid()) && id in old(machines) && machines == old(machines)
      requires machines[id].Valid() && machines[id].id == id && extra !! old(Repr)
      requires fresh(machines[id].Repr - old(machines[id].Repr) - extra)
      requires Repr == old(Repr) + machines[id].Repr
      requires forall o :: o in old(Repr) && o !in old(machines[id].Repr) && o != this ==> unchanged(o)
      ensures Valid()
      ensures forall x :: x in machines && x != id ==>
        machines[x].Valid() && machines[x].Value() == old(machines[x].Value())
    {
      hide MachineRecord.Valid, MachineRecord.Value;
      forall x | x in machines && x != id
        ensures machines[x].Repr == old(machines[x].Repr)
        ensures machines[x].Valid() && machines[x].Value() == old(machines[x].Value())
      {
        assert old(machines[x].Repr) !! old(machines[id].Repr);
        assert forall o :: o in old(machines[x].Repr) ==> unchanged(o);
      }
    }

    /** Runs a closure on one live machine; the others are untouched. */
    method Apply(id: string, f: E.Mutation, config: MachineConfig?)
      requires Valid() && id in machines
      requires config != null ==> f.Churn? && config.Valid() && config.Repr !! Repr
      modifies Repr
      ensures Valid() && machines == old(machines) && fresh(Repr - old(Repr) - old(ConfigRepr(config)))
      ensures
        var g := Meant(f, old(ConfigValue(config)));
        Value() == old(Value()).(machines := old(Value()).machines[id := E.Mutate(old(Value()).machines[id], g)])
    {
      hide Valid, MachineRecord.Valid, MachineRecord.Value, MachineConfig.Valid, MachineConfig.Value, E.Mutate,
           ConfigValue, Meant;
      ghost var before, extra := Value().machines, ConfigRepr(config);
      Contains(id);
      var m := machines[id];
      m.Apply(f, config);
      Repr := Repr + m.Repr;
      OthersIntact(id, extra);
      assert Value().machines == before[id := E.Mutate(before[id], Meant(f, old(ConfigValue(config))))];
    }
  }

  // ---- the store ----

  class Store {
    var apps: map<string, AppEntry>
    ghost var Repr: set<object>

    ghost predicate Valid()
      reads this, Repr
      ensures Valid() ==> this in Repr
    {
      && this in Repr
      && (forall a :: a in apps ==> apps[a] in Repr && apps[a].Repr <= Repr && this !in apps[a].Repr && apps[a].Valid())
      && (forall a, b :: a in apps && b in apps && a != b ==> apps[a].Repr !! apps[b].Repr)
    }

    /** The map of values this heap structure stands for. */
    ghost function Value(): E.Apps
      requires Valid()
      reads this, Repr
    {
      map a | a in apps :: apps[a].Value()
    }

    constructor ()
      ensures Valid() && fresh(Repr) && Value() == map[]
    {
      apps := map[];
      Repr := {this};
    }

    lemma Contains(a: string)
      requires Valid() && a in apps
      ensures apps[a] in Repr && apps[a].Repr <= Repr && this !in apps[a].Repr && apps[a].Valid()
      ensures a in Value() && Value()[a] == apps[a].Value()
    {
    }

    /** A change confined to one app's objects leaves the store intact and the other apps as they were. */
    twostate lemma OthersIntact(a: string, new extra: set<object>)
      requires old(Valid()) && a in old(apps) && apps == old(apps)
      requires apps[a].Valid() && extra !! old(Repr)
      requires fresh(apps[a].Repr - old(apps[a].Repr) - extra)
      requires Repr == old(Repr) + apps[a].Repr
      requires forall o :: o in old(Repr) && o !in old(apps[a].Repr) && o != this ==> unchanged(o)
      ensures Valid()
      ensures Value() == old(Value())[a := apps[a].Value()]
    {
      hide AppEntry.Valid, AppEntry.Value;
      forall x | x in apps && x != a
        ensures apps[x].Repr == old(apps[x].Repr)
        ensures apps[x].Valid() && apps[x].Value() == old(apps[x].Value())
      {
        assert old(apps[x].Repr) !! old(apps[a].Repr);
        assert forall o :: o in old(apps[x].Repr) ==> unchanged(o);
      }
      assert Valid();
      assert Value() == old(Value())[a := apps[a].Value()];
    }

    /** An app without a status is deployed. */
    method CreateApp(name: string, org: string, status: string) returns (r: E.Result<E.App>)
      requires Valid()
      modifies this
      ensures Valid() && fresh(Repr - old(Repr))
      ensures
        if name in old(Value()) then r == E.Err(E.AppExists) && Value() == old(Value())
        else
          var app := E.App(org, if status == "" then "deployed" else status, map[]);
          r == E.Ok(app) && Value() == old(Value())[name := app]
    {
      hide Valid, Value, AppEntry.Valid, AppEntry.Value;
      Domain();
      if name in apps {
        return E.Err(E.AppExists);
      }
      var status := if status == "" then "deployed" else status;
      var e := new AppEntry(org, status);
      AddEntry(name, e);
      r := E.Ok(E.App(org, status, map[]));
    }

    method AddEntry(name: string, e: AppEntry)
      requires Valid() && e.Valid() && e.Repr !! Repr
      modifies this
      ensures Valid() && Repr == old(Repr) + e.Repr
      ensures Value() == old(Value())[name := e.Value()]
    {
      hide Valid, AppEntry.Valid, AppEntry.Value;
      ghost var before := Value();
      apps := apps[name := e];
      Repr := Repr + e.Repr;
      AfterAdd(name, e);
      ValueIs(before, name, e);
    }

    twostate lemma AfterAdd(name: string, new e: AppEntry)
      requires old(Valid()) && e.Valid() && e.Repr !! old(Repr)
      requires apps == old(apps)[name := e] && Repr == old(Repr) + e.Repr
      requires forall o :: o in old(Repr) && o != this ==> unchanged(o)
      ensures Valid()
      ensures forall a :: a in old(apps) && a != name ==> apps[a].Value() == old(apps[a].Value())
    {
      hide AppEntry.Valid, AppEntry.Value;
      forall a | a in old(apps) && a != name
        ensures apps[a].Valid() && apps[a].Repr == old(apps[a].Repr) && apps[a].Value() == old(apps[a].Value())
      {
      }
    }

    lemma ValueIs(before: E.Apps, name: string, e: AppEntry)
      requires Valid() && e.Valid() && apps.Keys == before.Keys + {name} && apps[name] == e
      requires forall a :: a in before && a != name ==> apps[a].Value() == before[a]
      ensures Value() == before[name := e.Value()]
    {
      hide AppEntry.Valid, AppEntry.Value;
    }

    /** GetApp, for the handlers that only ask whether the app exists. */
    method HasApp(name: string) returns (ok: bool)
      requires Valid()
      ensures ok == (name in Value())
    {
      Domain();
      ok := name in apps;
    }

    lemma Domain()
      requires Valid()
      ensures Value().Keys == apps.Keys
    {
    }

    method DeleteApp(name: string) returns (r: E.Result<()>)
      requires Valid()
      modifies this
      ensures Valid() && Repr == old(Repr)
      ensures r == if name in old(Value()) then E.Ok(()) else E.Err(E.AppNotFound)
      ensures Value() == old(Value()) - {name}
    {
      hide AppEntry.Valid, AppEntry.Value;
      ghost var before := Value();
      if name !in apps {
        assert before - {name} == before;
        return E.Err(E.AppNotFound);
      }
      apps := apps - {name};
      assert Value() == before - {name};
      r := E.Ok(());
    }

    /** lookup: finds the live machine. */
    method Find(k: Key) returns (r: E.Result<MachineRecord>)
      requires Valid()
      ensures
        match E.Lookup(Value(), k)
        case Err(e) => r == E.Err(e)
        case Ok(m) =>
          && r.Ok? && k.app in apps && k.id in apps[k.app].machines && r.value == apps[k.app].machines[k.id]
          && r.value.Valid() && r.value.Repr <= Repr && r.value.Value() == m
    {
      if k.app !in apps {
        return E.Err(E.AppNotFound);
      }
      var e := apps[k.app];
      Contains(k.app);
      if k.id !in e.machines {
        return E.Err(E.MachineNotFound);
      }
      e.Contains(k.id);
      r := E.Ok(e.machines[k.id]);
    }

    /** A machine handed out is a fresh copy: it shares nothing with the store. */
    method GetMachine(k: Key) returns (r: E.Result<MachineRecord>)
      requires Valid()
      ensures
        match E.Lookup(Value(), k)
        case Err(e) => r == E.Err(e)
        case Ok(m) => r.Ok? && r.value.Valid() && fresh(r.value.Repr) && r.value.Value() == E.Cloned(m)
    {
      hide Valid, Value, AppEntry.Valid, AppEntry.Value, MachineRecord.Valid, MachineRecord.Value, E.Cloned;
      var found := Find(k);
      if found.Err? {
        return found;
      }
      var c := CloneMachine(found.value);
      r := E.Ok(c);
    }

    /** Stores a private copy and returns another. */
    method CreateMachine(app: string, m: MachineRecord) returns (r: E.Result<MachineRecord>)
      requires Valid() && m.Valid()
      modifies Repr
      ensures Valid() && fresh(Repr - old(Repr))
      ensures
        var v := old(m.Value());
        if app !in old(Value()) then r == E.Err(E.AppNotFound) && Value() == old(Value())
        else
          && Value() == E.Put(old(Value()), Key(app, v.id), E.Cloned(v))
          && r.Ok? && r.value.Valid() && fresh(r.value.Repr) && r.value.Repr !! Repr && r.value.Value() == E.Cloned(v)
    {
      hide Valid, Value, AppEntry.Valid, AppEntry.Value, MachineRecord.Valid, E.Cloned;
      Domain();
      if app !in apps {
        return E.Err(E.AppNotFound);
      }
      Cloning.ClonedTwice(m.Value());
      var stored := CloneMachine(m);
      var c := CloneMachine(stored);
      StoreMachine(app, m.id, stored);
      r := E.Ok(c);
    }

    method StoreMachine(app: string, id: string, stored: MachineRecord)
      requires Valid() && app in apps && stored.Valid() && stored.Repr !! Repr && stored.id == id
      modifies Repr
      ensures Valid() && Repr <= old(Repr) + stored.Repr
      ensures Value() == E.Put(old(Value()), Key(app, id), stored.Value())
    {
      hide AppEntry.Valid, AppEntry.Value, MachineRecord.Valid, MachineRecord.Value;
      var e := apps[app];
      ghost var extra := stored.Repr;
      e.Insert(id, stored);
      Repr := Repr + e.Repr;
      OthersIntact(app, extra);
    }

    method DeleteMachine(k: Key) returns (r: E.Result<()>)
      requires Valid()
      modifies Repr
      ensures Valid() && Repr == old(Repr)
      ensures Value() == E.Remove(old(Value()), k)
      ensures
        match E.Lookup(old(Value()), k)
        case Err(e) => r == E.Err(e)
        case Ok(_) => r == E.Ok(())
    {
      hide Valid, AppEntry.Valid, AppEntry.Value;
      var found := Find(k);
      if found.Err? {
        return E.Err(found.error);
      }
      Contains(k.app);
      Evict(k);
      r := E.Ok(());
    }

    method Evict(k: Key)
      requires Valid() && k.app in apps
      modifies Repr
      ensures Valid() && Repr == old(Repr)
      ensures
        var a := old(Value())[k.app];
        Value() == old(Value())[k.app := a.(machines := a.machines - {k.id})]
    {
      hide AppEntry.Valid, AppEntry.Value;
      var e := apps[k.app];
      e.Remove(k.id);
      Repr := Repr + e.Repr;
      OthersIntact(k.app, {});
    }

    /**
     Applies a closure to the live machine and returns a copy of the result. If the closure ends with an error, that
     is returned instead; what it changed before stays changed.
     */
    method UpdateMachine(k: Key, f: E.Mutation, config: MachineConfig?, failure: Option<E.StoreError>)
      returns (r: E.Result<MachineRecord>)
      requires Valid()
      requires config != null ==> f.Churn? && config.Valid() && config.Repr !! Repr
      modifies Repr
      ensures Valid() && fresh(Repr - old(Repr) - old(ConfigRepr(config)))
      ensures Value() == E.Update(old(Value()), k, Meant(f, old(ConfigValue(config))))
      ensures
        match E.Lookup(old(Value()), k)
        case Err(e) => r == E.Err(e)
        case Ok(m) =>
          if failure.Some? then r == E.Err(failure.value)
          else
            && r.Ok? && r.value.Valid() && fresh(r.value.Repr) && r.value.Repr !! Repr
            && r.value.Value() == E.Cloned(E.Mutate(m, Meant(f, old(ConfigValue(config)))))
    {
      hide Valid, Value, AppEntry.Valid, AppEntry.Value, MachineRecord.Valid, MachineRecord.Value, MachineConfig.Valid,
           E.Cloned, E.Mutate, ConfigValue, Meant;
      var found := Find(k);
      if found.Err? {
        return found;
      }
      Modify(k, f, config);
      if failure.Some? {
        return E.Err(failure.value);
      }
      var again := Find(k);
      PutIsFound(old(Value()), k, E.Mutate(E.Lookup(old(Value()), k).value, Meant(f, old(ConfigValue(config)))));
      var c := CloneMachine(again.value);
      r := E.Ok(c);
    }

    lemma PutIsFound(apps: E.Apps, k: Key, m: Machine)
      requires k.app in apps
      ensures E.Lookup(E.Put(apps, k, m), k) == E.Ok(m)
    {
    }

    method Modify(k: Key, f: E.Mutation, config: MachineConfig?)
      requires Valid() && E.Lookup(Value(), k).Ok?
      requires config != null ==> f.Churn? && config.Valid() && config.Repr !! Repr
      modifies Repr
      ensures Valid() && fresh(Repr - old(Repr) - old(ConfigRepr(config)))
      ensures
        var m, g := E.Lookup(old(Value()), k).value, Meant(f, old(ConfigValue(config)));
        Value() == E.Put(old(Value()), k, E.Mutate(m, g))
    {
      hide Valid, AppEntry.Valid, MachineRecord.Valid, MachineRecord.Value, MachineConfig.Valid, E.Mutate, ConfigValue,
           Meant;
      Contains(k.app);
      var e := apps[k.app];
      ghost var extra := ConfigRepr(config);
      e.Apply(k.id, f, config);
      Repr := Repr + e.Repr;
      OthersIntact(k.app, extra);
    }

    /** Every machine is stored under its own id. */
    lemma IdsAreKeys(k: Key)
      requires Valid() && E.Lookup(Value(), k).Ok?
      ensures E.Lookup(Value(), k).value.id == k.id
    {
    }

    /** Copies of every machine under an app, each once, in an unspecified order given by `ids`. */
    method ListMachines(app: string) returns (r: E.Result<seq<MachineRecord>>, ghost ids: seq<string>)
      requires Valid()
      ensures app !in Value() ==> r == E.Err(E.AppNotFound)
      ensures app in Value() ==> r.Ok? && IsListing(r.value, ids, Value()[app].machines)
      ensures r.Ok? ==> forall i :: 0 <= i < |r.value| ==> fresh(r.value[i].Repr)
    {
      hide Valid, Value, AppEntry.Valid, AppEntry.Value, IsListing;
      Domain();
      ids := [];
      if app !in apps {
        return E.Err(E.AppNotFound), ids;
      }
      Contains(app);
      var out;
      out, ids := CopyMachines(apps[app]);
      r := E.Ok(out);
    }

    /** The copies in a listing carry the ids they are listed under. */
    lemma ListedIds(app: string, out: seq<MachineRecord>, ids: seq<string>)
      requires Valid() && app in Value() && IsListing(out, ids, Value()[app].machines)
      ensures |ids| == |out| && forall i :: 0 <= i < |out| ==> out[i].id == ids[i] && out[i] in out[i].Repr
      ensures forall id :: id in ids <==> id in Value()[app].machines
    {
      hide Valid, Value, MachineRecord.Valid;
      forall i | 0 <= i < |out|
        ensures out[i].id == ids[i]
      {
        assert ids[i] in ids;
        IdsAreKeys(Key(app, ids[i]));
      }
    }

    /** Copies of every machine of every app owned by an org: one listing an app, in an unspecified order. */
    method ListMachinesByOrg(org: string) returns (out: seq<MachineRecord>, ghost keys: seq<Key>)
      requires Valid()
      ensures AreCopies(out, keys, Value()) && AreOwned(keys, Value(), org, {})
      ensures forall i :: 0 <= i < |out| ==> fresh(out[i].Repr)
    {
      hide Valid, Value, AppEntry.Valid, AppEntry.Value, IsListing, AreCopies, AreOwned, AreKeysOf, KeysUnder, E.Lookup;
      out, keys := [], [];
      Domain();
      ghost var v := Value();
      var left := apps.Keys;
      NothingListed(v, org);
      while left != {}
        invariant left <= apps.Keys && Valid() && Value() == v
        invariant AreCopies(out, keys, v) && AreOwned(keys, v, org, left)
        invariant forall i :: 0 <= i < |out| ==> fresh(out[i].Repr)
        decreases left
      {
        var app :| app in left;
        ghost var before := left;
        left := left - {app};
        Contains(app);
        apps[app].OrgIs();
        ghost var more: seq<Key> := [];
        if apps[app].org == org {
          var copies, ids := CopyMachines(apps[app]);
          more := KeysUnder(app, ids);
          ListingIsOwned(app, copies, ids, v);
          CopiesOfConcat(out, keys, copies, more, v);
          out := out + copies;
        } else {
          assert keys + more == keys;
        }
        OwnedOfConcat(keys, more, v, org, before, app);
        keys := keys + more;
      }
    }
  }

  /** `out` holds a copy of the machine under each key, in order. */
  ghost predicate AreCopies(out: seq<MachineRecord>, keys: seq<Key>, v: E.Apps)
    reads out, set i, o | 0 <= i < |out| && o in out[i].Repr :: o
  {
    && |keys| == |out|
    && forall i :: 0 <= i < |out| ==>
         out[i].Valid() && E.Lookup(v, keys[i]).Ok? && out[i].Value() == E.Cloned(E.Lookup(v, keys[i]).value)
  }

  /** The keys of every machine of an org's apps, each once, leaving out the apps in `left`. */
  ghost predicate AreOwned(keys: seq<Key>, v: E.Apps, org: string, left: set<string>) {
    && (forall i, j :: 0 <= i < j < |keys| ==> keys[i] != keys[j])
    && (forall k: Key :: k in keys <==> E.Lookup(v, k).Ok? && v[k.app].org == org && k.app !in left)
  }

  lemma NothingListed(v: E.Apps, org: string)
    ensures AreCopies([], [], v) && AreOwned([], v, org, v.Keys)
  {
  }

  lemma CopiesOfConcat(out: seq<MachineRecord>, keys: seq<Key>, more: seq<MachineRecord>, others: seq<Key>, v: E.Apps)
    requires AreCopies(out, keys, v) && AreCopies(more, others, v)
    ensures AreCopies(out + more, keys + others, v)
  {
    hide MachineRecord.Valid, MachineRecord.Value, E.Cloned, E.Lookup;
  }

  /** The keys of one app. */
  ghost predicate AreKeysOf(app: string, keys: seq<Key>, v: E.Apps) {
    && (forall i, j :: 0 <= i < j < |keys| ==> keys[i] != keys[j])
    && (forall k: Key :: k in keys <==> k.app == app && E.Lookup(v, k).Ok?)
  }

  lemma OwnedOfConcat(keys: seq<Key>, more: seq<Key>, v: E.Apps, org: string, left: set<string>, app: string)
    requires AreOwned(keys, v, org, left) && app in left && app in v
    requires if v[app].org == org then AreKeysOf(app, more, v) else more == []
    ensures AreOwned(keys + more, v, org, left - {app})
  {
    var all := keys + more;
    assert forall k: Key :: k in all <==> k in keys || k in more;
    forall i, j | 0 <= i < j < |all|
      ensures all[i] != all[j]
    {
      if i < |keys| <= j {
        assert all[i] in keys && all[j] in more;
      }
    }
  }

  ghost function KeysUnder(app: string, ids: seq<string>): seq<Key> {
    seq(|ids|, i requires 0 <= i < |ids| => Key(app, ids[i]))
  }

  /** A listing of one app's machines, keyed by app and id. */
  lemma ListingIsOwned(app: string, copies: seq<MachineRecord>, ids: seq<string>, v: E.Apps)
    requires app in v && IsListing(copies, ids, v[app].machines)
    ensures AreCopies(copies, KeysUnder(app, ids), v) && AreKeysOf(app, KeysUnder(app, ids), v)
  {
    hide MachineRecord.Valid, MachineRecord.Value, E.Cloned;
    var more := KeysUnder(app, ids);
    forall k: Key | k.app == app && k.id in v[app].machines
      ensures k in more
    {
      assert k.id in ids;
      var i :| 0 <= i < |ids| && ids[i] == k.id;
      assert more[i] == k;
    }
  }

  /** `out` holds a copy of the machine under each id, in order. */
  ghost predicate AreCopiesOf(out: seq<MachineRecord>, ids: seq<string>, machines: map<string, Machine>)
    reads out, set i, o | 0 <= i < |out| && o in out[i].Repr :: o
  {
    && |ids| == |out|
    && forall i :: 0 <= i < |out| ==>
         out[i].Valid() && ids[i] in machines && out[i].Value() == E.Cloned(machines[ids[i]])
  }

  /** ... and every machine has one. */
  ghost predicate IsListing(out: seq<MachineRecord>, ids: seq<string>, machines: map<string, Machine>)
    reads out, set i, o | 0 <= i < |out| && o in out[i].Repr :: o
  {
    && AreCopiesOf(out, ids, machines)
    && (forall i, j :: 0 <= i < j < |ids| ==> ids[i] != ids[j])
    && (forall id :: id in ids <==> id in machines)
  }

  lemma OneMoreCopy(out: seq<MachineRecord>, ids: seq<string>, machines: map<string, Machine>, c: MachineRecord,
                    id: string)
    requires AreCopiesOf(out, ids, machines)
    requires c.Valid() && id in machines && c.Value() == E.Cloned(machines[id])
    ensures AreCopiesOf(out + [c], ids + [id], machines)
  {
    hide MachineRecord.Valid, MachineRecord.Value, E.Cloned;
  }

  method CopyMachines(e: AppEntry) returns (out: seq<MachineRecord>, ghost ids: seq<string>)
    requires e.Valid()
    ensures IsListing(out, ids, e.Value().machines)
    ensures forall i :: 0 <= i < |out| ==> fresh(out[i].Repr)
  {
    hide MachineRecord.Valid, MachineRecord.Value, E.Cloned, AreCopiesOf, AppEntry.Valid;
    out, ids := [], [];
    ghost var ms := e.Value().machines;
    e.Ids();
    var left := e.machines.Keys;
    NoCopies(ms);
    while left != {}
      invariant left <= e.machines.Keys && e.Valid() && e.Value().machines == ms
      invariant AreCopiesOf(out, ids, ms) && forall i :: 0 <= i < |out| ==> fresh(out[i].Repr)
      invariant forall i, j :: 0 <= i < j < |ids| ==> ids[i] != ids[j]
      invariant forall id :: id in ids <==> id in ms && id !in left
      decreases left
    {
      var id :| id in left;
      left := left - {id};
      e.Contains(id);
      var c := CloneMachine(e.machines[id]);
      OneMoreCopy(out, ids, ms, c, id);
      out, ids := out + [c], ids + [id];
    }
  }

  lemma NoCopies(machines: map<string, Machine>)
    ensures AreCopiesOf([], [], machines)
  {
  }

  // ---- what callers can do with the copies they get: anything, and it does not show ----

  /** Get a machine, write anything at all to whatever the copy reaches, get it again: the same machine. */
  method GetOverwriteGet(store: Store, k: Key) returns (again: E.Result<MachineRecord>)
    requires store.Valid()
    ensures store.Valid() && store.Value() == old(store.Value())
    ensures
      match E.Lookup(old(store.Value()), k)
      case Err(e) => again == E.Err(e)
      case Ok(m) => again.Ok? && again.value.Valid() && fresh(again.value.Repr) && again.value.Value() == E.Cloned(m)
  {
    hide Store.Valid, Store.Value, MachineRecord.Valid, MachineRecord.Value, E.Lookup, E.Cloned;
    var first := store.GetMachine(k);
    if first.Ok? {
      modify first.value.Repr;
    }
    again := store.GetMachine(k);
  }

  /** The same for the machine handed to create and for the copy create hands back. */
  method CreateOverwriteGet(store: Store, app: string, m: MachineRecord) returns (again: E.Result<MachineRecord>)
    requires store.Valid() && m.Valid() && m.Repr !! store.Repr
    requires app in store.Value()
    modifies store.Repr, m.Repr
    ensures store.Valid()
    ensures
      var v := E.Cloned(old(m.Value()));
      && store.Value() == E.Put(old(store.Value()), Key(app, v.id), v)
      && again.Ok? && again.value.Valid() && fresh(again.value.Repr) && again.value.Value() == v
  {
    hide Store.Valid, Store.Value, MachineRecord.Valid, MachineRecord.Value;
    IdIs(m);
    Cloning.ClonedTwice(m.Value());
    var k := Key(app, m.id);
    var created := store.CreateMachine(app, m);
    modify m.Repr, created.value.Repr;
    again := store.GetMachine(k);
  }

  lemma IdIs(m: MachineRecord)
    requires m.Valid()
    ensures m.Value().id == m.id
  {
  }
}
