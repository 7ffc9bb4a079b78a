/** A request's configuration as decoding leaves it: fresh objects, of the value the body says. */
module Decoding {
  import opened Flaps
  import opened MachineStore

  method DecodePointer<T>(value: Option<T>) returns (c: Cell?<T>)
    ensures c != null ==> fresh(c)
    ensures CellValue(c) == value
  {
    if value.None? {
      return null;
    }
    c := new Cell(value.value);
  }

  method DecodeSlice<T>(value: Option<seq<T>>) returns (a: array?<T>)
    ensures a != null ==> fresh(a)
    ensures value == if a == null then None else Some(a[..])
  {
    if value.None? {
      return null;
    }
    var elements := value.value;
    a := new T[|elements|](i requires 0 <= i < |elements| => elements[i]);
    assert a[..] == elements;
  }

  method DecodePorts(value: Option<seq<Port>>) returns (a: array?<HPort>, ghost S: set<object>)
    ensures fresh(S) && PortsIn(a, S) && PortsValue(a, S) == value
  {
    hide PortValue;
    S := {};
    if value.None? {
      return null, S;
    }
    var ports := value.value;
    a := new HPort[|ports|](_ => HPort(0, null));
    S := {a};
    for i := 0 to |ports|
      invariant fresh(S) && PortsIn(a, S) && a in S
      invariant forall j :: i <= j < a.Length ==> a[j] == HPort(0, null)
      invariant forall j :: 0 <= j < i ==> PortValue(a[j]) == ports[j]
    {
      var handlers := DecodeSlice(ports[i].handlers);
      PortIs(HPort(ports[i].port, handlers), ports[i]);
      a[i] := HPort(ports[i].port, handlers);
      S := S + Pointee(handlers);
    }
    assert PortsValue(a, S).value == ports;
  }

  lemma PortIs(p: HPort, v: Port)
    requires p.port == v.port && v.handlers == if p.handlers == null then None else Some(p.handlers[..])
    ensures PortValue(p) == v
  {
  }

  method DecodeServices(value: Option<seq<Service>>) returns (a: array?<HService>, ghost S: set<object>)
    ensures fresh(S) && ServicesIn(a, S) && ServicesValue(a, S) == value
  {
    hide ServiceValue, PortsIn, PortsValue;
    S := {};
    if value.None? {
      return null, S;
    }
    var svcs := value.value;
    a := new HService[|svcs|](_ => HService("", 0, null));
    ghost var P: set<object> := {};
    for i := 0 to |svcs|
      invariant fresh(P) && a !in P
      invariant forall j :: 0 <= j < i ==> PortsIn(a[j].ports, P) && ServiceValue(a[j], P) == svcs[j]
    {
      ghost var before := P;
      var ports, T := DecodePorts(svcs[i].ports);
      var svc := HService(svcs[i].protocol, svcs[i].internalPort, ports);
      ServiceIs(svc, T, svcs[i]);
      P := P + T;
      forall j | 0 <= j < i
        ensures PortsIn(a[j].ports, P) && ServiceValue(a[j], P) == svcs[j]
      {
        ServiceInLarger(a[j], before, P);
      }
      ServiceInLarger(svc, T, P);
      a[i] := svc;
    }
    S := P + {a};
    forall j | 0 <= j < a.Length
      ensures PortsIn(a[j].ports, S) && ServiceValue(a[j], S) == svcs[j]
    {
      ServiceInLarger(a[j], P, S);
    }
    assert ServicesValue(a, S).value == svcs;
  }

  lemma ServiceIs(s: HService, R: set<object>, v: Service)
    requires PortsIn(s.ports, R) && PortsValue(s.ports, R) == v.ports
    requires s.protocol == v.protocol && s.internalPort == v.internalPort
    ensures ServiceValue(s, R) == v
  {
  }

  method DecodeConfig(value: Option<Config>) returns (c: MachineConfig?)
    ensures c != null ==> c.Valid() && fresh(c.Repr)
    ensures ConfigValue(c) == value
  {
    hide CellValue, ServicesIn, ServicesValue;
    if value.None? {
      return null;
    }
    var v := value.value;
    var env := DecodePointer(v.env);
    var metadata := DecodePointer(v.metadata);
    var guest := DecodePointer(v.guest);
    var restart := DecodePointer(v.restart);
    var services, below := DecodeServices(v.services);
    var mounts := DecodeSlice(v.mounts);
    c := new MachineConfig(v.image, env, metadata, guest, services, restart, mounts, below);
  }
}
