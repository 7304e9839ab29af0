/** How Services hold cluster addresses and node ports: concurrent creates, updates and deletes
    as interleaved steps over one set of allocated resources. */
module ServiceAllocation {
  import opened Options
  import opened Text

  /** A cluster address by its place in the range, a node port, or a text that is no address of
      the range. */
  datatype Resource = Address(index: nat) | NodePort(number: int) | Unusable(text: Str)

  /** The resources that may be allocated. Several texts may stand for one address (leading zeros
      are accepted): `index` reads a text, `text` prints an address. */
  datatype Pool = Pool(index: Str -> Option<nat>, text: nat -> Str, size: nat, first: int, last: int) {
    ghost predicate Valid() {
      && index([]).None? && index(NONE).None?
      && (forall ip: Str :: index(ip).Some? ==> index(ip).value < size)
      && (forall n: nat :: n < size ==> index(text(n)) == Some(n))
    }

    predicate Contains(r: Resource) {
      match r
      case Address(n) => n < size
      case NodePort(n) => first <= n <= last
      case Unusable(_) => false
    }

    function Of(ip: Str): Resource {
      if index(ip).Some? then Address(index(ip).value) else Unusable(ip)
    }
  }

  datatype ServiceType = ClusterIPType | NodePortType | LoadBalancerType | ExternalType

  /** A service port: its name, number and protocol as one label, and its node port. */
  datatype Port = Port(lbl: Str, nodePort: Option<int>)

  datatype Service = Service(kind: Option<ServiceType>, clusterIP: Str, clusterIPs: Option<seq<Str>>, ports: seq<Port>)

  const NONE: Str := [78, 111, 110, 101]

  function KindOf(s: Service): ServiceType {
    if s.kind.Some? then s.kind.value else ClusterIPType
  }

  predicate RequiresClusterIP(s: Service) {
    !KindOf(s).ExternalType?
  }

  predicate RequiresNodePorts(s: Service) {
    KindOf(s).NodePortType? || KindOf(s).LoadBalancerType?
  }

  // ----- the resources that a service names -----

  function AddDistinct(ips: seq<Str>, more: seq<Str>): seq<Str>
    decreases more
  {
    if more == [] then ips
    else AddDistinct(if more[0] == NONE || more[0] in ips then ips else ips + [more[0]], more[1..])
  }

  /** The addresses a service names, each once, its clusterIP first. */
  function ClusterIPs(s: Service): seq<Str> {
    AddDistinct(if s.clusterIP == [] || s.clusterIP == NONE then [] else [s.clusterIP],
                if s.clusterIPs.Some? then s.clusterIPs.value else [])
  }

  function NodePorts(ports: seq<Port>): seq<int> {
    if ports == [] then []
    else
      var before, last := NodePorts(ports[..|ports| - 1]), ports[|ports| - 1].nodePort;
      if last.Some? then before + [last.value] else before
  }

  function Addresses(pool: Pool, ips: seq<Str>): seq<Resource> {
    seq(|ips|, i requires 0 <= i < |ips| => pool.Of(ips[i]))
  }

  function Numbers(ports: seq<int>): seq<Resource> {
    seq(|ports|, i requires 0 <= i < |ports| => NodePort(ports[i]))
  }

  /** What a service names, in the order of release. */
  function Allocations(pool: Pool, s: Service): seq<Resource> {
    Addresses(pool, ClusterIPs(s)) + Numbers(NodePorts(s.ports))
  }

  function Difference<T(==)>(left: seq<T>, right: seq<T>): seq<T> {
    if left == [] then []
    else
      var before, last := Difference(left[..|left| - 1], right), left[|left| - 1];
      if last in right then before else before + [last]
  }

  /** What an update gives up: the texts and numbers it no longer names. */
  function Given(pool: Pool, was: Service, now: Service): seq<Resource> {
    Addresses(pool, Difference(ClusterIPs(was), ClusterIPs(now))) + Numbers(Difference(NodePorts(was.ports), NodePorts(now.ports)))
  }

  predicate Distinct<T(==)>(s: seq<T>) {
    forall i, j :: 0 <= i < j < |s| ==> s[i] != s[j]
  }

  // ----- what an update keeps of the service it replaces -----

  function PreservedPorts(ports: seq<Port>, was: seq<Port>): seq<Port> {
    seq(|ports|, i requires 0 <= i < |ports| => PreservedPort(ports[i], if i < |was| then Some(was[i]) else None))
  }

  /** A node port that is unset, or 0, is taken over from the old port at the same place. */
  function PreservedPort(port: Port, was: Option<Port>): Port {
    if (port.nodePort.None? || port.nodePort.value == 0) && was.Some? && was.value.nodePort.Some? && was.value.nodePort.value != 0
    then port.(nodePort := was.value.nodePort) else port
  }

  function Unset(ports: seq<Port>): seq<Port> {
    seq(|ports|, i requires 0 <= i < |ports| => ports[i].(nodePort := None))
  }

  function Preserved(given: Service, was: Service): Service {
    var s := given.(kind := Some(if given.kind.Some? then given.kind.value else KindOf(was)));
    var addressed :=
      if !RequiresClusterIP(s) then s.(clusterIP := [], clusterIPs := None)
      else s.(clusterIP := if s.clusterIP == [] then was.clusterIP else s.clusterIP,
              clusterIPs := if s.clusterIPs.None? then was.clusterIPs else s.clusterIPs);
    addressed.(ports := if RequiresNodePorts(s) then PreservedPorts(s.ports, was.ports) else Unset(s.ports))
  }

  /** The source first looks an old port up by its label and place, then by its place alone; the
      two lookups always find the same port. */
  method PreserveNodePorts(ports: seq<Port>, was: seq<Port>) returns (preserved: seq<Port>)
    ensures preserved == PreservedPorts(ports, was)
  {
    var oldByIdentity: map<(Str, nat), Port> := map[];
    for index := 0 to |was|
      invariant forall lbl, i: nat :: (lbl, i) in oldByIdentity <==> i < index && was[i].lbl == lbl
      invariant forall lbl, i: nat :: (lbl, i) in oldByIdentity ==> oldByIdentity[(lbl, i)] == was[i]
    {
      oldByIdentity := oldByIdentity[(was[index].lbl, index) := was[index]];
    }
    preserved := [];
    for index := 0 to |ports|
      invariant preserved == PreservedPorts(ports[..index], was)
    {
      var port := ports[index];
      if port.nodePort.Some? && port.nodePort.value != 0 {
        preserved := preserved + [port];
        continue;
      }
      var identity := (port.lbl, index);
      var oldPort := if identity in oldByIdentity then Some(oldByIdentity[identity])
                     else if index < |was| then Some(was[index]) else None;
      if oldPort.Some? && oldPort.value.nodePort.Some? && oldPort.value.nodePort.value != 0 {
        port := port.(nodePort := oldPort.value.nodePort);
      }
      preserved := preserved + [port];
    }
    assert ports[..|ports|] == ports;
  }

  // ----- operations in flight -----

  datatype Versioned = Versioned(revision: nat, service: Service)

  datatype Phase = TakingAddress | TakingPorts(next: nat) | Committing

  /** An operation between two awaits. `given` is the service as it stood when allocation began,
      `addresses` and `ports` are what the operation has allocated so far. */
  datatype Op =
    | Writing(name: Str, existing: Option<Versioned>, given: Service, service: Service,
              addresses: seq<Resource>, ports: seq<Resource>, phase: Phase)
    | Deleting(name: Str, seen: Versioned)
    | Releasing(todo: seq<Resource>)
    | Finished

  datatype State = State(pool: Pool, revision: nat, stored: map<Str, Versioned>, taken: set<Resource>, ops: map<nat, Op>)

  function Held(op: Op): seq<Resource> {
    match op
    case Writing(_, _, _, _, addresses, ports, _) => addresses + ports
    case Releasing(todo) => todo
    case _ => []
  }

  datatype Step =
    | BeginCreate(id: nat, name: Str, service: Service)
    | BeginUpdate(id: nat, name: Str, service: Service)
    | BeginDelete(id: nat, name: Str)
    | TakeAddress(id: nat, address: Option<nat>)
    | TakePort(id: nat, port: Option<int>)
    | Fail(id: nat)
    | Commit(id: nat)
    | ReleaseNext(id: nat)

  /** The service being replaced, as it was read, already names this address or node port. */
  predicate ReusesAddress(op: Op, ip: Str)
    requires op.Writing?
  {
    op.existing.Some? && ip in ClusterIPs(op.existing.value.service)
  }

  predicate ReusesPort(op: Op, n: int)
    requires op.Writing?
  {
    op.existing.Some? && n in NodePorts(op.existing.value.service.ports)
  }

  /** Whether the next take of an operation lets the range choose a resource. */
  predicate Chooses(op: Op)
    requires op.Writing?
  {
    match op.phase
    case TakingAddress => RequiresClusterIP(op.service) && op.service.clusterIP == []
    case TakingPorts(i) => RequiresNodePorts(op.service) && i < |op.service.ports| && op.service.ports[i].nodePort.None?
    case Committing => false
  }

  ghost predicate Enabled(s: State, step: Step) {
    match step
    case BeginCreate(id, _, _) => id !in s.ops
    case BeginUpdate(id, _, _) => id !in s.ops
    case BeginDelete(id, _) => id !in s.ops
    case TakeAddress(id, address) =>
      && id in s.ops && s.ops[id].Writing? && s.ops[id].phase.TakingAddress?
      && (if address.Some? then Free(s, Address(address.value)) else Chooses(s.ops[id]) ==> forall n: nat :: !Free(s, Address(n)))
    case TakePort(id, port) =>
      && id in s.ops && s.ops[id].Writing? && s.ops[id].phase.TakingPorts?
      && (if port.Some? then Free(s, NodePort(port.value)) else Chooses(s.ops[id]) ==> forall n :: !Free(s, NodePort(n)))
    case Fail(id) => id in s.ops && s.ops[id].Writing?
    case Commit(id) => id in s.ops && (s.ops[id].Deleting? || (s.ops[id].Writing? && s.ops[id].phase.Committing?))
    case ReleaseNext(id) => id in s.ops && s.ops[id].Releasing?
  }

  predicate Free(s: State, r: Resource) {
    s.pool.Contains(r) && r !in s.taken
  }

  /** The operation gives up: it releases what it allocated, in the order of its error path. */
  function Failed(op: Op): Op
    requires op.Writing?
  {
    Releasing(if op.phase.TakingPorts? then op.ports + op.addresses else op.addresses + op.ports)
  }

  function With(s: State, id: nat, op: Op): State {
    s.(ops := s.ops[id := op])
  }

  function Taken(s: State, id: nat, op: Op, r: Resource): State {
    s.(ops := s.ops[id := op], taken := s.taken + {r})
  }

  /** The cluster address of a service: kept, claimed as given, or chosen. */
  function AfterAddress(s: State, id: nat, op: Op, choice: Option<nat>): State
    requires op.Writing? && op.phase.TakingAddress?
  {
    var next := op.(phase := TakingPorts(0));
    var ip := op.service.clusterIP;
    if !RequiresClusterIP(op.service) then With(s, id, next)
    else if ip == NONE then With(s, id, Failed(op))
    else if ip != [] then
      var named := next.(service := op.service.(clusterIPs := Some([ip])));
      var r := s.pool.Of(ip);
      if !s.pool.Contains(r) then With(s, id, Failed(op))
      else if ReusesAddress(op, ip) then With(s, id, named)
      else if r in s.taken then With(s, id, Failed(op))
      else Taken(s, id, named.(addresses := [r]), r)
    else if choice.None? then With(s, id, Failed(op))
    else
      var text := s.pool.text(choice.value);
      Taken(s, id, next.(service := op.service.(clusterIP := text, clusterIPs := Some([text])), addresses := [Address(choice.value)]),
            Address(choice.value))
  }

  /** The node port of the next port: kept, claimed as given, or chosen. */
  function AfterPort(s: State, id: nat, op: Op, choice: Option<int>): State
    requires op.Writing? && op.phase.TakingPorts?
  {
    var i, ports := op.phase.next, op.service.ports;
    var next := op.(phase := TakingPorts(i + 1));
    if !RequiresNodePorts(op.service) then
      With(s, id, if NodePorts(ports) != [] then Failed(op) else op.(phase := Committing))
    else if i >= |ports| then With(s, id, op.(phase := Committing))
    else if ports[i].nodePort.Some? then
      var r := NodePort(ports[i].nodePort.value);
      if !s.pool.Contains(r) then With(s, id, Failed(op))
      else if ReusesPort(op, r.number) then With(s, id, next)
      else if r in s.taken then With(s, id, Failed(op))
      else Taken(s, id, next.(ports := op.ports + [r]), r)
    else if choice.None? then With(s, id, Failed(op))
    else
      Taken(s, id, next.(service := op.service.(ports := ports[i := ports[i].(nodePort := choice)]),
                         ports := op.ports + [NodePort(choice.value)]), NodePort(choice.value))
  }

  predicate Unchanged(s: State, name: Str, existing: Option<Versioned>) {
    if existing.None? then name !in s.stored else name in s.stored && s.stored[name].revision == existing.value.revision
  }

  /** The compare-and-swap at the end of an operation. */
  function AfterCommit(s: State, id: nat, op: Op): State
    requires op.Deleting? || op.Writing?
  {
    match op
    case Deleting(name, seen) =>
      if Unchanged(s, name, Some(seen)) then
        s.(revision := s.revision + 1, stored := s.stored - {name}, ops := s.ops[id := Releasing(Allocations(s.pool, seen.service))])
      else With(s, id, if name in s.stored then Deleting(name, s.stored[name]) else Finished)
    case Writing(name, existing, given, service, addresses, ports, phase) =>
      if Unchanged(s, name, existing) then
        s.(revision := s.revision + 1, stored := s.stored[name := Versioned(s.revision + 1, service)],
           ops := s.ops[id := Releasing(if existing.None? then []
                                        else Given(s.pool, existing.value.service, service))])
      else With(s, id, Failed(op))
  }

  /** Releasing what is not allocated is an error, and ends the release. */
  function AfterRelease(s: State, id: nat, todo: seq<Resource>): State {
    if todo == [] then With(s, id, Finished)
    else if todo[0] !in s.taken || !s.pool.Contains(todo[0]) then With(s, id, Finished)
    else s.(ops := s.ops[id := Releasing(todo[1..])], taken := s.taken - {todo[0]})
  }

  function Begun(name: Str, existing: Option<Versioned>, given: Service): Op {
    Writing(name, existing, given, given, [], [], TakingAddress)
  }

  function Created(service: Service): Service {
    service.(kind := Some(KindOf(service)))
  }

  ghost function Apply(s: State, step: Step): State
    requires Enabled(s, step)
  {
    match step
    case BeginCreate(id, name, service) =>
      With(s, id, if name in s.stored then Finished else Begun(name, None, Created(service)))
    case BeginUpdate(id, name, service) =>
      With(s, id, if name !in s.stored then Finished
                  else Begun(name, Some(s.stored[name]), Preserved(service, s.stored[name].service)))
    case BeginDelete(id, name) => With(s, id, if name in s.stored then Deleting(name, s.stored[name]) else Finished)
    case TakeAddress(id, address) => AfterAddress(s, id, s.ops[id], address)
    case TakePort(id, port) => AfterPort(s, id, s.ops[id], port)
    case Fail(id) => With(s, id, Failed(s.ops[id]))
    case Commit(id) => AfterCommit(s, id, s.ops[id])
    case ReleaseNext(id) => AfterRelease(s, id, s.ops[id].todo)
  }

  // ----- the invariant -----

  datatype Holder = Stored(name: Str) | InFlight(id: nat)

  predicate Holds(s: State, h: Holder, r: Resource) {
    match h
    case Stored(name) => name in s.stored && r in Allocations(s.pool, s.stored[name].service)
    case InFlight(id) => id in s.ops && r in Held(s.ops[id])
  }

  /** Every allocated resource has exactly one holder, and nothing else is held. */
  ghost predicate Owned(s: State, owner: map<Resource, Holder>) {
    && owner.Keys == s.taken
    && forall h, r :: Holds(s, h, r) <==> r in owner && owner[r] == h
  }

  /** A version that is still stored is the one that was read. */
  predicate Remembered(s: State, name: Str, v: Versioned) {
    && v.revision <= s.revision
    && (name in s.stored && s.stored[name].revision == v.revision ==> s.stored[name] == v)
    && Distinct(Allocations(s.pool, v.service))
  }

  /** What allocation has settled of a service so far. */
  ghost predicate Settled(op: Op, upTo: nat)
    requires op.Writing?
  {
    && op.service.kind == op.given.kind
    && |op.service.ports| == |op.given.ports|
    && upTo <= |op.service.ports|
    && (forall j :: 0 <= j < |op.service.ports| ==>
          && op.service.ports[j].lbl == op.given.ports[j].lbl
          && (j >= upTo || op.given.ports[j].nodePort.Some? ==> op.service.ports[j] == op.given.ports[j]))
    && (forall j :: 0 <= j < upTo ==>
          && op.service.ports[j].nodePort.Some?
          && PortHeld(op, op.service.ports[j].nodePort.value, op.given.ports[j].nodePort))
    && (forall j, k :: 0 <= j < k < upTo && op.service.ports[j].nodePort == op.service.ports[k].nodePort ==>
                         ReusesPort(op, op.service.ports[j].nodePort.value))
    && (forall r :: r in op.ports ==> r.NodePort? && exists j :: 0 <= j < upTo && op.service.ports[j].nodePort == Some(r.number))
  }

  /** A settled node port is held by the operation, or was given and is kept from the old service. */
  predicate PortHeld(op: Op, n: int, given: Option<int>)
    requires op.Writing?
  {
    NodePort(n) in op.ports || (given == Some(n) && ReusesPort(op, n))
  }

  /** A settled address is the only one the service names, and is held or kept. */
  predicate AddressSettled(pool: Pool, op: Op)
    requires op.Writing?
  {
    if RequiresClusterIP(op.service) then
      && op.service.clusterIP != [] && op.service.clusterIP != NONE && op.service.clusterIPs == Some([op.service.clusterIP])
      && (op.addresses == [pool.Of(op.service.clusterIP)] || (op.addresses == [] && ReusesAddress(op, op.service.clusterIP)))
    else op.addresses == [] && op.service.clusterIP == op.given.clusterIP && op.service.clusterIPs == op.given.clusterIPs
  }

  ghost predicate OpOk(s: State, op: Op) {
    match op
    case Finished => true
    case Releasing(todo) => Distinct(todo)
    case Deleting(name, seen) => Remembered(s, name, seen)
    case Writing(name, existing, given, service, addresses, ports, phase) =>
      && (existing.Some? ==> Remembered(s, name, existing.value))
      && (existing.Some? && !RequiresClusterIP(given) ==> ClusterIPs(given) == [])
      && Distinct(addresses + ports)
      && (match phase
          case TakingAddress => service == given && addresses == [] && ports == []
          case TakingPorts(i) => AddressSettled(s.pool, op) && Settled(op, if RequiresNodePorts(service) then i else 0) && (!RequiresNodePorts(service) ==> ports == [])
          case Committing =>
            && AddressSettled(s.pool, op)
            && (if RequiresNodePorts(service) then Settled(op, |service.ports|)
                else Settled(op, 0) && NodePorts(service.ports) == []))
  }

  ghost predicate Owns(s: State, owner: map<Resource, Holder>) {
    && s.pool.Valid()
    && Owned(s, owner)
    && (forall r :: r in s.taken ==> s.pool.Contains(r))
    && (forall name :: name in s.stored ==> s.stored[name].revision <= s.revision && Distinct(Allocations(s.pool, s.stored[name].service)))
    && (forall id :: id in s.ops ==> OpOk(s, s.ops[id]))
  }

  /** The allocated resources are the disjoint union of those of stored services, of operations
      in flight, and of releases under way. */
  ghost predicate Inv(s: State) {
    exists owner :: Owns(s, owner)
  }

  // ----- lists of resources -----

  lemma {:induction false} AddDistinctFacts(ips: seq<Str>, more: seq<Str>)
    requires Distinct(ips)
    ensures Distinct(AddDistinct(ips, more))
    decreases more
  {
    if more != [] {
      AddDistinctFacts(if more[0] == NONE || more[0] in ips then ips else ips + [more[0]], more[1..]);
    }
  }

  predicate NamesAddress(pool: Pool, ips: seq<Str>, r: Resource) {
    exists i :: 0 <= i < |ips| && pool.Of(ips[i]) == r
  }

  lemma InLists(pool: Pool, ips: seq<Str>, ports: seq<int>, r: Resource)
    ensures r in Addresses(pool, ips) + Numbers(ports) <==> if r.NodePort? then r.number in ports else NamesAddress(pool, ips, r)
  {
    var a, n := Addresses(pool, ips), Numbers(ports);
    assert r in a + n <==> r in a || r in n;
    if !r.NodePort? && NamesAddress(pool, ips, r) {
      var i :| 0 <= i < |ips| && pool.Of(ips[i]) == r;
      assert a[i] == r;
    }
    if r.NodePort? && r.number in ports {
      var i :| 0 <= i < |ports| && ports[i] == r.number;
      assert n[i] == r;
    }
  }

  lemma InAllocations(pool: Pool, s: Service, r: Resource)
    ensures r in Allocations(pool, s) <==>
            if r.NodePort? then r.number in NodePorts(s.ports) else NamesAddress(pool, ClusterIPs(s), r)
  {
    InLists(pool, ClusterIPs(s), NodePorts(s.ports), r);
  }

  lemma DistinctLists(pool: Pool, ips: seq<Str>, ports: seq<int>)
    ensures Distinct(Addresses(pool, ips) + Numbers(ports)) ==> Distinct(ports) && Distinct(ips)
    ensures Distinct(ports) && Distinct(Addresses(pool, ips)) ==> Distinct(Addresses(pool, ips) + Numbers(ports))
    ensures Distinct(Addresses(pool, ips) + Numbers(ports)) ==> Distinct(Addresses(pool, ips))
  {
    var a, n := Addresses(pool, ips), Numbers(ports);
    var all := a + n;
    forall i, j | 0 <= i < j < |ports|
      ensures ports[i] == ports[j] <==> all[|ips| + i] == all[|ips| + j]
    {
    }
    forall i, j | 0 <= i < j < |ips|
      ensures ips[i] == ips[j] ==> all[i] == all[j]
      ensures all[i] == a[i] && all[j] == a[j]
    {
    }
  }

  lemma DistinctAllocations(pool: Pool, s: Service)
    ensures Distinct(Allocations(pool, s)) ==> Distinct(NodePorts(s.ports))
    ensures |ClusterIPs(s)| <= 1 && Distinct(NodePorts(s.ports)) ==> Distinct(Allocations(pool, s))
  {
    DistinctLists(pool, ClusterIPs(s), NodePorts(s.ports));
  }

  predicate Names(ports: seq<Port>, n: int) {
    exists j :: 0 <= j < |ports| && ports[j].nodePort == Some(n)
  }

  predicate NamesTwice(ports: seq<Port>) {
    exists j, k :: 0 <= j < k < |ports| && ports[j].nodePort.Some? && ports[j].nodePort == ports[k].nodePort
  }

  lemma {:induction false} NodePortsFacts(ports: seq<Port>)
    ensures forall n :: n in NodePorts(ports) <==> Names(ports, n)
    ensures Distinct(NodePorts(ports)) <==> !NamesTwice(ports)
  {
    if ports != [] {
      var init, last := ports[..|ports| - 1], ports[|ports| - 1];
      NodePortsFacts(init);
      NamesStep(ports);
      var before := NodePorts(init);
      if last.nodePort.Some? {
        DistinctStep(before, last.nodePort.value);
      }
    }
  }

  lemma DistinctStep<T>(s: seq<T>, x: T)
    ensures Distinct(s + [x]) <==> Distinct(s) && x !in s
  {
    var longer := s + [x];
    assert longer[|s|] == x;
    assert forall i :: 0 <= i < |s| ==> longer[i] == s[i];
    if x in s {
      var i :| 0 <= i < |s| && s[i] == x;
      assert longer[i] == longer[|s|];
    }
  }

  lemma NamesStep(ports: seq<Port>)
    requires ports != []
    ensures var init, last := ports[..|ports| - 1], ports[|ports| - 1].nodePort;
            && (forall n :: Names(ports, n) <==> Names(init, n) || last == Some(n))
            && (NamesTwice(ports) <==> NamesTwice(init) || (last.Some? && Names(init, last.value)))
  {
    var k := |ports| - 1;
    var init, last := ports[..k], ports[k].nodePort;
    assert forall j :: 0 <= j < k ==> init[j] == ports[j];
    if last.Some? && Names(init, last.value) {
      var j :| 0 <= j < k && init[j].nodePort == last;
      assert ports[j].nodePort == ports[k].nodePort;
    }
  }

  lemma {:induction false} DifferenceFacts<T>(left: seq<T>, right: seq<T>)
    ensures forall r :: r in Difference(left, right) ==> r in left && r !in right
    ensures forall r :: r in left && r !in right ==> r in Difference(left, right)
    ensures Distinct(left) ==> Distinct(Difference(left, right))
  {
    if left != [] {
      DifferenceFacts(left[..|left| - 1], right);
      var before, last := Difference(left[..|left| - 1], right), left[|left| - 1];
      DistinctStep(left[..|left| - 1], last);
      assert left == left[..|left| - 1] + [last];
      DistinctStep(before, last);
    }
  }

  /** Two texts of a list without repeated resources that stand for one resource are the same. */
  lemma SameText(pool: Pool, ips: seq<Str>, a: Str, b: Str)
    requires Distinct(Addresses(pool, ips)) && a in ips && b in ips && pool.Of(a) == pool.Of(b)
    ensures a == b
  {
    var i :| 0 <= i < |ips| && ips[i] == a;
    var j :| 0 <= j < |ips| && ips[j] == b;
    var all := Addresses(pool, ips);
    assert all[i] == all[j];
  }

  /** What is given up is what the old service names and the new one does not, as long as no other
      text of the new service stands for an address of the old one. */
  lemma GivenFacts(pool: Pool, was: Service, now: Service)
    requires Distinct(Allocations(pool, was))
    requires forall a, b :: a in ClusterIPs(was) && b in ClusterIPs(now) && pool.Of(a) == pool.Of(b) ==> b in ClusterIPs(was)
    ensures forall r :: r in Given(pool, was, now) <==> r in Allocations(pool, was) && r !in Allocations(pool, now)
    ensures Distinct(Given(pool, was, now))
  {
    var ips, ports := Difference(ClusterIPs(was), ClusterIPs(now)), Difference(NodePorts(was.ports), NodePorts(now.ports));
    DifferenceFacts(ClusterIPs(was), ClusterIPs(now));
    DifferenceFacts(NodePorts(was.ports), NodePorts(now.ports));
    DistinctLists(pool, ClusterIPs(was), NodePorts(was.ports));
    DistinctLists(pool, ips, ports);
    SubDistinct(pool, ClusterIPs(was), ips);
    hide Allocations, Distinct, Addresses, Numbers, Difference;
    forall r
      ensures r in Given(pool, was, now) <==> r in Allocations(pool, was) && r !in Allocations(pool, now)
    {
      InAllocations(pool, was, r);
      InAllocations(pool, now, r);
      InLists(pool, ips, ports, r);
      if !r.NodePort? {
        GivenAddress(pool, was, now, r);
      }
    }
  }

  lemma GivenAddress(pool: Pool, was: Service, now: Service, r: Resource)
    requires Distinct(Addresses(pool, ClusterIPs(was)))
    requires forall a, b :: a in ClusterIPs(was) && b in ClusterIPs(now) && pool.Of(a) == pool.Of(b) ==> b in ClusterIPs(was)
    ensures var ips := Difference(ClusterIPs(was), ClusterIPs(now));
            NamesAddress(pool, ips, r) <==> NamesAddress(pool, ClusterIPs(was), r) && !NamesAddress(pool, ClusterIPs(now), r)
  {
    var before, after := ClusterIPs(was), ClusterIPs(now);
    var ips := Difference(before, after);
    DifferenceFacts(before, after);
    hide ClusterIPs, Distinct, Addresses, Difference;
    if NamesAddress(pool, ips, r) {
      var i :| 0 <= i < |ips| && pool.Of(ips[i]) == r;
      assert ips[i] in ips;
      var k :| 0 <= k < |before| && before[k] == ips[i];
      forall j | 0 <= j < |after|
        ensures pool.Of(after[j]) != r
      {
        if pool.Of(after[j]) == r {
          assert after[j] in after && after[j] in before;
          SameText(pool, before, ips[i], after[j]);
        }
      }
    }
    if NamesAddress(pool, before, r) && !NamesAddress(pool, after, r) {
      var i :| 0 <= i < |before| && pool.Of(before[i]) == r;
      assert before[i] in before;
      forall j | 0 <= j < |after|
        ensures after[j] != before[i]
      {
      }
      var k :| 0 <= k < |ips| && ips[k] == before[i];
    }
  }

  lemma SubDistinct(pool: Pool, ips: seq<Str>, some: seq<Str>)
    requires Distinct(Addresses(pool, ips)) && Distinct(some) && forall x :: x in some ==> x in ips
    ensures Distinct(Addresses(pool, some))
  {
    forall i, j | 0 <= i < j < |some|
      ensures pool.Of(some[i]) != pool.Of(some[j])
    {
      assert some[i] in some && some[j] in some;
      if pool.Of(some[i]) == pool.Of(some[j]) {
        SameText(pool, ips, some[i], some[j]);
      }
    }
  }

  // ----- what settles -----

  /** A service that names no address it may not have, and no node port twice. */
  predicate Clean(s: Service) {
    (RequiresClusterIP(s) || ClusterIPs(s) == []) && Distinct(NodePorts(s.ports))
  }

  lemma SettledAddress(pool: Pool, op: Op)
    requires op.Writing? && AddressSettled(pool, op) && op.service.kind == op.given.kind
    ensures ClusterIPs(op.service) == if RequiresClusterIP(op.given) then [op.service.clusterIP] else ClusterIPs(op.given)
  {
    if RequiresClusterIP(op.service) {
      var ip := op.service.clusterIP;
      assert AddDistinct([ip], [ip]) == AddDistinct([ip], []);
    }
  }

  // ----- every step keeps the invariant -----

  lemma StartsClean(pool: Pool)
    requires pool.Valid()
    ensures Inv(State(pool, 0, map[], {}, map[]))
  {
    assert Owns(State(pool, 0, map[], {}, map[]), map[]);
  }

  predicate HeldBy(s: State, id: nat, r: Resource) {
    id in s.ops && r in Held(s.ops[id])
  }

  /** An operation moves on without taking or releasing anything. */
  lemma WithKeeps(s: State, owner: map<Resource, Holder>, id: nat, op: Op)
    requires Owns(s, owner) && OpOk(s, op)
    requires forall r :: r in Held(op) <==> HeldBy(s, id, r)
    ensures Owns(With(s, id, op), owner)
  {
    hide Allocations, Settled, AddressSettled, Distinct, Held;
    var s' := With(s, id, op);
    forall h, r
      ensures Holds(s', h, r) <==> Holds(s, h, r)
    {
      assert HeldBy(s, id, r) <==> r in Held(op);
    }
    forall x | x in s'.ops
      ensures OpOk(s', s'.ops[x])
    {
      OpOkFrame(s, s', s'.ops[x]);
    }
  }

  /** Whether an operation is sound depends on the stored versions only. */
  lemma OpOkFrame(s: State, s': State, op: Op)
    requires OpOk(s, op) && s'.revision >= s.revision && s'.pool == s.pool
    requires forall name :: name in s'.stored ==> s'.stored[name].revision > s.revision || (name in s.stored && s.stored[name] == s'.stored[name])
    ensures OpOk(s', op)
  {
    hide Allocations, Settled, AddressSettled, Distinct, Held, ClusterIPs;
  }

  /** An operation takes one free resource. */
  lemma TakenKeeps(s: State, owner: map<Resource, Holder>, id: nat, op: Op, r: Resource)
    requires Owns(s, owner) && id in s.ops && OpOk(s, op)
    requires r !in s.taken && s.pool.Contains(r)
    requires forall x :: x in Held(op) <==> x in Held(s.ops[id]) || x == r
    ensures Owns(Taken(s, id, op, r), owner[r := InFlight(id)])
  {
    hide Allocations, Settled, AddressSettled, Distinct, Held;
    var s', owner' := Taken(s, id, op, r), owner[r := InFlight(id)];
    forall h, x
      ensures Holds(s', h, x) <==> x in owner' && owner'[x] == h
    {
      assert Holds(s, h, x) <==> x in owner && owner[x] == h;
    }
    forall x | x in s'.ops
      ensures OpOk(s', s'.ops[x])
    {
      OpOkFrame(s, s', s'.ops[x]);
    }
  }

  lemma HeadOnce(todo: seq<Resource>)
    requires todo != [] && Distinct(todo)
    ensures todo[0] !in todo[1..] && Distinct(todo[1..])
    ensures forall x :: x in todo <==> x == todo[0] || x in todo[1..]
  {
    assert todo == [todo[0]] + todo[1..];
    forall i | 0 <= i < |todo[1..]|
      ensures todo[1..][i] != todo[0]
    {
      assert todo[1..][i] == todo[i + 1];
    }
  }

  /** A release never fails, and frees what nobody else holds. */
  lemma ReleaseKeeps(s: State, owner: map<Resource, Holder>, id: nat)
    requires Owns(s, owner) && id in s.ops && s.ops[id].Releasing? && s.ops[id].todo != []
    ensures var todo := s.ops[id].todo;
            && todo[0] in s.taken && s.pool.Contains(todo[0])
            && Owns(AfterRelease(s, id, todo), owner - {todo[0]})
  {
    hide Allocations, Settled, AddressSettled;
    var todo := s.ops[id].todo;
    var r, rest := todo[0], todo[1..];
    assert Holds(s, InFlight(id), r);
    HeadOnce(todo);
    var s', owner' := AfterRelease(s, id, todo), owner - {r};
    forall h, x
      ensures Holds(s', h, x) <==> x in owner' && owner'[x] == h
    {
      assert Holds(s, h, x) <==> x in owner && owner[x] == h;
    }
    forall x | x in s'.ops
      ensures OpOk(s', s'.ops[x])
    {
      assert x == id ==> Distinct(rest);
      if x != id {
        OpOkFrame(s, s', s'.ops[x]);
      }
    }
  }

  lemma FailedKeeps(s: State, owner: map<Resource, Holder>, id: nat)
    requires Owns(s, owner) && id in s.ops && s.ops[id].Writing?
    ensures Owns(With(s, id, Failed(s.ops[id])), owner)
  {
    var op := s.ops[id];
    DistinctSwap(op.addresses, op.ports);
    WithKeeps(s, owner, id, Failed(op));
  }

  lemma DistinctSwap<T>(a: seq<T>, b: seq<T>)
    requires Distinct(a + b)
    ensures Distinct(b + a)
  {
    forall i, j | 0 <= i < j < |b + a|
      ensures (b + a)[i] != (b + a)[j]
    {
      var p := if i < |b| then |a| + i else i - |b|;
      var q := if j < |b| then |a| + j else j - |b|;
      assert (b + a)[i] == (a + b)[p] && (b + a)[j] == (a + b)[q];
      assert (a + b)[p] != (a + b)[q];
    }
  }

  lemma TakeAddressKeeps(s: State, owner: map<Resource, Holder>, id: nat, address: Option<nat>) returns (owner': map<Resource, Holder>)
    requires Owns(s, owner) && Enabled(s, TakeAddress(id, address))
    ensures Owns(AfterAddress(s, id, s.ops[id], address), owner')
  {
    hide Allocations, Distinct, Owned, ClusterIPs;
    var op := s.ops[id];
    owner' := owner;
    FailedKeeps(s, owner, id);
    var ip := op.service.clusterIP;
    var next := op.(phase := TakingPorts(0));
    if !RequiresClusterIP(op.service) {
      WithKeeps(s, owner, id, next);
    } else if ip == [] {
      if address.Some? {
        var text := s.pool.text(address.value);
        var chosen := next.(service := op.service.(clusterIP := text, clusterIPs := Some([text])), addresses := [Address(address.value)]);
        SingleDistinct(chosen.addresses);
        TakenKeeps(s, owner, id, chosen, Address(address.value));
        owner' := owner[Address(address.value) := InFlight(id)];
      }
    } else if ip != NONE && s.pool.Contains(s.pool.Of(ip)) {
      var r := s.pool.Of(ip);
      var named := next.(service := op.service.(clusterIPs := Some([ip])));
      if ReusesAddress(op, ip) {
        WithKeeps(s, owner, id, named);
      } else if r !in s.taken {
        var claimed := named.(addresses := [r]);
        SingleDistinct(claimed.addresses);
        TakenKeeps(s, owner, id, claimed, r);
        owner' := owner[r := InFlight(id)];
      }
    }
  }

  lemma SingleDistinct(addresses: seq<Resource>)
    requires |addresses| == 1
    ensures Distinct(addresses + [])
  {
  }

  /** One more node port settles: kept from the old service, or newly held. */
  lemma SettledStep(op: Op, op': Op, i: nat, n: int)
    requires op.Writing? && op'.Writing? && i < |op.service.ports| && Settled(op, i)
    requires op'.existing == op.existing && op'.given == op.given
    requires op'.service.kind == op.service.kind
    requires op'.service.ports == op.service.ports[i := op.service.ports[i].(nodePort := Some(n))]
    requires op.service.ports[i].nodePort.Some? ==> op.service.ports[i].nodePort == Some(n)
    requires (op'.ports == op.ports && op.service.ports[i].nodePort.Some? && ReusesPort(op, n))
             || (op'.ports == op.ports + [NodePort(n)] && NodePort(n) !in op.ports)
    ensures Settled(op', i + 1)
  {
    hide Allocations, Distinct;
    forall j | 0 <= j < i + 1
      ensures op'.service.ports[j].nodePort.Some? && PortHeld(op', op'.service.ports[j].nodePort.value, op'.given.ports[j].nodePort)
    {
      assert j < i ==> PortHeld(op, op.service.ports[j].nodePort.value, op.given.ports[j].nodePort);
    }
    forall j, k | 0 <= j < k < i + 1 && op'.service.ports[j].nodePort == op'.service.ports[k].nodePort
      ensures ReusesPort(op', op'.service.ports[j].nodePort.value)
    {
      assert PortHeld(op, op.service.ports[j].nodePort.value, op.given.ports[j].nodePort);
    }
    forall r | r in op'.ports
      ensures r.NodePort? && exists j :: 0 <= j < i + 1 && op'.service.ports[j].nodePort == Some(r.number)
    {
      if r in op.ports {
        var j :| 0 <= j < i && op.service.ports[j].nodePort == Some(r.number);
        assert op'.service.ports[j].nodePort == Some(r.number);
      } else {
        assert op'.service.ports[i].nodePort == Some(r.number);
      }
    }
  }

  lemma TakePortKeeps(s: State, owner: map<Resource, Holder>, id: nat, port: Option<int>) returns (owner': map<Resource, Holder>)
    requires Owns(s, owner) && Enabled(s, TakePort(id, port))
    ensures Owns(AfterPort(s, id, s.ops[id], port), owner')
  {
    hide Allocations, Owned, Settled, AddressSettled;
    var op := s.ops[id];
    owner' := owner;
    FailedKeeps(s, owner, id);
    var i, ports := op.phase.next, op.service.ports;
    var next := op.(phase := TakingPorts(i + 1));
    if !RequiresNodePorts(op.service) {
      if NodePorts(ports) == [] {
        AddressSame(s.pool, op, op.(phase := Committing));
        SettledSame(op, op.(phase := Committing), 0);
        WithKeeps(s, owner, id, op.(phase := Committing));
      }
    } else if i >= |ports| {
      SettledLength(op, i);
      AddressSame(s.pool, op, op.(phase := Committing));
      SettledSame(op, op.(phase := Committing), |ports|);
      WithKeeps(s, owner, id, op.(phase := Committing));
    } else if ports[i].nodePort.Some? {
      var n := ports[i].nodePort.value;
      var r := NodePort(n);
      assert ports == ports[i := ports[i].(nodePort := Some(n))];
      if s.pool.Contains(r) {
        if ReusesPort(op, n) {
          AddressSame(s.pool, op, next);
          SettledStep(op, next, i, n);
          WithKeeps(s, owner, id, next);
        } else if r !in s.taken {
          owner' := TakeOnePort(s, owner, id, next.(ports := op.ports + [r]), n);
        }
      }
    } else if port.Some? {
      var chosen := next.(service := op.service.(ports := ports[i := ports[i].(nodePort := port)]), ports := op.ports + [NodePort(port.value)]);
      owner' := TakeOnePort(s, owner, id, chosen, port.value);
    }
  }

  lemma TakeOnePort(s: State, owner: map<Resource, Holder>, id: nat, next: Op, n: int) returns (owner': map<Resource, Holder>)
    requires Owns(s, owner) && id in s.ops && s.ops[id].Writing? && s.ops[id].phase.TakingPorts?
    requires var op := s.ops[id];
             var i := op.phase.next;
             && RequiresNodePorts(op.service) && i < |op.service.ports|
             && (op.service.ports[i].nodePort.Some? ==> op.service.ports[i].nodePort == Some(n))
             && next == op.(phase := TakingPorts(i + 1), ports := op.ports + [NodePort(n)],
                            service := op.service.(ports := op.service.ports[i := op.service.ports[i].(nodePort := Some(n))]))
    requires Free(s, NodePort(n))
    ensures Owns(Taken(s, id, next, NodePort(n)), owner')
  {
    hide Allocations, Settled, AddressSettled;
    var op, r := s.ops[id], NodePort(n);
    assert r !in Held(op) by {
      assert !(r in owner);
      assert Holds(s, InFlight(id), r) <==> r in Held(op);
    }
    AddressSame(s.pool, op, next);
    SettledStep(op, next, op.phase.next, n);
    DistinctMore(op.addresses, op.ports, r);
    TakenKeeps(s, owner, id, next, r);
    owner' := owner[r := InFlight(id)];
  }

  lemma DistinctMore<T>(a: seq<T>, b: seq<T>, x: T)
    requires Distinct(a + b) && x !in a + b
    ensures Distinct(a + (b + [x]))
  {
    assert a + (b + [x]) == (a + b) + [x];
    DistinctStep(a + b, x);
  }

  lemma AddressSame(pool: Pool, op: Op, next: Op)
    requires op.Writing? && next.Writing? && AddressSettled(pool, op)
    requires next.existing == op.existing && next.given == op.given && next.addresses == op.addresses
    requires next.service.kind == op.service.kind && next.service.clusterIP == op.service.clusterIP && next.service.clusterIPs == op.service.clusterIPs
    ensures AddressSettled(pool, next)
  {
  }

  lemma SettledSame(op: Op, next: Op, upTo: nat)
    requires op.Writing? && next.Writing? && Settled(op, upTo)
    requires next.existing == op.existing && next.given == op.given && next.ports == op.ports && next.service == op.service
    ensures Settled(next, upTo)
  {
    hide Allocations;
    assert forall n, given :: PortHeld(op, n, given) <==> PortHeld(next, n, given);
  }

  lemma SettledLength(op: Op, upTo: nat)
    requires op.Writing? && Settled(op, upTo)
    ensures upTo <= |op.service.ports|
  {
  }

  // ----- the compare-and-swap -----

  lemma DeleteCommitKeeps(s: State, owner: map<Resource, Holder>, id: nat) returns (owner': map<Resource, Holder>)
    requires Owns(s, owner) && id in s.ops && s.ops[id].Deleting?
    ensures Owns(AfterCommit(s, id, s.ops[id]), owner')
  {
    hide Allocations, Settled, AddressSettled, Distinct;
    var op := s.ops[id];
    var name := op.name;
    if Unchanged(s, name, Some(op.seen)) {
      owner' := map r | r in owner :: if owner[r] == Stored(name) then InFlight(id) else owner[r];
      var s' := AfterCommit(s, id, op);
      forall h, r
        ensures Holds(s', h, r) <==> r in owner' && owner'[r] == h
      {
        assert Holds(s, h, r) <==> r in owner && owner[r] == h;
        assert Holds(s, Stored(name), r) <==> r in owner && owner[r] == Stored(name);
      }
      forall x | x in s'.ops
        ensures OpOk(s', s'.ops[x])
      {
        if x != id {
          OpOkFrame(s, s', s'.ops[x]);
        }
      }
    } else {
      owner' := owner;
      WithKeeps(s, owner, id, if name in s.stored then Deleting(name, s.stored[name]) else Finished);
    }
  }

  /** A resource that the service being replaced, as it was read, names. */
  predicate Kept(pool: Pool, op: Op, r: Resource)
    requires op.Writing?
  {
    op.existing.Some? && r in Allocations(pool, op.existing.value.service)
  }

  /** At a successful commit the service names everything the operation holds; if it was given
      cleanly it names nothing else that it did not keep, and nothing twice. */
  lemma CommitFacts(s: State, owner: map<Resource, Holder>, id: nat)
    requires Owns(s, owner) && id in s.ops && s.ops[id].Writing? && s.ops[id].phase.Committing?
    requires Unchanged(s, s.ops[id].name, s.ops[id].existing)
    ensures var op := s.ops[id];
            var a := Allocations(s.pool, op.service);
            && (op.existing.Some? ==> op.existing.value == s.stored[op.name])
            && (forall r :: r in Held(op) ==> r in a)
            && (Clean(op.given) ==> Distinct(a) && forall r :: r in a ==> r in Held(op) || Kept(s.pool, op, r))
            && (Distinct(a) ==> Distinct(NodePorts(op.given.ports)))
            && (ClusterIPs(op.service) == if RequiresClusterIP(op.given) then [op.service.clusterIP] else ClusterIPs(op.given))
  {
    hide Allocations, Distinct;
    var op := s.ops[id];
    SettledAddress(s.pool, op);
    NodePortsFacts(op.service.ports);
    NodePortsFacts(op.given.ports);
    DistinctAllocations(s.pool, op.service);
    forall r
      ensures r in Held(op) ==> r in Allocations(s.pool, op.service)
      ensures r in Allocations(s.pool, op.service) && Clean(op.given) ==> r in Held(op) || Kept(s.pool, op, r)
    {
      NamedIsHeld(s.pool, op, r);
    }
    NoneTwice(s, owner, id);
    if NamesTwice(op.given.ports) {
      var j, k :| 0 <= j < k < |op.given.ports| && op.given.ports[j].nodePort.Some? && op.given.ports[j].nodePort == op.given.ports[k].nodePort;
      assert op.service.ports[j].nodePort == op.service.ports[k].nodePort;
    }
  }

  lemma NamedIsHeld(pool: Pool, op: Op, r: Resource)
    requires op.Writing? && AddressSettled(pool, op) && op.service.kind == op.given.kind
    requires if RequiresNodePorts(op.service) then Settled(op, |op.service.ports|) else Settled(op, 0) && NodePorts(op.service.ports) == []
    ensures r in Held(op) ==> r in Allocations(pool, op.service)
    ensures r in Allocations(pool, op.service) && Clean(op.given) ==> r in Held(op) || Kept(pool, op, r)
  {
    hide Allocations, Distinct;
    SettledAddress(pool, op);
    NodePortsFacts(op.service.ports);
    InAllocations(pool, op.service, r);
    if op.existing.Some? {
      InAllocations(pool, op.existing.value.service, r);
    }
    if r.NodePort? {
      if r.number in NodePorts(op.service.ports) {
        var j :| 0 <= j < |op.service.ports| && op.service.ports[j].nodePort == Some(r.number);
        assert PortHeld(op, op.service.ports[j].nodePort.value, op.given.ports[j].nodePort);
      }
    } else if RequiresClusterIP(op.given) {
      hide ClusterIPs;
      var ip := op.service.clusterIP;
      OnlyName(pool, ip, r);
      if pool.Of(ip) == r && ReusesAddress(op, ip) {
        var texts := ClusterIPs(op.existing.value.service);
        var i :| 0 <= i < |texts| && texts[i] == ip;
      }
    }
  }

  lemma OnlyName(pool: Pool, ip: Str, r: Resource)
    ensures NamesAddress(pool, [ip], r) <==> pool.Of(ip) == r
  {
    assert [ip][0] == ip;
  }

  /** At a clean successful commit, no text of the new service is another name of an old address. */
  lemma NoAlias(s: State, owner: map<Resource, Holder>, id: nat, a: Str, b: Str)
    requires Owns(s, owner) && id in s.ops && s.ops[id].Writing? && s.ops[id].phase.Committing?
    requires Unchanged(s, s.ops[id].name, s.ops[id].existing) && Clean(s.ops[id].given) && s.ops[id].existing.Some?
    requires a in ClusterIPs(s.ops[id].existing.value.service) && b in ClusterIPs(s.ops[id].service) && s.pool.Of(a) == s.pool.Of(b)
    ensures b in ClusterIPs(s.ops[id].existing.value.service)
  {
    hide Allocations, Distinct, ClusterIPs;
    var op := s.ops[id];
    var r := s.pool.Of(a);
    SettledAddress(s.pool, op);
    InAllocations(s.pool, op.existing.value.service, r);
    var ips := ClusterIPs(op.existing.value.service);
    var i :| 0 <= i < |ips| && ips[i] == a;
    assert NamesAddress(s.pool, ips, r);
    assert Holds(s, Stored(op.name), r);
    assert !Holds(s, InFlight(id), r);
  }

  lemma NoneTwice(s: State, owner: map<Resource, Holder>, id: nat)
    requires Owns(s, owner) && id in s.ops && s.ops[id].Writing? && s.ops[id].phase.Committing?
    requires Unchanged(s, s.ops[id].name, s.ops[id].existing)
    ensures NamesTwice(s.ops[id].service.ports) ==> NamesTwice(s.ops[id].given.ports)
  {
    hide Allocations, Distinct;
    var op := s.ops[id];
    NodePortsFacts(op.service.ports);
    if NamesTwice(op.service.ports) {
      var ports := op.service.ports;
      var j, k :| 0 <= j < k < |ports| && ports[j].nodePort.Some? && ports[j].nodePort == ports[k].nodePort;
      var n := ports[j].nodePort.value;
      assert Names(ports, n);
      TwiceGiven(s, owner, id, j, k, n);
      assert NamesTwice(op.given.ports);
    }
  }

  lemma TwiceGiven(s: State, owner: map<Resource, Holder>, id: nat, j: nat, k: nat, n: int)
    requires Owns(s, owner) && id in s.ops && s.ops[id].Writing? && s.ops[id].phase.Committing?
    requires Unchanged(s, s.ops[id].name, s.ops[id].existing) && RequiresNodePorts(s.ops[id].service)
    requires j < k < |s.ops[id].service.ports|
    requires s.ops[id].service.ports[j].nodePort == s.ops[id].service.ports[k].nodePort == Some(n)
    ensures s.ops[id].given.ports[j].nodePort == s.ops[id].given.ports[k].nodePort == Some(n)
  {
    hide Allocations, Distinct;
    var op := s.ops[id];
    assert ReusesPort(op, n);
    InAllocations(s.pool, op.existing.value.service, NodePort(n));
    assert Holds(s, Stored(op.name), NodePort(n));
    assert !Holds(s, InFlight(id), NodePort(n));
    assert NodePort(n) !in op.ports;
    assert PortHeld(op, n, op.given.ports[j].nodePort) && PortHeld(op, n, op.given.ports[k].nodePort);
  }

  /** What a successful write gives up, and who owns what then. */
  function CommitOwner(owner: map<Resource, Holder>, id: nat, name: Str, named: seq<Resource>): map<Resource, Holder> {
    map r | r in owner ::
      if owner[r] == InFlight(id) then Stored(name)
      else if owner[r] == Stored(name) && r !in named then InFlight(id) else owner[r]
  }

  lemma CommitGives(s: State, owner: map<Resource, Holder>, id: nat)
    requires Owns(s, owner) && id in s.ops && s.ops[id].Writing? && s.ops[id].phase.Committing?
    requires Unchanged(s, s.ops[id].name, s.ops[id].existing) && Clean(s.ops[id].given)
    ensures var op := s.ops[id];
            var todo := Held(AfterCommit(s, id, op).ops[id]);
            && Distinct(todo)
            && forall r :: r in todo <==> Kept(s.pool, op, r) && r !in Allocations(s.pool, op.service)
  {
    hide Allocations, Settled, AddressSettled, Distinct, Clean, ClusterIPs, Given;
    var op := s.ops[id];
    EmptyDistinct();
    if op.existing.Some? {
      forall a, b | a in ClusterIPs(op.existing.value.service) && b in ClusterIPs(op.service) && s.pool.Of(a) == s.pool.Of(b)
        ensures b in ClusterIPs(op.existing.value.service)
      {
        NoAlias(s, owner, id, a, b);
      }
      GivenFacts(s.pool, op.existing.value.service, op.service);
    }
  }

  lemma WriteCommitKeeps(s: State, owner: map<Resource, Holder>, id: nat) returns (owner': map<Resource, Holder>)
    requires Owns(s, owner) && id in s.ops && s.ops[id].Writing? && s.ops[id].phase.Committing?
    requires Unchanged(s, s.ops[id].name, s.ops[id].existing) ==> Clean(s.ops[id].given)
    ensures Owns(AfterCommit(s, id, s.ops[id]), owner')
  {
    hide Allocations, Settled, AddressSettled, Distinct, Clean, Given, ClusterIPs;
    var op := s.ops[id];
    var name := op.name;
    if Unchanged(s, name, op.existing) {
      CommitFacts(s, owner, id);
      CommitGives(s, owner, id);
      var a := Allocations(s.pool, op.service);
      owner' := CommitOwner(owner, id, name, a);
      var s' := AfterCommit(s, id, op);
      forall h, r
        ensures Holds(s', h, r) <==> r in owner' && owner'[r] == h
      {
        assert Holds(s, h, r) <==> r in owner && owner[r] == h;
        assert Holds(s, Stored(name), r) <==> r in owner && owner[r] == Stored(name);
        assert Holds(s, InFlight(id), r) <==> r in owner && owner[r] == InFlight(id);
      }
      forall x | x in s'.ops
        ensures OpOk(s', s'.ops[x])
      {
        if x != id {
          OpOkFrame(s, s', s'.ops[x]);
        }
      }
    } else {
      owner' := owner;
      FailedKeeps(s, owner, id);
    }
  }

  lemma EmptyDistinct()
    ensures Distinct<Resource>([])
  {
  }

  /** Exactly when a successful write keeps the resources partitioned: the service that went into
      allocation named no address that its type may not have, and no node port twice. */
  lemma CommitExact(s: State, id: nat)
    requires Inv(s) && id in s.ops && s.ops[id].Writing? && s.ops[id].phase.Committing?
    requires Unchanged(s, s.ops[id].name, s.ops[id].existing)
    ensures Inv(AfterCommit(s, id, s.ops[id])) <==> Clean(s.ops[id].given)
  {
    hide Settled, AddressSettled, Distinct, Allocations;
    var owner :| Owns(s, owner);
    var op := s.ops[id];
    if Clean(op.given) {
      var owner' := WriteCommitKeeps(s, owner, id);
    } else {
      CommitFacts(s, owner, id);
      var s' := AfterCommit(s, id, op);
      forall owner'
        ensures !Owns(s', owner')
      {
        assert s'.stored[op.name].service == op.service;
        if Distinct(NodePorts(op.given.ports)) {
          Unowned(s, owner, id, owner');
        }
      }
    }
  }

  lemma Unowned(s: State, owner: map<Resource, Holder>, id: nat, owner': map<Resource, Holder>)
    requires Owns(s, owner) && id in s.ops && s.ops[id].Writing? && s.ops[id].phase.Committing?
    requires Unchanged(s, s.ops[id].name, s.ops[id].existing)
    requires !RequiresClusterIP(s.ops[id].given) && ClusterIPs(s.ops[id].given) != []
    ensures !Owned(AfterCommit(s, id, s.ops[id]), owner')
  {
    hide Distinct, Allocations;
    var op := s.ops[id];
    var s', name := AfterCommit(s, id, op), op.name;
    SettledAddress(s.pool, op);
    var r := s.pool.Of(ClusterIPs(op.given)[0]);
    InAllocations(s.pool, op.service, r);
    assert Holds(s', Stored(name), r);
    assert !Holds(s, Stored(name), r) && !Holds(s, InFlight(id), r);
    if r in s.taken {
      var h := owner[r];
      assert Holds(s, h, r);
      assert Holds(s', h, r);
    }
  }

  // ----- whole runs -----

  lemma PreservedAddresses(given: Service, was: Service)
    ensures !RequiresClusterIP(Preserved(given, was)) ==> ClusterIPs(Preserved(given, was)) == []
  {
  }

  /** What a caller can check before a create or an update. */
  predicate CleanStart(s: State, step: Step) {
    match step
    case BeginCreate(_, _, service) => Clean(Created(service))
    case BeginUpdate(_, name, service) => name in s.stored ==> Clean(Preserved(service, s.stored[name].service))
    case _ => true
  }

  predicate CleanOps(s: State) {
    forall id :: id in s.ops && s.ops[id].Writing? ==> Clean(s.ops[id].given)
  }

  lemma BeginKeeps(s: State, owner: map<Resource, Holder>, step: Step)
    requires Owns(s, owner) && Enabled(s, step) && (step.BeginCreate? || step.BeginUpdate? || step.BeginDelete?)
    ensures Owns(Apply(s, step), owner)
  {
    hide Settled, AddressSettled, Allocations, Preserved;
    match step {
      case BeginCreate(id, name, service) =>
        WithKeeps(s, owner, id, if name in s.stored then Finished else Begun(name, None, Created(service)));
      case BeginUpdate(id, name, service) =>
        if name in s.stored {
          PreservedAddresses(service, s.stored[name].service);
        }
        WithKeeps(s, owner, id, if name !in s.stored then Finished
                                else Begun(name, Some(s.stored[name]), Preserved(service, s.stored[name].service)));
      case BeginDelete(id, name) =>
        WithKeeps(s, owner, id, if name in s.stored then Deleting(name, s.stored[name]) else Finished);
      case _ =>
    }
  }

  /** Every step keeps the resources partitioned among their holders. */
  lemma StepKeeps(s: State, step: Step)
    requires Inv(s) && Enabled(s, step) && CleanOps(s) && CleanStart(s, step)
    ensures Inv(Apply(s, step)) && CleanOps(Apply(s, step))
  {
    var owner :| Owns(s, owner);
    StepCleanOps(s, step);
    hide Settled, AddressSettled, Distinct, Allocations, Preserved, Clean, AfterAddress, AfterPort, AfterCommit;
    var owner' := owner;
    match step {
      case TakeAddress(id, address) => owner' := TakeAddressKeeps(s, owner, id, address);
      case TakePort(id, port) => owner' := TakePortKeeps(s, owner, id, port);
      case Fail(id) => FailedKeeps(s, owner, id);
      case Commit(id) =>
        if s.ops[id].Deleting? {
          owner' := DeleteCommitKeeps(s, owner, id);
        } else {
          owner' := WriteCommitKeeps(s, owner, id);
        }
      case ReleaseNext(id) =>
        var todo := s.ops[id].todo;
        if todo == [] {
          WithKeeps(s, owner, id, Finished);
        } else {
          ReleaseKeeps(s, owner, id);
          owner' := owner - {todo[0]};
        }
      case _ => BeginKeeps(s, owner, step);
    }
    assert Owns(Apply(s, step), owner');
  }

  lemma StepCleanOps(s: State, step: Step)
    requires Enabled(s, step) && CleanOps(s) && CleanStart(s, step)
    ensures CleanOps(Apply(s, step))
  {
    hide Clean, Preserved, Allocations;
  }

  /** A run from the empty store. */
  ghost predicate Run(pool: Pool, steps: seq<Step>, states: seq<State>) {
    && |states| == |steps| + 1
    && states[0] == State(pool, 0, map[], {}, map[])
    && forall i :: 0 <= i < |steps| ==> Enabled(states[i], steps[i]) && states[i + 1] == Apply(states[i], steps[i])
  }

  /** In every state of every run whose writes are clean, each allocated resource belongs to
      exactly one stored service or unfinished operation, and nothing else is allocated. */
  lemma {:induction false} RunsKeep(pool: Pool, steps: seq<Step>, states: seq<State>, n: nat)
    requires pool.Valid() && Run(pool, steps, states) && n <= |steps|
    requires forall i :: 0 <= i < |steps| ==> CleanStart(states[i], steps[i])
    ensures Inv(states[n]) && CleanOps(states[n])
  {
    if n == 0 {
      StartsClean(pool);
    } else {
      RunsKeep(pool, steps, states, n - 1);
      StepKeeps(states[n - 1], steps[n - 1]);
    }
  }

  /** No two stored services share a resource. */
  lemma NoSharing(s: State, a: Str, b: Str, r: Resource)
    requires Inv(s) && a in s.stored && b in s.stored && a != b
    ensures !(r in Allocations(s.pool, s.stored[a].service) && r in Allocations(s.pool, s.stored[b].service))
  {
    var owner :| Owns(s, owner);
    assert Holds(s, Stored(a), r) <==> r in Allocations(s.pool, s.stored[a].service);
    assert Holds(s, Stored(b), r) <==> r in Allocations(s.pool, s.stored[b].service);
  }

  /** When no operation is under way, exactly what stored services name is allocated. */
  lemma NothingLeaks(s: State, r: Resource)
    requires Inv(s) && forall id :: id in s.ops ==> s.ops[id].Finished?
    ensures r in s.taken <==> exists name :: name in s.stored && r in Allocations(s.pool, s.stored[name].service)
  {
    var owner :| Owns(s, owner);
    if r in s.taken {
      assert Holds(s, owner[r], r);
    }
    if name :| name in s.stored && r in Allocations(s.pool, s.stored[name].service) {
      assert Holds(s, Stored(name), r);
    }
  }

  /** No release ever meets a resource that is not allocated. */
  lemma ReleasesSucceed(s: State, id: nat)
    requires Inv(s) && id in s.ops && s.ops[id].Releasing? && s.ops[id].todo != []
    ensures s.ops[id].todo[0] in s.taken && s.pool.Contains(s.ops[id].todo[0])
  {
    var owner :| Owns(s, owner);
    ReleaseKeeps(s, owner, id);
  }

  // ----- what services get -----

  predicate HasNodePort(pool: Pool, port: Port) {
    port.nodePort.Some? && pool.first <= port.nodePort.value <= pool.last
  }

  /** A service has what its type calls for: a node port of the range for every port if it is open to
      the outside, none if not, and an address of the range unless it is external. */
  ghost predicate Entitled(pool: Pool, s: Service) {
    && s.kind.Some?
    && (s.kind == Some(NodePortType) || s.kind == Some(LoadBalancerType) ==> forall j :: 0 <= j < |s.ports| ==> HasNodePort(pool, s.ports[j]))
    && (s.kind == Some(ClusterIPType) || s.kind == Some(ExternalType) ==> forall j :: 0 <= j < |s.ports| ==> s.ports[j].nodePort.None?)
    && (s.kind != Some(ExternalType) ==> pool.index(s.clusterIP).Some?)
  }

  /** Allocation changes nothing that was given. */
  predicate Honours(given: Service, s: Service) {
    && s.kind == given.kind && |s.ports| == |given.ports|
    && (given.clusterIP != [] ==> s.clusterIP == given.clusterIP)
    && forall j :: 0 <= j < |s.ports| ==>
                     s.ports[j].lbl == given.ports[j].lbl && (given.ports[j].nodePort.Some? ==> s.ports[j].nodePort == given.ports[j].nodePort)
  }

  /** How far an operation has come with that. */
  ghost predicate EntitledSoFar(pool: Pool, op: Op) {
    op.Writing? ==>
      && op.service.kind.Some? && Honours(op.given, op.service)
      && (!op.phase.TakingAddress? && op.service.kind != Some(ExternalType) ==> pool.index(op.service.clusterIP).Some?)
      && (op.phase.TakingPorts? && (op.service.kind == Some(NodePortType) || op.service.kind == Some(LoadBalancerType)) ==>
            forall j :: 0 <= j < op.phase.next && j < |op.service.ports| ==> HasNodePort(pool, op.service.ports[j]))
      && (op.phase.Committing? ==> Entitled(pool, op.service))
  }

  ghost predicate AllEntitled(s: State) {
    && (forall name :: name in s.stored ==> Entitled(s.pool, s.stored[name].service))
    && (forall id :: id in s.ops ==> EntitledSoFar(s.pool, s.ops[id]))
  }

  lemma OpEntitled(s: State, id: nat, op: Op, taken: set<Resource>)
    requires AllEntitled(s) && EntitledSoFar(s.pool, op)
    ensures AllEntitled(s.(ops := s.ops[id := op], taken := taken))
  {
    hide Entitled, EntitledSoFar;
  }

  lemma AddressEntitled(s: State, id: nat, op: Op, choice: Option<nat>)
    requires s.pool.Valid() && AllEntitled(s) && id in s.ops && s.ops[id] == op && op.Writing? && op.phase.TakingAddress?
    requires choice.Some? ==> choice.value < s.pool.size
    ensures AllEntitled(AfterAddress(s, id, op, choice))
  {
    hide AllEntitled;
    assert EntitledSoFar(s.pool, op) by {
      HasOp(s, id);
    }
    var s' := AfterAddress(s, id, op, choice);
    assert s'.ops == s.ops[id := s'.ops[id]];
    assert s' == s.(ops := s.ops[id := s'.ops[id]], taken := s'.taken);
    OpEntitled(s, id, s'.ops[id], s'.taken);
  }

  lemma HasOp(s: State, id: nat)
    requires AllEntitled(s) && id in s.ops
    ensures EntitledSoFar(s.pool, s.ops[id])
  {
  }

  lemma UnnamedPorts(ports: seq<Port>)
    ensures NodePorts(ports) == [] ==> forall j :: 0 <= j < |ports| ==> ports[j].nodePort.None?
  {
    NodePortsFacts(ports);
    forall j | 0 <= j < |ports|
      ensures ports[j].nodePort.Some? ==> ports[j].nodePort.value in NodePorts(ports)
    {
      assert ports[j].nodePort.Some? ==> Names(ports, ports[j].nodePort.value);
    }
  }

  lemma PortEntitled(s: State, id: nat, op: Op, choice: Option<int>)
    requires AllEntitled(s) && id in s.ops && s.ops[id] == op && op.Writing? && op.phase.TakingPorts?
    requires choice.Some? ==> s.pool.first <= choice.value <= s.pool.last
    ensures AllEntitled(AfterPort(s, id, op, choice))
  {
    hide AllEntitled, NodePorts, EntitledSoFar;
    HasOp(s, id);
    var s' := AfterPort(s, id, op, choice);
    assert s' == s.(ops := s.ops[id := s'.ops[id]], taken := s'.taken);
    var i, ports := op.phase.next, op.service.ports;
    if s'.ops[id].Writing? {
      if s'.ops[id].phase.Committing? {
        UnnamedPorts(ports);
        EntitledNow(s.pool, op);
      } else if ports[i].nodePort.Some? {
        EntitledStep(s.pool, op, s'.ops[id], ports[i].nodePort);
      } else {
        EntitledStep(s.pool, op, s'.ops[id], choice);
      }
    } else {
      NotWriting(s.pool, s'.ops[id]);
    }
    OpEntitled(s, id, s'.ops[id], s'.taken);
  }

  lemma NotWriting(pool: Pool, op: Op)
    requires !op.Writing?
    ensures EntitledSoFar(pool, op)
  {
  }

  /** All ports have been looked at. */
  lemma EntitledNow(pool: Pool, op: Op)
    requires op.Writing? && op.phase.TakingPorts? && EntitledSoFar(pool, op)
    requires if RequiresNodePorts(op.service) then op.phase.next >= |op.service.ports|
             else forall j :: 0 <= j < |op.service.ports| ==> op.service.ports[j].nodePort.None?
    ensures EntitledSoFar(pool, op.(phase := Committing))
  {
  }

  /** One more port has a node port. */
  lemma EntitledStep(pool: Pool, op: Op, op': Op, port: Option<int>)
    requires op.Writing? && op.phase.TakingPorts? && EntitledSoFar(pool, op)
    requires var i := op.phase.next;
             && i < |op.service.ports| && op'.Writing? && op'.phase == TakingPorts(i + 1) && op'.given == op.given
             && op'.service == op.service.(ports := op.service.ports[i := op.service.ports[i].(nodePort := port)])
             && port.Some? && pool.first <= port.value <= pool.last
             && (op.service.ports[i].nodePort.Some? ==> op.service.ports[i].nodePort == port)
    ensures EntitledSoFar(pool, op')
  {
  }

  lemma StepEntitles(s: State, step: Step)
    requires s.pool.Valid() && AllEntitled(s) && Enabled(s, step)
    ensures AllEntitled(Apply(s, step)) && Apply(s, step).pool == s.pool
  {
    hide AllEntitled, Allocations, Given, Preserved;
    match step {
      case BeginCreate(id, name, service) =>
        OpEntitled(s, id, Apply(s, step).ops[id], s.taken);
      case BeginUpdate(id, name, service) =>
        if name in s.stored {
          PreservedMeans(service, s.stored[name].service);
        }
        OpEntitled(s, id, Apply(s, step).ops[id], s.taken);
      case BeginDelete(id, _) => OpEntitled(s, id, Apply(s, step).ops[id], s.taken);
      case TakeAddress(id, address) => AddressEntitled(s, id, s.ops[id], address);
      case TakePort(id, port) => PortEntitled(s, id, s.ops[id], port);
      case Fail(id) => OpEntitled(s, id, Failed(s.ops[id]), s.taken);
      case Commit(id) => CommitEntitles(s, id);
      case ReleaseNext(id) =>
        var s' := Apply(s, step);
        OpEntitled(s, id, s'.ops[id], s'.taken);
    }
  }

  lemma CommitEntitles(s: State, id: nat)
    requires AllEntitled(s) && Enabled(s, Commit(id))
    ensures AllEntitled(AfterCommit(s, id, s.ops[id]))
  {
    hide Allocations, Given;
    HasOp(s, id);
  }

  /** In every state of every run, whatever is written, each stored service has what its type calls
      for, and so does each one about to be stored; allocation changes nothing that was given. */
  lemma {:induction false} RunsEntitle(pool: Pool, steps: seq<Step>, states: seq<State>, n: nat)
    requires pool.Valid() && Run(pool, steps, states) && n <= |steps|
    ensures states[n].pool == pool && AllEntitled(states[n])
    ensures forall name :: name in states[n].stored ==> Entitled(pool, states[n].stored[name].service)
    ensures forall id :: id in states[n].ops && states[n].ops[id].Writing? ==>
                           && Honours(states[n].ops[id].given, states[n].ops[id].service)
                           && (states[n].ops[id].phase.Committing? ==> Entitled(pool, states[n].ops[id].service))
  {
    hide Apply, Enabled;
    if n > 0 {
      RunsEntitle(pool, steps, states, n - 1);
      StepEntitles(states[n - 1], steps[n - 1]);
    }
  }

  /** What an update goes into allocation with: a type, its own or the old one; its own address or,
      if it names none, the old one; and for each port its own node port or, if that is unset or 0,
      that of the old port at the same place. Types that need none of this lose it. */
  lemma PreservedMeans(given: Service, was: Service)
    ensures var s := Preserved(given, was);
            && s.kind.Some? && (given.kind.Some? ==> s.kind == given.kind) && (given.kind.None? && was.kind.Some? ==> s.kind == was.kind)
            && |s.ports| == |given.ports|
            && (if s.kind == Some(ExternalType) then s.clusterIP == [] && s.clusterIPs.None?
                else s.clusterIP == (if given.clusterIP == [] then was.clusterIP else given.clusterIP)
                     && s.clusterIPs == if given.clusterIPs.None? then was.clusterIPs else given.clusterIPs)
            && forall j :: 0 <= j < |s.ports| ==>
                 && s.ports[j].lbl == given.ports[j].lbl
                 && s.ports[j].nodePort ==
                    if s.kind == Some(ExternalType) || s.kind == Some(ClusterIPType) then None
                    else if given.ports[j].nodePort.Some? && given.ports[j].nodePort != Some(0) then given.ports[j].nodePort
                    else if j < |was.ports| && was.ports[j].nodePort.Some? && was.ports[j].nodePort != Some(0) then was.ports[j].nodePort
                    else given.ports[j].nodePort
  {
  }

  /** The addresses that a service names, in its address or its list of them, each once. */
  lemma ClusterIPsMean(s: Service, ip: Str)
    ensures ip in ClusterIPs(s) <==>
            ip != NONE && ((ip == s.clusterIP && ip != []) || (s.clusterIPs.Some? && ip in s.clusterIPs.value))
    ensures Distinct(ClusterIPs(s))
  {
    var own, more := if s.clusterIP == [] || s.clusterIP == NONE then [] else [s.clusterIP], if s.clusterIPs.Some? then s.clusterIPs.value else [];
    AddDistinctFacts(own, more);
    AddDistinctMembers(own, more, ip);
  }

  lemma {:induction false} AddDistinctMembers(ips: seq<Str>, more: seq<Str>, ip: Str)
    ensures ip in AddDistinct(ips, more) <==> ip in ips || (ip != NONE && ip in more)
    decreases more
  {
    if more != [] {
      AddDistinctMembers(if more[0] == NONE || more[0] in ips then ips else ips + [more[0]], more[1..], ip);
    }
  }

  // ----- unclean writes -----

  /** A create that takes an address and no ports. */
  lemma CreateRun(s: State, id: nat, name: Str, service: Service, address: Option<nat>) returns (steps: seq<Step>, states: seq<State>)
    requires id !in s.ops && name !in s.stored && service.ports == [] && service.kind.Some? && service.clusterIPs.None?
    requires !RequiresNodePorts(service)
    requires if RequiresClusterIP(service) then service.clusterIP == [] && address.Some? && Free(s, Address(address.value)) else address.None?
    ensures |steps| == 4 && |states| == 5 && states[0] == s
    ensures forall i :: 0 <= i < 4 ==> Enabled(states[i], steps[i]) && states[i + 1] == Apply(states[i], steps[i])
    ensures states[4].ops.Keys == s.ops.Keys + {id} && states[4].pool == s.pool
    ensures name in states[4].stored && states[4].stored.Keys == s.stored.Keys + {name}
    ensures forall other :: other in s.stored ==> states[4].stored[other] == s.stored[other]
    ensures states[4].stored[name].service.clusterIP == if address.Some? then s.pool.text(address.value) else service.clusterIP
    ensures states[4].stored[name].service.kind == service.kind
  {
    var s1, s2 := BeginAndTake(s, id, name, service, address);
    var s3, s4 := NoPortsAndCommit(s2, id);
    hide Enabled, Apply;
    steps := [BeginCreate(id, name, service), TakeAddress(id, address), TakePort(id, None), Commit(id)];
    states := [s, s1, s2, s3, s4];
  }

  lemma BeginAndTake(s: State, id: nat, name: Str, service: Service, address: Option<nat>) returns (s1: State, s2: State)
    requires id !in s.ops && name !in s.stored && service.kind.Some? && service.clusterIPs.None?
    requires if RequiresClusterIP(service) then service.clusterIP == [] && address.Some? && Free(s, Address(address.value)) else address.None?
    ensures Enabled(s, BeginCreate(id, name, service)) && s1 == Apply(s, BeginCreate(id, name, service))
    ensures Enabled(s1, TakeAddress(id, address)) && s2 == Apply(s1, TakeAddress(id, address))
    ensures s2.stored == s.stored && s2.pool == s.pool && s2.ops.Keys == s.ops.Keys + {id}
    ensures s2.ops[id].Writing? && s2.ops[id].phase == TakingPorts(0) && s2.ops[id].name == name && s2.ops[id].existing.None?
    ensures s2.ops[id].service.kind == service.kind && s2.ops[id].service.ports == service.ports
    ensures s2.ops[id].service.clusterIP == if address.Some? then s.pool.text(address.value) else service.clusterIP
  {
    hide Allocations, Distinct;
    s1 := Apply(s, BeginCreate(id, name, service));
    s2 := Apply(s1, TakeAddress(id, address));
  }

  lemma NoPortsAndCommit(s: State, id: nat) returns (s1: State, s2: State)
    requires id in s.ops && s.ops[id].Writing? && s.ops[id].phase == TakingPorts(0) && s.ops[id].existing.None?
    requires s.ops[id].name !in s.stored && s.ops[id].service.ports == [] && !RequiresNodePorts(s.ops[id].service)
    ensures Enabled(s, TakePort(id, None)) && s1 == Apply(s, TakePort(id, None))
    ensures Enabled(s1, Commit(id)) && s2 == Apply(s1, Commit(id))
    ensures s2.pool == s.pool && s2.ops.Keys == s.ops.Keys
    ensures s2.stored == s.stored[s.ops[id].name := Versioned(s.revision + 1, s.ops[id].service)]
  {
    hide Allocations, Distinct;
    assert NodePorts([]) == [];
    s1 := Apply(s, TakePort(id, None));
    s2 := Apply(s1, Commit(id));
  }

  lemma NamesItsAddress(pool: Pool, s: Service)
    requires s.clusterIP != [] && s.clusterIP != NONE
    ensures pool.Of(s.clusterIP) in Allocations(pool, s)
  {
    KeepsFirst([s.clusterIP], if s.clusterIPs.Some? then s.clusterIPs.value else []);
    InAllocations(pool, s, pool.Of(s.clusterIP));
    assert pool.Of(ClusterIPs(s)[0]) == pool.Of(s.clusterIP);
    assert pool.Of(s.clusterIP).NodePort? == false;
  }

  lemma {:induction false} KeepsFirst(ips: seq<Str>, more: seq<Str>)
    requires ips != []
    ensures AddDistinct(ips, more) != [] && AddDistinct(ips, more)[0] == ips[0]
    decreases more
  {
    if more != [] {
      KeepsFirst(if more[0] == NONE || more[0] in ips then ips else ips + [more[0]], more[1..]);
    }
  }

  /** Two creates, the second of a type that needs no address but with one given, and two stored
      services share that address. */
  lemma SharingExample(pool: Pool, n: nat) returns (steps: seq<Step>, states: seq<State>, a: Str, b: Str)
    requires pool.Valid() && n < pool.size
    ensures Run(pool, steps, states) && a != b
    ensures var s := states[|steps|];
            && a in s.stored && b in s.stored
            && Address(n) in Allocations(pool, s.stored[a].service) && Address(n) in Allocations(pool, s.stored[b].service)
  {
    hide Allocations, Enabled, Apply, RequiresClusterIP;
    a, b := [97], [98];
    ClassesNeed();
    var first, second := Service(Some(ClusterIPType), [], None, []), Service(Some(ExternalType), pool.text(n), None, []);
    var s0 := State(pool, 0, map[], {}, map[]);
    var steps1, states1 := CreateRun(s0, 1, a, first, Some(n));
    var steps2, states2 := CreateRun(states1[4], 2, b, second, None);
    steps, states := steps1 + steps2, states1 + states2[1..];
    NamesItsAddress(pool, states[8].stored[a].service);
    NamesItsAddress(pool, states[8].stored[b].service);
  }

  lemma ClassesNeed()
    ensures RequiresClusterIP(Service(Some(ClusterIPType), [], None, []))
    ensures forall ip :: !RequiresClusterIP(Service(Some(ExternalType), ip, None, []))
  {
  }

  /** An update that is clean in itself, of a clean service, can name a node port twice once the
      old ports are taken over. */
  lemma RepeatedPortExample() returns (given: Service, was: Service)
    ensures Clean(given) && Clean(was) && !Clean(Preserved(given, was))
  {
    var none, six, seven := Port([], None), Port([], Some(6)), Port([], Some(7));
    given := Service(Some(NodePortType), [], None, [seven, none]);
    was := Service(Some(NodePortType), [], None, [six, seven]);
    NodePortsFacts(given.ports);
    NodePortsFacts(was.ports);
    var ports := Preserved(given, was).ports;
    NodePortsFacts(ports);
    assert ports[0].nodePort == Some(7) && ports[1].nodePort == Some(7);
  }

  /** Releasing a resource twice fails the second time: it is no longer allocated. */
  lemma SecondReleaseFails(s: State, id: nat)
    requires id in s.ops && s.ops[id].Releasing? && |s.ops[id].todo| >= 2 && s.ops[id].todo[0] == s.ops[id].todo[1]
    requires s.ops[id].todo[0] in s.taken && s.pool.Contains(s.ops[id].todo[0])
    ensures var s' := AfterRelease(s, id, s.ops[id].todo);
            s'.ops[id].todo[0] == s.ops[id].todo[1] && AfterRelease(s', id, s'.ops[id].todo) == With(s', id, Finished)
  {
  }
}
