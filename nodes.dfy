/** The identity of a cluster node: an id, a name and two network addresses,
    the operational one and the application one. A node is an immutable
    value; validity, leadership, equality, hashing and ordering are plain
    expressions over the four parts.

    The classes of the parts (`Id`, `Name`, `Host`, `Address`) are not part
    of this model beyond what a node needs of them: each has a distinguished
    "no value" instance, and a part is missing when it is that instance; an
    id is ordered by its integer value. */
module Nodes {

  datatype Id = Id(value: int)

  /** The id of no node. */
  const NoId := Id(-1)

  predicate HasNoId(id: Id) { id == NoId }

  predicate IdGreaterThan(a: Id, b: Id) { a.value > b.value }

  /** Three-way comparison of ids by value. */
  function IdCompare(a: Id, b: Id): (r: int)
    ensures -1 <= r <= 1
    ensures r > 0 <==> a.value > b.value
    ensures r == 0 <==> a.value == b.value
    ensures r < 0 <==> a.value < b.value
  {
    if a.value < b.value then -1 else if a.value == b.value then 0 else 1
  }

  datatype Name = Name(value: string)

  const NoNodeName := Name("")

  predicate HasNoName(name: Name) { name == NoNodeName }

  datatype Host = Host(name: string)

  const NoHost := Host("")

  /** The role of an address. */
  datatype AddressType = NoRole | Operational | Application

  datatype Address = Address(host: Host, port: int, role: AddressType)

  /** The address of no node. */
  const NoNodeAddress := Address(NoHost, 0, NoRole)

  predicate HasNoAddress(a: Address) { a == NoNodeAddress }

  datatype Node = Node(id: Id, name: Name, operationalAddress: Address, applicationAddress: Address)

  /** The node with every part missing. */
  const NoNode := Node(NoId, NoNodeName, NoNodeAddress, NoNodeAddress)

  /** `Node.with`: both addresses on the one host, the operational one with
      the operational port and role, the application one with the
      application port and role. Such a node is valid exactly when its id
      and its name are present: addresses built this way are never missing. */
  function With(id: Id, name: Name, host: Host, operationalPort: int, applicationPort: int): (n: Node)
    ensures n.id == id && n.name == name
    ensures n.operationalAddress.host == host && n.applicationAddress.host == host
    ensures n.operationalAddress.port == operationalPort && n.operationalAddress.role == Operational
    ensures n.applicationAddress.port == applicationPort && n.applicationAddress.role == Application
    ensures IsValid(n) <==> !HasNoId(id) && !HasNoName(name)
  {
    Node(id, name, Address(host, operationalPort, Operational), Address(host, applicationPort, Application))
  }

  /** `collected()`: a one-element collection holding the node. */
  function Collected(n: Node): (r: seq<Node>)
    ensures |r| == 1 && n in r
    ensures forall m :: m in r ==> m == n
  {
    [n]
  }

  /** `hasMissingPart`: some part is its class's "no value" instance, that
      is, some part is the one `NO_NODE` has. */
  predicate HasMissingPart(n: Node): (r: bool)
    ensures r <==> || n.id == NoNode.id || n.name == NoNode.name
                   || n.operationalAddress == NoNode.operationalAddress
                   || n.applicationAddress == NoNode.applicationAddress
  {
    || HasNoId(n.id)
    || HasNoName(n.name)
    || HasNoAddress(n.operationalAddress)
    || HasNoAddress(n.applicationAddress)
  }

  /** A node built by `with` misses a part exactly when its id or its name
      is missing; the node of no parts misses every part. */
  lemma MissingPartOfWith(id: Id, name: Name, host: Host, operationalPort: int, applicationPort: int)
    ensures HasMissingPart(NoNode) && HasNoId(NoNode.id) && HasNoName(NoNode.name)
    ensures HasNoAddress(NoNode.operationalAddress) && HasNoAddress(NoNode.applicationAddress)
    ensures HasMissingPart(With(id, name, host, operationalPort, applicationPort)) <==> HasNoId(id) || HasNoName(name)
  {
  }

  /** `isValid`: no part is missing; in particular `NO_NODE` is not valid. */
  predicate IsValid(n: Node): (r: bool)
    ensures r <==> && n.id != NoNode.id && n.name != NoNode.name
                   && n.operationalAddress != NoNode.operationalAddress
                   && n.applicationAddress != NoNode.applicationAddress
    ensures r ==> n != NoNode
  {
    !HasMissingPart(n)
  }

  /** Only a valid node with a greater id leads over `nodeId`. */
  predicate IsLeaderOver(n: Node, nodeId: Id): (r: bool)
    ensures r <==> IsValid(n) && n.id.value > nodeId.value
    ensures !IsValid(n) ==> !r
  {
    IsValid(n) && IdGreaterThan(n.id, nodeId)
  }

  /** A node is not valid as soon as one part is missing; the node of
      no parts is not valid and leads over nothing. */
  lemma NoNodeIsInvalid(nodeId: Id)
    ensures !IsValid(NoNode) && !IsLeaderOver(NoNode, nodeId)
  {
  }

  /** A node that leads over some id has its id and name, and is not the
      node of no parts. */
  lemma LeaderIsValid(n: Node, nodeId: Id)
    ensures IsLeaderOver(n, nodeId) ==> n != NoNode
    ensures IsLeaderOver(n, nodeId) ==> !HasNoId(n.id) && !HasNoName(n.name)
  {
  }

  /** What `equals` may be handed: a node, another kind of object, or null. */
  datatype Object = NodeObject(node: Node) | OtherObject | Null

  /** `equals`: the other object is a node and the four parts are pairwise
      equal, which is value equality of nodes. */
  predicate Equals(n: Node, other: Object): (r: bool)
    ensures r <==> other == NodeObject(n)
  {
    && other.NodeObject?
    && n.id == other.node.id
    && n.name == other.node.name
    && n.operationalAddress == other.node.operationalAddress
    && n.applicationAddress == other.node.applicationAddress
  }

  /** `equals` is value equality of nodes, and never holds for null or for
      an object of another class. */
  lemma EqualsIsValueEquality(n: Node, m: Node)
    ensures Equals(n, NodeObject(m)) <==> n == m
    ensures !Equals(n, Null) && !Equals(n, OtherObject)
  {
  }

  /** `equals` is an equivalence on nodes. */
  lemma EqualsIsEquivalence(a: Node, b: Node, c: Node)
    ensures Equals(a, NodeObject(a))
    ensures Equals(a, NodeObject(b)) <==> Equals(b, NodeObject(a))
    ensures Equals(a, NodeObject(b)) && Equals(b, NodeObject(c)) ==> Equals(a, NodeObject(c))
  {
  }

  /** Java's `int`: arithmetic wraps modulo 2^32 into [-2^31, 2^31). */
  function Int32(x: int): (r: int)
    ensures -0x8000_0000 <= r < 0x8000_0000
    ensures (r - x) % 0x1_0000_0000 == 0
  {
    (x + 0x8000_0000) % 0x1_0000_0000 - 0x8000_0000
  }

  /** The hash codes of the parts, as their own classes compute them. */
  datatype PartHashes = PartHashes(id: Id -> int, name: Name -> int, address: Address -> int)

  /** `hashCode`: 31 times the sum of the four part hashes, in 32-bit arithmetic. */
  function HashCode(n: Node, h: PartHashes): (r: int)
    ensures -0x8000_0000 <= r < 0x8000_0000
  {
    Int32(31 * Int32(Int32(Int32(h.id(n.id) + h.name(n.name)) + h.address(n.operationalAddress)) + h.address(n.applicationAddress)))
  }

  /** Equal nodes have equal hash codes. */
  lemma EqualNodesHashEqually(a: Node, b: Node, h: PartHashes)
    requires Equals(a, NodeObject(b))
    ensures HashCode(a, h) == HashCode(b, h)
  {
  }

  /** The two addresses enter the hash symmetrically: swapping them keeps
      the hash, although the swapped node is a different node. */
  lemma {:induction false} SwappedAddressesHashEqually(n: Node, h: PartHashes)
    ensures var m := n.(operationalAddress := n.applicationAddress, applicationAddress := n.operationalAddress);
            HashCode(m, h) == HashCode(n, h)
            && (Equals(n, NodeObject(m)) <==> n.operationalAddress == n.applicationAddress)
  {
    var ho, ha := h.address(n.operationalAddress), h.address(n.applicationAddress);
    var base := Int32(h.id(n.id) + h.name(n.name));
    Int32Assoc(base, ho, ha);
  }

  /** Adding in 32-bit arithmetic does not depend on the order of the last two terms. */
  lemma {:induction false} Int32Assoc(x: int, y: int, z: int)
    ensures Int32(Int32(x + y) + z) == Int32(Int32(x + z) + y)
  {
    Int32Congruent(Int32(x + y) + z, x + y + z);
    Int32Congruent(Int32(x + z) + y, x + y + z);
  }

  /** Numbers equal modulo 2^32 wrap to the same `int`. */
  lemma {:induction false} Int32Congruent(x: int, y: int)
    requires (x - y) % 0x1_0000_0000 == 0
    ensures Int32(x) == Int32(y)
  {
    var k := (x - y) / 0x1_0000_0000;
    assert x + 0x8000_0000 == (y + 0x8000_0000) + k * 0x1_0000_0000;
    ModShift(y + 0x8000_0000, k);
  }

  lemma {:induction false} ModShift(a: int, k: int)
    ensures (a + k * 0x1_0000_0000) % 0x1_0000_0000 == a % 0x1_0000_0000
  {
    var m := 0x1_0000_0000;
    var q, r := a / m, a % m;
    assert a == q * m + r;
    assert a + k * m == (q + k) * m + r;
  }

  /** `compareTo`: by id only. Its sign is that of the difference of the id
      values, so equal nodes compare as 0. */
  function CompareTo(a: Node, b: Node): (r: int)
    ensures -1 <= r <= 1
    ensures r > 0 <==> a.id.value > b.id.value
    ensures r == 0 <==> a.id.value == b.id.value
    ensures r < 0 <==> a.id.value < b.id.value
    ensures Equals(a, NodeObject(b)) ==> r == 0
  {
    IdCompare(a.id, b.id)
  }

  /** `greaterThan`: by id only, so it agrees with `compareTo`. */
  predicate GreaterThan(a: Node, b: Node): (r: bool)
    ensures r <==> CompareTo(a, b) > 0
  {
    IdGreaterThan(a.id, b.id)
  }

  /** `greaterThan` agrees with `compareTo`, and `compareTo` is antisymmetric
      and transitive: it is a total preorder on nodes. */
  lemma CompareToIsPreorder(a: Node, b: Node, c: Node)
    ensures GreaterThan(a, b) <==> CompareTo(a, b) > 0
    ensures CompareTo(a, b) == -CompareTo(b, a)
    ensures CompareTo(a, b) <= 0 && CompareTo(b, c) <= 0 ==> CompareTo(a, c) <= 0
    ensures CompareTo(a, a) == 0
  {
  }

  /** Equal nodes compare as 0, but the converse fails: two nodes with the
      same id and different names compare as 0 and are not equal, so the
      ordering is not consistent with `equals`. */
  lemma CompareToInconsistentWithEquals()
    ensures forall a: Node, b: Node :: Equals(a, NodeObject(b)) ==> CompareTo(a, b) == 0
    ensures var a, b := With(Id(1), Name("a"), Host("h"), 1, 2), With(Id(1), Name("b"), Host("h"), 1, 2);
            CompareTo(a, b) == 0 && !Equals(a, NodeObject(b))
  {
  }
}
