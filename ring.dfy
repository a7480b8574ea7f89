/** Work partitioning between replicas (alertServer.scanServices): each cycle builds a
    consistent-hash ring whose members are the replica names "0" .. "nodes-1" and keeps
    the instances the ring locates at this replica's own name. The hash ring library
    (three virtual nodes per member, its hash function) is not modelled: its Locate is
    an uninterpreted function of the members and the key. */
module Ring {
  import opened Common
  import opened Decimal
  import opened Platform

  /** The ring's Locate on a ring holding `members` (in the order they were added). */
  type Locator = (seq<string>, string) -> Returned<string>

  /** What the partition needs of Locate: on a non-empty ring it names a member, on an
      empty ring it names nobody (the empty string). */
  ghost predicate LocatesOntoMembers(locate: Locator)
  {
    forall members, key :: (|members| > 0 ==> locate(members, key).value in members)
                           && (members == [] ==> locate(members, key).value == "")
  }

  /** The members of the ring built for `nodes` replicas: "nodes-1" first, "0" last. */
  function RingFor(nodes: int): seq<string>
    decreases nodes
  {
    if nodes <= 0 then [] else [Itoa(nodes - 1)] + RingFor(nodes - 1)
  }

  lemma {:induction false} RingForAt(nodes: int, k: int)
    ensures |RingFor(nodes)| == if nodes > 0 then nodes else 0
    ensures 0 <= k < |RingFor(nodes)| ==> RingFor(nodes)[k] == Itoa(nodes - 1 - k)
    decreases nodes
  {
    if nodes > 0 {
      RingForAt(nodes - 1, k - 1);
    }
  }

  /** The ring's members are exactly the names of replicas 0 .. nodes-1. */
  lemma {:induction false} RingMembers(nodes: int, name: string)
    ensures name in RingFor(nodes) <==> exists i :: 0 <= i < nodes && Itoa(i) == name
    decreases nodes
  {
    if nodes > 0 {
      RingMembers(nodes - 1, name);
      if name in RingFor(nodes) && name != Itoa(nodes - 1) {
        assert name in RingFor(nodes - 1);
      }
    }
  }

  /** The ring construction loop: `for i := nodes; i > 0; i-- { ring.Add(i-1) }`. */
  method BuildRing(nodes: int) returns (ring: seq<string>)
    ensures ring == RingFor(nodes)
    ensures |ring| == if nodes > 0 then nodes else 0
    ensures forall k :: 0 <= k < |ring| ==> ring[k] == Itoa(nodes - 1 - k)
  {
    ring := [];
    var i := nodes;
    while i > 0
      invariant i <= nodes || nodes <= 0
      invariant ring + RingFor(i) == RingFor(nodes)
    {
      ring := ring + [Itoa(i - 1)];
      i := i - 1;
    }
    forall k | 0 <= k < |ring|
      ensures ring[k] == Itoa(nodes - 1 - k)
    {
      RingForAt(nodes, k);
    }
    RingForAt(nodes, 0);
  }

  /** `n, _ := ring.Locate(guid)`: the error is discarded and the name used as is. */
  function Located(locate: Locator, nodes: int, guid: string): (name: string)
    ensures LocatesOntoMembers(locate) && nodes > 0 ==> exists i :: 0 <= i < nodes && Itoa(i) == name
    ensures LocatesOntoMembers(locate) && nodes <= 0 ==> name == ""
  {
    RingMembers(nodes, locate(RingFor(nodes), guid).value);
    RingForAt(nodes, 0);
    locate(RingFor(nodes), guid).value
  }

  /** The replica named `node` processes the instance `guid`. */
  predicate Owns(locate: Locator, nodes: int, node: string, guid: string)
    ensures Owns(locate, nodes, node, guid) && LocatesOntoMembers(locate) && node != "" ==>
              exists i :: 0 <= i < nodes && Itoa(i) == node
  {
    Located(locate, nodes, guid) == node
  }

  /** The GUIDs of the instances the replica named `node` keeps. */
  function OwnedGuids(locate: Locator, nodes: int, node: string, instances: seq<ServiceInstance>): set<string>
  {
    set x | x in instances && Owns(locate, nodes, node, x.guid) :: x.guid
  }

  /** No instance is owned by two replicas: whatever Locate does, replicas i and j
      both owning a GUID means i == j. */
  lemma OwnerIsUnique(locate: Locator, nodes: int, guid: string, i: int, j: int)
    requires Owns(locate, nodes, Itoa(i), guid) && Owns(locate, nodes, Itoa(j), guid)
    ensures i == j
  {
    ItoaInjective(i, j);
  }

  /** Every instance is owned by some replica 0 .. nodes-1. */
  lemma EveryGuidHasOwner(locate: Locator, nodes: int, guid: string)
    requires LocatesOntoMembers(locate) && nodes > 0
    ensures exists i :: 0 <= i < nodes && Owns(locate, nodes, Itoa(i), guid)
  {
    var ring := RingFor(nodes);
    RingForAt(nodes, 0);
    assert locate(ring, guid).value in ring;
    RingMembers(nodes, locate(ring, guid).value);
  }

  /** A replica whose index is not in 0 .. nodes-1 owns nothing. */
  lemma NoOwnerOutsideRing(locate: Locator, nodes: int, index: int, guid: string)
    requires LocatesOntoMembers(locate) && !(0 <= index < nodes)
    ensures !Owns(locate, nodes, Itoa(index), guid)
  {
    var ring := RingFor(nodes);
    var n := locate(ring, guid).value;
    RingForAt(nodes, 0);
    if n == Itoa(index) {
      if nodes > 0 {
        RingMembers(nodes, n);
        var i :| 0 <= i < nodes && Itoa(i) == n;
        ItoaInjective(i, index);
      }
    }
  }

  /** The instance sets kept by replicas 0 .. nodes-1 are pairwise disjoint and
      together hold every instance; any other replica keeps none. */
  lemma OwnedGuidsPartition(locate: Locator, nodes: int, instances: seq<ServiceInstance>)
    requires LocatesOntoMembers(locate) && nodes > 0
    ensures forall i, j :: i != j ==>
              OwnedGuids(locate, nodes, Itoa(i), instances) !! OwnedGuids(locate, nodes, Itoa(j), instances)
    ensures forall x :: x in instances ==>
              exists i :: 0 <= i < nodes && x.guid in OwnedGuids(locate, nodes, Itoa(i), instances)
    ensures forall index :: !(0 <= index < nodes) ==> OwnedGuids(locate, nodes, Itoa(index), instances) == {}
  {
    forall i, j | i != j
      ensures OwnedGuids(locate, nodes, Itoa(i), instances) !! OwnedGuids(locate, nodes, Itoa(j), instances)
    {
      forall g | g in OwnedGuids(locate, nodes, Itoa(i), instances)
        ensures g !in OwnedGuids(locate, nodes, Itoa(j), instances)
      {
        if g in OwnedGuids(locate, nodes, Itoa(j), instances) {
          OwnerIsUnique(locate, nodes, g, i, j);
        }
      }
    }
    forall x | x in instances
      ensures exists i :: 0 <= i < nodes && x.guid in OwnedGuids(locate, nodes, Itoa(i), instances)
    {
      EveryGuidHasOwner(locate, nodes, x.guid);
    }
    forall index | !(0 <= index < nodes)
      ensures OwnedGuids(locate, nodes, Itoa(index), instances) == {}
    {
      forall x | x in instances ensures !Owns(locate, nodes, Itoa(index), x.guid) {
        NoOwnerOutsideRing(locate, nodes, index, x.guid);
      }
    }
  }
}
