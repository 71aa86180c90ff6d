/** Pool packets and the doubly linked lists they wait on, as they lie on the heap. */
module PacketLists {
  import opened Hci
  import opened Channels

  /** WINVHCI_PACKET. Its link comes first, so a list entry and the packet around it
      are one address; a list's head is an entry with no packet around it. Type and
      bytes are written once, at allocation. */
  class PoolPacket {
    var Flink: PoolPacket?
    var Blink: PoolPacket?
    const Kind: Byte
    const Data: seq<Byte>
    ghost const Serial: nat

    ghost function View(): Node {
      Node(Serial, Packet(Kind, Data))
    }

    /** An allocation, filled from length bytes of body. */
    constructor (kind: Byte, body: array<Byte>, from: nat, length: nat, ghost serial: nat)
      requires from + length <= body.Length
      ensures View() == Node(serial, Packet(kind, body[from..from + length]))
    {
      Flink, Blink := null, null;
      Kind := kind;
      Data := body[from..from + length];
      Serial := serial;
    }

    /** A list head. */
    constructor Head()
    {
      Flink, Blink := null, null;
      Kind := 0;
      Data := [];
      Serial := 0;
    }
  }

  /** A LIST_ENTRY head with the packets on it. */
  class PacketList {
    const head: PoolPacket
    ghost var nodes: seq<PoolPacket>
    ghost var Contents: seq<Node>  // the packets' values, oldest first
    ghost var Repr: set<PoolPacket>  // the head and the packets

    /** The packet at place i, or the head beyond either end. */
    ghost function At(i: int): PoolPacket
      reads this
    {
      if 0 <= i < |nodes| then nodes[i] else head
    }

    ghost predicate Hooked(i: nat)
      requires i < |nodes|
      reads this, nodes
    {
      nodes[i].Flink == At(i + 1) && nodes[i].Blink == At(i - 1)
    }

    ghost predicate Linked()
      reads this, head, nodes
    {
      && head.Flink == At(0) && head.Blink == At(|nodes| - 1)
      && forall i: nat :: i < |nodes| ==> Hooked(i)
    }

    ghost predicate Valid()
      reads this, Repr
    {
      && head in Repr && head !in nodes
      && (forall i :: 0 <= i < |nodes| ==> nodes[i] in Repr)
      && (forall i, j :: 0 <= i < j < |nodes| ==> nodes[i] != nodes[j])
      && Linked()
      && |Contents| == |nodes|
      && forall i :: 0 <= i < |nodes| ==> Contents[i] == nodes[i].View()
    }

    constructor ()
      ensures Valid() && fresh(Repr) && Contents == []
    {
      head := new PoolPacket.Head();
      nodes, Contents := [], [];
      new;
      head.Flink := head;
      head.Blink := head;
      Repr := {head};
    }

    method IsEmpty() returns (empty: bool)
      requires Valid()
      ensures empty == (Contents == [])
    {
      empty := head.Flink == head;
    }

    method InsertTail(p: PoolPacket)
      requires Valid() && p !in Repr
      modifies this, Repr, p
      ensures Valid() && Repr == old(Repr) + {p}
      ensures Contents == old(Contents) + [p.View()]
    {
      var last := head.Blink;
      assert last != head ==> old(Hooked(|nodes| - 1));
      p.Flink := head;
      p.Blink := last;
      last.Flink := p;
      head.Blink := p;
      nodes, Contents := nodes + [p], Contents + [p.View()];
      Repr := Repr + {p};
      forall i: nat | i < |nodes| ensures Hooked(i) {
        if i < |nodes| - 1 {
          assert old(Hooked(i));
        }
      }
    }

    method RemoveHead() returns (p: PoolPacket)
      requires Valid() && Contents != []
      modifies this, Repr
      ensures Valid() && Repr == old(Repr) - {p} && p in old(Repr)
      ensures p.View() == old(Contents)[0] && Contents == old(Contents)[1..]
    {
      p := head.Flink;
      assert Hooked(0);
      var next := p.Flink;
      head.Flink := next;
      next.Blink := head;
      nodes, Contents := nodes[1..], Contents[1..];
      Repr := Repr - {p};
      forall i: nat | i < |nodes| ensures Hooked(i) {
        assert old(Hooked(i + 1));
      }
    }

    /** WinVhciFreeList: takes packets off the head and frees them until none is left. */
    method FreeAll() returns (ghost freed: seq<Node>)
      requires Valid()
      modifies this, Repr
      ensures Valid() && Repr <= old(Repr)
      ensures Contents == [] && freed == old(Contents)
    {
      hide PacketList.Valid;
      freed := [];
      var empty := IsEmpty();
      while !empty
        invariant Valid() && Repr <= old(Repr)
        invariant empty == (Contents == [])
        invariant freed + Contents == old(Contents)
        decreases |Contents|
      {
        var p := RemoveHead();
        freed := freed + [p.View()];
        empty := IsEmpty();
      }
    }
  }
}
