/** The context's fields for one channel - list, count, peak and queue - and the
    pieces of the locked regions that touch only them. Each piece is one of the
    moves of module Channels. */
module ChannelFieldsOnHeap {
  import opened Hci
  import opened Rendezvous
  import opened Channels
  import opened PacketLists
  import opened Framework

  class ChannelFields {
    const list: PacketList
    const queue: ManualQueue
    var count: ULong
    var peak: ULong
    ghost var Model: Channel       // what the fields amount to, with the channel's history
    ghost var Repr: set<object>

    /** No data buffer is part of a channel: a request's bytes are its sender's. */
    ghost predicate HoldsNoBuffer()
      reads this
    {
      forall o :: o in Repr ==> !(o is array<Byte>)
    }

    ghost predicate Valid()
      reads this, Repr
    {
      && this in Repr && queue in Repr && list in Repr && list.Repr <= Repr
      && (forall i :: 0 <= i < |queue.Waiting| ==> queue.Waiting[i] in Repr)
      && list.Valid() && queue.Valid() && HoldsNoBuffer()
      && Model == Channel(list.Contents, queue.Parked(), queue.Accepting, count, peak, Model.log)
    }

    lemma OwnsNoBuffer(a: array<Byte>)
      requires Valid()
      ensures a !in Repr
    {
    }

    /** The buffers of the reads that are waiting. */
    ghost function Buffers(): set<array<Byte>>
      reads queue
    {
      set q | q in queue.Waiting :: q.Output
    }

    constructor ()
      ensures Valid() && this in Repr && fresh(Repr) && Model == EMPTY_CHANNEL
    {
      list := new PacketList();
      queue := new ManualQueue();
      count, peak := 0, 0;
      Model := EMPTY_CHANNEL;
      new;
      Repr := {this, queue, list} + list.Repr;
    }

    /** A packet arrives: if nothing is queued ahead of it, the oldest parked read
        may have it. */
    method TakeWaitingRead(ghost p: Packet) returns (r: WdfRequest?)
      requires Valid()
      modifies Repr
      ensures Valid() && this in Repr
      ensures r == null ==> WaitingRead(old(Model)).None? && Model == old(Model) && Repr == old(Repr)
      ensures r != null ==> WaitingRead(old(Model)) == Some(r.View()) && Model == HandOff(old(Model), p)
      ensures r != null ==> Repr == old(Repr) - {r} && r in old(Repr) && !r.Completed && r.Output in old(Buffers())
    {
      hide PacketList.Valid;
      r := null;
      if count == 0 {
        r := queue.RetrieveNext();
        if r != null {
          Model := HandOff(Model, p);
          Repr := Repr - {r};
        }
      }
    }

    method AppendPacket(p: PoolPacket)
      requires Valid() && p !in Repr
      modifies Repr, p
      ensures Valid() && this in Repr && Repr == old(Repr) + {p} && Model == Append(old(Model), p.View())
    {
      hide PacketList.Valid;
      list.InsertTail(p);
      count := Wrap(count + 1);
      if count > peak {
        peak := count;
      }
      Model := Append(Model, p.View());
      Repr := Repr + {p};
    }

    method TakePacket(ghost r: Request) returns (taken: PoolPacket)
      requires Valid() && Model.backlog != []
      modifies Repr
      ensures Valid() && this in Repr && Repr == old(Repr) - {taken} && taken in old(Repr)
      ensures Model == TakeHead(old(Model), r) && taken.View() == old(Model).backlog[0]
    {
      hide PacketList.Valid;
      taken := list.RemoveHead();
      count := Wrap(count - 1);
      Model := TakeHead(Model, r);
      Repr := Repr - {taken};
    }

    method ParkRead(r: WdfRequest, willing: bool) returns (parked: bool)
      requires Valid() && r !in Repr && !r.Completed
      modifies Repr
      ensures Valid() && this in Repr && parked == (old(Model).accepting && willing)
      ensures Repr == if parked then old(Repr) + {r} else old(Repr)
      ensures Model == if parked then Park(old(Model), r.View()) else old(Model)
    {
      hide PacketList.Valid;
      parked := queue.Forward(r, willing);
      if parked {
        Model := Park(Model, r.View());
        Repr := Repr + {r};
      }
    }

    /** A read arrives: it takes the oldest packet, or parks if there is none. */
    method TakeOrPark(r: WdfRequest, willing: bool) returns (taken: PoolPacket?, parked: bool)
      requires Valid() && r !in Repr && !r.Completed
      modifies Repr
      ensures Valid() && this in Repr && r.Completed == old(r.Completed)
      ensures taken != null <==> old(Model).backlog != []
      ensures taken != null ==> Model == TakeHead(old(Model), r.View()) && taken.View() == old(Model).backlog[0]
      ensures taken != null ==> Repr == old(Repr) - {taken} && taken in old(Repr) && !parked
      ensures taken == null ==> parked == (old(Model).accepting && willing)
      ensures taken == null ==> Repr == if parked then old(Repr) + {r} else old(Repr)
      ensures taken == null ==> Model == if parked then Park(old(Model), r.View()) else old(Model)
    {
      taken, parked := null, false;
      var empty := list.IsEmpty();
      if empty {
        parked := ParkRead(r, willing);
      } else {
        taken := TakePacket(r.View());
      }
    }

    /** WinVhciFreeList on this channel's list and count. */
    method FreeList() returns (ghost freed: seq<Node>)
      requires Valid()
      modifies Repr
      ensures Valid() && this in Repr && Repr <= old(Repr)
      ensures Model == FreeAll(old(Model)) && freed == old(Model).backlog
    {
      hide PacketList.Valid;
      freed := list.FreeAll();
      count := 0;
      Model := FreeAll(Model);
    }

    /** Purging the queue synchronously: every parked read comes back cancelled. */
    method PurgeReads() returns (cancelled: seq<WdfRequest>)
      requires Valid()
      modifies Repr
      ensures Valid() && this in Repr && Repr <= old(Repr)
      ensures Model == PurgeQueue(old(Model)) && Views(cancelled) == old(Model).parked
      ensures AllCancelled(cancelled) && forall i :: 0 <= i < |cancelled| ==> cancelled[i] in old(Repr) - Repr
    {
      hide PacketList.Valid;
      cancelled := queue.Purge();
      Model := PurgeQueue(Model);
      Repr := Repr - set r | r in cancelled;
    }

    method StartReads()
      requires Valid()
      modifies Repr
      ensures Valid() && this in Repr && Repr == old(Repr) && Model == StartQueue(old(Model))
    {
      hide PacketList.Valid;
      queue.Start();
      Model := StartQueue(Model);
    }
  }
}
