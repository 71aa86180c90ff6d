/** The framework's objects, as far as the driver can see them: requests and the
    manual queues that park them. */
module Framework {
  import opened Hci
  import opened Rendezvous

  /** A request with its output buffer. */
  class WdfRequest {
    const Id: nat
    const From: Origin
    const Output: array<Byte>
    var Completed: bool
    var Result: Status
    var Information: nat

    ghost function View(): Request {
      Request(Id, From, Output.Length)
    }

    constructor (id: nat, from: Origin, output: array<Byte>)
      ensures View() == Request(id, from, output.Length) && Output == output && !Completed
    {
      Id, From, Output, Completed, Result, Information := id, from, output, false, Success, 0;
    }

    /** WdfRequestCompleteWithInformation. A request may be completed once. */
    method Complete(result: Status, information: nat)
      requires !Completed
      modifies this
      ensures Completed && Result == result && Information == information
    {
      Completed, Result, Information := true, result, information;
    }
  }

  ghost function Views(rs: seq<WdfRequest>): seq<Request> {
    seq(|rs|, i requires 0 <= i < |rs| => rs[i].View())
  }

  /** The requests rs were completed as cancelled. */
  ghost predicate AllCancelled(rs: seq<WdfRequest>)
    reads rs
  {
    forall i :: 0 <= i < |rs| ==> rs[i].Completed && rs[i].Result == Cancelled && rs[i].Information == 0
  }

  /** A manual queue: first in, first out, purged and started by its owner. */
  class ManualQueue {
    var Waiting: seq<WdfRequest>
    var Accepting: bool

    ghost function Parked(): seq<Request>
      reads this
    {
      Views(Waiting)
    }

    /** A request waits in one place, and none that waits has been completed. */
    ghost predicate Valid()
      reads this, Waiting
    {
      && (forall i, j :: 0 <= i < j < |Waiting| ==> Waiting[i] != Waiting[j])
      && (forall i :: 0 <= i < |Waiting| ==> !Waiting[i].Completed)
    }

    constructor ()
      ensures Valid() && Waiting == [] && Accepting
    {
      Waiting, Accepting := [], true;
    }

    /** WdfIoQueueRetrieveNextRequest; null when it fails. */
    method RetrieveNext() returns (r: WdfRequest?)
      requires Valid()
      modifies this
      ensures Valid() && Accepting == old(Accepting)
      ensures !Accepting || old(Parked()) == [] ==> r == null && Waiting == old(Waiting)
      ensures Accepting && old(Parked()) != [] ==>
                && r != null && r.View() == old(Parked())[0] && Parked() == old(Parked())[1..]
                && r in old(Waiting) && r !in Waiting && !r.Completed && Waiting == old(Waiting)[1..]
    {
      if Accepting && Waiting != [] {
        r := Waiting[0];
        Waiting := Waiting[1..];
      } else {
        r := null;
      }
    }

    /** WdfRequestForwardToIoQueue. willing is what else the framework has to say. */
    method Forward(r: WdfRequest, willing: bool) returns (ok: bool)
      requires Valid() && r !in Waiting && !r.Completed
      modifies this
      ensures Valid() && Accepting == old(Accepting) && ok == (Accepting && willing)
      ensures Waiting == if ok then old(Waiting) + [r] else old(Waiting)
      ensures Parked() == if ok then old(Parked()) + [r.View()] else old(Parked())
    {
      ok := Accepting && willing;
      if ok {
        Waiting := Waiting + [r];
      }
    }

    /** WdfIoQueuePurgeSynchronously, as one step: every waiting request leaves the
        queue and is completed as cancelled. */
    method Purge() returns (cancelled: seq<WdfRequest>)
      requires Valid()
      modifies this, Waiting
      ensures Valid() && Waiting == [] && !Accepting && cancelled == old(Waiting) && Views(cancelled) == old(Parked())
      ensures AllCancelled(cancelled)
    {
      cancelled := Waiting;
      var k := 0;
      while k < |cancelled|
        invariant k <= |cancelled| && Waiting == cancelled == old(Waiting)
        invariant forall i :: 0 <= i < k ==>
                    cancelled[i].Completed && cancelled[i].Result == Cancelled && cancelled[i].Information == 0
        invariant forall i :: k <= i < |cancelled| ==> !cancelled[i].Completed
      {
        cancelled[k].Complete(Cancelled, 0);
        k := k + 1;
      }
      Waiting, Accepting := [], false;
    }

    method Start()
      requires Valid()
      modifies this
      ensures Valid() && Accepting && Waiting == old(Waiting)
    {
      Accepting := true;
    }
  }
}
