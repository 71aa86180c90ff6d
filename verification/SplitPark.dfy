/** The stack-facing read path as it once was: looking at the backlog in one
    locked region and parking in another. A run of it loses a wakeup, and what was
    lost stays lost until another read comes. */
module SplitPark {
  import opened Hci
  import opened Rendezvous
  import opened Channels

  /** A channel, and the reads that have looked and not yet parked. */
  datatype Old = Old(c: Channel, looked: set<Request>)

  datatype OldStep =
    | Arrives(n: Node)        // a packet: handed to a parked read, else queued
    | Looks(r: Request)       // region one: take from the backlog, if there is anything
    | Parks(r: Request)       // region two: park, without looking again

  predicate CanStep(o: Old, s: OldStep) {
    s.Parks? ==> s.r in o.looked
  }

  function Next(o: Old, s: OldStep): Old
    requires CanStep(o, s)
  {
    match s
    case Arrives(n) =>
      if WaitingRead(o.c).Some? then o.(c := HandOff(o.c, n.packet)) else o.(c := Append(o.c, n))
    case Looks(r) =>
      if o.c.backlog != [] then o.(c := TakeHead(o.c, r)) else o.(looked := o.looked + {r})
    case Parks(r) => Old(Park(o.c, r), o.looked - {r})
  }

  function RunOld(o: Old, steps: seq<OldStep>): Option<Old>
    decreases |steps|
  {
    if steps == [] then Some(o)
    else if CanStep(o, steps[0]) then RunOld(Next(o, steps[0]), steps[1..])
    else None
  }

  /** A packet and a read both wait. */
  predicate Lost(o: Old) {
    o.c.backlog != [] && o.c.parked != []
  }

  /** A packet arriving in the gap is queued, and the read parks behind it. */
  lemma SplitDesignLosesAWakeup(n: Node, r: Request)
    ensures var end := RunOld(Old(EMPTY_CHANNEL, {}), [Looks(r), Arrives(n), Parks(r)]);
            end.Some? && Lost(end.value) && end.value.c.backlog == [n] && end.value.c.parked == [r]
  {
    var o := Old(EMPTY_CHANNEL, {});
    var o1 := Next(o, Looks(r));
    var o2 := Next(o1, Arrives(n));
    var o3 := Next(o2, Parks(r));
    assert RunOld(o3, []) == Some(o3);
    assert RunOld(o2, [Parks(r)]) == RunOld(o3, [Parks(r)][1..]);
    assert RunOld(o1, [Arrives(n), Parks(r)]) == RunOld(o2, [Arrives(n), Parks(r)][1..]);
    assert [Arrives(n), Parks(r)][1..] == [Parks(r)];
    assert RunOld(o, [Looks(r), Arrives(n), Parks(r)]) == RunOld(o1, [Looks(r), Arrives(n), Parks(r)][1..]);
    assert [Looks(r), Arrives(n), Parks(r)][1..] == [Arrives(n), Parks(r)];
  }

  /** However many packets arrive, both go on waiting: only a new read's look can
      take from the backlog again. */
  lemma {:induction false} LostUntilNextRead(o: Old, steps: seq<OldStep>)
    requires Lost(o) && o.c.count as int == |o.c.backlog| && |o.c.backlog| + |steps| < ULONG_SIZE
    requires forall i :: 0 <= i < |steps| ==> !steps[i].Looks?
    decreases |steps|
    ensures RunOld(o, steps).Some? ==>
              var end := RunOld(o, steps).value;
              Lost(end) && end.c.parked[0] == o.c.parked[0] && end.c.backlog[0] == o.c.backlog[0]
  {
    if steps != [] && CanStep(o, steps[0]) {
      var o' := Next(o, steps[0]);
      assert o'.c.parked[0] == o.c.parked[0] && o'.c.backlog[0] == o.c.backlog[0];
      LostUntilNextRead(o', steps[1..]);
    }
  }
}
