/** VhciIo.Read and VhciIo.Write against a kernel that may complete, abort or fail
    the request at any moment after it pends, in any order with the client's wait,
    timeout and cancel. One client calls again and again on the same handle.

    Collecting waits for the request, and that wait can fail as well. The call then
    gives up: it ends, and lets go of its buffer or its OVERLAPPED though the kernel
    still has the request. */
module ClientIo {
  import opened Hci
  import Driver
  import opened Rendezvous

  /** How a request ends. Transferred carries a packet read, or the one written. */
  datatype IoResult = Transferred(bytes: seq<Byte>) | Aborted | Faulted(code: nat)

  datatype Io = Idle | InFlight | Done(result: IoResult)

  datatype Wait = NoWait | Signalled | Expired | WaitFailed

  datatype Outcome = Returned(bytes: seq<Byte>) | ReturnedNothing | ThrewTimeout | Threw(code: nat)

  datatype Direction = Reading | Writing

  datatype Where = Outside | Issuing | Waiting | Cancelling | Collecting

  /** held: for a read the buffer is pinned, for a write the OVERLAPPED is allocated.
      The kernel copies a packet to where the buffer was pinned. */
  datatype Client = Client(
    at: Where,
    direction: Direction,
    io: Io,
    wait: Wait,
    held: bool,
    buffer: seq<Byte>,
    outcomes: seq<Outcome>,          // of the calls that have ended
    arrived: seq<seq<Byte>>)         // packets the kernel completed reads with

  datatype Label =
    | Call(direction: Direction)
    | IssueCompletes(bytes: seq<Byte>)
    | IssuePends
    | IssueFails(code: nat)
    | KernelCompletes(result: IoResult, unmoved: bool)
    | WaitSignals
    | WaitExpires
    | WaitFails
    | Cancel
    | Collect(stale: nat)
    | GiveUp(code: nat)

  const ABORTED := 995
  const IO_PENDING := 997

  function Fresh(): Client {
    Client(Outside, Reading, Idle, NoWait, false, [], [], [])
  }

  /** The kernel finishes the request. A packet lands in the buffer if that is held, or
      if it happens to be unmoved. */
  function Finish(c: Client, result: IoResult, unmoved: bool): Client {
    var read := c.direction.Reading? && result.Transferred?;
    c.(io := Done(result),
       buffer := if read && (c.held || unmoved) then result.bytes else c.buffer,
       arrived := if read then c.arrived + [result.bytes] else c.arrived)
  }

  /** What the code makes of the collected request. After a failed wait it throws the
      last error there is: the collect's, or the one a collect that succeeds finds. */
  function OutcomeOf(c: Client, stale: nat): Outcome
    requires c.io.Done?
  {
    match c.io.result
    case Transferred(_) =>
      if c.wait.WaitFailed? then Threw(stale) else Returned(if c.direction.Reading? then c.buffer else [])
    case Faulted(code) => Threw(code)
    case Aborted =>
      if !c.wait.Expired? then Threw(ABORTED)
      else if c.direction.Reading? then ReturnedNothing
      else ThrewTimeout
  }

  /** And of a collect that fails with the request still in flight. */
  function OutcomeUncollected(c: Client, code: nat): Outcome {
    if c.wait.WaitFailed? || code != ABORTED then Threw(code)
    else if c.direction.Reading? then ReturnedNothing
    else ThrewTimeout
  }

  predicate Enabled(c: Client, l: Label) {
    match l
    case Call(_) => c.at.Outside? && !c.io.InFlight?
    case IssueCompletes(bytes) => c.at.Issuing? && bytes != []
    case IssuePends => c.at.Issuing?
    case IssueFails(code) => c.at.Issuing? && code != IO_PENDING
    case KernelCompletes(result, _) =>
      && c.io.InFlight?
      && (result.Transferred? ==> result.bytes != []) && (result.Faulted? ==> result.code != ABORTED)
    case WaitSignals => c.at.Waiting? && c.io.Done?
    case WaitExpires => c.at.Waiting? && c.io.InFlight?
    case WaitFails => c.at.Waiting?
    case Cancel => c.at.Cancelling?
    case Collect(_) => c.at.Collecting? && c.io.Done?
    case GiveUp(_) => c.at.Collecting? && c.io.InFlight?
  }

  function Step(c: Client, l: Label): Client
    requires Enabled(c, l)
  {
    match l
    case Call(direction) => c.(at := Issuing, direction := direction, io := Idle, wait := NoWait, held := true)
    case IssueCompletes(bytes) => Finish(c, Transferred(bytes), true).(at := Collecting)
    case IssuePends => c.(at := Waiting, io := InFlight)
    case IssueFails(code) => c.(at := Outside, held := false, outcomes := c.outcomes + [Threw(code)])
    case KernelCompletes(result, unmoved) => Finish(c, result, unmoved)
    case WaitSignals => c.(at := Collecting, wait := Signalled)
    case WaitExpires => c.(at := Cancelling, wait := Expired)
    case WaitFails => c.(at := Cancelling, wait := WaitFailed)
    case Cancel => c.(at := Collecting)
    case Collect(stale) => c.(at := Outside, held := false, outcomes := c.outcomes + [OutcomeOf(c, stale)])
    case GiveUp(code) => c.(at := Outside, held := false, outcomes := c.outcomes + [OutcomeUncollected(c, code)])
  }

  function Run(labels: seq<Label>): Option<Client> {
    if labels == [] then Some(Fresh())
    else
      match Run(labels[..|labels| - 1])
      case None => None
      case Some(c) =>
        var l := labels[|labels| - 1];
        if Enabled(c, l) then Some(Step(c, l)) else None
  }

  // ---------------------------------------------------------------------------
  // In every run
  // ---------------------------------------------------------------------------

  /** The packets calls have returned, in order. */
  function PacketsReturned(outcomes: seq<Outcome>): seq<seq<Byte>> {
    if outcomes == [] then []
    else
      var last := outcomes[|outcomes| - 1];
      PacketsReturned(outcomes[..|outcomes| - 1]) + if last.Returned? && last.bytes != [] then [last.bytes] else []
  }

  /** The packet of a read that has completed but has not been collected. */
  function Uncollected(c: Client): seq<seq<Byte>> {
    if !c.at.Outside? && c.direction.Reading? && c.io.Done? && c.io.result.Transferred?
    then [c.io.result.bytes] else []
  }

  predicate NoWaitFailed(labels: seq<Label>) {
    forall i :: 0 <= i < |labels| ==> !labels[i].WaitFails? && !labels[i].GiveUp?
  }

  predicate NeverGaveUp(labels: seq<Label>) {
    forall i :: 0 <= i < |labels| ==> !labels[i].GiveUp?
  }

  ghost predicate Consistent(c: Client) {
    && (c.io.InFlight? ==> !c.at.Issuing?)
    && (c.held <==> !c.at.Outside?)
    && (c.at.Waiting? || c.at.Cancelling? || c.at.Collecting? ==> !c.io.Idle?)
    && (c.at.Issuing? ==> c.io.Idle?)
    && (c.at.Issuing? || c.at.Waiting? ==> c.wait.NoWait?)
    && (c.at.Cancelling? ==> c.wait.Expired? || c.wait.WaitFailed?)
    && (Uncollected(c) != [] ==> c.buffer == c.io.result.bytes && c.buffer != [])
    && (!c.at.Outside? && c.wait.Signalled? ==> c.io.Done?)
  }

  lemma StepStaysConsistent(c: Client, l: Label)
    requires Consistent(c) && Enabled(c, l)
    ensures Consistent(Step(c, l))
  {
  }

  lemma {:induction false} RunsAreConsistent(labels: seq<Label>)
    requires Run(labels).Some?
    ensures Consistent(Run(labels).value)
  {
    if labels != [] {
      RunsAreConsistent(labels[..|labels| - 1]);
      StepStaysConsistent(Run(labels[..|labels| - 1]).value, labels[|labels| - 1]);
    }
  }

  /** What the kernel has of a call is still held by it, and a call that is over has
      left the kernel nothing. */
  predicate Collected(c: Client) {
    && (c.io.InFlight? ==> c.held)
    && (c.at.Outside? ==> !c.held && !c.io.InFlight?)
  }

  lemma StepCollects(c: Client, l: Label)
    requires Consistent(c) && Enabled(c, l) && Collected(c)
    ensures Collected(Step(c, l)) <==> !l.GiveUp?
  {
  }

  lemma {:induction false} CollectedWithoutGivingUp(labels: seq<Label>)
    requires Run(labels).Some? && NeverGaveUp(labels)
    ensures Collected(Run(labels).value)
  {
    if labels != [] {
      var before := labels[..|labels| - 1];
      CollectedWithoutGivingUp(before);
      RunsAreConsistent(before);
      StepCollects(Run(before).value, labels[|labels| - 1]);
    }
  }

  lemma {:induction false} PrefixRuns(labels: seq<Label>, n: nat)
    requires Run(labels).Some? && n <= |labels|
    ensures Run(labels[..n]).Some?
    decreases |labels|
  {
    if n < |labels| {
      var before := labels[..|labels| - 1];
      PrefixRuns(before, n);
      assert before[..n] == labels[..n];
    } else {
      assert labels[..n] == labels;
    }
  }

  /** While the kernel has a request its buffer stays pinned, or its OVERLAPPED
      allocated, and a call that has ended has left the kernel nothing - at every
      moment of a run if and only if no call in it gave up collecting. */
  lemma {:induction false} HeldUntilCollected(labels: seq<Label>)
    requires Run(labels).Some?
    ensures NeverGaveUp(labels)
       <==> forall n :: 0 <= n <= |labels| ==> Run(labels[..n]).Some? && Collected(Run(labels[..n]).value)
  {
    forall n | 0 <= n <= |labels| ensures Run(labels[..n]).Some? {
      PrefixRuns(labels, n);
    }
    if NeverGaveUp(labels) {
      forall n | 0 <= n <= |labels| ensures Collected(Run(labels[..n]).value) {
        CollectedWithoutGivingUp(labels[..n]);
      }
    } else {
      var i :| 0 <= i < |labels| && labels[i].GiveUp?;
      GivingUpShows(labels, i);
    }
  }

  lemma GivingUpShows(labels: seq<Label>, i: nat)
    requires Run(labels).Some? && i < |labels| && labels[i].GiveUp?
    ensures Run(labels[..i + 1]).Some? && !Collected(Run(labels[..i + 1]).value)
  {
    PrefixRuns(labels, i + 1);
    var upTo := labels[..i + 1];
    LastStep(upTo);
    hide Run;
    assert upTo[|upTo| - 1] == labels[i];
    GivingUpLetsGo(Run(upTo[..i]).value, labels[i]);
  }

  lemma LastStep(labels: seq<Label>)
    requires labels != [] && Run(labels).Some?
    ensures var before, l := Run(labels[..|labels| - 1]), labels[|labels| - 1];
            before.Some? && Enabled(before.value, l) && Run(labels) == Some(Step(before.value, l))
  {
  }

  lemma GivingUpLetsGo(c: Client, l: Label)
    requires l.GiveUp? && Enabled(c, l)
    ensures !Collected(Step(c, l))
  {
  }

  /** A call that gave up returns no packet: it throws, unless the failure it met was
      ERROR_OPERATION_ABORTED too. The packet its read is completed with afterwards is
      in no outcome, whether or not it lands in the buffer after all. */
  lemma GivingUpLosesThePacket(c: Client, code: nat, result: IoResult, unmoved: bool)
    requires Consistent(c) && Enabled(c, GiveUp(code))
    requires Enabled(Step(c, GiveUp(code)), KernelCompletes(result, unmoved))
    ensures var d := Step(Step(c, GiveUp(code)), KernelCompletes(result, unmoved));
            && d.at.Outside? && !d.outcomes[|d.outcomes| - 1].Returned?
            && (d.outcomes[|d.outcomes| - 1].Threw? <==> c.wait.WaitFailed? || code != ABORTED)
            && d.outcomes == Step(c, GiveUp(code)).outcomes
            && PacketsReturned(d.outcomes) == PacketsReturned(c.outcomes)
            && (c.direction.Reading? && result.Transferred? ==> d.arrived == c.arrived + [result.bytes])
  {
    OutcomesExtend(c.outcomes, OutcomeUncollected(c, code));
  }

  lemma OutcomesExtend(outcomes: seq<Outcome>, o: Outcome)
    ensures PacketsReturned(outcomes + [o])
         == PacketsReturned(outcomes) + if o.Returned? && o.bytes != [] then [o.bytes] else []
  {
    assert (outcomes + [o])[..|outcomes|] == outcomes;
  }

  // ---------------------------------------------------------------------------
  // Which packets are lost
  // ---------------------------------------------------------------------------

  /** What becomes of a packet a read was completed with. */
  datatype Fate = Got(packet: seq<Byte>) | Gone(packet: seq<Byte>)

  /** The packet whose fate step l seals: at the collect, where it is got unless the
      wait had failed, or when it comes with the call already over. */
  function SealedBy(c: Client, l: Label): seq<Fate>
    requires Enabled(c, l)
  {
    if c.direction.Writing? then []
    else if l.Collect? && c.io.result.Transferred? then
      [if c.wait.WaitFailed? then Gone(c.io.result.bytes) else Got(c.io.result.bytes)]
    else if l.KernelCompletes? && l.result.Transferred? && c.at.Outside? then [Gone(l.result.bytes)]
    else []
  }

  function Fates(labels: seq<Label>): seq<Fate>
    requires Run(labels).Some?
  {
    if labels == [] then []
    else
      Fates(labels[..|labels| - 1])
      + SealedBy(Run(labels[..|labels| - 1]).value, labels[|labels| - 1])
  }

  function PacketsOf(fates: seq<Fate>): seq<seq<Byte>> {
    seq(|fates|, i requires 0 <= i < |fates| => fates[i].packet)
  }

  function PacketGot(f: Fate): seq<seq<Byte>> {
    if f.Got? then [f.packet] else []
  }

  function PacketsGot(fates: seq<Fate>): seq<seq<Byte>> {
    if fates == [] then []
    else
      var last := fates[|fates| - 1];
      PacketsGot(fates[..|fates| - 1]) + PacketGot(last)
  }

  lemma FatesExtend(fates: seq<Fate>, more: seq<Fate>)
    requires |more| <= 1
    ensures PacketsOf(fates + more) == PacketsOf(fates) + PacketsOf(more)
    ensures PacketsGot(fates + more) == PacketsGot(fates) + PacketsGot(more)
  {
    NoFates();
    if more == [] {
      assert fates + more == fates;
    } else {
      var f := more[0];
      assert more == [f];
      hide PacketsOf, PacketsGot;
      FateExtends(fates, f);
      OneFate(f);
    }
  }

  lemma NoFates()
    ensures PacketsOf([]) == [] && PacketsGot([]) == []
  {
  }

  lemma FateExtends(fates: seq<Fate>, f: Fate)
    ensures PacketsOf(fates + [f]) == PacketsOf(fates) + [f.packet]
    ensures PacketsGot(fates + [f]) == PacketsGot(fates) + PacketGot(f)
  {
    assert (fates + [f])[..|fates|] == fates;
  }

  lemma OneFate(f: Fate)
    ensures PacketsGot([f]) == PacketGot(f) && PacketsOf([f]) == [f.packet]
  {
    assert [f][..0] == [];
  }

  lemma StepSeals(c: Client, l: Label)
    requires Consistent(c) && Enabled(c, l)
    ensures PacketsOf(SealedBy(c, l)) + Uncollected(Step(c, l)) == Uncollected(c) + Arriving(c, l)
    ensures Step(c, l).arrived == c.arrived + Arriving(c, l)
  {
  }

  /** The packet step l completes a read with. */
  function Arriving(c: Client, l: Label): seq<seq<Byte>> {
    match l
    case KernelCompletes(Transferred(bytes), _) => if c.direction.Reading? then [bytes] else []
    case IssueCompletes(bytes) => if c.direction.Reading? then [bytes] else []
    case _ => []
  }

  lemma StepReturnsWhatItGot(c: Client, l: Label)
    requires Consistent(c) && Enabled(c, l)
    ensures PacketsReturned(Step(c, l).outcomes) == PacketsReturned(c.outcomes) + PacketsGot(SealedBy(c, l))
  {
    match l
    case Collect(stale) => CollectReturnsWhatItGot(c, stale);
    case IssueFails(code) => OutcomesExtend(c.outcomes, Threw(code));
    case GiveUp(code) => OutcomesExtend(c.outcomes, OutcomeUncollected(c, code));
    case _ => OthersReturnNothing(c, l);
  }

  lemma CollectReturnsWhatItGot(c: Client, stale: nat)
    requires Consistent(c) && Enabled(c, Collect(stale))
    ensures PacketsReturned(Step(c, Collect(stale)).outcomes)
         == PacketsReturned(c.outcomes) + PacketsGot(SealedBy(c, Collect(stale)))
  {
    hide PacketsGot, PacketsReturned;
    NoFates();
    OutcomesExtend(c.outcomes, OutcomeOf(c, stale));
    if SealedBy(c, Collect(stale)) != [] {
      OneFate(SealedBy(c, Collect(stale))[0]);
    }
  }

  lemma OthersReturnNothing(c: Client, l: Label)
    requires Enabled(c, l) && !l.Collect? && !l.IssueFails? && !l.GiveUp?
    ensures Step(c, l).outcomes == c.outcomes && PacketsGot(SealedBy(c, l)) == []
  {
    hide PacketsGot;
    NoFates();
    if SealedBy(c, l) != [] {
      OneFate(SealedBy(c, l)[0]);
    }
  }

  lemma Regroup(a: seq<seq<Byte>>, b: seq<seq<Byte>>, c: seq<seq<Byte>>, d: seq<seq<Byte>>, e: seq<seq<Byte>>)
    requires b + c == d + e
    ensures (a + b) + c == (a + d) + e
  {
    assert (a + b) + c == a + (b + c);
    assert (a + d) + e == a + (d + e);
  }

  /** Every packet the kernel completes a read with has one fate or is about to be
      collected, in the order they came, and the calls return exactly those whose
      fate it is to be got. */
  lemma {:induction false} EveryPacketHasItsFate(labels: seq<Label>)
    requires Run(labels).Some?
    ensures var c := Run(labels).value;
            && PacketsOf(Fates(labels)) + Uncollected(c) == c.arrived
            && PacketsReturned(c.outcomes) == PacketsGot(Fates(labels))
  {
    if labels != [] {
      var before, l := labels[..|labels| - 1], labels[|labels| - 1];
      var c := Run(before).value;
      EveryPacketHasItsFate(before);
      RunsAreConsistent(before);
      StepSeals(c, l);
      StepReturnsWhatItGot(c, l);
      FatesExtend(Fates(before), SealedBy(c, l));
      hide Step, Enabled, SealedBy, Arriving, Uncollected, PacketsOf, PacketsGot, PacketsReturned;
      Regroup(PacketsOf(Fates(before)), PacketsOf(SealedBy(c, l)), Uncollected(Step(c, l)), Uncollected(c),
              Arriving(c, l));
    }
  }

  /** A request is left with the kernel right after a call has given up, and only
      then: nothing else can happen before the kernel completes it. */
  lemma {:induction false} LeftExactlyByGivingUp(labels: seq<Label>)
    requires Run(labels).Some?
    ensures var c := Run(labels).value;
            c.at.Outside? && c.io.InFlight? <==> labels != [] && labels[|labels| - 1].GiveUp?
  {
    if labels != [] {
      LeftExactlyByGivingUp(labels[..|labels| - 1]);
      RunsAreConsistent(labels[..|labels| - 1]);
    }
  }

  /** As long as no wait fails, in the call or in the collect, every packet the kernel
      completes a read with is returned by that very call, whole and in order - also
      when it completes between the timeout and the cancel. */
  lemma {:induction false} NoPacketIsLost(labels: seq<Label>)
    requires Run(labels).Some? && NoWaitFailed(labels)
    ensures var c := Run(labels).value;
            PacketsReturned(c.outcomes) + Uncollected(c) == c.arrived
  {
    EveryPacketHasItsFate(labels);
    AllAreGot(labels);
  }

  lemma SealedLast(labels: seq<Label>)
    requires labels != [] && Run(labels).Some?
    ensures var before, l := labels[..|labels| - 1], labels[|labels| - 1];
            && Run(before).Some? && Enabled(Run(before).value, l)
            && Fates(labels) == Fates(before) + SealedBy(Run(before).value, l)
  {
    LastStep(labels);
  }

  lemma NoneFailedBefore(labels: seq<Label>)
    requires labels != [] && NoWaitFailed(labels)
    ensures NoWaitFailed(labels[..|labels| - 1])
    ensures !labels[|labels| - 1].WaitFails? && !labels[|labels| - 1].GiveUp?
  {
  }

  lemma {:induction false} AllAreGot(labels: seq<Label>)
    requires Run(labels).Some? && NoWaitFailed(labels)
    ensures !Run(labels).value.wait.WaitFailed?
    ensures PacketsGot(Fates(labels)) == PacketsOf(Fates(labels))
  {
    if labels != [] {
      var before, l := labels[..|labels| - 1], labels[|labels| - 1];
      var c := Run(before).value;
      LastStep(labels);
      SealedLast(labels);
      hide Run, Fates, Step, Enabled, SealedBy, PacketsOf, PacketsGot;
      NoneFailedBefore(labels);
      AllAreGot(before);
      LeftExactlyByGivingUp(before);
      StepGets(c, l);
      FatesExtend(Fates(before), SealedBy(c, l));
    } else {
      NoFates();
    }
  }

  lemma StepGets(c: Client, l: Label)
    requires Enabled(c, l) && !l.WaitFails? && !l.GiveUp? && !c.wait.WaitFailed? && !(c.at.Outside? && c.io.InFlight?)
    ensures !Step(c, l).wait.WaitFailed?
    ensures PacketsGot(SealedBy(c, l)) == PacketsOf(SealedBy(c, l))
  {
    if SealedBy(c, l) != [] {
      assert SealedBy(c, l)[..0] == [];
    }
  }

  // ---------------------------------------------------------------------------
  // One call
  // ---------------------------------------------------------------------------

  /** The labels of the call under way, or the last one. */
  function ThisCall(labels: seq<Label>): seq<Label> {
    if labels == [] then []
    else
      var l := labels[|labels| - 1];
      if l.Call? then [l] else ThisCall(labels[..|labels| - 1]) + [l]
  }

  /** The call's request ended so. */
  predicate CompletedWith(call: seq<Label>, result: IoResult) {
    exists l :: l in call && Completes(l, result)
  }

  predicate Completes(l: Label, result: IoResult) {
    (l.KernelCompletes? && l.result == result) || (l.IssueCompletes? && result == Transferred(l.bytes))
  }

  predicate Failed(call: seq<Label>) {
    WaitFails in call
  }

  predicate TimedOut(call: seq<Label>) {
    WaitExpires in call
  }

  predicate ReadOrWrite(call: seq<Label>, direction: Direction) {
    call != [] && call[0] == Call(direction)
  }

  /** The client's state tells what has happened in the call. */
  ghost predicate Tells(c: Client, call: seq<Label>) {
    && (c.wait.WaitFailed? <==> Failed(call))
    && (c.wait.Expired? <==> TimedOut(call))
    && (forall result :: c.io == Done(result) <==> CompletedWith(call, result))
    && ((c.io.Idle? || c.io.InFlight?) ==> forall l :: l in call ==> !l.KernelCompletes? && !l.IssueCompletes?)
    && (call != [] ==> ReadOrWrite(call, c.direction))
    && (call == [] ==> c == Fresh())
  }

  lemma CallExtends(call: seq<Label>, l: Label, result: IoResult)
    ensures CompletedWith(call + [l], result) <==> CompletedWith(call, result) || Completes(l, result)
    ensures Failed(call + [l]) <==> Failed(call) || l == WaitFails
    ensures TimedOut(call + [l]) <==> TimedOut(call) || l == WaitExpires
  {
    var more := call + [l];
    assert more[|call|] == l;
    if CompletedWith(more, result) {
      var m :| m in more && Completes(m, result);
      assert m == l || m in call;
    }
    if CompletedWith(call, result) {
      var m :| m in call && Completes(m, result);
      assert m in more;
    }
    forall m | m in call ensures m in more {
    }
  }

  lemma NewCallTells(c: Client, direction: Direction)
    requires Enabled(c, Call(direction))
    ensures Tells(Step(c, Call(direction)), [Call(direction)])
  {
    var l := Call(direction);
    forall result ensures !CompletedWith([l], result) {
      assert forall m :: m in [l] ==> m == l;
    }
  }

  lemma StepTells(c: Client, call: seq<Label>, l: Label)
    requires Consistent(c) && Enabled(c, l) && !l.Call? && Tells(c, call)
    ensures Tells(Step(c, l), call + [l])
  {
    var d, more := Step(c, l), call + [l];
    assert call != [];
    assert more[0] == call[0];
    forall result ensures d.io == Done(result) <==> CompletedWith(more, result) {
      CallExtends(call, l, result);
      assert c.io == Done(result) <==> CompletedWith(call, result);
    }
    CallExtends(call, l, Aborted);
    forall m | m in more ensures m == l || m in call {
    }
  }

  lemma {:induction false} RunsTell(labels: seq<Label>)
    requires Run(labels).Some?
    ensures Tells(Run(labels).value, ThisCall(labels))
  {
    if labels == [] {
      forall result ensures !CompletedWith([], result) {
      }
    } else {
      var before, l := labels[..|labels| - 1], labels[|labels| - 1];
      LastStep(labels);
      RunsTell(before);
      RunsAreConsistent(before);
      hide Run, Tells, Enabled, Consistent, Step;
      if l.Call? {
        NewCallTells(Run(before).value, l.direction);
      } else {
        StepTells(Run(before).value, ThisCall(before), l);
      }
    }
  }

  predicate EndsCall(l: Label) {
    l.IssueFails? || l.Collect? || l.GiveUp?
  }

  /** The call throws this error: of its issue; of its request, or 995 if that was
      aborted and the call had not timed out; after a failed wait on a request that did
      succeed, whatever error was last; or the collect's own. */
  ghost predicate ThrowsCode(call: seq<Label>, code: nat) {
    && call != []
    && var last := call[|call| - 1];
    || last == IssueFails(code)
    || (last.Collect? && CompletedWith(call, Faulted(code)))
    || (last.Collect? && CompletedWith(call, Aborted) && !TimedOut(call) && code == 995)
    || (last == Collect(code) && Failed(call) && exists bytes :: CompletedWith(call, Transferred(bytes)))
    || (last == GiveUp(code) && (Failed(call) || code != 995))
  }

  /** It timed out, and its request was aborted, or so the collect's failure looks. */
  predicate FindsNothing(call: seq<Label>) {
    && call != []
    && var last := call[|call| - 1];
    || (last.Collect? && TimedOut(call) && CompletedWith(call, Aborted))
    || (last == GiveUp(995) && !Failed(call))
  }

  predicate Brings(call: seq<Label>, bytes: seq<Byte>) {
    && call != [] && call[|call| - 1].Collect? && !Failed(call)
    && CompletedWith(call, Transferred(bytes))
  }

  /** The outcome of a call, told from how its issue, its wait and its request went. */
  ghost predicate ExactOutcome(call: seq<Label>, o: Outcome) {
    && (forall code :: o == Threw(code) <==> ThrowsCode(call, code))
    && (o.ReturnedNothing? <==> ReadOrWrite(call, Reading) && FindsNothing(call))
    && (o.ThrewTimeout? <==> ReadOrWrite(call, Writing) && FindsNothing(call))
    && (o.Returned? <==> exists bytes :: Brings(call, bytes))
    && (o.Returned? && ReadOrWrite(call, Reading) ==> Brings(call, o.bytes) && |o.bytes| >= 1)
  }

  lemma CollectIsExact(c: Client, call: seq<Label>, stale: nat)
    requires Consistent(c) && Enabled(c, Collect(stale)) && Tells(c, call)
    ensures ExactOutcome(call + [Collect(stale)], OutcomeOf(c, stale))
  {
    var l, more, o := Collect(stale), call + [Collect(stale)], OutcomeOf(c, stale);
    assert call != [] && more[0] == call[0];
    forall result ensures CompletedWith(more, result) <==> c.io.result == result {
      CallExtends(call, l, result);
      assert c.io == Done(result) <==> CompletedWith(call, result);
    }
    CallExtends(call, l, Aborted);
    assert more[|more| - 1] == l;
    assert CompletedWith(more, c.io.result);
    hide CompletedWith, Tells;
    if o.Returned? {
      assert Brings(more, c.io.result.bytes);
    }
  }

  lemma UncollectedIsExact(c: Client, call: seq<Label>, l: Label)
    requires Consistent(c) && Enabled(c, l) && Tells(c, call) && (l.IssueFails? || l.GiveUp?)
    ensures ExactOutcome(call + [l], if l.GiveUp? then OutcomeUncollected(c, l.code) else Threw(l.code))
  {
    var more := call + [l];
    assert call != [] && more[0] == call[0] && more[|more| - 1] == l;
    CallExtends(call, l, Aborted);
  }

  /** Over every run: a call that ends has the outcome its issue, its wait and its
      request call for, and nothing else adds one. */
  lemma OutcomesAreExact(labels: seq<Label>)
    requires labels != [] && Run(labels).Some?
    ensures Run(labels[..|labels| - 1]).Some?
    ensures var before, l := Run(labels[..|labels| - 1]).value, labels[|labels| - 1];
            var outcomes := Run(labels).value.outcomes;
            if !EndsCall(l) then outcomes == before.outcomes
            else outcomes != [] && outcomes[..|outcomes| - 1] == before.outcomes
                 && ExactOutcome(ThisCall(labels), outcomes[|outcomes| - 1])
  {
    var before, l := labels[..|labels| - 1], labels[|labels| - 1];
    LastStep(labels);
    RunsTell(before);
    RunsAreConsistent(before);
    var c, call := Run(before).value, ThisCall(before);
    match l
    case Collect(stale) => CollectIsExact(c, call, stale);
    case IssueFails(_) | GiveUp(_) => UncollectedIsExact(c, call, l);
    case _ =>
    hide Run, ExactOutcome, Tells, Consistent, ThisCall;
  }

  /** The labels of a run that are the client's own. */
  function LastOwn(labels: seq<Label>): Option<Label> {
    if labels == [] then None
    else if labels[|labels| - 1].KernelCompletes? then LastOwn(labels[..|labels| - 1])
    else Some(labels[|labels| - 1])
  }

  /** A call that timed out, or whose wait failed, collects its request only after it
      has asked for it to be cancelled. */
  lemma {:induction false} CancelledBeforeCollected(labels: seq<Label>)
    requires Run(labels).Some?
    ensures var c := Run(labels).value;
            c.at.Collecting? && (c.wait.Expired? || c.wait.WaitFailed?) ==> LastOwn(labels) == Some(Cancel)
  {
    if labels != [] {
      CancelledBeforeCollected(labels[..|labels| - 1]);
      RunsAreConsistent(labels[..|labels| - 1]);
    }
  }

  /** A read returns 0 exactly when it was aborted without data, if and only if the
      abort did not come while the call was still waiting. */
  lemma NothingMeansAborted(labels: seq<Label>, stale: nat)
    requires Run(labels).Some? && Enabled(Run(labels).value, Collect(stale))
    requires var c := Run(labels).value; c.direction.Reading? && !c.wait.WaitFailed?
    ensures var c := Run(labels).value;
            (OutcomeOf(c, stale).ReturnedNothing? <==> c.io.result.Aborted?)
            <==> !(c.wait.Signalled? && c.io.result.Aborted?)
  {
    RunsAreConsistent(labels);
    CompletedReadsHaveWaited(labels);
  }

  /** A read completed by ReadFile itself was completed with a packet. */
  lemma {:induction false} CompletedReadsHaveWaited(labels: seq<Label>)
    requires Run(labels).Some?
    ensures var c := Run(labels).value;
            c.at.Collecting? && c.wait.NoWait? ==> c.io.Done? && c.io.result.Transferred?
  {
    if labels != [] {
      var before := labels[..|labels| - 1];
      CompletedReadsHaveWaited(before);
      RunsAreConsistent(before);
    }
  }

  /** Somebody else's cancel, landing while the call waits, makes it throw. */
  lemma AbortInsideTheWaitThrows()
    ensures var labels := [Call(Reading), IssuePends, KernelCompletes(Aborted, false), WaitSignals, Collect(0)];
            Run(labels).Some? && Run(labels).value.outcomes == [Threw(ABORTED)]
  {
    var l1 := [] + [Call(Reading)];
    var l2 := l1 + [IssuePends];
    var l3 := l2 + [KernelCompletes(Aborted, false)];
    var l4 := l3 + [WaitSignals];
    RunOne([], Fresh(), Call(Reading));
    RunOne(l1, Run(l1).value, IssuePends);
    RunOne(l2, Run(l2).value, KernelCompletes(Aborted, false));
    RunOne(l3, Run(l3).value, WaitSignals);
    RunOne(l4, Run(l4).value, Collect(0));
    assert l4 + [Collect(0)] == [Call(Reading), IssuePends, KernelCompletes(Aborted, false), WaitSignals, Collect(0)];
  }

  const GIVES_UP := [Call(Reading), IssuePends, WaitFails, Cancel, GiveUp(6)]

  const GAVE_UP := Client(Outside, Reading, InFlight, WaitFailed, false, [], [Threw(6)], [])

  lemma GivingUpRuns()
    ensures Run(GIVES_UP) == Some(GAVE_UP)
  {
    var c1 := Client(Issuing, Reading, Idle, NoWait, true, [], [], []);
    var l1 := [] + [Call(Reading)];
    var l2 := l1 + [IssuePends];
    var l3 := l2 + [WaitFails];
    var l4 := l3 + [Cancel];
    hide Run;
    RunNone();
    RunOne([], Fresh(), Call(Reading));
    RunOne(l1, c1, IssuePends);
    RunOne(l2, c1.(at := Waiting, io := InFlight), WaitFails);
    RunOne(l3, c1.(at := Cancelling, io := InFlight, wait := WaitFailed), Cancel);
    RunOne(l4, c1.(at := Collecting, io := InFlight, wait := WaitFailed), GiveUp(6));
    assert l4 + [GiveUp(6)] == GIVES_UP;
    assert c1.outcomes + [Threw(6)] == [Threw(6)];
  }

  lemma RunNone()
    ensures Run([]) == Some(Fresh())
  {
  }

  /** A wait fails, and so does the collect: the call is over and the kernel still has
      its request. Any packet it then completes the read with is lost. */
  lemma GivingUpHappens(packet: seq<Byte>, unmoved: bool)
    requires packet != []
    ensures Run(GIVES_UP).Some? && !Collected(Run(GIVES_UP).value)
    ensures var more := GIVES_UP + [KernelCompletes(Transferred(packet), unmoved)];
            Run(more).Some? && Run(more).value.arrived == [packet] && Fates(more) == [Gone(packet)]
  {
    var l := KernelCompletes(Transferred(packet), unmoved);
    GivingUpRuns();
    RunOne(GIVES_UP, GAVE_UP, l);
    EveryPacketHasItsFate(GIVES_UP);
    LastFate(GIVES_UP, l);
    assert |PacketsOf(Fates(GIVES_UP))| == 0;
    assert GAVE_UP.arrived + [packet] == [packet];
    assert [] + [Gone(packet)] == [Gone(packet)];
  }

  lemma LastFate(before: seq<Label>, l: Label)
    requires Run(before + [l]).Some?
    ensures Run(before).Some? && Enabled(Run(before).value, l)
    ensures Fates(before + [l]) == Fates(before) + SealedBy(Run(before).value, l)
  {
    assert (before + [l])[..|before|] == before;
  }

  /** The wait times out, the packet comes before the cancel: the read returns it. */
  lemma TimedOutReadReturnsData(packet: seq<Byte>)
    requires packet != []
    ensures var labels :=
              [Call(Reading), IssuePends, WaitExpires, KernelCompletes(Transferred(packet), false), Cancel, Collect(0)];
            Run(labels).Some? && Run(labels).value.outcomes == [Returned(packet)]
  {
    var arrives := KernelCompletes(Transferred(packet), false);
    var c1 := Client(Issuing, Reading, Idle, NoWait, true, [], [], []);
    var c3 := c1.(at := Cancelling, io := InFlight, wait := Expired);
    var c4 := c3.(io := Done(Transferred(packet)), buffer := packet, arrived := [packet]);
    var l1 := [] + [Call(Reading)];
    var l2 := l1 + [IssuePends];
    var l3 := l2 + [WaitExpires];
    var l4 := l3 + [arrives];
    var l5 := l4 + [Cancel];
    hide Run;
    RunNone();
    RunOne([], Fresh(), Call(Reading));
    RunOne(l1, c1, IssuePends);
    RunOne(l2, c1.(at := Waiting, io := InFlight), WaitExpires);
    assert c3.arrived + [packet] == [packet];
    RunOne(l3, c3, arrives);
    RunOne(l4, c4, Cancel);
    RunOne(l5, c4.(at := Collecting), Collect(0));
    OneByOne(Call(Reading), IssuePends, WaitExpires, arrives, Cancel, Collect(0));
    assert c4.outcomes + [Returned(packet)] == [Returned(packet)];
  }

  lemma OneByOne(a: Label, b: Label, c: Label, d: Label, e: Label, f: Label)
    ensures [] + [a] + [b] + [c] + [d] + [e] + [f] == [a, b, c, d, e, f]
  {
  }

  lemma RunOne(labels: seq<Label>, c: Client, l: Label)
    requires Run(labels) == Some(c) && Enabled(c, l)
    ensures Run(labels + [l]) == Some(Step(c, l))
  {
    assert (labels + [l])[..|labels|] == labels;
  }

  /** The driver never completes a read with nothing: what Transferred assumes. */
  lemma DriverReadsCarryData(r: Request, p: Packet)
    requires Driver.CompleteClientRead(r, p).status.Success?
    ensures Driver.CompleteClientRead(r, p).info == |Driver.CompleteClientRead(r, p).output| >= 1
  {
  }

  // ---------------------------------------------------------------------------
  // Every call ends
  // ---------------------------------------------------------------------------

  /** Steps of its own a call may still take. */
  function Remaining(c: Client): nat {
    match c.at
    case Outside => 0
    case Collecting => 1
    case Cancelling => 2
    case Waiting => 3
    case Issuing => 4
  }

  /** Each of the call's own steps brings it nearer its end, the kernel's take it no
      further away, and only one thing can hold it up: the kernel keeping a request
      it has been asked to cancel. */
  lemma CallsEnd(c: Client, l: Label)
    requires Consistent(c) && !c.at.Outside?
    requires Enabled(c, l)
    ensures Remaining(Step(c, l)) < Remaining(c) || (l.KernelCompletes? && Remaining(Step(c, l)) == Remaining(c))
    ensures Enabled(c, IssuePends) || Enabled(c, WaitSignals) || Enabled(c, WaitExpires) || Enabled(c, Cancel)
            || Enabled(c, Collect(0)) || (c.at.Collecting? && c.io.InFlight?)
  {
  }
}
