/** VhciDevice.read, from the moment its ReadFile has pended, against any number of
    closes and opens on other threads and the kernel, interleaved anyhow. */
module PyDevice {
  import opened Hci

  datatype IoResult = Data(bytes: seq<Byte>) | Aborted | Fault

  datatype Io = InFlight | Done(result: IoResult)

  /** Where the reading thread stands. The two Failed states are an OSError caught
      and not yet judged. */
  datatype Reader =
    | Polling                      // about to look at _closing
    | Waiting                      // in WaitForSingleObject
    | WaitFailed
    | Cancelling                   // has seen _closing
    | Reaping                      // waiting for its cancelled read
    | ReapingResult
    | Collecting                   // the event was signalled
    | CollectFailed(aborted: bool)
    | Gave(bytes: seq<Byte>)       // returned a packet
    | Empty                        // returned b''
    | Raised                       // raised VhciError

  /** Where the close of the handle this read is on stands, if one has begun. */
  datatype Closer = NotCalled | HasSetClosing | HasTakenHandle | HasCancelled | HasClosedFile | HasClosedEvent

  /** fileOpen and eventOpen are the handles this read holds copies of. Later closes
      touch them only through _read_event, later opens not at all. */
  datatype Device = Device(
    reader: Reader,
    closer: Closer,
    closing: bool,                 // the _closing event
    handleNone: bool,              // _handle is None
    again: bool,                   // close has been called again
    fileOpen: bool,
    eventOpen: bool,
    io: Io,
    faulted: bool,                 // a call failed though close had done nothing to it
    reopened: bool)                // open has cleared _closing

  const PENDED := Device(Polling, NotCalled, false, false, false, true, true, InFlight, false, false)

  datatype Label =
    | LookAtClosing | WaitSignals | WaitTimesOut | WaitFails | JudgeWait
    | CancelOwn | ReapWaits | ReapCollects
    | CollectSucceeds | CollectFails(aborted: bool) | JudgeCollect
    | SetClosing | TakeHandle | CloserCancels | CloseFile
    | CloseEvent(own: bool)        // own: it is this read's event
    | KernelCompletes(result: IoResult)
    | Reopen(succeeds: bool)

  predicate Enabled(d: Device, l: Label) {
    match l
    case LookAtClosing => d.reader.Polling?
    case WaitSignals => d.reader.Waiting? && (d.eventOpen ==> d.io.Done?)
    case WaitTimesOut => d.reader.Waiting?
    case WaitFails => d.reader.Waiting?
    case JudgeWait => d.reader.WaitFailed?
    case CancelOwn => d.reader.Cancelling?
    case ReapWaits => d.reader.Reaping?
    case ReapCollects => d.reader.ReapingResult?
    case CollectSucceeds => d.reader.Collecting? && d.io.Done? && d.io.result.Data?
    case CollectFails(aborted) => d.reader.Collecting? && (aborted ==> d.io == Done(Aborted))
    case JudgeCollect => d.reader.CollectFailed?
    case SetClosing => true
    case TakeHandle => d.closer.HasSetClosing? || (d.again && !d.handleNone)
    case CloserCancels => d.closer.HasTakenHandle?
    case CloseFile => d.closer.HasCancelled?
    case CloseEvent(own) =>
      && (d.closer.HasClosedFile? || (d.again && HandleTaken(d.closer)))
      && (!own ==> d.reopened)
    case KernelCompletes(_) => d.io.InFlight?
    case Reopen(_) => d.handleNone
  }

  predicate HandleTaken(c: Closer) {
    !c.NotCalled? && !c.HasSetClosing?
  }

  function Step(d: Device, l: Label): Device
    requires Enabled(d, l)
  {
    match l
    case LookAtClosing => d.(reader := if d.closing then Cancelling else Waiting)
    case WaitSignals => d.(reader := Collecting)
    case WaitTimesOut => d.(reader := Polling)
    case WaitFails => d.(reader := WaitFailed, faulted := d.faulted || d.eventOpen)
    case JudgeWait => d.(reader := if d.closing then Empty else Raised)
    case CancelOwn => d.(reader := Reaping)
    case ReapWaits => d.(reader := ReapingResult)
    case ReapCollects => d.(reader := Empty)
    case CollectSucceeds => d.(reader := Gave(d.io.result.bytes))
    case CollectFails(aborted) =>
      d.(reader := CollectFailed(aborted), faulted := d.faulted || (d.fileOpen && d.eventOpen && !aborted))
    case JudgeCollect => d.(reader := if d.reader.aborted || d.closing then Empty else Raised)
    case SetClosing =>
      if d.closer.NotCalled? then d.(closer := HasSetClosing, closing := true)
      else d.(closing := true, again := true)
    case TakeHandle =>
      d.(handleNone := true, closer := if d.closer.HasSetClosing? then HasTakenHandle else d.closer)
    case CloserCancels => d.(closer := HasCancelled)
    case CloseFile => d.(closer := HasClosedFile, fileOpen := false)
    case CloseEvent(own) =>
      d.(closer := if d.closer.HasClosedFile? then HasClosedEvent else d.closer,
         eventOpen := d.eventOpen && !own)
    case KernelCompletes(result) => d.(io := Done(result))
    case Reopen(succeeds) => d.(closing := false, reopened := true, handleNone := !succeeds)
  }

  /** Where labels lead from d; None when one was not enabled. */
  function RunFrom(d: Device, labels: seq<Label>): Option<Device> {
    if labels == [] then Some(d)
    else
      match RunFrom(d, labels[..|labels| - 1])
      case None => None
      case Some(e) =>
        var l := labels[|labels| - 1];
        if Enabled(e, l) then Some(Step(e, l)) else None
  }

  // ---------------------------------------------------------------------------
  // A close is never an exception
  // ---------------------------------------------------------------------------

  predicate Ended(r: Reader) {
    r.Gave? || r.Empty? || r.Raised?
  }

  ghost predicate CloserConsistent(d: Device) {
    && (!d.reopened ==> (d.closing <==> !d.closer.NotCalled?))
    && (!d.fileOpen <==> d.closer.HasClosedFile? || d.closer.HasClosedEvent?)
    && (!d.eventOpen || d.handleNone || d.again || d.reopened ==> !d.closer.NotCalled?)
    && (d.handleNone || d.reopened ==> HandleTaken(d.closer))
  }

  ghost predicate ReaderConsistent(d: Device) {
    && (d.reader.Collecting? && d.eventOpen ==> d.io.Done?)
    && (d.reader.WaitFailed? ==> d.faulted || !d.eventOpen)
    && (d.reader.CollectFailed? && !d.reader.aborted ==> d.faulted || !d.fileOpen || !d.eventOpen)
    && (d.reader.CollectFailed? && d.reader.aborted ==> d.io == Done(Aborted))
    && (d.reader.Cancelling? || d.reader.Reaping? || d.reader.ReapingResult? ==> !d.closer.NotCalled?)
    && (d.reader.Gave? ==> d.io == Done(Data(d.reader.bytes)))
    && (d.reader.Empty? ==> !d.closer.NotCalled? || d.io == Done(Aborted))
    && (d.reader.Raised? ==> d.faulted || d.reopened)
  }

  ghost predicate Consistent(d: Device) {
    CloserConsistent(d) && ReaderConsistent(d)
  }

  lemma StepStaysConsistent(d: Device, l: Label)
    requires Consistent(d) && Enabled(d, l)
    ensures Consistent(Step(d, l))
  {
    CloserStaysConsistent(d, l);
    if Step(d, l).reader == d.reader {
      ReaderIsLeftConsistent(d, l);
    } else {
      ReaderStaysConsistent(d, l);
    }
    hide Step, CloserConsistent, ReaderConsistent;
  }

  lemma CloserStaysConsistent(d: Device, l: Label)
    requires Consistent(d) && Enabled(d, l)
    ensures CloserConsistent(Step(d, l))
  {
    hide ReaderConsistent;
  }

  lemma ReaderIsLeftConsistent(d: Device, l: Label)
    requires Consistent(d) && Enabled(d, l) && Step(d, l).reader == d.reader
    ensures ReaderConsistent(Step(d, l))
  {
  }

  lemma ReaderStaysConsistent(d: Device, l: Label)
    requires Consistent(d) && Enabled(d, l) && Step(d, l).reader != d.reader
    ensures ReaderConsistent(Step(d, l))
  {
  }

  lemma {:induction false} RunsAreConsistent(labels: seq<Label>)
    requires RunFrom(PENDED, labels).Some?
    ensures Consistent(RunFrom(PENDED, labels).value)
  {
    if labels != [] {
      RunsAreConsistent(labels[..|labels| - 1]);
      StepStaysConsistent(RunFrom(PENDED, labels[..|labels| - 1]).value, labels[|labels| - 1]);
    }
  }

  /** In every ordering: with no reopen and no fault of its own, a read that has ended
      gave the packet the kernel completed it with, or b'' because of a close or of
      an abort. It never raises. */
  lemma ReadsEndQuietly(labels: seq<Label>)
    requires RunFrom(PENDED, labels).Some? && Ended(RunFrom(PENDED, labels).value.reader)
    requires var d := RunFrom(PENDED, labels).value; !d.reopened && !d.faulted
    ensures var d := RunFrom(PENDED, labels).value;
            && (d.reader.Gave? || d.reader.Empty?)
            && (d.reader.Gave? ==> d.io == Done(Data(d.reader.bytes)))
            && (d.reader.Empty? ==> d.closing || d.io == Done(Aborted))
  {
    RunsAreConsistent(labels);
  }

  /** Step l judges a call that failed, and not because of an abort. */
  predicate JudgesFailure(d: Device, l: Label) {
    Enabled(d, l) && (l.JudgeWait? || (l.JudgeCollect? && !d.reader.aborted))
  }

  lemma StepRaises(d: Device, l: Label)
    requires Enabled(d, l)
    ensures Step(d, l).reader.Raised? <==> d.reader.Raised? || (JudgesFailure(d, l) && !d.closing)
  {
    match l
    case JudgeWait =>
    case JudgeCollect =>
    case _ => OtherStepsRaiseNothing(d, l);
  }

  lemma OtherStepsRaiseNothing(d: Device, l: Label)
    requires Enabled(d, l) && !l.JudgeWait? && !l.JudgeCollect?
    ensures Step(d, l).reader.Raised? == d.reader.Raised?
  {
    if !IsReaders(l) {
      OthersLeaveTheReader(d, l);
    }
  }

  lemma OthersLeaveTheReader(d: Device, l: Label)
    requires Enabled(d, l) && !IsReaders(l)
    ensures Step(d, l).reader == d.reader && (!l.Reopen? && d.closing ==> Step(d, l).closing)
  {
    hide Enabled;
    match l
    case SetClosing | TakeHandle | CloserCancels =>
    case CloseFile | CloseEvent(_) | KernelCompletes(_) | Reopen(_) =>
  }

  lemma LastStep(labels: seq<Label>)
    requires labels != [] && RunFrom(PENDED, labels).Some?
    ensures var before, l := RunFrom(PENDED, labels[..|labels| - 1]), labels[|labels| - 1];
            before.Some? && Enabled(before.value, l) && RunFrom(PENDED, labels) == Some(Step(before.value, l))
  {
  }

  lemma {:induction false} PrefixRuns(labels: seq<Label>, n: nat)
    requires RunFrom(PENDED, labels).Some? && n <= |labels|
    ensures RunFrom(PENDED, labels[..n]).Some?
    ensures RunFrom(PENDED, labels[..n]).value.faulted ==> RunFrom(PENDED, labels).value.faulted
    decreases |labels|
  {
    if n < |labels| {
      var before := labels[..|labels| - 1];
      LastStep(labels);
      hide RunFrom;
      PrefixRuns(before, n);
      assert before[..n] == labels[..n];
    } else {
      assert labels[..n] == labels;
    }
  }

  /** Just before the n-th step of a run. */
  function Before(labels: seq<Label>, n: nat): (d: Device)
    requires RunFrom(PENDED, labels).Some? && n < |labels|
    ensures Some(d) == RunFrom(PENDED, labels[..n])
  {
    PrefixRuns(labels, n);
    RunFrom(PENDED, labels[..n]).value
  }

  /** The n-th step judges a failed, non-aborted call while _closing is clear. */
  predicate JudgedInTheOpen(labels: seq<Label>, n: nat)
    requires RunFrom(PENDED, labels).Some? && n < |labels|
  {
    JudgesFailure(Before(labels, n), labels[n]) && !Before(labels, n).closing
  }

  /** There has been an open, and no close has begun since the last one. */
  predicate ReopenedLast(labels: seq<Label>) {
    && labels != []
    && var l := labels[|labels| - 1];
    l.Reopen? || (!l.SetClosing? && ReopenedLast(labels[..|labels| - 1]))
  }

  /** The n-th step judges a failed, non-aborted call, and the last close or open to
      begin before it was an open. */
  predicate JudgedAfterReopen(labels: seq<Label>, n: nat)
    requires RunFrom(PENDED, labels).Some? && n < |labels|
  {
    JudgesFailure(Before(labels, n), labels[n]) && ReopenedLast(labels[..n])
  }

  lemma StepReopens(d: Device, l: Label)
    requires Enabled(d, l)
    ensures Step(d, l).reopened && !Step(d, l).closing <==> l.Reopen? || (!l.SetClosing? && d.reopened && !d.closing)
  {
  }

  lemma {:induction false} ReopenedLastExactly(labels: seq<Label>)
    requires RunFrom(PENDED, labels).Some?
    ensures var d := RunFrom(PENDED, labels).value;
            ReopenedLast(labels) <==> d.reopened && !d.closing
  {
    if labels != [] {
      LastStep(labels);
      ReopenedLastExactly(labels[..|labels| - 1]);
      StepReopens(RunFrom(PENDED, labels[..|labels| - 1]).value, labels[|labels| - 1]);
      hide Step, Enabled, RunFrom;
    }
  }

  /** Exactly when a read raises: when a failed, non-aborted call of its own was
      judged while _closing was clear. */
  lemma {:induction false} RaisesExactly(labels: seq<Label>)
    requires RunFrom(PENDED, labels).Some?
    ensures RunFrom(PENDED, labels).value.reader.Raised?
       <==> exists n :: 0 <= n < |labels| && JudgedInTheOpen(labels, n)
  {
    if labels != [] {
      var k := |labels| - 1;
      var before := labels[..k];
      LastStep(labels);
      StepRaises(Before(labels, k), labels[k]);
      hide RunFrom, Step, Enabled, JudgesFailure;
      RaisesExactly(before);
      forall n | 0 <= n < k ensures JudgedInTheOpen(labels, n) <==> JudgedInTheOpen(before, n) {
        assert before[..n] == labels[..n];
      }
      assert JudgedInTheOpen(labels, k) <==> JudgesFailure(Before(labels, k), labels[k]) && !Before(labels, k).closing;
    }
  }

  /** A failure judged while _closing is clear, if it is no fault of the read's own,
      is judged after an open. */
  lemma OpenMeansReopened(d: Device, l: Label)
    requires Consistent(d) && JudgesFailure(d, l) && !d.faulted
    ensures d.reopened || d.closing
  {
  }

  /** So, but for a fault of its own, it raises exactly when a failed, non-aborted
      call was judged after an open that no close has followed. */
  lemma {:induction false} ReopenRaisesExactly(labels: seq<Label>)
    requires RunFrom(PENDED, labels).Some? && !RunFrom(PENDED, labels).value.faulted
    ensures RunFrom(PENDED, labels).value.reader.Raised?
       <==> exists n :: 0 <= n < |labels| && JudgedAfterReopen(labels, n)
  {
    RaisesExactly(labels);
    forall n | 0 <= n < |labels| ensures JudgedAfterReopen(labels, n) <==> JudgedInTheOpen(labels, n) {
      PrefixRuns(labels, n);
      RunsAreConsistent(labels[..n]);
      ReopenedLastExactly(labels[..n]);
      hide RunFrom, Consistent, ReopenedLast;
      if JudgesFailure(Before(labels, n), labels[n]) {
        OpenMeansReopened(Before(labels, n), labels[n]);
      }
    }
  }

  /** Step l ends the read with b'', and no close has begun. */
  predicate EndsEmptyUnclosed(d: Device, l: Label) {
    Enabled(d, l) && !d.reader.Empty? && Step(d, l).reader.Empty? && Step(d, l).closer.NotCalled?
  }

  lemma EmptyUnclosedStep(d: Device, l: Label)
    requires Consistent(d)
    ensures EndsEmptyUnclosed(d, l)
       <==> l.JudgeCollect? && d.reader == CollectFailed(true) && d.closer.NotCalled?
  {
  }

  /** A read ends with b'' though no close has begun exactly at the judging of an
      abort, which was then somebody else's. */
  lemma EmptyUnclosedExactly(labels: seq<Label>, n: nat)
    requires RunFrom(PENDED, labels).Some? && n < |labels|
    ensures var d := Before(labels, n);
            && (EndsEmptyUnclosed(d, labels[n])
                <==> labels[n].JudgeCollect? && d.reader == CollectFailed(true) && d.closer.NotCalled?)
            && (EndsEmptyUnclosed(d, labels[n]) ==> d.io == Done(Aborted))
  {
    PrefixRuns(labels, n);
    RunsAreConsistent(labels[..n]);
    EmptyUnclosedStep(Before(labels, n), labels[n]);
  }

  predicate NoReopen(labels: seq<Label>) {
    forall i :: 0 <= i < |labels| ==> !labels[i].Reopen?
  }

  /** Once a close has begun even a genuine fault ends the read quietly. */
  lemma {:induction false} AfterCloseNothingRaises(d: Device, labels: seq<Label>)
    requires d.closing && !d.reopened && !d.reader.Raised?
    requires RunFrom(d, labels).Some? && NoReopen(labels)
    ensures var e := RunFrom(d, labels).value;
            e.closing && !e.reopened && !e.reader.Raised?
  {
    if labels != [] {
      var before, l := labels[..|labels| - 1], labels[|labels| - 1];
      AfterCloseNothingRaises(d, before);
      StepAfterClose(RunFrom(d, before).value, l);
      hide Step, Enabled;
    }
  }

  lemma StepAfterClose(d: Device, l: Label)
    requires d.closing && !d.reopened && !d.reader.Raised? && Enabled(d, l) && !l.Reopen?
    ensures var e := Step(d, l); e.closing && !e.reopened && !e.reader.Raised?
  {
    StepRaises(d, l);
    StepKeepsClosing(d, l);
    hide Step, Enabled;
  }

  lemma StepKeepsClosing(d: Device, l: Label)
    requires Enabled(d, l) && !l.Reopen?
    ensures Step(d, l).reopened == d.reopened && (d.closing ==> Step(d, l).closing)
  {
    hide Enabled;
    match l
    case LookAtClosing | WaitSignals | WaitTimesOut | WaitFails | JudgeWait =>
    case CancelOwn | ReapWaits | ReapCollects =>
    case CollectSucceeds | CollectFails(_) | JudgeCollect =>
    case SetClosing | TakeHandle | CloserCancels =>
    case CloseFile | CloseEvent(_) | KernelCompletes(_) =>
  }

  // ---------------------------------------------------------------------------
  // And the read ends soon
  // ---------------------------------------------------------------------------

  /** Steps of its own the read may still take once _closing is set. */
  function Remaining(r: Reader): nat {
    match r
    case Waiting => 5
    case Polling => 4
    case Cancelling => 3
    case Collecting | Reaping => 2
    case ReapingResult | WaitFailed | CollectFailed(_) => 1
    case _ => 0
  }

  predicate IsReaders(l: Label) {
    match l
    case SetClosing | TakeHandle | CloserCancels | CloseFile | CloseEvent(_) => false
    case KernelCompletes(_) | Reopen(_) => false
    case _ => true
  }

  /** What the reader can do next, whatever the others have done. */
  function NextOwn(r: Reader): Label {
    match r
    case Polling => LookAtClosing
    case Waiting => WaitTimesOut
    case WaitFailed => JudgeWait
    case Cancelling => CancelOwn
    case Reaping => ReapWaits
    case ReapingResult => ReapCollects
    case Collecting => CollectFails(false)
    case _ => JudgeCollect
  }

  /** How many steps of the reader's own a run takes. */
  function OwnSteps(labels: seq<Label>): nat {
    if labels == [] then 0
    else OwnSteps(labels[..|labels| - 1]) + if IsReaders(labels[|labels| - 1]) then 1 else 0
  }

  lemma OwnStepProgresses(d: Device, l: Label)
    requires d.closing && Enabled(d, l) && !l.Reopen?
    ensures Remaining(Step(d, l).reader) + (if IsReaders(l) then 1 else 0) <= Remaining(d.reader)
    ensures Step(d, l).closing
  {
    if !IsReaders(l) {
      OthersLeaveTheReader(d, l);
    }
  }

  /** From the moment _closing is set the read takes at most five more steps, and
      until it has ended it always has one to take. */
  lemma {:induction false} ReadEndsSoonAfterClose(d: Device, labels: seq<Label>)
    requires d.closing && RunFrom(d, labels).Some? && NoReopen(labels)
    ensures var e := RunFrom(d, labels).value;
            && e.closing
            && OwnSteps(labels) + Remaining(e.reader) <= Remaining(d.reader) <= 5
            && (Remaining(e.reader) == 0 <==> Ended(e.reader))
            && (!Ended(e.reader) ==> Enabled(e, NextOwn(e.reader)) && IsReaders(NextOwn(e.reader)))
  {
    if labels != [] {
      var before := labels[..|labels| - 1];
      ReadEndsSoonAfterClose(d, before);
      OwnStepProgresses(RunFrom(d, before).value, labels[|labels| - 1]);
    }
  }

  /** The reader's own steps, in order. */
  function OwnLabels(labels: seq<Label>): seq<Label> {
    if labels == [] then []
    else OwnLabels(labels[..|labels| - 1]) + if IsReaders(labels[|labels| - 1]) then [labels[|labels| - 1]] else []
  }

  const REAPS := [LookAtClosing, CancelOwn, ReapWaits, ReapCollects]

  /** How far a read that is leaving has got, by its number of steps. */
  predicate Leaving(r: Reader, n: nat) {
    match n
    case 0 => r.Polling?
    case 1 => r.Cancelling?
    case 2 => r.Reaping?
    case 3 => r.ReapingResult?
    case 4 => r.Empty?
    case _ => false
  }

  lemma LeavingGoesOn(d: Device, n: nat, l: Label)
    requires Leaving(d.reader, n) && Enabled(d, l) && IsReaders(l) && (n == 0 ==> d.closing)
    ensures n < 4 && l == REAPS[n] && Leaving(Step(d, l).reader, n + 1)
  {
  }

  /** A read that looks while _closing is set leaves in one way only: it cancels its
      request, waits for it and collects it before it returns b''. A reopen after the
      look does not stop it. */
  lemma {:induction false} LeavingReadIsReaped(d: Device, labels: seq<Label>)
    requires d.reader.Polling? && d.closing && RunFrom(d, labels).Some?
    requires labels != [] && labels[0] == LookAtClosing
    ensures var e, own := RunFrom(d, labels).value, OwnLabels(labels);
            && own <= REAPS && Leaving(e.reader, |own|) && |own| >= 1
            && (Ended(e.reader) <==> own == REAPS)
  {
    var before, l := labels[..|labels| - 1], labels[|labels| - 1];
    if |labels| == 1 {
      assert before == [] && OwnLabels(before) == [];
    } else {
      LeavingReadIsReaped(d, before);
      var c := RunFrom(d, before).value;
      hide RunFrom, Step, Enabled, Leaving;
      if IsReaders(l) {
        LeavingGoesOn(c, |OwnLabels(before)|, l);
      } else {
        OthersLeaveTheReader(c, l);
      }
      EndedWhenLeft(RunFrom(d, labels).value.reader, |OwnLabels(labels)|);
    }
  }

  lemma EndedWhenLeft(r: Reader, n: nat)
    requires Leaving(r, n)
    ensures n <= 4 && (Ended(r) <==> n == 4)
  {
  }

  // ---------------------------------------------------------------------------
  // An abort nobody's close caused, and a reopen while the read is outstanding
  // ---------------------------------------------------------------------------

  lemma RunOne(d: Device, labels: seq<Label>, l: Label)
    requires RunFrom(d, labels).Some? && Enabled(RunFrom(d, labels).value, l)
    ensures RunFrom(d, labels + [l]) == Some(Step(RunFrom(d, labels).value, l))
  {
    assert (labels + [l])[..|labels|] == labels;
  }

  const ABORTS := [LookAtClosing, KernelCompletes(Aborted), WaitSignals, CollectFails(true)]

  lemma AbortRuns()
    ensures RunFrom(PENDED, ABORTS) == Some(PENDED.(reader := CollectFailed(true), io := Done(Aborted)))
  {
    RunOne(PENDED, [], LookAtClosing);
    RunOne(PENDED, [] + [LookAtClosing], KernelCompletes(Aborted));
    RunOne(PENDED, [] + [LookAtClosing] + [KernelCompletes(Aborted)], WaitSignals);
    RunOne(PENDED, [] + [LookAtClosing] + [KernelCompletes(Aborted)] + [WaitSignals], CollectFails(true));
    assert [] + [LookAtClosing] + [KernelCompletes(Aborted)] + [WaitSignals] + [CollectFails(true)] == ABORTS;
  }

  /** Somebody else aborts the read: it returns b'' with the device still open. */
  lemma AbortReturnsEmptyUnclosed()
    ensures var d := RunFrom(PENDED, ABORTS + [JudgeCollect]);
            d.Some? && d.value.reader == Empty && !d.value.closing && d.value.closer.NotCalled?
  {
    AbortRuns();
    RunOne(PENDED, ABORTS, JudgeCollect);
  }

  const WAITS := PENDED.(reader := Waiting)

  const CLOSES := [SetClosing, TakeHandle, CloserCancels, CloseFile, CloseEvent(true)]

  const CLOSED := WAITS.(closer := HasClosedEvent, closing := true, handleNone := true, fileOpen := false,
                         eventOpen := false)

  lemma CloseRuns()
    ensures RunFrom(WAITS, CLOSES) == Some(CLOSED)
  {
    var d1 := WAITS.(closer := HasSetClosing, closing := true);
    var d2 := d1.(closer := HasTakenHandle, handleNone := true);
    var d4 := d2.(closer := HasClosedFile, fileOpen := false);
    var l1 := [] + [SetClosing];
    var l2 := l1 + [TakeHandle];
    var l3 := l2 + [CloserCancels];
    var l4 := l3 + [CloseFile];
    RunNone(WAITS);
    hide RunFrom;
    RunsTo(WAITS, [], WAITS, SetClosing);
    RunsTo(WAITS, l1, d1, TakeHandle);
    RunsTo(WAITS, l2, d2, CloserCancels);
    RunsTo(WAITS, l3, d2.(closer := HasCancelled), CloseFile);
    RunsTo(WAITS, l4, d4, CloseEvent(true));
    assert l4 + [CloseEvent(true)] == CLOSES;
  }

  lemma RunNone(d: Device)
    ensures RunFrom(d, []) == Some(d)
  {
  }

  lemma RunsTo(d: Device, labels: seq<Label>, e: Device, l: Label)
    requires RunFrom(d, labels) == Some(e) && Enabled(e, l)
    ensures RunFrom(d, labels + [l]) == Some(Step(e, l))
  {
    RunOne(d, labels, l);
  }

  /** open clears _closing; a read still waiting on the closed handles then takes the
      close for a fault. */
  lemma ReopenMakesACloseRaise()
    ensures var d := RunFrom(WAITS, CLOSES + [Reopen(true)] + [WaitFails] + [JudgeWait]);
            d.Some? && d.value.reader == Raised && !d.value.faulted
  {
    CloseRuns();
    RunOne(WAITS, CLOSES, Reopen(true));
    RunOne(WAITS, CLOSES + [Reopen(true)], WaitFails);
    RunOne(WAITS, CLOSES + [Reopen(true)] + [WaitFails], JudgeWait);
  }

  /** If the reopened device is closed again before the failure is judged, the read
      ends quietly after all. */
  lemma SecondCloseQuietsIt()
    ensures var d := RunFrom(WAITS, CLOSES + [Reopen(true)] + [WaitFails] + [SetClosing] + [JudgeWait]);
            d.Some? && d.value.reader == Empty && d.value.reopened && !d.value.faulted
  {
    CloseRuns();
    RunOne(WAITS, CLOSES, Reopen(true));
    RunOne(WAITS, CLOSES + [Reopen(true)], WaitFails);
    RunOne(WAITS, CLOSES + [Reopen(true)] + [WaitFails], SetClosing);
    RunOne(WAITS, CLOSES + [Reopen(true)] + [WaitFails] + [SetClosing], JudgeWait);
  }

  const OPENS_AMID_CLOSE := [SetClosing, TakeHandle, Reopen(false), CloserCancels, CloseFile, CloseEvent(true)]

  lemma OpenAmidCloseRuns()
    ensures RunFrom(WAITS, OPENS_AMID_CLOSE) == Some(CLOSED.(closing := false, reopened := true))
  {
    var d1 := WAITS.(closer := HasSetClosing, closing := true);
    var d2 := d1.(closer := HasTakenHandle, handleNone := true);
    var d3 := d2.(closing := false, reopened := true);
    var d5 := d3.(closer := HasClosedFile, fileOpen := false);
    var l1 := [] + [SetClosing];
    var l2 := l1 + [TakeHandle];
    var l3 := l2 + [Reopen(false)];
    var l4 := l3 + [CloserCancels];
    var l5 := l4 + [CloseFile];
    RunNone(WAITS);
    hide RunFrom;
    RunsTo(WAITS, [], WAITS, SetClosing);
    RunsTo(WAITS, l1, d1, TakeHandle);
    RunsTo(WAITS, l2, d2, Reopen(false));
    RunsTo(WAITS, l3, d3, CloserCancels);
    RunsTo(WAITS, l4, d3.(closer := HasCancelled), CloseFile);
    RunsTo(WAITS, l5, d5, CloseEvent(true));
    assert l5 + [CloseEvent(true)] == OPENS_AMID_CLOSE;
  }

  /** The open need not succeed, nor wait for the close to end: tried while the close
      is still at work and failing on the exclusive device, it has cleared _closing. */
  lemma FailedOpenMakesACloseRaise()
    ensures var d := RunFrom(WAITS, OPENS_AMID_CLOSE + [WaitFails] + [JudgeWait]);
            d.Some? && d.value.reader == Raised && !d.value.faulted
  {
    OpenAmidCloseRuns();
    RunOne(WAITS, OPENS_AMID_CLOSE, WaitFails);
    RunOne(WAITS, OPENS_AMID_CLOSE + [WaitFails], JudgeWait);
  }
}
