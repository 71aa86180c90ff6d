/** The allocation-failure knob: with WvFailAllocOneIn set to N, one try in N is
    failed on purpose, counted over both allocation sites together. */
module FaultInjection {
  import opened Hci
  import opened Rendezvous
  import opened Channels
  import opened Fdo
  import opened Driver
  import opened Accounts

  /** How many of the first k tries the knob fails: those whose sequence number,
      a ULONG, is a multiple of it. */
  function FailuresOf(knob: ULong, k: nat): nat {
    if k == 0 || knob == 0 then 0
    else FailuresOf(knob, k - 1) + if Wrap(k) % knob == 0 then 1 else 0
  }

  lemma DivisionStep(k: nat, n: nat)
    requires n > 0
    ensures (k + 1) / n == k / n + if (k + 1) % n == 0 then 1 else 0
  {
    var q, r := k / n, k % n;
    assert k == q * n + r;
    if r + 1 < n {
      QuotientIs(k + 1, n, q, r + 1);
    } else {
      assert k + 1 == (q + 1) * n;
      QuotientIs(k + 1, n, q + 1, 0);
    }
  }

  lemma QuotientIs(k: nat, n: nat, q: nat, r: nat)
    requires r < n && k == q * n + r
    ensures k / n == q && k % n == r
  {
    var a, b := k / n, k % n;
    assert k == a * n + b && b < n;
    if a < q {
      AtLeastOneMore(a, q, n);
    } else if q < a {
      AtLeastOneMore(q, a, n);
    }
  }

  lemma {:induction false} AtLeastOneMore(a: nat, b: nat, n: nat)
    requires a < b
    ensures a * n + n <= b * n
  {
    assert b * n == (b - 1) * n + n;
    if a < b - 1 {
      AtLeastOneMore(a, b - 1, n);
    }
  }

  lemma {:induction false} FailuresAreQuotient(knob: ULong, k: nat)
    requires knob > 0 && k < ULONG_SIZE
    ensures FailuresOf(knob, k) == k / knob
  {
    if k > 0 {
      FailuresAreQuotient(knob, k - 1);
      assert Wrap(k) == k;
      hide Wrap;
      DivisionStep(k - 1, knob);
    } else {
      QuotientIs(0, knob, 0, 0);
    }
  }

  ghost predicate InjectionTrue(s: State) {
    && s.allocSeq == (if s.failAllocOneIn == 0 then 0 else Wrap(s.history.attempts))
    && s.history.injected == FailuresOf(s.failAllocOneIn, s.history.attempts)
  }

  lemma AttemptInjects(s: State)
    requires InjectionTrue(s)
    ensures InjectionTrue(CountAttempt(s))
  {
    WrapUp(s.history.attempts);
  }

  predicate SameInjection(s: State, t: State) {
    && t.allocSeq == s.allocSeq && t.failAllocOneIn == s.failAllocOneIn
    && t.history.attempts == s.history.attempts && t.history.injected == s.history.injected
  }

  lemma QueueingInjection(s: State, p: Packet, poolOk: bool)
    ensures var t := QueueToUser(s, p, poolOk).state; SameInjection(s, t) || SameInjection(CountAttempt(s), t)
    ensures var t := DeliverToStack(s, p, poolOk).state; SameInjection(s, t) || SameInjection(CountAttempt(s), t)
  {
  }

  lemma ApplyInjection(s: State, r: Region)
    requires InjectionTrue(s) && Allowed(s, r)
    ensures InjectionTrue(Apply(s, r)) && Apply(s, r).failAllocOneIn == s.failAllocOneIn
  {
    AttemptInjects(s);
    match r
    case QueuesToUser(p, poolOk) => QueueingInjection(s, p, poolOk);
    case DeliversToStack(p, poolOk) => QueueingInjection(s, p, poolOk);
    case Admits =>
    case _ => OtherRegionsKeepCounters(s, r);
  }

  /** Fault injection: whatever the mix of the two allocation sites, of the first
      k tries exactly k / N have been failed on purpose. */
  lemma InjectionIsOneInN(knob: ULong, labels: seq<Label>)
    requires Run(knob, labels).Some? && knob > 0
    requires Run(knob, labels).value.fdo.history.attempts < ULONG_SIZE
    ensures var h := Run(knob, labels).value.fdo.history;
            h.injected == h.attempts / knob
  {
    RunsInject(knob, labels);
    FailuresAreQuotient(knob, Run(knob, labels).value.fdo.history.attempts);
  }

  lemma {:induction false} RunsInject(knob: ULong, labels: seq<Label>)
    requires Run(knob, labels).Some?
    ensures InjectionTrue(Run(knob, labels).value.fdo) && Run(knob, labels).value.fdo.failAllocOneIn == knob
  {
    if labels != [] {
      var before := labels[..|labels| - 1];
      RunsInject(knob, before);
      var s, l := Run(knob, before).value, labels[|labels| - 1];
      StepAppliesRegion(s, l);
      ApplyInjection(s.fdo, RegionOf(s, l));
    }
  }

  /** The real pool never fails in this run. */
  predicate PoolNeverFails(labels: seq<Label>) {
    forall i :: 0 <= i < |labels| && labels[i].Go? ==> labels[i].answer.poolOk
  }

  lemma QueueingFailsByInjection(s: State, p: Packet)
    ensures AllocFailures(QueueToUser(s, p, true).state) - AllocFailures(s)
         == QueueToUser(s, p, true).state.history.injected - s.history.injected
  {
    QueueingRecords(s, p, true);
    OneMore(s, QueueToUser(s, p, true).state, QueueingOutcome(s, true));
  }

  lemma DeliveryFailsByInjection(s: State, p: Packet)
    ensures AllocFailures(DeliverToStack(s, p, true).state) - AllocFailures(s)
         == DeliverToStack(s, p, true).state.history.injected - s.history.injected
  {
    DeliveryRecords(s, p, true);
    OneMore(s, DeliverToStack(s, p, true).state, DeliveryOutcome(s, p, true));
  }

  lemma ApplyFailsByInjection(s: State, r: Region)
    requires Allowed(s, r) && AllocFailures(s) == s.history.injected
    requires r.QueuesToUser? || r.DeliversToStack? ==> r.poolOk
    ensures AllocFailures(Apply(s, r)) == Apply(s, r).history.injected
  {
    match r
    case QueuesToUser(p, _) => QueueingFailsByInjection(s, p);
    case DeliversToStack(p, _) => DeliveryFailsByInjection(s, p);
    case Admits =>
      if !Admitted(s) {
        OneMore(s, Admit(s), NoRadio);
      }
    case _ => OtherRegionsKeepCounters(s, r);
  }

  lemma {:induction false} LossesAreInjected(knob: ULong, labels: seq<Label>)
    requires Run(knob, labels).Some? && PoolNeverFails(labels)
    ensures AllocFailures(Run(knob, labels).value.fdo) == Run(knob, labels).value.fdo.history.injected
  {
    if labels != [] {
      var before := labels[..|labels| - 1];
      LossesAreInjected(knob, before);
      var s, l := Run(knob, before).value, labels[|labels| - 1];
      StepAppliesRegion(s, l);
      PoolAnswers(s, l);
      ApplyFailsByInjection(s.fdo, RegionOf(s, l));
    }
  }

  lemma PoolAnswers(s: System, l: Label)
    requires Enabled(s, l)
    ensures var r := RegionOf(s, l);
            r.QueuesToUser? || r.DeliversToStack? ==> l.Go? && r.poolOk == l.answer.poolOk
  {
  }

  /** With the real pool always answering, DropsAllocFailed is k / N after k tries. */
  lemma {:induction false} DropsAreOneInN(knob: ULong, labels: seq<Label>)
    requires Run(knob, labels).Some? && knob > 0 && PoolNeverFails(labels)
    requires Run(knob, labels).value.fdo.history.attempts < ULONG_SIZE
    ensures var s := Run(knob, labels).value.fdo;
            s.dropsAllocFailed as int == s.history.attempts / knob
  {
    InjectionIsOneInN(knob, labels);
    LossesAreInjected(knob, labels);
    RunsAccounted(knob, labels);
    DropsAreInjected(Run(knob, labels).value.fdo);
  }

  lemma DropsAreInjected(s: State)
    requires CountersTrue(s) && OutcomesTrue(s)
    requires AllocFailures(s) == s.history.injected && s.history.attempts < ULONG_SIZE
    ensures s.dropsAllocFailed as int == s.history.injected
  {
  }

  /** The next try of a run must fail: the pool has no memory, or the knob says so. */
  predicate MustFail(knob: ULong, tries: nat, poolOk: bool) {
    !poolOk || (knob != 0 && (tries + 1) % knob == 0)
  }

  /** In every run a try at memory fails exactly if the pool has none or it is one of
      the knob's. */
  lemma TriesFailExactly(knob: ULong, labels: seq<Label>, poolOk: bool)
    requires Run(knob, labels).Some?
    requires Run(knob, labels).value.fdo.history.attempts + 1 < ULONG_SIZE
    ensures var s := Run(knob, labels).value.fdo;
            AllocFails(s, poolOk) <==> MustFail(knob, s.history.attempts, poolOk)
  {
    RunsInject(knob, labels);
    InjectsExactly(Run(knob, labels).value.fdo, knob);
    hide Run, InjectFailure, InjectionTrue;
  }

  lemma InjectsExactly(s: State, knob: ULong)
    requires InjectionTrue(s) && s.failAllocOneIn == knob && s.history.attempts + 1 < ULONG_SIZE
    ensures InjectFailure(s) <==> knob != 0 && (s.history.attempts + 1) % knob == 0
  {
    SmallWraps(s.history.attempts);
    SmallWraps(s.history.attempts + 1);
    hide Wrap, FailuresOf;
    if knob != 0 {
      assert s.allocSeq + 1 == s.history.attempts + 1;
    }
  }

  lemma SmallWraps(n: nat)
    requires n < ULONG_SIZE
    ensures Wrap(n) == n
  {
  }

  /** A packet that no read waits for is put behind the others on its backlog, unless
      the try for its memory must fail; then the channel stays as it was. */
  predicate QueuedExactly(c: Channel, c': Channel, p: Packet, fails: bool) {
    if fails then c' == c
    else c'.backlog != [] && c'.backlog[..|c'.backlog| - 1] == c.backlog
         && c'.backlog[|c'.backlog| - 1].packet == p && c'.parked == c.parked
  }

  lemma AppendedLast(c: Channel, n: Node)
    ensures QueuedExactly(c, Append(c, n), n.packet, false)
  {
  }

  /** So in every run: a client's write is queued for the stack, and told so, exactly if
      it need not fail; and a packet for the client, which must have the handle open. */
  lemma PacketsAreQueuedExactly(knob: ULong, labels: seq<Label>, p: Packet, poolOk: bool)
    requires Run(knob, labels).Some?
    requires Run(knob, labels).value.fdo.history.attempts + 1 < ULONG_SIZE
    ensures var s, acl := Run(knob, labels).value.fdo, p.kind == H4_ACL;
            var fails, d := MustFail(knob, s.history.attempts, poolOk), DeliverToStack(s, p, poolOk);
            WaitingRead(StackChannel(s, acl)).None? ==>
              && d.result == Settled(if fails then InsufficientResources else Success)
              && QueuedExactly(StackChannel(s, acl), StackChannel(d.state, acl), p, fails)
    ensures var s := Run(knob, labels).value.fdo;
            var fails, h := MustFail(knob, s.history.attempts, poolOk), QueueToUser(s, p, poolOk);
            WaitingRead(s.user).None? ==>
              h.taken.None? && QueuedExactly(s.user, h.state.user, p, fails || s.owner.None?)
  {
    TriesFailExactly(knob, labels, poolOk);
    var s := Run(knob, labels).value.fdo;
    hide Run, MustFail, AllocFails, QueuedExactly;
    QueueForStackExactly(s, p, poolOk);
    QueueForUserExactly(s, p, poolOk);
  }

  lemma QueueForStackExactly(s: State, p: Packet, poolOk: bool)
    ensures var acl, d := p.kind == H4_ACL, DeliverToStack(s, p, poolOk);
            WaitingRead(StackChannel(s, acl)).None? ==>
              && d.result == Settled(if AllocFails(s, poolOk) then InsufficientResources else Success)
              && QueuedExactly(StackChannel(s, acl), StackChannel(d.state, acl), p, AllocFails(s, poolOk))
  {
    AppendedLast(StackChannel(s, p.kind == H4_ACL), Node(s.history.nextSerial, p));
    hide AllocFails, Append, WaitingRead, InjectFailure;
  }

  lemma QueueForUserExactly(s: State, p: Packet, poolOk: bool)
    ensures var h := QueueToUser(s, p, poolOk);
            WaitingRead(s.user).None? ==>
              && h.taken.None?
              && QueuedExactly(s.user, h.state.user, p, AllocFails(s, poolOk) || s.owner.None?)
  {
    AppendedLast(s.user, Node(s.history.nextSerial, p));
    hide AllocFails, Append, WaitingRead, InjectFailure;
  }
}
