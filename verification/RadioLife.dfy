/** What RadioStarted means, over whole runs with any number of opens and closes
    and PnP events arriving as late as they like.

    The reference is the history of control packets and D0 transitions alone:
    which radio was current when, and which has entered or left D0 since. */
module RadioLife {
  import opened Hci
  import opened Fdo
  import opened Driver

  type Life = seq<LifeEvent>

  /** The id the most recent control packet handed out; 0 before the first. */
  function CurrentOf(life: Life): ULong {
    if life == [] then 0
    else if life[|life| - 1].BecameCurrent? then life[|life| - 1].id
    else CurrentOf(life[..|life| - 1])
  }

  /** The radio's latest D0 transition was an entry. */
  predicate InD0(life: Life, id: ULong) {
    if life == [] then false
    else
      var e := life[|life| - 1];
      if !e.BecameCurrent? && e.id == id then e.EnteredD0? else InD0(life[..|life| - 1], id)
  }

  predicate EnteredWhileCurrent(life: Life, i: nat)
    requires i < |life|
  {
    life[i].EnteredD0? && life[i].id == CurrentOf(life[..i])
  }

  predicate LeftWhileCurrent(life: Life, i: nat)
    requires i < |life|
  {
    life[i].LeftD0? && life[i].id == CurrentOf(life[..i])
  }

  /** Some radio entered D0 while it was current, and no radio has left D0 while
      current since. */
  predicate Started(life: Life) {
    exists i :: 0 <= i < |life| && EnteredWhileCurrent(life, i) && NoneLeftSince(life, i)
  }

  predicate NoneLeftSince(life: Life, i: nat) {
    forall j :: i < j < |life| ==> !LeftWhileCurrent(life, j)
  }

  lemma StartedExtends(life: Life, e: LifeEvent)
    ensures Started(life + [e])
       <==> if e.BecameCurrent? || e.id != CurrentOf(life) then Started(life) else e.EnteredD0?
  {
    var more := life + [e];
    var n := |life|;
    assert more[..n] == life;
    forall i | 0 <= i < n ensures EnteredWhileCurrent(more, i) <==> EnteredWhileCurrent(life, i) {
      assert more[..i] == life[..i];
    }
    forall i | 0 <= i < n ensures LeftWhileCurrent(more, i) <==> LeftWhileCurrent(life, i) {
      assert more[..i] == life[..i];
    }
    if Started(more) {
      var i :| 0 <= i < |more| && EnteredWhileCurrent(more, i) && NoneLeftSince(more, i);
      if i < n {
        assert !LeftWhileCurrent(more, n);
        assert NoneLeftSince(life, i);
      }
    }
    if Started(life) && !LeftWhileCurrent(more, n) {
      var i :| 0 <= i < |life| && EnteredWhileCurrent(life, i) && NoneLeftSince(life, i);
      assert EnteredWhileCurrent(more, i) && NoneLeftSince(more, i);
    }
    if EnteredWhileCurrent(more, n) {
      assert NoneLeftSince(more, n);
    }
  }

  // ---------------------------------------------------------------------------
  // Started, the current radio in D0, and what one radio inherits from another
  // ---------------------------------------------------------------------------

  /** No id becomes current after it was heard of. */
  predicate FreshIds(life: Life) {
    forall i, j :: 0 <= j < i < |life| && life[i].BecameCurrent? ==> life[j].id != life[i].id
  }

  /** Started held when the current radio's control packet came, and that radio
      has neither entered nor left D0 since. */
  predicate Inherited(life: Life) {
    if life == [] then false
    else
      var before, e := life[..|life| - 1], life[|life| - 1];
      if e.BecameCurrent? then Started(before)
      else if e.id == CurrentOf(before) then false
      else Inherited(before)
  }

  lemma {:induction false} UnheardIsNotInD0(life: Life, id: ULong)
    requires forall j :: 0 <= j < |life| ==> life[j].id != id
    ensures !InD0(life, id)
  {
    if life != [] {
      UnheardIsNotInD0(life[..|life| - 1], id);
    }
  }

  /** Exactly: Started holds when the current radio is in D0, or when it was
      inherited from an earlier radio. */
  lemma {:induction false} StartedIsInD0OrInherited(life: Life)
    requires FreshIds(life)
    ensures Started(life) <==> InD0(life, CurrentOf(life)) || Inherited(life)
  {
    if life != [] {
      var before, e := life[..|life| - 1], life[|life| - 1];
      assert life == before + [e];
      StartedExtends(before, e);
      StartedIsInD0OrInherited(before);
      if e.BecameCurrent? {
        UnheardIsNotInD0(before, e.id);
      }
    }
  }

  /** Each control packet comes after the current radio has left D0. */
  predicate Orderly(life: Life) {
    forall i :: 0 <= i < |life| && life[i].BecameCurrent? ==> !InD0(life[..i], CurrentOf(life[..i]))
  }

  predicate Faithful(life: Life) {
    Started(life) <==> InD0(life, CurrentOf(life))
  }

  /** Started has been faithful to the current radio all along if and only if
      every control packet came after the current radio had left D0. */
  lemma FaithfulExactlyWhenOrderly(life: Life)
    requires FreshIds(life)
    ensures Orderly(life) <==> forall n :: 0 <= n <= |life| ==> Faithful(life[..n])
  {
    if Orderly(life) {
      forall n | 0 <= n <= |life| ensures Faithful(life[..n]) {
        forall i | 0 <= i < n ensures life[..n][..i] == life[..i] {}
        OrderlyIsFaithful(life[..n]);
      }
    }
    if forall n :: 0 <= n <= |life| ==> Faithful(life[..n]) {
      forall i | 0 <= i < |life| && life[i].BecameCurrent? ensures !InD0(life[..i], CurrentOf(life[..i])) {
        assert life[..i + 1] == life[..i] + [life[i]];
        StartedExtends(life[..i], life[i]);
        assert Faithful(life[..i]) && Faithful(life[..i + 1]);
        UnheardIsNotInD0(life[..i], life[i].id);
        assert life[..i + 1][..i] == life[..i];
      }
    }
  }

  lemma {:induction false} OrderlyIsFaithful(life: Life)
    requires FreshIds(life) && Orderly(life)
    ensures Faithful(life)
  {
    if life != [] {
      var before, e := life[..|life| - 1], life[|life| - 1];
      assert life == before + [e];
      forall i | 0 <= i < |before| ensures before[..i] == life[..i] {}
      StartedExtends(before, e);
      OrderlyIsFaithful(before);
      if e.BecameCurrent? {
        UnheardIsNotInD0(before, e.id);
      }
    }
  }
}
