// ExecutorSettlementToken: a one-shot completion signal with callbacks.
module SettlementTokens {

  datatype Callback = Wake(waiter: nat) | Other(tag: nat)

  // `firing` are callbacks taken off a settled token but not yet called,
  // `fired` the calls made, `registered` everything ever added.
  datatype Token = Token(
    settled: bool,
    settles: nat,
    waiting: seq<Callback>,
    firing: seq<Callback>,
    fired: seq<Callback>,
    registered: multiset<Callback>)

  const FRESH := Token(false, 0, [], [], [], multiset{})

  function Add(t: Token, cb: Callback): Token {
    if t.settled then t.(fired := t.fired + [cb], registered := t.registered + multiset{cb})
    else t.(waiting := t.waiting + [cb], registered := t.registered + multiset{cb})
  }

  function Settle(t: Token): Token {
    if t.settled then t
    else t.(settled := true, settles := t.settles + 1, waiting := [], firing := t.firing + t.waiting)
  }

  function Fire(t: Token): Token
    requires t.firing != []
  {
    t.(firing := t.firing[1..], fired := t.fired + [t.firing[0]])
  }

  // Callbacks wait exactly until the token settles, which happens once.
  ghost predicate Orderly(t: Token) {
    && t.settles == (if t.settled then 1 else 0)
    && (t.settled ==> t.waiting == [])
    && (!t.settled ==> t.firing == [] && t.fired == [])
  }

  // Every registration is waiting, about to be called, or called: never lost, never doubled.
  ghost predicate Conserved(t: Token) {
    multiset(t.waiting) + multiset(t.firing) + multiset(t.fired) == t.registered
  }

  lemma {:induction false} AddConserved(t: Token, cb: Callback)
    requires Conserved(t)
    ensures Conserved(Add(t, cb))
  {}

  lemma {:induction false} SettleConserved(t: Token)
    requires Conserved(t) && Orderly(t)
    ensures Conserved(Settle(t))
  {
    assert t.firing + t.waiting == t.waiting || t.settled;
  }

  lemma {:induction false} FireConserved(t: Token)
    requires Conserved(t) && t.firing != []
    ensures Conserved(Fire(t))
  {
    assert t.firing == [t.firing[0]] + t.firing[1..];
  }

  function FireAll(t: Token): Token
    decreases |t.firing|
  {
    if t.firing == [] then t else FireAll(Fire(t))
  }

  lemma {:induction false} FireAllDrains(t: Token)
    ensures FireAll(t) == t.(firing := [], fired := t.fired + t.firing)
    decreases |t.firing|
  {
    if t.firing == [] {
      assert t.fired + t.firing == t.fired;
    } else {
      FireAllDrains(Fire(t));
      assert Fire(t).fired + Fire(t).firing == t.fired + t.firing;
    }
  }

  class ExecutorSettlementToken {
    var settled: bool
    var callbacks: seq<Callback>
    ghost var settles: nat
    ghost var called: seq<Callback>
    ghost var registered: multiset<Callback>

    ghost function View(): Token
      reads this
    {
      Token(settled, settles, callbacks, [], called, registered)
    }

    constructor ()
      ensures View() == FRESH
    {
      settled, callbacks := false, [];
      settles, called, registered := 0, [], multiset{};
    }

    method AddDoneCallback(callback: Callback)
      modifies this
      ensures View() == Add(old(View()), callback)
      ensures settled == old(settled) && registered == old(registered) + multiset{callback}
      ensures old(settled) ==> called == old(called) + [callback] && callbacks == old(callbacks)
      ensures !old(settled) ==> callbacks == old(callbacks) + [callback] && called == old(called)
    {
      var callNow := false;
      if settled {
        callNow := true;
      } else {
        callbacks := callbacks + [callback];
      }
      registered := registered + multiset{callback};
      if callNow {
        called := called + [callback];
      }
    }

    // Runs to the end of the callback loop when no other thread interferes.
    method SettleNow()
      modifies this
      ensures View() == FireAll(Settle(old(View())))
      ensures settled && registered == old(registered)
      ensures old(settled) ==> callbacks == old(callbacks) && called == old(called)
      ensures !old(settled) ==> callbacks == [] && called == old(called) + old(callbacks)
    {
      FireAllDrains(Settle(View()));
      if settled {
        assert called + [] == called;
        return;
      }
      settled := true;
      settles := settles + 1;
      var taken := callbacks;
      callbacks := [];
      for k := 0 to |taken|
        invariant settled && callbacks == [] && settles == old(settles) + 1 && registered == old(registered)
        invariant called == old(called) + taken[..k]
      {
        assert taken[..k + 1] == taken[..k] + [taken[k]];
        called := called + [taken[k]];
      }
      assert taken[..|taken|] == taken;
    }
  }
}
