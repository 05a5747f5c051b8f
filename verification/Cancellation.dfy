/**
`cancellation_state`: an intrusive singly linked list of registrations that stop callbacks
may change while `request_stop()` walks it.

A callback is user code. It is given by the calls it makes on the same cancellation state:
`script(k)` is what the k-th callback to run does, so a theorem for every `script` holds
for every behaviour of every callback.
*/
module Cancellation {

  datatype Action<T> = Register(target: T) | Unregister(target: T) | RequestStop

  // ----- The specification: which callbacks run -----

  ghost predicate Distinct<T>(list: seq<T>) {
    forall i, j :: 0 <= i < j < |list| ==> list[i] != list[j]
  }

  lemma DistinctCons<T>(x: T, list: seq<T>)
    requires Distinct(list) && x !in list
    ensures Distinct([x] + list)
  {
  }

  /** The list without `r`. */
  function Without<T(==)>(list: seq<T>, r: T): seq<T> {
    if list == [] then []
    else if list[0] == r then list[1..]
    else [list[0]] + Without(list[1..], r)
  }

  /** What a callback's calls leave on the list once stop has been requested: nothing can be added any more. */
  function Survivors<T(==)>(list: seq<T>, actions: seq<Action<T>>): seq<T>
    decreases |actions|
  {
    if actions == [] then list
    else if actions[0].Unregister? then Survivors(Without(list, actions[0].target), actions[1..])
    else Survivors(list, actions[1..])
  }

  lemma {:induction false} WithoutShape<T>(list: seq<T>, r: T)
    requires Distinct(list)
    ensures Distinct(Without(list, r)) && |Without(list, r)| <= |list|
    ensures r !in Without(list, r)
    ensures forall x :: x in Without(list, r) <==> x in list && x != r
    ensures r in list ==> multiset(list) == multiset(Without(list, r)) + multiset{r}
    ensures r !in list ==> Without(list, r) == list
  {
    if list != [] {
      var tail := list[1..];
      assert list == [list[0]] + tail;
      if list[0] == r {
        assert multiset(list) == multiset{r} + multiset(tail);
      } else {
        WithoutShape(tail, r);
        DistinctCons(list[0], Without(tail, r));
      }
    }
  }

  function RemoveAt<T>(list: seq<T>, k: nat): seq<T>
    requires k < |list|
  {
    seq(|list| - 1, i requires 0 <= i < |list| - 1 => if i < k then list[i] else list[i + 1])
  }

  lemma RemovedAt<T>(list: seq<T>, k: nat)
    requires Distinct(list) && k < |list|
    ensures Distinct(RemoveAt(list, k))
    ensures forall x :: x in RemoveAt(list, k) <==> x in list && x != list[k]
  {
    WithoutShape(list, list[k]);
    WithoutAt(list, k);
  }

  lemma {:induction false} WithoutAt<T>(list: seq<T>, k: nat)
    requires Distinct(list) && k < |list|
    ensures Without(list, list[k]) == RemoveAt(list, k)
  {
    if k == 0 {
      assert RemoveAt(list, 0) == list[1..];
    } else {
      var tail := list[1..];
      WithoutAt(tail, k - 1);
      assert tail[k - 1] == list[k] != list[0];
      assert RemoveAt(list, k) == [list[0]] + RemoveAt(tail, k - 1);
    }
  }

  lemma {:induction false} SurvivorsShape<T>(list: seq<T>, actions: seq<Action<T>>)
    requires Distinct(list)
    ensures Distinct(Survivors(list, actions)) && |Survivors(list, actions)| <= |list|
    ensures forall x :: x in Survivors(list, actions) <==> x in list && Action.Unregister(x) !in actions
    decreases |actions|
  {
    if actions != [] {
      var rest := actions[1..];
      assert actions == [actions[0]] + rest;
      if actions[0].Unregister? {
        WithoutShape(list, actions[0].target);
        SurvivorsShape(Without(list, actions[0].target), rest);
      } else {
        SurvivorsShape(list, rest);
      }
    }
  }

  lemma {:induction false} SurvivorsLength<T>(list: seq<T>, actions: seq<Action<T>>)
    ensures |Survivors(list, actions)| <= |list|
    decreases |actions|
  {
    if actions != [] {
      if actions[0].Unregister? {
        WithoutLength(list, actions[0].target);
        SurvivorsLength(Without(list, actions[0].target), actions[1..]);
      } else {
        SurvivorsLength(list, actions[1..]);
      }
    }
  }

  lemma {:induction false} WithoutLength<T>(list: seq<T>, r: T)
    ensures |Without(list, r)| <= |list|
  {
    if list != [] && list[0] != r {
      WithoutLength(list[1..], r);
    }
  }

  lemma {:induction false} SurvivorsConcat<T>(list: seq<T>, a: seq<Action<T>>, b: seq<Action<T>>)
    ensures Survivors(list, a + b) == Survivors(Survivors(list, a), b)
    decreases |a|
  {
    if a == [] {
      assert a + b == b;
    } else {
      assert (a + b)[1..] == a[1..] + b;
      SurvivorsConcat(if a[0].Unregister? then Without(list, a[0].target) else list, a[1..], b);
    }
  }

  /** The callbacks that run when stop is requested with `list` registered, from the k-th callback on. */
  function Fired<T(==)>(list: seq<T>, script: nat -> seq<Action<T>>, k: nat): seq<T>
    decreases |list|
  {
    if list == [] then []
    else
      SurvivorsLength(list[1..], script(k));
      [list[0]] + Fired(Survivors(list[1..], script(k)), script, k + 1)
  }

  /** The j-th callback to fire unregistered `x`, which had not fired by then. */
  ghost predicate WithdrawnBy<T>(list: seq<T>, script: nat -> seq<Action<T>>, k: nat, x: T, j: nat) {
    var fired := Fired(list, script, k);
    j < |fired| && Action.Unregister(x) in script(k + j) && x !in fired[..j + 1]
  }

  ghost predicate Withdrawn<T>(list: seq<T>, script: nat -> seq<Action<T>>, k: nat, x: T) {
    exists j: nat :: WithdrawnBy(list, script, k, x, j)
  }

  /**
  Exactly once or not at all: a registration live at stop fires once, unless a callback that
  fired before it unregistered it, and in that case it does not fire.
  */
  lemma {:induction false} FiresOnceUnlessUnregisteredFirst<T>(list: seq<T>, script: nat -> seq<Action<T>>, k: nat)
    requires Distinct(list)
    ensures Distinct(Fired(list, script, k))
    ensures forall x :: x in Fired(list, script, k) ==> x in list
    ensures forall x :: x in list ==> (x in Fired(list, script, k) <==> !Withdrawn(list, script, k, x))
    decreases |list|
  {
    if list != [] {
      var tail := list[1..];
      var rest := Survivors(tail, script(k));
      assert list == [list[0]] + tail;
      SurvivorsShape(tail, script(k));
      FiresOnceUnlessUnregisteredFirst(rest, script, k + 1);
      DistinctCons(list[0], Fired(rest, script, k + 1));
      forall x | x in list
        ensures x in Fired(list, script, k) <==> !Withdrawn(list, script, k, x)
      {
        FiresOrIsWithdrawn(list, script, k, x);
      }
    }
  }

  lemma FiresOrIsWithdrawn<T>(list: seq<T>, script: nat -> seq<Action<T>>, k: nat, x: T)
    requires Distinct(list) && x in list
    requires var rest := Survivors(list[1..], script(k));
             && (x in rest <==> x in list[1..] && Action.Unregister(x) !in script(k))
             && (forall y :: y in Fired(rest, script, k + 1) ==> y in rest)
             && (x in rest ==> (x in Fired(rest, script, k + 1) <==> !Withdrawn(rest, script, k + 1, x)))
    ensures x in Fired(list, script, k) <==> !Withdrawn(list, script, k, x)
  {
    var rest := Survivors(list[1..], script(k));
    var fired, later := Fired(list, script, k), Fired(rest, script, k + 1);
    assert fired == [list[0]] + later;
    if x != list[0] {
      assert x in list[1..];
      assert fired[..1] == [list[0]];
      assert WithdrawnBy(list, script, k, x, 0) <==> Action.Unregister(x) in script(k);
      forall j: nat | 0 < j
        ensures WithdrawnBy(list, script, k, x, j) <==> WithdrawnBy(rest, script, k + 1, x, j - 1)
      {
        assert k + 1 + (j - 1) == k + j;
        if j < |fired| {
          assert fired[..j + 1] == [list[0]] + later[..j];
        }
      }
      if Withdrawn(rest, script, k + 1, x) {
        var j: nat :| WithdrawnBy(rest, script, k + 1, x, j);
        assert WithdrawnBy(list, script, k, x, j + 1);
      }
    }
  }

  // ----- The intrusive list -----

  class Registration {
    var state: CancellationState?
    var next: Registration?
    var callback: nat
    var context: nat

    constructor ()
      ensures state == null
    {
      state, next, callback, context := null, null, 0, 0;
    }
  }

  class CancellationState {
    var head: Registration?
    var stopRequested: bool
    /** The nodes reachable from `head`, in list order. */
    ghost var list: seq<Registration>
    /** Every registration meant for use with this state, whether or not it has been registered yet. */
    ghost var known: set<Registration>
    /** Callbacks run so far. */
    ghost var fired: seq<Registration>

    static ghost function At(s: seq<Registration>, i: nat): Registration? {
      if i < |s| then s[i] else null
    }

    static ghost predicate Linked(s: seq<Registration>, i: nat)
      requires i < |s|
      reads s[i]
    {
      s[i].next == At(s, i + 1)
    }

    /**
    The list is a finite acyclic chain from `head` to null, and a registration's `state`
    points here exactly while it is on that chain.
    */
    ghost predicate Valid()
      reads this, known
    {
      && Distinct(list)
      && head == At(list, 0)
      && (forall r :: r in list ==> r in known)
      && (forall i :: 0 <= i < |list| ==> Linked(list, i))
      && (forall r :: r in known ==> (r.state == this <==> r in list) && (r.state == null || r.state == this))
    }

    constructor ()
      ensures Valid() && list == [] && known == {} && fired == [] && !stopRequested
    {
      head, stopRequested := null, false;
      list, known, fired := [], {}, [];
    }

    /** A caller may unregister only what it could have registered here. */
    ghost predicate Permitted(actions: seq<Action<Registration>>)
      reads this
    {
      forall a :: a in actions && a.Unregister? ==> a.target in known
    }

    /** An unused registration, for instance one in an awaiter that has not suspended. */
    ghost method Introduce(registration: Registration)
      requires Valid() && registration.state == null
      modifies this`known
      ensures Valid() && known == old(known) + {registration}
    {
      known := known + {registration};
    }

    method RegisterCallback(registration: Registration, callback: nat, context: nat) returns (registered: bool)
      requires Valid() && registration.state == null
      modifies if stopRequested then {} else {this, registration}
      ensures Valid()
      ensures registered <==> !old(stopRequested)
      ensures registered ==> list == [registration] + old(list) && known == old(known) + {registration}
      ensures registered ==> registration.callback == callback && registration.context == context
      ensures !registered ==> unchanged(this) && unchanged(registration)
      ensures stopRequested == old(stopRequested) && fired == old(fired)
    {
      if stopRequested {
        return false;
      }
      registration.state := this;
      registration.callback := callback;
      registration.context := context;
      registration.next := head;
      head := registration;
      DistinctCons(registration, list);
      ghost var after := [registration] + list;
      forall i | 0 <= i < |after|
        ensures Linked(after, i)
      {
        assert i > 0 ==> old(Linked(list, i - 1)) && after[i] in list;
      }
      list := after;
      known := known + {registration};
      registered := true;
    }

    /** The walk always finds its node: `state == this` puts it on the chain. */
    method Unregister(registration: Registration)
      requires Valid() && (registration in known || registration.state == null)
      modifies this, known
      ensures Valid() && known == old(known)
      ensures list == Without(old(list), registration) && registration !in list
      ensures registration.state == null
      ensures stopRequested == old(stopRequested) && fired == old(fired)
    {
      WithoutShape(list, registration);
      if registration.state == null {
        return;
      }
      var previous, k := FindLink(registration);
      WithoutAt(list, k);
      Unlink(registration, previous, k);
    }

    /** The walk of `unregister()`: the node whose `next` is `registration`, or null when that is `head`. */
    method FindLink(registration: Registration) returns (previous: Registration?, ghost k: nat)
      requires Valid() && registration in known && registration.state == this
      ensures k < |list| && list[k] == registration
      ensures previous == (if k == 0 then null else list[k - 1])
      ensures if previous == null then head == registration else previous in list && previous.next == registration
    {
      ghost var position: nat :| position < |list| && list[position] == registration;
      previous, k := null, 0;
      var current := head;
      while current != registration
        invariant k <= position && current == list[k]
        invariant previous == (if k == 0 then null else list[k - 1])
        decreases position - k
      {
        assert Linked(list, k);
        previous := current;
        current := current.next;
        k := k + 1;
      }
      assert k > 0 ==> Linked(list, k - 1);
    }

    method Unlink(registration: Registration, previous: Registration?, ghost k: nat)
      requires Valid() && k < |list| && list[k] == registration
      requires previous == (if k == 0 then null else list[k - 1])
      modifies this, list
      ensures Valid() && known == old(known) && stopRequested == old(stopRequested) && fired == old(fired)
      ensures list == RemoveAt(old(list), k)
      ensures registration.state == null
    {
      RemovedAt(list, k);
      ghost var after := RemoveAt(list, k);
      if previous == null {
        head := registration.next;
      } else {
        previous.next := registration.next;
      }
      Clear(registration);
      forall i | 0 <= i < |after|
        ensures Linked(after, i)
      {
        assert old(Linked(list, k));
        assert if i < k then old(Linked(list, i)) else old(Linked(list, i + 1));
        assert after[i] in after;
      }
      list := after;
    }

    static method Clear(registration: Registration)
      modifies registration
      ensures registration.state == null && registration.next == null
      ensures registration.callback == 0 && registration.context == 0
    {
      registration.state := null;
      registration.next := null;
      registration.callback := 0;
      registration.context := 0;
    }

    /**
    One callback's calls, made while `request_stop()` is walking the list: registering is
    refused, and a nested `request_stop()` returns at once.
    */
    method RunCallback(actions: seq<Action<Registration>>)
      requires Valid() && stopRequested
      requires Permitted(actions)
      modifies this, known
      ensures Valid() && stopRequested && known == old(known) && fired == old(fired)
      ensures list == Survivors(old(list), actions)
    {
      for i := 0 to |actions|
        invariant Valid() && stopRequested && known == old(known) && fired == old(fired)
        invariant list == Survivors(old(list), actions[..i])
      {
        SurvivorsConcat(old(list), actions[..i], [actions[i]]);
        assert actions[..i + 1] == actions[..i] + [actions[i]];
        assert actions[i] in actions;
        match actions[i]
        case Register(target) =>
          if target.state == null {
            var refused := RegisterCallback(target, 0, 0);
          }
        case Unregister(target) =>
          Unregister(target);
        case RequestStop =>
      }
      assert actions[..|actions|] == actions;
    }

    /**
    Terminates whatever the callbacks do, and leaves an empty list. The callbacks that ran
    are the ones `Fired` names, in list order.
    */
    method RequestStop(script: nat -> seq<Action<Registration>>)
      requires Valid()
      requires forall k: nat :: Permitted(script(k))
      modifies this, known
      ensures Valid() && stopRequested && known == old(known)
      ensures old(stopRequested) ==> list == old(list) && fired == old(fired)
      ensures !old(stopRequested) ==>
                list == [] && head == null && fired == old(fired) + Fired(old(list), script, 0)
      ensures !old(stopRequested) ==> forall r :: r in known ==> r.state == null
    {
      if stopRequested {
        return;
      }
      stopRequested := true;
      Walk(script);
    }

    method Walk(script: nat -> seq<Action<Registration>>)
      requires Valid() && stopRequested
      requires forall k: nat :: Permitted(script(k))
      modifies this, known
      ensures Valid() && stopRequested && known == old(known)
      ensures list == [] && fired == old(fired) + Fired(old(list), script, 0)
    {
      var k := 0;
      ghost var all := Fired(list, script, 0);
      while head != null
        invariant Valid() && stopRequested && known == old(known)
        invariant k <= |all| && fired == old(fired) + all[..k] && all[k..] == Fired(list, script, k)
        decreases |list|
      {
        ghost var remaining := list;
        FireHead(script(k));
        assert all[k..] == [remaining[0]] + Fired(list, script, k + 1);
        assert all[k + 1..] == all[k..][1..];
        k := k + 1;
      }
      assert list == [];
    }

    /** One iteration of the walk: the node is unlinked and cleared before its callback runs. */
    method FireHead(actions: seq<Action<Registration>>)
      requires Valid() && stopRequested && list != []
      requires Permitted(actions)
      modifies this, known
      ensures Valid() && stopRequested && known == old(known)
      ensures fired == old(fired) + [old(list)[0]] && list == Survivors(old(list)[1..], actions)
      ensures |list| < |old(list)|
    {
      SurvivorsLength(list[1..], actions);
      var registration := head;
      var callback, context := TakeHead();
      fired := fired + [registration];
      RunCallback(actions);
    }

    /** Unlinks and clears the first node, whose callback and context are kept aside for the call. */
    method TakeHead() returns (callback: nat, context: nat)
      requires Valid() && list != []
      modifies this, known
      ensures Valid() && known == old(known) && stopRequested == old(stopRequested) && fired == old(fired)
      ensures list == old(list)[1..]
      ensures callback == old(head.callback) && context == old(head.context)
      ensures old(head).state == null
    {
      var registration := head;
      assert Linked(list, 0);
      head := registration.next;
      callback, context := registration.callback, registration.context;
      Clear(registration);
      ghost var after := list[1..];
      forall i | 0 <= i < |after|
        ensures Linked(after, i)
      {
        assert old(Linked(list, i + 1)) && after[i] == list[i + 1] != list[0];
      }
      list := after;
    }
  }
}
