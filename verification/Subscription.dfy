/**
Callback loans: `persistent_callback_slot` under the read trampolines of the raw stream and UDP
handles. An allocator callback checks a subscription out of its slot and keeps it paired with
the buffer it produced until the read callback for that buffer; the generation tag decides
whether the subscription goes back into the slot.

Native callbacks of one handle do not nest, so a callback is one event carrying the calls that
the user's allocator or reader makes on the handle while it runs.
*/
module Subscription {

  import opened Options

  /** A subscription, by the serial number of the call that installed it. */
  type Id = nat

  datatype Slot = Slot(callback: Option<Id>, generation: nat)

  datatype Delivery = Delivery(callback: Option<Id>, generation: nat)

  const NoDelivery := Delivery(None, 0)

  /** A read callback was given to `reader`; `loan` names the subscription whose allocator produced its buffer. */
  datatype Delivered = Delivered(loan: Option<Id>, reader: Id, current: Option<Id>)

  datatype State = State(
    udp: bool,
    slot: Slot,
    pending: Delivery,
    reading: bool,
    listening: bool,
    closing: bool,
    closed: bool,
    // libuv: the subscription whose allocator produced the buffer libuv holds now
    loan: Option<Id>,
    // the subscription installed last and not retired since
    current: Option<Id>,
    // history
    installed: nat,
    deliveries: seq<Delivered>)

  /** `stops`, `starts` and `listens` are whether libuv accepts the call; `active` is whether the handle is. */
  datatype Action =
    | Start(stops: bool, starts: bool)
    | Stop(stops: bool)
    | Listen(listens: bool, active: bool)
    | Close

  datatype Event =
    | User(action: Action)
    | AllocCallback(during: seq<Action>)
    | ReadCallback(failed: bool, chunk: bool, during: seq<Action>)
    | ListenLost
    | CloseCallback

  function Init(udp: bool): State {
    State(udp, Slot(None, 0), NoDelivery, false, false, false, false, None, None, 0, [])
  }

  // ----- The slot -----

  function Replace(slot: Slot, callback: Option<Id>): Slot {
    Slot(callback, slot.generation + 1)
  }

  function Emptied(slot: Slot): Slot {
    Slot(None, slot.generation)
  }

  function Restore(slot: Slot, d: Delivery): Slot {
    if slot.generation == d.generation then Slot(d.callback, slot.generation) else slot
  }

  // ----- The handle -----

  function Retire(s: State): State {
    s.(reading := false, slot := Replace(s.slot, None), current := None)
  }

  function Install(s: State): State {
    s.(slot := Replace(s.slot, Some(s.installed)), reading := true, current := Some(s.installed),
       installed := s.installed + 1)
  }

  /**
  A raw stream publishes the new subscription before `uv_read_start` and takes it back when the
  start is rejected; a UDP handle publishes it only after a successful start.
  */
  function Act(s: State, a: Action): State {
    if s.closing then s else
    match a
    case Start(stops, starts) =>
      if s.listening || (s.reading && !stops) then s
      else
        var t := if s.reading then Retire(s) else s;
        if starts then Install(t)
        else if s.udp then t
        else Retire(Install(t))
    case Stop(stops) => if stops then Retire(s) else s
    case Listen(listens, active) =>
      if s.udp then s else s.(listening := if listens then true else s.listening && active)
    case Close => Retire(s).(listening := false, closing := true)
  }

  function ActAll(s: State, actions: seq<Action>): State {
    if actions == [] then s else Act(ActAll(s, actions[..|actions| - 1]), actions[|actions| - 1])
  }

  /** Chunks belong to a UDP buffer that an allocator produced. */
  predicate Enabled(s: State, e: Event) {
    match e
    case User(_) => true
    case AllocCallback(_) => !s.closed
    case ReadCallback(_, chunk, _) => !s.closed && (chunk ==> s.udp && s.loan.Some?)
    case ListenLost => s.listening
    case CloseCallback => s.closing && !s.closed
  }

  function AllocStep(s: State, during: seq<Action>): State {
    var restored := Restore(s.slot, s.pending);
    var d := Delivery(restored.callback, restored.generation);
    var t := s.(slot := Emptied(restored), pending := NoDelivery);
    var u := if d.callback.Some? then ActAll(t, during) else t;
    u.(pending := d, loan := d.callback)
  }

  /** The subscription a read callback is for: the one that lent its buffer, or else the one in the slot. */
  function LoanOf(s: State): Delivery {
    if s.pending.callback.Some? then s.pending else Delivery(s.slot.callback, s.slot.generation)
  }

  function TakeLoan(s: State): State {
    s.(pending := NoDelivery, slot := if s.pending.callback.Some? then s.slot else Emptied(s.slot))
  }

  /** After the reader: a chunk keeps the loan, anything else ends it. */
  function ReturnLoan(s: State, d: Delivery, chunk: bool): State {
    if chunk then s.(pending := d) else s.(slot := Restore(s.slot, d), loan := None)
  }

  function ReadStep(s: State, failed: bool, chunk: bool, during: seq<Action>): State {
    var d, t := LoanOf(s), TakeLoan(s);
    var u := if failed then Retire(t) else t;
    var v := if d.callback.Some?
             then ActAll(u.(deliveries := u.deliveries + [Delivered(s.loan, d.callback.value, s.current)]), during)
             else u;
    ReturnLoan(v, d, chunk)
  }

  function Step(s: State, e: Event): State {
    if !Enabled(s, e) then s else
    match e
    case User(a) => Act(s, a)
    case AllocCallback(during) => AllocStep(s, during)
    case ReadCallback(failed, chunk, during) => ReadStep(s, failed, chunk, during)
    case ListenLost => s.(listening := false)
    case CloseCallback => s.(pending := NoDelivery, closed := true, loan := None)
  }

  function Run(s: State, es: seq<Event>): State {
    if es == [] then s else Step(Run(s, es[..|es| - 1]), es[|es| - 1])
  }

  // ----- The invariant -----

  /**
  With `d` checked out, the current subscription is in the slot or in `d` under the slot's own
  generation, and nothing else ever is: a delivery of the slot's generation is the current
  subscription, and any other delivery is of an older one.
  */
  predicate Paired(s: State, d: Delivery) {
    && d.generation <= s.slot.generation
    && (s.slot.callback.Some? ==> s.slot.callback == s.current)
    && (d.generation == s.slot.generation ==> s.slot.callback == None && d.callback == s.current)
    && (d.generation != s.slot.generation ==> s.slot.callback == s.current)
  }

  predicate HandleInv(s: State) {
    && (s.slot.generation == 0 ==> s.current == None)
    && (s.reading <==> s.current.Some?)
    && (s.closing ==> s.current == None)
    && (s.current.Some? ==> s.current.value < s.installed)
    && (s.closed ==> s.closing)
    && (forall i :: 0 <= i < |s.deliveries| ==>
          if s.deliveries[i].loan.Some? then Some(s.deliveries[i].reader) == s.deliveries[i].loan
          else Some(s.deliveries[i].reader) == s.deliveries[i].current)
  }

  /** Between callbacks the delivery that is checked out, if any, is the pending one. */
  predicate Inv(s: State) {
    && HandleInv(s)
    && Paired(s, s.pending)
    && s.pending.callback == s.loan
  }

  lemma ActKeepsPairing(s: State, a: Action, d: Delivery)
    requires HandleInv(s) && Paired(s, d)
    ensures HandleInv(Act(s, a)) && Paired(Act(s, a), d)
    ensures var t := Act(s, a); t.pending == s.pending && t.loan == s.loan && t.closed == s.closed
    ensures Act(s, a).deliveries == s.deliveries && Act(s, a).udp == s.udp
  {
  }

  lemma {:induction false} ActAllKeepsPairing(s: State, actions: seq<Action>, d: Delivery)
    requires HandleInv(s) && Paired(s, d)
    ensures HandleInv(ActAll(s, actions)) && Paired(ActAll(s, actions), d)
    ensures var t := ActAll(s, actions); t.pending == s.pending && t.loan == s.loan && t.closed == s.closed
    ensures ActAll(s, actions).deliveries == s.deliveries && ActAll(s, actions).udp == s.udp
  {
    if actions != [] {
      ActAllKeepsPairing(s, actions[..|actions| - 1], d);
      ActKeepsPairing(ActAll(s, actions[..|actions| - 1]), actions[|actions| - 1], d);
    }
  }

  lemma AllocKeepsInv(s: State, during: seq<Action>)
    requires Inv(s)
    ensures Inv(AllocStep(s, during))
  {
    var restored := Restore(s.slot, s.pending);
    assert restored.callback == s.current;
    var d := Delivery(restored.callback, restored.generation);
    var t := s.(slot := Emptied(restored), pending := NoDelivery);
    ActAllKeepsPairing(t, during, d);
  }

  lemma ReadKeepsInv(s: State, failed: bool, chunk: bool, during: seq<Action>)
    requires Inv(s) && Enabled(s, ReadCallback(failed, chunk, during))
    ensures Inv(ReadStep(s, failed, chunk, during))
  {
    var d := if s.pending.callback.Some? then s.pending else Delivery(s.slot.callback, s.slot.generation);
    var t := s.(pending := NoDelivery, slot := if s.pending.callback.Some? then s.slot else Emptied(s.slot));
    assert Paired(t, d);
    assert d.callback.Some? && s.loan == None ==> d.callback == s.current;
    var u := if failed then Retire(t) else t;
    if d.callback.Some? {
      var w := u.(deliveries := u.deliveries + [Delivered(s.loan, d.callback.value, s.current)]);
      assert Paired(w, d) && HandleInv(w);
      ActAllKeepsPairing(w, during, d);
    }
  }

  lemma StepKeepsInv(s: State, e: Event)
    requires Inv(s)
    ensures Inv(Step(s, e))
  {
    if Enabled(s, e) {
      match e
      case User(a) => ActKeepsPairing(s, a, s.pending);
      case AllocCallback(during) => AllocKeepsInv(s, during);
      case ReadCallback(failed, chunk, during) => ReadKeepsInv(s, failed, chunk, during);
      case ListenLost =>
      case CloseCallback =>
    }
  }

  lemma {:induction false} RunKeepsInv(udp: bool, es: seq<Event>)
    ensures Inv(Run(Init(udp), es))
  {
    if es != [] {
      RunKeepsInv(udp, es[..|es| - 1]);
      StepKeepsInv(Run(Init(udp), es[..|es| - 1]), es[|es| - 1]);
    }
  }

  // ----- Theorems over every run -----

  /**
  Each buffer an allocator produced goes to the reader of the same subscription, however the
  handle was restarted, stopped or closed in between and however many chunks the buffer held.
  A read callback without such a buffer goes to the subscription that is current.
  */
  lemma {:induction false} BuffersGoToTheirOwnReader(udp: bool, es: seq<Event>)
    ensures var s := Run(Init(udp), es);
            && (forall i :: 0 <= i < |s.deliveries| ==>
                  Some(s.deliveries[i].reader) ==
                  (if s.deliveries[i].loan.Some? then s.deliveries[i].loan else s.deliveries[i].current))
            && (s.loan.Some? ==> s.pending.callback == s.loan)
  {
    RunKeepsInv(udp, es);
  }

  /** The read callback for a buffer that libuv holds is never dropped. */
  lemma {:induction false} LoanedBufferIsDelivered(udp: bool, es: seq<Event>, failed: bool, chunk: bool,
                                                   during: seq<Action>)
    requires Enabled(Run(Init(udp), es), ReadCallback(failed, chunk, during))
    requires Run(Init(udp), es).loan.Some?
    ensures var s := Run(Init(udp), es);
            var t := Step(s, ReadCallback(failed, chunk, during));
            t.deliveries == s.deliveries + [Delivered(s.loan, s.loan.value, s.current)]
            && (chunk ==> t.loan == s.loan && t.pending == s.pending)
  {
    RunKeepsInv(udp, es);
    var s := Run(Init(udp), es);
    var u := if failed then Retire(s.(pending := NoDelivery)) else s.(pending := NoDelivery);
    var w := u.(deliveries := u.deliveries + [Delivered(s.loan, s.loan.value, s.current)]);
    assert Paired(w, s.pending) && HandleInv(w) by { ReadKeepsInv(s, failed, chunk, during); }
    ActAllKeepsPairing(w, during, s.pending);
  }

  /**
  A retired subscription is never put back, and the current one is never lost: it is in the
  slot, or checked out under the slot's own generation and so certain to be restored.
  */
  lemma {:induction false} SlotHoldsOnlyTheCurrentSubscription(udp: bool, es: seq<Event>)
    ensures var s := Run(Init(udp), es);
            && (s.slot.callback.Some? ==> s.slot.callback == s.current)
            && (s.current.Some? && s.slot.callback == None ==>
                  s.pending == Delivery(s.current, s.slot.generation)
                  && Restore(s.slot, s.pending).callback == s.current)
            && (s.pending.callback.Some? && s.pending.callback != s.current ==>
                  Restore(s.slot, s.pending) == s.slot)
            && (s.reading <==> s.current.Some?)
  {
    RunKeepsInv(udp, es);
  }

  /**
  In every run, what a call on the handle makes of the current subscription. A start that is not
  turned away replaces it, also by nothing when libuv refuses to start; a stop that libuv accepts
  and a close end it; nothing changes it on a closing handle.
  */
  lemma {:induction false} CallsDecideTheSubscription(udp: bool, es: seq<Event>, a: Action)
    ensures var s := Run(Init(udp), es);
            var t := Step(s, User(a));
            && (s.closing ==> t == s)
            && (!s.closing ==>
                  && (t.closing <==> a.Close?)
                  && match a
                     case Start(stops, starts) =>
                       && t.listening == s.listening
                       && t.current == (if s.listening || (s.current.Some? && !stops) then s.current
                                        else if starts then Some(s.installed) else None)
                     case Stop(stops) => t.listening == s.listening && t.current == (if stops then None else s.current)
                     case Listen(listens, active) =>
                       t.current == s.current && (t.listening <==> !s.udp && (listens || (s.listening && active)))
                     case Close => t.current == None && !t.listening)
            && (t.current.Some? && t.current != s.current ==> t.slot.callback == t.current)
  {
    RunKeepsInv(udp, es);
    NoUdpListens(udp, es);
    StepKeepsInv(Run(Init(udp), es), User(a));
  }

  lemma {:induction false} NoUdpListens(udp: bool, es: seq<Event>)
    ensures var s := Run(Init(udp), es); s.udp == udp && (s.udp ==> !s.listening)
  {
    if es != [] {
      NoUdpListens(udp, es[..|es| - 1]);
      RunKeepsInv(udp, es[..|es| - 1]);
      StepKeepsUdp(Run(Init(udp), es[..|es| - 1]), es[|es| - 1]);
    }
  }

  lemma {:induction false} ActAllKeepsUdp(s: State, actions: seq<Action>)
    requires s.udp ==> !s.listening
    ensures ActAll(s, actions).udp == s.udp && (s.udp ==> !ActAll(s, actions).listening)
  {
    if actions != [] {
      ActAllKeepsUdp(s, actions[..|actions| - 1]);
    }
  }

  lemma StepKeepsUdp(s: State, e: Event)
    requires s.udp ==> !s.listening
    ensures Step(s, e).udp == s.udp && (s.udp ==> !Step(s, e).listening)
  {
    if Enabled(s, e) {
      match e
      case AllocCallback(during) =>
        var restored := Restore(s.slot, s.pending);
        ActAllKeepsUdp(s.(slot := Emptied(restored), pending := NoDelivery), during);
      case ReadCallback(failed, chunk, during) =>
        var d, t := LoanOf(s), TakeLoan(s);
        var u := if failed then Retire(t) else t;
        if d.callback.Some? {
          ActAllKeepsUdp(u.(deliveries := u.deliveries + [Delivered(s.loan, d.callback.value, s.current)]), during);
        }
      case _ =>
    }
  }

  // ----- The objects -----

  /** `persistent_callback_slot`. */
  class CallbackSlot {
    var callback: Option<Id>
    var generation: nat

    ghost function Model(): Slot
      reads this
    {
      Slot(callback, generation)
    }

    constructor ()
      ensures Model() == Slot(None, 0)
    {
      callback, generation := None, 0;
    }

    method ReplaceWith(next: Option<Id>)
      modifies this
      ensures Model() == Replace(old(Model()), next)
    {
      callback := next;
      generation := generation + 1;
    }

    /** Empties the slot for good: nothing checked out earlier can come back. */
    method Take() returns (taken: Option<Id>)
      modifies this
      ensures taken == old(callback) && Model() == Replace(old(Model()), None)
    {
      taken := callback;
      callback := None;
      generation := generation + 1;
    }

    method Checkout() returns (d: Delivery)
      modifies this
      ensures d == Delivery(old(callback), generation) && Model() == Emptied(old(Model()))
    {
      d := Delivery(callback, generation);
      callback := None;
    }

    method RestoreFrom(d: Delivery)
      modifies this
      ensures Model() == Restore(old(Model()), d)
    {
      if generation == d.generation {
        callback := d.callback;
      }
    }

    /**
    `invoke()`: the callback runs outside the slot, so that it may replace the slot it was
    taken from, even with nothing; its replacements win over putting it back.
    */
    method Invoke(replacements: seq<Option<Id>>) returns (invoked: Option<Id>)
      modifies this
      ensures invoked == old(callback)
      ensures invoked == None || replacements == [] ==> Model() == old(Model())
      ensures invoked.Some? && replacements != [] ==>
                callback == replacements[|replacements| - 1] && generation == old(generation) + |replacements|
    {
      var before := generation;
      invoked := callback;
      callback := None;
      if invoked == None {
        return;
      }
      for i := 0 to |replacements|
        invariant generation == old(generation) + i
        invariant callback == (if i == 0 then None else replacements[i - 1])
      {
        ReplaceWith(replacements[i]);
      }
      if generation == before {
        callback := invoked;
      }
    }
  }

  /** The reading side of `raw::stream` and `raw::udp`. */
  class Handle {
    const udp: bool
    const slot: CallbackSlot
    var pending: Delivery
    var reading: bool
    var listening: bool
    var closing: bool
    var installed: nat
    ghost var m: State

    ghost predicate Fields()
      reads this, slot
    {
      && m.udp == udp && m.slot == slot.Model() && m.pending == pending && m.reading == reading
      && m.listening == listening && m.closing == closing && m.installed == installed
    }

    ghost predicate Valid()
      reads this, slot
    {
      Fields() && Inv(m)
    }

    constructor (udp: bool)
      ensures Valid() && m == Init(udp) && fresh(slot)
    {
      this.udp := udp;
      slot := new CallbackSlot();
      pending, reading, listening, closing, installed := NoDelivery, false, false, false, 0;
      m := Init(udp);
    }

    method RetireSubscription()
      requires Fields()
      modifies this, slot
      ensures Fields() && m == Retire(old(m))
    {
      reading := false;
      slot.ReplaceWith(None);
      m := Retire(m);
    }

    method InstallSubscription()
      requires Fields()
      modifies this, slot
      ensures Fields() && m == Install(old(m))
    {
      slot.ReplaceWith(Some(installed));
      installed := installed + 1;
      reading := true;
      m := Install(m);
    }

    /** `start_read` and `start_receive`; `stops` and `starts` are libuv's answers. */
    method StartReading(stops: bool, starts: bool) returns (ok: bool)
      requires Fields()
      modifies this, slot
      ensures Fields() && m == Act(old(m), Start(stops, starts))
      ensures ok <==> !closing && !listening && (old(reading) ==> stops) && starts
      ensures reading <==> ok || (old(reading) && (closing || listening || !stops))
      ensures ok ==> slot.callback == Some(old(installed))
      ensures closing == old(closing) && listening == old(listening) && pending == old(pending)
    {
      if closing || listening {
        return false;
      }
      if reading {
        if !stops {
          return false;
        }
        RetireSubscription();
      }
      if udp {
        if starts {
          InstallSubscription();
        }
      } else {
        InstallSubscription();
        var generation := slot.generation;
        if !starts && slot.generation == generation {
          RetireSubscription();
        }
      }
      ok := starts;
    }

    method Call(a: Action)
      requires Fields()
      modifies this, slot
      ensures Fields() && m == Act(old(m), a)
      ensures closing <==> old(closing) || a.Close?
      ensures !old(closing) && (a.Close? || (a.Stop? && a.stops)) ==> !reading && slot.callback == None
      ensures !old(closing) && a.Close? ==> !listening
      ensures !old(closing) && a.Listen? && !udp ==> (listening <==> a.listens || (old(listening) && a.active))
      ensures !a.Close? && (!a.Listen? || udp || old(closing)) ==> listening == old(listening)
    {
      match a
      case Start(stops, starts) =>
        var ok := StartReading(stops, starts);
      case Stop(stops) =>
        if !closing && stops {
          RetireSubscription();
        }
      case Close =>
        if !closing {
          RetireSubscription();
          listening, closing := false, true;
          m := m.(listening := false, closing := true);
        }
      case Listen(listens, active) =>
        if !closing && !udp {
          listening := listens || (listening && active);
          m := m.(listening := listening);
        }
    }

    /** `connection_trampoline` of a listen that libuv has given up. */
    method LoseListen()
      requires Valid() && listening
      modifies this, slot
      ensures Valid() && m == Step(old(m), ListenLost) && !listening
    {
      StepKeepsInv(m, ListenLost);
      m := Step(m, ListenLost);
      listening := false;
    }

    /** The handle's close callback: a loan that is still out ends with it. */
    method CloseCompleted()
      requires Valid() && Enabled(m, CloseCallback)
      modifies this
      ensures Valid() && m == Step(old(m), CloseCallback)
      ensures pending == NoDelivery && m.closed && m.loan == None
    {
      StepKeepsInv(m, CloseCallback);
      m := Step(m, CloseCallback);
      pending := NoDelivery;
    }

    /** The calls that a user callback makes on the handle. */
    method Calls(actions: seq<Action>)
      requires Fields()
      modifies this, slot
      ensures Fields() && m == ActAll(old(m), actions)
    {
      for i := 0 to |actions|
        invariant Fields() && m == ActAll(old(m), actions[..i])
      {
        assert actions[..i + 1][..i] == actions[..i];
        Call(actions[i]);
      }
      assert actions[..|actions|] == actions;
    }

    /** `alloc_trampoline`: the subscription whose allocator produced the buffer, if any. */
    method AllocTrampoline(during: seq<Action>) returns (allocator: Option<Id>)
      requires Valid() && Enabled(m, AllocCallback(during))
      modifies this, slot
      ensures Valid() && m == Step(old(m), AllocCallback(during))
      ensures allocator == m.loan == old(m.current)
    {
      AllocKeepsInv(m, during);
      slot.RestoreFrom(pending);
      pending := NoDelivery;
      var d := slot.Checkout();
      m := m.(slot := slot.Model(), pending := NoDelivery);
      if d.callback.Some? {
        Calls(during);
      }
      pending := d;
      m := m.(pending := d, loan := d.callback);
      allocator := d.callback;
    }

    /** `read_trampoline` and `receive_trampoline`: the subscription whose reader was called, if any. */
    method ReadTrampoline(failed: bool, chunk: bool, during: seq<Action>) returns (reader: Option<Id>)
      requires Valid() && Enabled(m, ReadCallback(failed, chunk, during))
      modifies this, slot
      ensures Valid() && m == Step(old(m), ReadCallback(failed, chunk, during))
      ensures reader == (if old(m.loan).Some? then old(m.loan) else old(m.current))
    {
      ReadKeepsInv(m, failed, chunk, during);
      var d := Borrow();
      reader := d.callback;
      if failed {
        RetireSubscription();
      }
      if reader.Some? {
        m := m.(deliveries := m.deliveries + [Delivered(old(m.loan), reader.value, old(m.current))]);
        Calls(during);
      }
      GiveBack(d, chunk);
    }

    method Borrow() returns (d: Delivery)
      requires Fields()
      modifies this, slot
      ensures Fields() && m == TakeLoan(old(m)) && d == LoanOf(old(m))
    {
      d := pending;
      pending := NoDelivery;
      if d.callback == None {
        d := slot.Checkout();
      }
      m := TakeLoan(m);
    }

    method GiveBack(d: Delivery, chunk: bool)
      requires Fields()
      modifies this, slot
      ensures Fields() && m == ReturnLoan(old(m), d, chunk)
    {
      if chunk {
        pending := d;
      } else {
        slot.RestoreFrom(d);
      }
      m := ReturnLoan(m, d, chunk);
    }
  }
}
