/**
`pipe_connection::receive_handle`: one operation that collects stream bytes into the caller's
buffer until a notification exposes pending TCP handles, then adopts all of them into owners,
or fails and gives every handle back.

A notification carries the bytes that libuv stored in the slice it was offered, and what
libuv answers each time round the adoption loop.
*/
module ReceiveHandle {

  import opened Options

  type Byte = nat
  type Handle = nat

  const UV_ENOBUFS := -105
  const UV_EPROTO := -71
  const UV_ENOMEM := -12
  const UV_ECANCELED := -125

  /** The state allocated for the next handle: not initialised yet, or initialised and not accepted. */
  datatype Incoming = Absent | Prepared | Initialised(handle: Handle)

  /** libuv's and the allocator's answers in one turn of the adoption loop. */
  datatype Probe =
    | NonePending
    | CountFailed(error: nat)
    | ForeignType
    | PendingTcp(count: nat, reserves: bool, allocates: bool, initStatus: int, acceptStatus: int)

  /** `ClosingChild` waits for the close of a handle that was initialised but not accepted. */
  datatype Phase = Reading | ClosingChild | Resumed

  datatype State = State(
    buffer: seq<Byte>,
    bytesTransferred: nat,
    incoming: Incoming,
    received: seq<Handle>,
    receivedCapacity: nat,
    status: int,
    closePipe: bool,
    phase: Phase,
    // history
    next: Handle,
    stream: seq<Byte>,
    initialised: seq<Handle>,
    closed: seq<Handle>,
    resumes: nat,
    pipeCloses: nat)

  datatype Event =
    | Notify(data: seq<Byte>, probes: seq<Probe>)
    | ReadFailed(error: nat)
    | Stop
    | ChildClosed

  /** After a successful `await_suspend` with a nonempty caller buffer. */
  function Init(buffer: seq<Byte>): State {
    State(buffer, 0, Prepared, [], 0, 0, false, Reading, 0, [], [], [], 0, 0)
  }

  /** The slice `on_alloc` offers: where it starts and how long it is. */
  function Offer(s: State): (slice: (nat, int)) {
    (s.bytesTransferred, |s.buffer| - s.bytesTransferred)
  }

  /** libuv reports a positive count when a handle is pending. */
  predicate Honest(probes: seq<Probe>) {
    forall i :: 0 <= i < |probes| && probes[i].PendingTcp? ==> probes[i].count > 0
  }

  predicate Enabled(s: State, e: Event) {
    match e
    case Notify(data, probes) => s.phase == Reading && |data| <= Offer(s).1 && Honest(probes)
    case ReadFailed(_) => s.phase == Reading
    case Stop => s.phase == Reading
    case ChildClosed => s.phase == ClosingChild
  }

  // ----- Adoption -----

  function Fail(s: State, status: int): State {
    s.(status := status, closePipe := true)
  }

  /** One pending TCP handle: a state for it, `uv_tcp_init`, `uv_accept`, and its place in the result. */
  function AdoptOne(s: State, p: Probe): State
    requires p.PendingTcp?
  {
    if s.receivedCapacity < |s.received| + p.count && !p.reserves then Fail(s, UV_ENOMEM)
    else
      var t := if s.receivedCapacity < |s.received| + p.count
               then s.(receivedCapacity := |s.received| + p.count) else s;
      if t.incoming == Absent && !p.allocates then Fail(t, UV_ENOMEM)
      else if p.initStatus < 0 then Fail(t, p.initStatus).(incoming := Prepared)
      else
        var u := t.(next := t.next + 1, initialised := t.initialised + [t.next]);
        if p.acceptStatus < 0 then Fail(u, p.acceptStatus).(incoming := Initialised(t.next))
        else u.(status := p.acceptStatus, incoming := Absent, received := u.received + [t.next])
  }

  /** `adopt_pending_tcp`: the new state, and whether the operation is over. */
  function Adopt(s: State, probes: seq<Probe>, adopted: bool): (State, bool)
    decreases |probes|
  {
    if probes == [] then (s.(status := 0), adopted)
    else match probes[0]
      case NonePending => (s.(status := 0), adopted)
      case CountFailed(error) => (Fail(s, -1 - error), true)
      case ForeignType => (Fail(s, UV_EPROTO), true)
      case PendingTcp(_, _, _, _, _) =>
        var t := AdoptOne(s, probes[0]);
        if t.closePipe then (t, true) else Adopt(t, probes[1..], true)
  }

  // ----- The operation -----

  /** The end of `on_read` and `on_stop_requested`: what happens to the handles, and when the task resumes. */
  function Conclude(s: State): State {
    var t := if s.status < 0 && s.closePipe then s.(pipeCloses := s.pipeCloses + 1) else s;
    var u := if s.status < 0 then t.(closed := t.closed + t.received, received := []) else t;
    if s.status < 0 && s.incoming.Initialised?
    then u.(closed := u.closed + [s.incoming.handle], incoming := Absent, phase := ClosingChild)
    else u.(phase := Resumed, resumes := u.resumes + 1)
  }

  function Write(buffer: seq<Byte>, at: nat, data: seq<Byte>): seq<Byte>
    requires at + |data| <= |buffer|
  {
    buffer[..at] + data + buffer[at + |data|..]
  }

  /** libuv has put `data` into the slice it was offered. */
  function Stored(s: State, data: seq<Byte>): State
    requires |data| <= Offer(s).1
  {
    s.(status := |data|, stream := s.stream + data,
       buffer := Write(s.buffer, Offer(s).0, data), bytesTransferred := s.bytesTransferred + |data|)
  }

  function NotifyStep(s: State, data: seq<Byte>, probes: seq<Probe>): State
    requires Enabled(s, Notify(data, probes))
  {
    var (u, over) := Adopt(Stored(s, data), probes, false);
    if over then Conclude(u)
    else if |data| > 0 && u.bytesTransferred == |u.buffer| then Conclude(u.(status := UV_ENOBUFS))
    else u
  }

  function Step(s: State, e: Event): State {
    if !Enabled(s, e) then s else
    match e
    case Notify(data, probes) => NotifyStep(s, data, probes)
    case ReadFailed(error) => Conclude(s.(status := -1 - error))
    case Stop => Conclude(s.(status := UV_ECANCELED))
    case ChildClosed => s.(phase := Resumed, resumes := s.resumes + 1)
  }

  function Run(s: State, es: seq<Event>): State {
    if es == [] then s else Step(Run(s, es[..|es| - 1]), es[|es| - 1])
  }

  // ----- The invariant -----

  /** During adoption every initialised handle is in the result, in native order, or is the one not accepted. */
  predicate AdoptInv(s: State) {
    && s.initialised == s.received + (if s.incoming.Initialised? then [s.incoming.handle] else [])
    && s.closed == []
    && |s.received| <= s.receivedCapacity
    && (s.incoming.Initialised? ==> s.closePipe)
    && (s.closePipe ==> s.status < 0)
    && s.pipeCloses == 0 && s.resumes == 0
  }

  predicate Inv(s: State) {
    && s.bytesTransferred <= |s.buffer|
    && s.buffer[..s.bytesTransferred] == s.stream
    && |s.received| <= s.receivedCapacity
    && s.resumes == (if s.phase == Resumed then 1 else 0)
    && match s.phase
       case Reading =>
         s.bytesTransferred < |s.buffer| && s.received == [] && s.initialised == [] && s.closed == []
         && s.incoming == Prepared && !s.closePipe && s.pipeCloses == 0 && s.receivedCapacity == 0 && s.next == 0
       case _ =>
         && (s.status < 0 ==> s.received == [] && s.closed == s.initialised)
         && (s.status >= 0 ==> s.received == s.initialised && s.received != [] && s.closed == [])
         && s.pipeCloses == (if s.closePipe && s.status < 0 then 1 else 0)
         && (s.phase == ClosingChild ==> s.status < 0)
  }

  lemma AdoptOneKeepsInv(s: State, p: Probe)
    requires AdoptInv(s) && !s.closePipe && p.PendingTcp? && p.count > 0
    ensures AdoptInv(AdoptOne(s, p))
    ensures var t := AdoptOne(s, p);
            && t.buffer == s.buffer && t.bytesTransferred == s.bytesTransferred
            && t.stream == s.stream && t.phase == s.phase
    ensures !AdoptOne(s, p).closePipe ==> AdoptOne(s, p).received != []
  {
  }

  lemma {:induction false} AdoptKeepsInv(s: State, probes: seq<Probe>, adopted: bool)
    requires AdoptInv(s) && !s.closePipe && Honest(probes) && (adopted <==> s.received != [])
    ensures AdoptInv(Adopt(s, probes, adopted).0)
    ensures var (t, over) := Adopt(s, probes, adopted);
            && t.buffer == s.buffer && t.bytesTransferred == s.bytesTransferred
            && t.stream == s.stream && t.phase == s.phase
            && (!over ==> t == s.(status := 0) && s.received == [])
            && (over ==> t.closePipe || (t.status == 0 && t.received != []))
    decreases |probes|
  {
    if probes != [] && probes[0].PendingTcp? {
      AdoptOneKeepsInv(s, probes[0]);
      var t := AdoptOne(s, probes[0]);
      if !t.closePipe {
        AdoptKeepsInv(t, probes[1..], true);
      }
    }
  }

  lemma ConcludeEstablishesInv(s: State)
    requires AdoptInv(s) && s.bytesTransferred <= |s.buffer| && s.buffer[..s.bytesTransferred] == s.stream
    requires s.status < 0 || s.received != []
    ensures Inv(Conclude(s))
  {
  }

  lemma NotifyKeepsInv(s: State, data: seq<Byte>, probes: seq<Probe>)
    requires Inv(s) && Enabled(s, Notify(data, probes))
    ensures Inv(Step(s, Notify(data, probes)))
  {
    var t := Stored(s, data);
    assert t.buffer[..t.bytesTransferred] == t.stream;
    AdoptKeepsInv(t, probes, false);
    var (u, over) := Adopt(t, probes, false);
    if over {
      ConcludeEstablishesInv(u);
    } else if |data| > 0 && u.bytesTransferred == |u.buffer| {
      ConcludeEstablishesInv(u.(status := UV_ENOBUFS));
    }
  }

  lemma StepKeepsInv(s: State, e: Event)
    requires Inv(s)
    ensures Inv(Step(s, e))
  {
    if Enabled(s, e) {
      match e
      case Notify(data, probes) => NotifyKeepsInv(s, data, probes);
      case ReadFailed(_) =>
      case Stop =>
      case ChildClosed =>
    }
  }

  /** Only what lies past the stored bytes is offered, so the rest of the caller's buffer is never written. */
  lemma StepWritesOnlyTheOffer(s: State, e: Event)
    requires Inv(s)
    ensures var t := Step(s, e);
            && |t.buffer| == |s.buffer| && s.bytesTransferred <= t.bytesTransferred <= |t.buffer|
            && t.buffer[t.bytesTransferred..] == s.buffer[t.bytesTransferred..]
  {
    if Enabled(s, e) && e.Notify? {
      StepKeepsInv(s, e);
      var t := s.(status := |e.data|, stream := s.stream + e.data,
                  buffer := Write(s.buffer, Offer(s).0, e.data), bytesTransferred := s.bytesTransferred + |e.data|);
      assert AdoptInv(t);
      AdoptKeepsInv(t, e.probes, false);
    }
  }

  lemma {:induction false} RunKeepsInv(buffer: seq<Byte>, es: seq<Event>)
    requires buffer != []
    ensures var s := Run(Init(buffer), es);
            Inv(s) && |s.buffer| == |buffer| && s.buffer[s.bytesTransferred..] == buffer[s.bytesTransferred..]
  {
    if es != [] {
      var front, e := es[..|es| - 1], es[|es| - 1];
      RunKeepsInv(buffer, front);
      var s := Run(Init(buffer), front);
      StepKeepsInv(s, e);
      StepWritesOnlyTheOffer(s, e);
      var t := Step(s, e);
      assert s.buffer[t.bytesTransferred..]
          == s.buffer[s.bytesTransferred..][t.bytesTransferred - s.bytesTransferred..];
      assert buffer[t.bytesTransferred..] == buffer[s.bytesTransferred..][t.bytesTransferred - s.bytesTransferred..];
    }
  }

  // ----- What the probes of one notification amount to -----

  /** One turn of the adoption loop; a turn that breaks off may leave an initialised child behind. */
  datatype Turn = Adopts | NoMore | Breaks(status: int, child: bool)

  /** The capacity of the result after `k` adoptions. */
  function Room(capacity: nat, probes: seq<Probe>, k: nat): nat
    requires k <= |probes|
  {
    if k == 0 then capacity
    else
      var before := Room(capacity, probes, k - 1);
      if probes[k - 1].PendingTcp? && before < k - 1 + probes[k - 1].count then k - 1 + probes[k - 1].count else before
  }

  /** Turn `k`, after `k` adoptions; `prepared` is whether a state for the first handle exists already. */
  function TurnAt(capacity: nat, prepared: bool, probes: seq<Probe>, k: nat): Turn
    requires k < |probes|
  {
    match probes[k]
    case NonePending => NoMore
    case CountFailed(error) => Breaks(-1 - error, false)
    case ForeignType => Breaks(UV_EPROTO, false)
    case PendingTcp(count, reserves, allocates, initStatus, acceptStatus) =>
      if Room(capacity, probes, k) < k + count && !reserves then Breaks(UV_ENOMEM, false)
      else if (k > 0 || !prepared) && !allocates then Breaks(UV_ENOMEM, false)
      else if initStatus < 0 then Breaks(initStatus, false)
      else if acceptStatus < 0 then Breaks(acceptStatus, true)
      else Adopts
  }

  /** The first `k` turns adopt a handle, and there is no further turn that does. */
  predicate AdoptsExactly(capacity: nat, prepared: bool, probes: seq<Probe>, k: nat) {
    && k <= |probes|
    && (forall i :: 0 <= i < k ==> TurnAt(capacity, prepared, probes, i).Adopts?)
    && (k < |probes| ==> !TurnAt(capacity, prepared, probes, k).Adopts?)
  }

  /** How many handles a notification brings. */
  function Adoptions(capacity: nat, prepared: bool, probes: seq<Probe>, from: nat): (k: nat)
    requires from <= |probes| && forall i :: 0 <= i < from ==> TurnAt(capacity, prepared, probes, i).Adopts?
    ensures AdoptsExactly(capacity, prepared, probes, k)
    decreases |probes| - from
  {
    if from < |probes| && TurnAt(capacity, prepared, probes, from).Adopts?
    then Adoptions(capacity, prepared, probes, from + 1) else from
  }

  /** The turn that ends the loop. */
  function LastTurn(capacity: nat, prepared: bool, probes: seq<Probe>): Turn {
    var k := Adoptions(capacity, prepared, probes, 0);
    if k < |probes| then TurnAt(capacity, prepared, probes, k) else NoMore
  }

  /** The next `n` handles in the order in which libuv queued them. */
  function Consecutive(first: Handle, n: nat): seq<Handle> {
    seq(n, i => first + i)
  }

  /** `k` handles have been adopted since `s0`, and no turn has broken off. */
  predicate AfterTurns(s0: State, s: State, probes: seq<Probe>, k: nat) {
    && k <= |probes| && !s.closePipe
    && s.received == Consecutive(s0.next, k) && s.next == s0.next + k
    && s.receivedCapacity == Room(s0.receivedCapacity, probes, k)
    && s.incoming == (if k == 0 then s0.incoming else Absent)
  }

  lemma AdoptsOneMore(s0: State, s: State, probes: seq<Probe>, k: nat)
    requires AfterTurns(s0, s, probes, k) && k < |probes| && probes[k].PendingTcp? && !s0.incoming.Initialised?
    ensures var turn, t := TurnAt(s0.receivedCapacity, s0.incoming != Absent, probes, k), AdoptOne(s, probes[k]);
            && (turn.Adopts? ==> AfterTurns(s0, t, probes, k + 1))
            && (turn.Breaks? ==> EndsBroken(s0, t, k, turn))
  {
    assert |s.received| == k;
    assert Consecutive(s0.next, k + 1) == Consecutive(s0.next, k) + [s0.next + k];
  }

  predicate EndsBroken(s0: State, t: State, k: nat, turn: Turn)
    requires turn.Breaks?
  {
    && t.closePipe && t.status == turn.status && t.received == Consecutive(s0.next, k)
    && (if turn.child then t.incoming == Initialised(s0.next + k) else !t.incoming.Initialised?)
  }

  lemma {:induction false} AdoptAfterTurns(s0: State, s: State, probes: seq<Probe>, j: nat)
    requires AfterTurns(s0, s, probes, j) && !s0.incoming.Initialised?
    requires j <= Adoptions(s0.receivedCapacity, s0.incoming != Absent, probes, 0)
    ensures var k := Adoptions(s0.receivedCapacity, s0.incoming != Absent, probes, 0);
            var turn := LastTurn(s0.receivedCapacity, s0.incoming != Absent, probes);
            var (t, over) := Adopt(s, probes[j..], j > 0);
            if turn.Breaks? then over && EndsBroken(s0, t, k, turn)
            else over == (k > 0) && AfterTurns(s0, t, probes, k) && t.status == 0
    decreases |probes| - j
  {
    var k := Adoptions(s0.receivedCapacity, s0.incoming != Absent, probes, 0);
    if j == |probes| {
      assert probes[j..] == [];
    } else {
      assert probes[j..][0] == probes[j] && probes[j..][1..] == probes[j + 1..];
      assert j < k <==> TurnAt(s0.receivedCapacity, s0.incoming != Absent, probes, j).Adopts?;
      if probes[j].PendingTcp? {
        AdoptsOneMore(s0, s, probes, j);
        if j < k {
          AdoptAfterTurns(s0, AdoptOne(s, probes[j]), probes, j + 1);
        }
      } else if !probes[j].NonePending? {
        BrokenByTheProbe(s0, s, probes, j);
      }
    }
  }

  lemma BrokenByTheProbe(s0: State, s: State, probes: seq<Probe>, k: nat)
    requires AfterTurns(s0, s, probes, k) && k < |probes| && (probes[k].CountFailed? || probes[k].ForeignType?)
    requires !s0.incoming.Initialised?
    ensures var turn := TurnAt(s0.receivedCapacity, s0.incoming != Absent, probes, k);
            turn.Breaks? && EndsBroken(s0, Fail(s, turn.status), k, turn)
  {
  }

  /** `adopt_pending_tcp` from its start. */
  lemma AdoptTakesAllPending(s: State, probes: seq<Probe>)
    requires s.received == [] && !s.closePipe && !s.incoming.Initialised?
    ensures var k := Adoptions(s.receivedCapacity, s.incoming != Absent, probes, 0);
            var turn := LastTurn(s.receivedCapacity, s.incoming != Absent, probes);
            var (t, over) := Adopt(s, probes, false);
            if turn.Breaks? then over && EndsBroken(s, t, k, turn)
            else over == (k > 0) && AfterTurns(s, t, probes, k) && t.status == 0
  {
    assert Consecutive(s.next, 0) == [] && probes[0..] == probes;
    AdoptAfterTurns(s, s, probes, 0);
  }

  // ----- Theorems over every run -----

  /**
  In every run, what one notification leads to, told from what libuv answers. All pending handles
  are adopted, up to the first turn that breaks off. If none does, the operation ends with all of
  them, or goes on reading when there were none and the buffer has room. If one does, the
  operation ends with that turn's status, everything initialised so far is closed, and so is the
  pipe.
  */
  lemma {:induction false} NotificationAdoptsAllPending(buffer: seq<Byte>, es: seq<Event>, data: seq<Byte>,
                                                        probes: seq<Probe>)
    requires buffer != [] && Enabled(Run(Init(buffer), es), Notify(data, probes))
    ensures var s := Run(Init(buffer), es);
            var t := Step(s, Notify(data, probes));
            var k, turn := Adoptions(0, true, probes, 0), LastTurn(0, true, probes);
            if turn.Breaks? then
              && t.status == turn.status < 0 && t.received == [] && t.pipeCloses == 1
              && t.phase == (if turn.child then ClosingChild else Resumed)
              && t.closed == Consecutive(0, if turn.child then k + 1 else k)
            else
              && t.pipeCloses == 0 && t.closed == [] && t.received == Consecutive(0, k)
              && (k > 0 ==> t.phase == Resumed && t.status == 0)
              && (k == 0 && data != [] && |s.stream| + |data| == |buffer| ==>
                    t.phase == Resumed && t.status == UV_ENOBUFS)
              && (k == 0 && (data == [] || |s.stream| + |data| < |buffer|) ==> t.phase == Reading)
  {
    RunKeepsInv(buffer, es);
    BytesAreStoredInOrder(buffer, es);
    NotifyOutcome(Run(Init(buffer), es), data, probes);
  }

  lemma NotifyOutcome(s: State, data: seq<Byte>, probes: seq<Probe>)
    requires Inv(s) && Enabled(s, Notify(data, probes))
    ensures var t := Step(s, Notify(data, probes));
            var k, turn := Adoptions(0, true, probes, 0), LastTurn(0, true, probes);
            if turn.Breaks? then
              && t.status == turn.status < 0 && t.received == [] && t.pipeCloses == 1
              && t.phase == (if turn.child then ClosingChild else Resumed)
              && t.closed == Consecutive(0, if turn.child then k + 1 else k)
            else
              && t.pipeCloses == 0 && t.closed == [] && t.received == Consecutive(0, k)
              && (k > 0 ==> t.phase == Resumed && t.status == 0)
              && (k == 0 && data != [] && s.bytesTransferred + |data| == |s.buffer| ==>
                    t.phase == Resumed && t.status == UV_ENOBUFS)
              && (k == 0 && (data == [] || s.bytesTransferred + |data| < |s.buffer|) ==> t.phase == Reading)
  {
    var t := Stored(s, data);
    AdoptTakesAllPending(t, probes);
    AdoptKeepsInv(t, probes, false);
  }

  /** A read that fails, and a stop, end the operation without touching the pipe. */
  lemma {:induction false} OtherEndsKeepThePipe(buffer: seq<Byte>, es: seq<Event>, e: Event)
    requires buffer != [] && (e.ReadFailed? || e.Stop?) && Enabled(Run(Init(buffer), es), e)
    ensures var t := Step(Run(Init(buffer), es), e);
            && t.status == (if e.Stop? then UV_ECANCELED else -1 - e.error) && t.phase == Resumed
            && t.pipeCloses == 0 && t.initialised == t.closed == t.received == []
  {
    RunKeepsInv(buffer, es);
  }

  /**
  While the operation is reading, libuv is offered a nonempty slice that starts right after the
  bytes stored so far and ends with the caller's buffer. Those bytes are the stream read so
  far, unbroken; the rest of the buffer is untouched.
  */
  lemma {:induction false} BytesAreStoredInOrder(buffer: seq<Byte>, es: seq<Event>)
    requires buffer != []
    ensures var s := Run(Init(buffer), es);
            && s.bytesTransferred == |s.stream| <= |buffer|
            && s.buffer == s.stream + buffer[|s.stream|..]
            && (s.phase == Reading ==>
                  Offer(s).0 == |s.stream| && Offer(s).1 > 0 && Offer(s).0 + Offer(s).1 == |buffer|)
  {
    RunKeepsInv(buffer, es);
    var s := Run(Init(buffer), es);
    assert s.buffer == s.buffer[..s.bytesTransferred] + s.buffer[s.bytesTransferred..];
  }

  /**
  Once the operation is over, every TCP handle that was initialised is in the result, in the
  order libuv queued them, or every one of them has been closed. Success returns at least one,
  and the result never grew past what had been reserved for it.
  */
  lemma {:induction false} HandlesAreConserved(buffer: seq<Byte>, es: seq<Event>)
    requires buffer != []
    ensures var s := Run(Init(buffer), es);
            && |s.received| <= s.receivedCapacity
            && (s.phase != Reading ==>
                  && (s.status >= 0 ==> s.received == s.initialised && s.received != [] && s.closed == [])
                  && (s.status < 0 ==> s.closed == s.initialised && s.received == [])
                  && s.pipeCloses == (if s.status < 0 && s.closePipe then 1 else 0))
            && (s.phase == Reading ==> s.initialised == [])
  {
    RunKeepsInv(buffer, es);
  }

  /** The task is resumed once; after a failed accept only when the handle it left has been closed. */
  lemma {:induction false} ReceiverResumesOnce(buffer: seq<Byte>, es: seq<Event>)
    requires buffer != []
    ensures var s := Run(Init(buffer), es);
            && s.resumes <= 1
            && (s.resumes == 1 <==> s.phase == Resumed)
            && (s.phase == ClosingChild ==> Enabled(s, ChildClosed) && s.resumes == 0 && s.closed != [])
  {
    RunKeepsInv(buffer, es);
    RunClosingChild(buffer, es);
  }

  lemma {:induction false} RunClosingChild(buffer: seq<Byte>, es: seq<Event>)
    requires buffer != []
    ensures Run(Init(buffer), es).phase == ClosingChild ==> Run(Init(buffer), es).closed != []
  {
    if es != [] {
      var front, e := es[..|es| - 1], es[|es| - 1];
      RunClosingChild(buffer, front);
      RunKeepsInv(buffer, front);
      var s := Run(Init(buffer), front);
      if Enabled(s, e) && e.Notify? {
        var t := Stored(s, e.data);
        assert AdoptInv(t);
        AdoptKeepsInv(t, e.probes, false);
      }
    }
  }

  // ----- The awaiter and its result -----

  class Receiver {
    const buffer: array<Byte>
    var bytesTransferred: nat
    var incoming: Incoming
    var received: seq<Handle>
    var receivedCapacity: nat
    var status: int
    var closePipe: bool
    var phase: Phase
    var next: Handle
    ghost var m: State

    /** The fields, apart from the buffer's contents. */
    ghost predicate Fields()
      reads this
    {
      && m.bytesTransferred == bytesTransferred && m.incoming == incoming && m.received == received
      && m.receivedCapacity == receivedCapacity && m.status == status && m.closePipe == closePipe
      && m.phase == phase && m.next == next
    }

    ghost predicate Valid()
      reads this, buffer
    {
      Fields() && m.buffer == buffer[..] && Inv(m)
    }

    constructor (buffer: array<Byte>)
      requires buffer.Length > 0
      ensures Valid() && m == Init(buffer[..]) && this.buffer == buffer
    {
      this.buffer := buffer;
      bytesTransferred, incoming, received, receivedCapacity := 0, Prepared, [], 0;
      status, closePipe, phase, next := 0, false, Reading, 0;
      m := Init(buffer[..]);
    }

    /** `on_alloc`. */
    method OnAlloc() returns (offset: nat, length: nat)
      requires Valid() && phase == Reading
      ensures (offset, length) == Offer(m)
      ensures 0 < length && offset + length == buffer.Length
    {
      offset, length := bytesTransferred, buffer.Length - bytesTransferred;
    }

    method FailWith(error: int)
      requires Fields()
      modifies this
      ensures Fields() && m == Fail(old(m), error)
    {
      status := error;
      closePipe := true;
      m := Fail(m, error);
    }

    /** The body of the adoption loop once a TCP handle is known to be pending. */
    method AdoptHandle(p: Probe)
      requires Fields() && p.PendingTcp? && p.count > 0 && |received| <= receivedCapacity
      modifies this
      ensures Fields() && m == AdoptOne(old(m), p)
      ensures |received| <= receivedCapacity
    {
      m := AdoptOne(m, p);
      if receivedCapacity < |received| + p.count {
        if !p.reserves {
          status, closePipe := UV_ENOMEM, true;
          return;
        }
        receivedCapacity := |received| + p.count;
      }
      if incoming != Absent {
        incoming := Absent;
      } else if !p.allocates {
        status, closePipe := UV_ENOMEM, true;
        return;
      }
      status := p.initStatus;
      if status < 0 {
        closePipe, incoming := true, Prepared;
        return;
      }
      var handle := next;
      next := next + 1;
      status := p.acceptStatus;
      if status < 0 {
        closePipe, incoming := true, Initialised(handle);
        return;
      }
      // the result has room, so this does not allocate
      assert |received| < receivedCapacity;
      received := received + [handle];
    }

    /** `adopt_pending_tcp`: drains every pending handle visible in this notification. */
    method AdoptPendingTcp(probes: seq<Probe>) returns (over: bool)
      requires Fields() && AdoptInv(m) && !closePipe && received == [] && Honest(probes)
      modifies this
      ensures Fields() && (m, over) == Adopt(old(m), probes, false)
      ensures var k := Adoptions(old(receivedCapacity), old(incoming) != Absent, probes, 0);
              var turn := LastTurn(old(receivedCapacity), old(incoming) != Absent, probes);
              && received == Consecutive(old(next), k)
              && over == (k > 0 || turn.Breaks?) && closePipe == turn.Breaks?
              && status == (if turn.Breaks? then turn.status else 0)
    {
      AdoptTakesAllPending(m, probes);
      over := AdoptLoop(probes);
    }

    /** The loop itself. */
    method AdoptLoop(probes: seq<Probe>) returns (over: bool)
      requires Fields() && !closePipe && received == [] && Honest(probes)
      modifies this
      ensures Fields() && (m, over) == Adopt(old(m), probes, false)
    {
      var adopted := false;
      var i := 0;
      while i < |probes|
        invariant 0 <= i <= |probes| && Fields() && !closePipe && |received| <= receivedCapacity
        invariant Adopt(m, probes[i..], adopted) == Adopt(old(m), probes, false)
      {
        match probes[i]
        case NonePending =>
          break;
        case CountFailed(error) =>
          FailWith(-1 - error);
          return true;
        case ForeignType =>
          FailWith(UV_EPROTO);
          return true;
        case PendingTcp(_, _, _, _, _) =>
          assert probes[i..][1..] == probes[i + 1..];
          AdoptHandle(probes[i]);
          if closePipe {
            return true;
          }
          adopted := true;
          i := i + 1;
      }
      status := 0;
      m := m.(status := 0);
      over := adopted;
    }

    /** The end of `on_read`: true when the task is resumed at once. */
    method Finish() returns (resumed: bool)
      requires Fields()
      modifies this
      ensures Fields() && m == Conclude(old(m))
      ensures resumed <==> phase == Resumed
      ensures phase == (if status < 0 && old(incoming).Initialised? then ClosingChild else Resumed)
      ensures status == old(status)
      ensures status < 0 ==> received == [] && !incoming.Initialised?
      ensures status >= 0 ==> received == old(received)
    {
      m := Conclude(m);
      if status < 0 {
        received := [];
        if incoming.Initialised? {
          incoming := Absent;
          phase := ClosingChild;
          return false;
        }
      }
      phase := Resumed;
      resumed := true;
    }

    /** libuv stores `data` in the slice it was offered and calls `on_read`. */
    method OnRead(data: seq<Byte>, probes: seq<Probe>)
      requires Valid() && Enabled(m, Notify(data, probes))
      modifies this, buffer
      ensures Valid() && m == Step(old(m), Notify(data, probes))
      ensures var k, turn := Adoptions(0, true, probes, 0), LastTurn(0, true, probes);
              if turn.Breaks? then phase != Reading && status == turn.status && received == []
              else received == Consecutive(0, k) && (k > 0 ==> phase == Resumed && status == 0)
    {
      NotifyKeepsInv(m, data, probes);
      NotifyOutcome(m, data, probes);
      TakeBytes(data);
      AdoptKeepsInv(m, probes, false);
      var over := AdoptPendingTcp(probes);
      if over {
        var resumed := Finish();
      } else if |data| > 0 && bytesTransferred == buffer.Length {
        status := UV_ENOBUFS;
        m := m.(status := UV_ENOBUFS);
        var resumed := Finish();
      }
    }

    /** `on_read` with an error or the end of the stream: nothing is adopted. */
    method OnReadFailed(error: nat) returns (resumed: bool)
      requires Valid() && Enabled(m, ReadFailed(error))
      modifies this
      ensures Valid() && m == Step(old(m), ReadFailed(error))
      ensures resumed && status == -1 - error && received == []
    {
      StepKeepsInv(m, ReadFailed(error));
      status := -1 - error;
      m := m.(status := -1 - error);
      resumed := Finish();
    }

    /** `on_stop_requested`: the read is stopped and the bytes stored so far are forgotten with the operation. */
    method OnStopRequested() returns (resumed: bool)
      requires Valid() && Enabled(m, Stop)
      modifies this
      ensures Valid() && m == Step(old(m), Stop)
      ensures resumed && status == UV_ECANCELED && received == []
    {
      StepKeepsInv(m, Stop);
      status := UV_ECANCELED;
      m := m.(status := UV_ECANCELED);
      resumed := Finish();
    }

    /** The close callback of the handle that a failed accept left behind. */
    method OnChildClosed()
      requires Valid() && Enabled(m, ChildClosed)
      modifies this
      ensures Valid() && m == Step(old(m), ChildClosed) && phase == Resumed && status < 0
    {
      StepKeepsInv(m, ChildClosed);
      m := Step(m, ChildClosed);
      phase := Resumed;
    }

    method TakeBytes(data: seq<Byte>)
      requires Valid() && phase == Reading && |data| <= Offer(m).1
      modifies this, buffer
      ensures Fields() && m == Stored(old(m), data) && m.buffer == buffer[..]
      ensures AdoptInv(m) && !closePipe && received == []
    {
      Store(data);
      m := Stored(m, data);
      status := |data|;
      bytesTransferred := bytesTransferred + |data|;
    }

    /** libuv writing into the offered slice. */
    method Store(data: seq<Byte>)
      requires bytesTransferred + |data| <= buffer.Length
      modifies buffer
      ensures buffer[..] == Write(old(buffer[..]), bytesTransferred, data)
    {
      for i := 0 to |data|
        invariant forall k :: 0 <= k < buffer.Length ==>
                    buffer[k] == (if bytesTransferred <= k < bytesTransferred + i then data[k - bytesTransferred]
                                  else old(buffer[k]))
      {
        buffer[bytesTransferred + i] := data[i];
      }
    }
  }

  /** `receive_handle_result`. */
  class Result {
    var tcp: seq<Handle>

    constructor (tcp: seq<Handle>)
      ensures this.tcp == tcp
    {
      this.tcp := tcp;
    }

    /** Owners come out in libuv's order. */
    method TakeTcp() returns (taken: Option<Handle>)
      modifies this
      ensures taken == None <==> old(tcp) == []
      ensures taken.Some? ==> old(tcp) == [taken.value] + tcp
      ensures taken == None ==> tcp == []
    {
      if tcp == [] {
        return None;
      }
      taken := Some(tcp[0]);
      tcp := tcp[1..];
    }
  }
}
