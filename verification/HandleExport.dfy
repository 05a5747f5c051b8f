/**
Writes that pass a TCP handle over a pipe: the exclusive write slot of each pipe, and the pin
that keeps a TCP owner's export flag set while one such write, on any pipe, is in flight.
*/
module HandleExport {

  import opened Options

  const UV_EBADF := -9
  const UV_EBUSY := -16
  const UV_EINVAL := -22
  const UV_ECANCELED := -125

  /** `ioActive` stands for a read or a write of the TCP owner itself. */
  datatype Tcp = Tcp(closing: bool, ioActive: bool, exportActive: bool)

  datatype Pipe = Pipe(ipc: bool, closing: bool, writeActive: bool)

  /** One write awaiter; `source` is the TCP owner whose handle it passes. */
  datatype Write = Write(
    pipe: nat,
    source: Option<nat>,
    status: int,
    pinAcquired: bool,
    inFlight: bool,
    // history: whether libuv took the write, and the pin
    submitted: bool,
    acquires: nat,
    releases: nat)

  /** What held when the writing task was resumed by its completion. */
  datatype Resumption = Resumption(write: nat, status: int, pinned: bool, pipeBusy: bool)

  datatype State = State(tcps: seq<Tcp>, pipes: seq<Pipe>, writes: seq<Write>, resumptions: seq<Resumption>)

  datatype Event =
    | NewTcp
    | NewPipe(ipc: bool)
    | Submit(pipe: nat, source: Option<nat>, sameLoop: bool, sourceLoop: bool, stopRequested: bool, submitStatus: int)
    | Completed(write: nat, status: int)
    | TcpIo(tcp: nat, active: bool)
    | CloseTcp(tcp: nat)
    | ClosePipe(pipe: nat)

  const Init: State := State([], [], [], [])

  predicate Enabled(s: State, e: Event) {
    match e
    case Submit(p, source, _, _, _, _) => p < |s.pipes| && (source.Some? ==> source.value < |s.tcps|)
    case Completed(w, _) =>
      w < |s.writes| && s.writes[w].inFlight && s.writes[w].pipe < |s.pipes|
      && (s.writes[w].source.Some? ==> s.writes[w].source.value < |s.tcps|)
    case TcpIo(t, active) => t < |s.tcps| && (active ==> !s.tcps[t].closing)
    case CloseTcp(t) => t < |s.tcps|
    case ClosePipe(p) => p < |s.pipes|
    case _ => true
  }

  /** `acquire_handle_export`. */
  function AcquireStatus(t: Tcp): int {
    if t.closing then UV_EBADF else if t.exportActive then UV_EBUSY else 0
  }

  /** Every check of `await_suspend` before the pin, in order. */
  function SubmitStatus(s: State, p: nat, source: Option<nat>, stopRequested: bool): int
    requires p < |s.pipes| && (source.Some? ==> source.value < |s.tcps|)
  {
    if s.pipes[p].closing then UV_EBADF
    else if stopRequested then UV_ECANCELED
    else if source.Some? && !s.pipes[p].ipc then UV_EINVAL
    else if s.pipes[p].writeActive then UV_EBUSY
    else if source.Some? then AcquireStatus(s.tcps[source.value])
    else 0
  }

  function SetExport(s: State, source: Option<nat>, active: bool): State
    requires source.Some? ==> source.value < |s.tcps|
  {
    if source == None then s
    else s.(tcps := s.tcps[source.value := s.tcps[source.value].(exportActive := active)])
  }

  function SetBusy(s: State, p: nat, busy: bool): State
    requires p < |s.pipes|
  {
    s.(pipes := s.pipes[p := s.pipes[p].(writeActive := busy)])
  }

  /** The write takes the pin of its source, if it has one. */
  function AcquirePin(s: State, w: Write): (State, Write)
    requires w.source.Some? ==> w.source.value < |s.tcps|
  {
    if w.source == None then (s, w)
    else (SetExport(s, w.source, true), w.(pinAcquired := true, acquires := w.acquires + 1))
  }

  /** `release_pin`. */
  function ReleasePin(s: State, w: Write): (State, Write)
    requires w.source.Some? ==> w.source.value < |s.tcps|
  {
    if !w.pinAcquired then (s, w)
    else (SetExport(s, w.source, false), w.(pinAcquired := false, releases := w.releases + 1))
  }

  /** The write is made on another loop than its pipe or its source, which throws. */
  predicate WrongLoops(s: State, e: Event)
    requires e.Submit? && Enabled(s, e)
  {
    !s.pipes[e.pipe].closing && (!e.sameLoop || (e.source.Some? && !e.sourceLoop))
  }

  function SubmitStep(s: State, e: Event): State
    requires e.Submit? && Enabled(s, e)
  {
    var status := SubmitStatus(s, e.pipe, e.source, e.stopRequested);
    var w := Write(e.pipe, e.source, status, false, false, false, 0, 0);
    if WrongLoops(s, e) then s
    else if status < 0 then s.(writes := s.writes + [w])
    else
      var (t, pinned) := AcquirePin(s, w);
      var busy := SetBusy(t, e.pipe, true);
      if e.submitStatus < 0 then
        var (u, released) := ReleasePin(SetBusy(busy, e.pipe, false), pinned.(status := e.submitStatus));
        u.(writes := u.writes + [released])
      else busy.(writes := busy.writes + [pinned.(status := e.submitStatus, inFlight := true, submitted := true)])
  }

  function CompletedStep(s: State, i: nat, status: int): State
    requires Enabled(s, Completed(i, status))
  {
    var w := s.writes[i].(status := status, inFlight := false);
    var (t, done) := ReleasePin(SetBusy(s, w.pipe, false), w);
    var pinned := done.pinAcquired || (w.source.Some? && t.tcps[w.source.value].exportActive);
    t.(writes := t.writes[i := done],
       resumptions := t.resumptions + [Resumption(i, status, pinned, t.pipes[w.pipe].writeActive)])
  }

  function Step(s: State, e: Event): State {
    if !Enabled(s, e) then s else
    match e
    case NewTcp => s.(tcps := s.tcps + [Tcp(false, false, false)])
    case NewPipe(ipc) => s.(pipes := s.pipes + [Pipe(ipc, false, false)])
    case Submit(_, _, _, _, _, _) => SubmitStep(s, e)
    case Completed(w, status) => CompletedStep(s, w, status)
    case TcpIo(t, active) => s.(tcps := s.tcps[t := s.tcps[t].(ioActive := active)])
    case CloseTcp(t) =>
      // a close request over an active operation is answered with UV_EBUSY
      if s.tcps[t].exportActive || s.tcps[t].ioActive then s
      else s.(tcps := s.tcps[t := s.tcps[t].(closing := true)])
    case ClosePipe(p) => s.(pipes := s.pipes[p := s.pipes[p].(closing := true)])
  }

  function Run(s: State, es: seq<Event>): State {
    if es == [] then s else Step(Run(s, es[..|es| - 1]), es[|es| - 1])
  }

  // ----- The invariant -----

  predicate Pins(s: State, w: nat, t: nat) {
    w < |s.writes| && s.writes[w].inFlight && s.writes[w].source == Some(t)
  }

  predicate Uses(s: State, w: nat, p: nat) {
    w < |s.writes| && s.writes[w].inFlight && s.writes[w].pipe == p
  }

  predicate WriteInv(s: State, w: Write) {
    && w.pipe < |s.pipes|
    && (w.source.Some? ==> w.source.value < |s.tcps|)
    && (w.pinAcquired <==> w.inFlight && w.source.Some?)
    && w.acquires <= 1
    && w.acquires == w.releases + (if w.pinAcquired then 1 else 0)
    && (w.inFlight ==> s.pipes[w.pipe].writeActive)
    && (w.inFlight && w.source.Some? ==> s.tcps[w.source.value].exportActive)
  }

  ghost predicate Inv(s: State) {
    && (forall w :: 0 <= w < |s.writes| ==> WriteInv(s, s.writes[w]))
    && (forall t :: 0 <= t < |s.tcps| && s.tcps[t].exportActive ==>
          !s.tcps[t].closing && exists w :: Pins(s, w, t))
    && (forall p :: 0 <= p < |s.pipes| && s.pipes[p].writeActive ==> exists w :: Uses(s, w, p))
    && (forall v, w, t :: Pins(s, v, t) && Pins(s, w, t) ==> v == w)
    && (forall v, w, p :: Uses(s, v, p) && Uses(s, w, p) ==> v == w)
    && (forall i :: 0 <= i < |s.resumptions| ==> !s.resumptions[i].pinned && !s.resumptions[i].pipeBusy)
  }

  /** A step that keeps every in-flight write, adds none, and sets no flag, keeps the invariant. */
  lemma FramedStepKeepsInv(s: State, t: State)
    requires Inv(s) && t.resumptions == s.resumptions
    requires |s.tcps| <= |t.tcps| && |s.pipes| <= |t.pipes| && s.writes <= t.writes
    requires forall i :: 0 <= i < |s.tcps| ==> t.tcps[i].exportActive == s.tcps[i].exportActive
    requires forall i :: 0 <= i < |s.tcps| && t.tcps[i].closing && t.tcps[i].exportActive ==> s.tcps[i].closing
    requires forall i :: |s.tcps| <= i < |t.tcps| ==> !t.tcps[i].exportActive
    requires forall i :: 0 <= i < |s.pipes| ==> t.pipes[i].writeActive == s.pipes[i].writeActive
    requires forall i :: |s.pipes| <= i < |t.pipes| ==> !t.pipes[i].writeActive
    requires forall w :: |s.writes| <= w < |t.writes| ==> !t.writes[w].inFlight && WriteInv(t, t.writes[w])
    ensures Inv(t)
  {
    forall w | 0 <= w < |t.writes|
      ensures WriteInv(t, t.writes[w])
    {
      if w < |s.writes| {
        assert WriteInv(s, s.writes[w]);
      }
    }
    forall w, x
      ensures Pins(t, w, x) <==> Pins(s, w, x)
      ensures Uses(t, w, x) <==> Uses(s, w, x)
    {
    }
    forall i | 0 <= i < |t.tcps| && t.tcps[i].exportActive
      ensures !t.tcps[i].closing && exists w :: Pins(t, w, i)
    {
      var w :| Pins(s, w, i);
      assert Pins(t, w, i);
    }
    forall p | 0 <= p < |t.pipes| && t.pipes[p].writeActive
      ensures exists w :: Uses(t, w, p)
    {
      var w :| Uses(s, w, p);
      assert Uses(t, w, p);
    }
  }

  lemma SubmitKeepsInv(s: State, e: Event)
    requires Inv(s) && e.Submit? && Enabled(s, e)
    ensures Inv(Step(s, e))
  {
    if !WrongLoops(s, e) {
      if SubmitStatus(s, e.pipe, e.source, e.stopRequested) < 0 {
        FramedStepKeepsInv(s, Step(s, e));
      } else if e.submitStatus < 0 {
        RefusedKeepsInv(s, e);
      } else {
        InFlightKeepsInv(s, e);
      }
    }
  }

  /** A refused submission gives back what it took. */
  lemma RefusedKeepsInv(s: State, e: Event)
    requires Inv(s) && e.Submit? && Enabled(s, e) && !WrongLoops(s, e)
    requires SubmitStatus(s, e.pipe, e.source, e.stopRequested) >= 0 && e.submitStatus < 0
    ensures Inv(Step(s, e))
  {
    var t := Step(s, e);
    assert t.pipes == s.pipes && t.tcps == s.tcps;
    FramedStepKeepsInv(s, t);
  }

  /** A write that gets in flight takes a free slot and, with a handle, a free pin. */
  lemma InFlightKeepsInv(s: State, e: Event)
    requires Inv(s) && e.Submit? && Enabled(s, e) && !WrongLoops(s, e)
    requires SubmitStatus(s, e.pipe, e.source, e.stopRequested) >= 0 && e.submitStatus >= 0
    ensures Inv(Step(s, e))
  {
    var t, n := Step(s, e), |s.writes|;
    NoOtherUser(s, e);
    forall w, x: nat
      ensures Pins(t, w, x) <==> Pins(s, w, x) || (w == n && e.source == Some(x))
      ensures Uses(t, w, x) <==> Uses(s, w, x) || (w == n && e.pipe == x)
    {
    }
    forall w | 0 <= w < |t.writes|
      ensures WriteInv(t, t.writes[w])
    {
      if w < n {
        assert WriteInv(s, s.writes[w]);
      }
    }
    forall i | 0 <= i < |t.tcps| && t.tcps[i].exportActive
      ensures !t.tcps[i].closing && exists w :: Pins(t, w, i)
    {
      if e.source == Some(i) {
        assert Pins(t, n, i);
      } else {
        var w :| Pins(s, w, i);
        assert Pins(t, w, i);
      }
    }
    forall p | 0 <= p < |t.pipes| && t.pipes[p].writeActive
      ensures exists w :: Uses(t, w, p)
    {
      if e.pipe == p {
        assert Uses(t, n, p);
      } else {
        var w :| Uses(s, w, p);
        assert Uses(t, w, p);
      }
    }
  }

  lemma NoOtherUser(s: State, e: Event)
    requires Inv(s) && e.Submit? && Enabled(s, e)
    requires SubmitStatus(s, e.pipe, e.source, e.stopRequested) >= 0
    ensures forall w :: !Uses(s, w, e.pipe)
    ensures e.source.Some? ==> forall w :: !Pins(s, w, e.source.value)
  {
    assert forall w :: 0 <= w < |s.writes| ==> WriteInv(s, s.writes[w]);
  }

  lemma CompletedKeepsInv(s: State, i: nat, status: int)
    requires Inv(s) && Enabled(s, Completed(i, status))
    ensures Inv(Step(s, Completed(i, status)))
  {
    var t := Step(s, Completed(i, status));
    var done := s.writes[i];
    assert WriteInv(s, done);
    assert Uses(s, i, done.pipe);
    if done.source.Some? {
      assert Pins(s, i, done.source.value);
    }
    forall w, x: nat
      ensures Pins(t, w, x) <==> Pins(s, w, x) && w != i
      ensures Uses(t, w, x) <==> Uses(s, w, x) && w != i
    {
    }
    forall w | 0 <= w < |t.writes|
      ensures WriteInv(t, t.writes[w])
    {
      assert WriteInv(s, s.writes[w]);
      if w != i && s.writes[w].inFlight {
        assert Uses(s, w, s.writes[w].pipe);
        if s.writes[w].source.Some? {
          assert Pins(s, w, s.writes[w].source.value);
        }
      }
    }
    forall x | 0 <= x < |t.tcps| && t.tcps[x].exportActive
      ensures !t.tcps[x].closing && exists w :: Pins(t, w, x)
    {
      var w :| Pins(s, w, x);
      assert Pins(t, w, x);
    }
    forall p | 0 <= p < |t.pipes| && t.pipes[p].writeActive
      ensures exists w :: Uses(t, w, p)
    {
      var w :| Uses(s, w, p);
      assert Uses(t, w, p);
    }
  }

  lemma StepKeepsInv(s: State, e: Event)
    requires Inv(s)
    ensures Inv(Step(s, e))
  {
    if Enabled(s, e) {
      match e
      case Submit(_, _, _, _, _, _) => SubmitKeepsInv(s, e);
      case Completed(w, status) => CompletedKeepsInv(s, w, status);
      case _ => FramedStepKeepsInv(s, Step(s, e));
    }
  }

  lemma {:induction false} RunKeepsInv(es: seq<Event>)
    ensures Inv(Run(Init, es))
  {
    if es != [] {
      RunKeepsInv(es[..|es| - 1]);
      StepKeepsInv(Run(Init, es[..|es| - 1]), es[|es| - 1]);
    }
  }

  // ----- Theorems over every run -----

  /**
  A TCP owner's export flag is set exactly while one write, on whichever pipe, is in flight
  with its handle; there is never a second one, and the owner does not close meanwhile.
  */
  lemma {:induction false} ExportFlagMeansOneWriteInFlight(es: seq<Event>, t: nat)
    requires t < |Run(Init, es).tcps|
    ensures var s := Run(Init, es);
            && (s.tcps[t].exportActive <==> exists w :: Pins(s, w, t))
            && (forall v, w :: Pins(s, v, t) && Pins(s, w, t) ==> v == w)
            && (s.tcps[t].exportActive ==> !s.tcps[t].closing)
  {
    RunKeepsInv(es);
    var s := Run(Init, es);
    forall w: nat | Pins(s, w, t)
      ensures s.tcps[t].exportActive
    {
      assert WriteInv(s, s.writes[w]);
    }
  }

  /**
  Whatever becomes of a write, rejected, refused by libuv or completed, its pin is released as
  often as it was acquired, at most once, and before its task is resumed.
  */
  lemma {:induction false} PinIsReleasedOnceBeforeResumption(es: seq<Event>, w: nat)
    requires w < |Run(Init, es).writes|
    ensures var s := Run(Init, es);
            && s.writes[w].releases <= s.writes[w].acquires <= 1
            && (!s.writes[w].inFlight ==> s.writes[w].acquires == s.writes[w].releases && !s.writes[w].pinAcquired)
            && (forall i :: 0 <= i < |s.resumptions| ==> !s.resumptions[i].pinned && !s.resumptions[i].pipeBusy)
  {
    RunKeepsInv(es);
    assert WriteInv(Run(Init, es), Run(Init, es).writes[w]);
  }

  // ----- Every write ends once -----

  function Resumes(log: seq<Resumption>, w: nat): nat {
    if log == [] then 0
    else Resumes(log[..|log| - 1], w) + (if log[|log| - 1].write == w then 1 else 0)
  }

  lemma ResumesOneMore(log: seq<Resumption>, r: Resumption, w: nat)
    ensures Resumes(log + [r], w) == Resumes(log, w) + (if r.write == w then 1 else 0)
  {
    assert (log + [r])[..|log|] == log;
  }

  lemma {:induction false} NotResumedYet(log: seq<Resumption>, n: nat)
    requires forall i :: 0 <= i < |log| ==> log[i].write < n
    ensures Resumes(log, n) == 0
  {
    if log != [] {
      NotResumedYet(log[..|log| - 1], n);
    }
  }

  /** A write that libuv took is in flight or has been resumed once, and no other write is ever resumed. */
  predicate WriteEnds(s: State, w: nat)
    requires w < |s.writes|
  {
    && (s.writes[w].inFlight ==> s.writes[w].submitted)
    && (!s.writes[w].submitted ==> s.writes[w].status < 0)
    && Resumes(s.resumptions, w) == (if s.writes[w].submitted && !s.writes[w].inFlight then 1 else 0)
  }

  predicate WritesEnd(s: State) {
    && (forall w :: 0 <= w < |s.writes| ==> WriteEnds(s, w))
    && (forall i :: 0 <= i < |s.resumptions| ==> s.resumptions[i].write < |s.writes|)
  }

  lemma StepKeepsEnds(s: State, e: Event)
    requires WritesEnd(s)
    ensures WritesEnd(Step(s, e))
  {
    if Enabled(s, e) {
      match e
      case Submit(_, _, _, _, _, _) => SubmitKeepsEnds(s, e);
      case Completed(w, status) => CompletedKeepsEnds(s, w, status);
      case _ => SameWritesEnd(s, Step(s, e));
    }
  }

  lemma SameWritesEnd(s: State, t: State)
    requires WritesEnd(s) && t.writes == s.writes && t.resumptions == s.resumptions
    ensures WritesEnd(t)
  {
    forall w | 0 <= w < |t.writes|
      ensures WriteEnds(t, w)
    {
      assert WriteEnds(s, w);
    }
  }

  lemma SubmitKeepsEnds(s: State, e: Event)
    requires WritesEnd(s) && e.Submit? && Enabled(s, e)
    ensures WritesEnd(Step(s, e))
  {
    var t, n := Step(s, e), |s.writes|;
    NotResumedYet(s.resumptions, n);
    forall w | 0 <= w < |t.writes|
      ensures WriteEnds(t, w)
    {
      assert w < n ==> WriteEnds(s, w) && t.writes[w] == s.writes[w];
    }
  }

  lemma CompletedKeepsEnds(s: State, i: nat, status: int)
    requires WritesEnd(s) && Enabled(s, Completed(i, status))
    ensures WritesEnd(Step(s, Completed(i, status)))
  {
    var t := Step(s, Completed(i, status));
    var r := t.resumptions[|s.resumptions|];
    assert t.resumptions == s.resumptions + [r] && r.write == i;
    forall w | 0 <= w < |t.writes|
      ensures WriteEnds(t, w)
    {
      assert WriteEnds(s, w);
      ResumesOneMore(s.resumptions, r, w);
    }
  }

  lemma {:induction false} RunKeepsEnds(es: seq<Event>)
    ensures WritesEnd(Run(Init, es))
  {
    if es != [] {
      RunKeepsEnds(es[..|es| - 1]);
      StepKeepsEnds(Run(Init, es[..|es| - 1]), es[|es| - 1]);
    }
  }

  /**
  Every write that libuv took is resumed exactly once, by its completion and with its status,
  and one that was rejected or refused never is. The completion frees the pipe and the handle
  that was passed, and touches no other pipe, owner or write.
  */
  lemma {:induction false} WritesResumeOnce(es: seq<Event>, w: nat, status: int)
    requires w < |Run(Init, es).writes|
    ensures var s := Run(Init, es);
            && Resumes(s.resumptions, w) == (if s.writes[w].submitted && !s.writes[w].inFlight then 1 else 0)
            && (!s.writes[w].submitted ==> s.writes[w].status < 0 && !s.writes[w].inFlight)
            && (s.writes[w].inFlight ==>
                  var t, pipe, source := Step(s, Completed(w, status)), s.writes[w].pipe, s.writes[w].source;
                  && t.resumptions == s.resumptions + [Resumption(w, status, false, false)]
                  && t.writes[w].status == status && !t.writes[w].inFlight
                  && t.pipes == s.pipes[pipe := s.pipes[pipe].(writeActive := false)]
                  && t.tcps == (if source == None then s.tcps
                                else s.tcps[source.value := s.tcps[source.value].(exportActive := false)])
                  && t.writes == s.writes[w := t.writes[w]])
  {
    RunKeepsInv(es);
    RunKeepsEnds(es);
    var s := Run(Init, es);
    assert WriteEnds(s, w) && WriteInv(s, s.writes[w]);
  }

  /** At some point of the run a close was requested while the owner had no I/O and no write passed its handle. */
  ghost predicate ClosedWhileFree(es: seq<Event>, t: nat) {
    es != [] &&
    var s := Run(Init, es[..|es| - 1]);
    || ClosedWhileFree(es[..|es| - 1], t)
    || (es[|es| - 1] == CloseTcp(t) && t < |s.tcps| && !s.tcps[t].ioActive && !exists w :: Pins(s, w, t))
  }

  /** In every run a TCP owner is closing if and only if its close was requested when nothing used it. */
  lemma {:induction false} TcpClosesIffFree(es: seq<Event>, t: nat)
    ensures var s := Run(Init, es);
            t < |s.tcps| && s.tcps[t].closing <==> ClosedWhileFree(es, t)
  {
    if es != [] {
      var front, e := es[..|es| - 1], es[|es| - 1];
      var s := Run(Init, front);
      TcpClosesIffFree(front, t);
      if t < |s.tcps| {
        ExportFlagMeansOneWriteInFlight(front, t);
      }
      ClosingHistory(s, e, t);
    }
  }

  lemma ClosingHistory(s: State, e: Event, t: nat)
    ensures var u := Step(s, e);
            t < |u.tcps| && u.tcps[t].closing <==>
              && t < |s.tcps|
              && (s.tcps[t].closing || (e == CloseTcp(t) && !s.tcps[t].exportActive && !s.tcps[t].ioActive))
  {
    if Enabled(s, e) {
      match e
      case Submit(_, _, _, _, _, _) => SubmitKeepsClosing(s, e);
      case _ =>
    }
  }

  lemma SubmitKeepsClosing(s: State, e: Event)
    requires e.Submit? && Enabled(s, e)
    ensures var u := Step(s, e);
            |u.tcps| == |s.tcps| && forall t :: 0 <= t < |s.tcps| ==> u.tcps[t].closing == s.tcps[t].closing
  {
  }

  // ----- The owners and their writes -----

  datatype WriteAnswer = WrongLoop | Refused(status: int) | Suspends

  /** The TCP and pipe states of one loop, and the write awaiters that have used them. */
  class Streams {
    var tcps: seq<Tcp>
    var pipes: seq<Pipe>
    var writes: seq<Write>
    ghost var m: State

    ghost predicate Valid()
      reads this
    {
      Inv(m) && m.tcps == tcps && m.pipes == pipes && m.writes == writes
    }

    constructor ()
      ensures Valid() && m == Init
    {
      tcps, pipes, writes := [], [], [];
      m := Init;
    }

    method AddTcp() returns (t: nat)
      requires Valid()
      modifies this
      ensures Valid() && m == Step(old(m), NewTcp)
      ensures t == |old(tcps)| && tcps == old(tcps) + [Tcp(false, false, false)]
    {
      StepKeepsInv(m, NewTcp);
      m := Step(m, NewTcp);
      t := |tcps|;
      tcps := tcps + [Tcp(false, false, false)];
    }

    method AddPipe(ipc: bool) returns (p: nat)
      requires Valid()
      modifies this
      ensures Valid() && m == Step(old(m), NewPipe(ipc))
      ensures p == |old(pipes)| && pipes == old(pipes) + [Pipe(ipc, false, false)]
    {
      StepKeepsInv(m, NewPipe(ipc));
      m := Step(m, NewPipe(ipc));
      p := |pipes|;
      pipes := pipes + [Pipe(ipc, false, false)];
    }

    /** A read or a write of the TCP owner itself begins or ends. */
    method SetTcpIo(t: nat, active: bool)
      requires Valid() && Enabled(m, TcpIo(t, active))
      modifies this
      ensures Valid() && m == Step(old(m), TcpIo(t, active))
      ensures tcps == old(tcps)[t := old(tcps)[t].(ioActive := active)]
    {
      StepKeepsInv(m, TcpIo(t, active));
      m := Step(m, TcpIo(t, active));
      tcps := tcps[t := tcps[t].(ioActive := active)];
    }

    method BeginClosePipe(p: nat)
      requires Valid() && p < |pipes|
      modifies this
      ensures Valid() && m == Step(old(m), ClosePipe(p))
      ensures pipes == old(pipes)[p := old(pipes)[p].(closing := true)]
    {
      StepKeepsInv(m, ClosePipe(p));
      m := Step(m, ClosePipe(p));
      pipes := pipes[p := pipes[p].(closing := true)];
    }

    method AcquireExport(t: nat) returns (status: int)
      requires t < |tcps|
      modifies this`tcps
      ensures status == (if old(tcps)[t].closing then UV_EBADF else if old(tcps)[t].exportActive then UV_EBUSY else 0)
      ensures tcps == (if status < 0 then old(tcps) else old(tcps)[t := old(tcps)[t].(exportActive := true)])
    {
      if tcps[t].closing {
        return UV_EBADF;
      }
      if tcps[t].exportActive {
        return UV_EBUSY;
      }
      tcps := tcps[t := tcps[t].(exportActive := true)];
      status := 0;
    }

    method ReleaseExport(t: nat)
      requires t < |tcps|
      modifies this`tcps
      ensures tcps == old(tcps)[t := old(tcps)[t].(exportActive := false)]
    {
      tcps := tcps[t := tcps[t].(exportActive := false)];
    }

    /** The checks of `await_suspend` that come before the pin. */
    method CheckWrite(p: nat, source: Option<nat>, stopRequested: bool) returns (status: int)
      requires p < |pipes|
      ensures status == (if pipes[p].closing then UV_EBADF else if stopRequested then UV_ECANCELED
                         else if source.Some? && !pipes[p].ipc then UV_EINVAL
                         else if pipes[p].writeActive then UV_EBUSY else 0)
    {
      if pipes[p].closing {
        return UV_EBADF;
      }
      if stopRequested {
        return UV_ECANCELED;
      }
      if source.Some? && !pipes[p].ipc {
        return UV_EINVAL;
      }
      if pipes[p].writeActive {
        return UV_EBUSY;
      }
      status := 0;
    }

    /** `stream_write_awaiter::await_suspend`. */
    method AwaitWrite(p: nat, source: Option<nat>, sameLoop: bool, sourceLoop: bool, stopRequested: bool,
                      submitStatus: int)
      returns (answer: WriteAnswer)
      requires Valid() && Enabled(m, Submit(p, source, sameLoop, sourceLoop, stopRequested, submitStatus))
      modifies this
      ensures Valid() && m == Step(old(m), Submit(p, source, sameLoop, sourceLoop, stopRequested, submitStatus))
      ensures answer == (if old(pipes)[p].closing then Refused(UV_EBADF)
                         else if !sameLoop || (source.Some? && !sourceLoop) then WrongLoop
                         else if stopRequested then Refused(UV_ECANCELED)
                         else if source.Some? && !old(pipes)[p].ipc then Refused(UV_EINVAL)
                         else if old(pipes)[p].writeActive then Refused(UV_EBUSY)
                         else if source.Some? && old(tcps)[source.value].closing then Refused(UV_EBADF)
                         else if source.Some? && old(tcps)[source.value].exportActive then Refused(UV_EBUSY)
                         else if submitStatus < 0 then Refused(submitStatus) else Suspends)
      ensures answer != Suspends ==> tcps == old(tcps) && pipes == old(pipes)
      ensures answer == WrongLoop ==> writes == old(writes)
      ensures answer.Refused? ==>
                |writes| == |old(writes)| + 1 && writes[..|old(writes)|] == old(writes)
                && writes[|old(writes)|].status == answer.status && !writes[|old(writes)|].inFlight
      ensures answer == Suspends ==>
                && pipes == old(pipes)[p := old(pipes)[p].(writeActive := true)]
                && tcps == (if source == None then old(tcps)
                            else old(tcps)[source.value := old(tcps)[source.value].(exportActive := true)])
                && writes == old(writes) +
                   [Write(p, source, submitStatus, source.Some?, true, true, if source.Some? then 1 else 0, 0)]
    {
      ghost var e := Submit(p, source, sameLoop, sourceLoop, stopRequested, submitStatus);
      SubmitKeepsInv(m, e);
      m := Step(m, e);
      if !pipes[p].closing && (!sameLoop || (source.Some? && !sourceLoop)) {
        return WrongLoop;
      }
      var status := CheckWrite(p, source, stopRequested);
      if status >= 0 && source.Some? {
        status := AcquireExport(source.value);
      }
      var w := Write(p, source, status, false, false, false, 0, 0);
      if status < 0 {
        writes := writes + [w];
        return Refused(status);
      }
      if source.Some? {
        w := w.(pinAcquired := true, acquires := w.acquires + 1);
      }
      answer := SubmitNative(p, w, submitStatus);
    }

    /** The pipe's slot is claimed and `uv_write2` is called; a refusal gives slot and pin back. */
    method SubmitNative(p: nat, w: Write, submitStatus: int) returns (answer: WriteAnswer)
      requires p < |pipes| && (w.source.Some? ==> w.source.value < |tcps|) && (w.pinAcquired ==> w.source.Some?)
      modifies this`pipes, this`tcps, this`writes
      ensures answer == (if submitStatus < 0 then Refused(submitStatus) else Suspends)
      ensures submitStatus >= 0 ==>
                && pipes == old(pipes)[p := old(pipes)[p].(writeActive := true)] && tcps == old(tcps)
                && writes == old(writes) + [w.(status := submitStatus, inFlight := true, submitted := true)]
      ensures submitStatus < 0 ==>
                var (s, released) := ReleasePin(State(old(tcps), old(pipes), [], []), w.(status := submitStatus));
                && pipes == old(pipes)[p := old(pipes)[p].(writeActive := false)] && tcps == s.tcps
                && writes == old(writes) + [released]
    {
      pipes := pipes[p := pipes[p].(writeActive := true)];
      var submitted := w.(status := submitStatus);
      if submitStatus < 0 {
        pipes := pipes[p := pipes[p].(writeActive := false)];
        if submitted.pinAcquired {
          ReleaseExport(submitted.source.value);
          submitted := submitted.(pinAcquired := false, releases := submitted.releases + 1);
        }
        writes := writes + [submitted];
        return Refused(submitStatus);
      }
      writes := writes + [submitted.(inFlight := true, submitted := true)];
      answer := Suspends;
    }

    /** `on_write`: the slot and the pin are given back before the task resumes. */
    method OnWrite(i: nat, status: int)
      requires Valid() && Enabled(m, Completed(i, status))
      modifies this
      ensures Valid() && m == Step(old(m), Completed(i, status))
      ensures !pipes[writes[i].pipe].writeActive
      ensures writes[i].source.Some? ==> !tcps[writes[i].source.value].exportActive
      ensures writes[i].status == status && !writes[i].inFlight
      ensures m.resumptions == old(m.resumptions) + [Resumption(i, status, false, false)]
    {
      assert WriteInv(m, m.writes[i]);
      CompletedKeepsInv(m, i, status);
      m := Step(m, Completed(i, status));
      var w := writes[i];
      pipes := pipes[w.pipe := pipes[w.pipe].(writeActive := false)];
      w := w.(status := status, inFlight := false);
      if w.pinAcquired {
        ReleaseExport(w.source.value);
        w := w.(pinAcquired := false, releases := w.releases + 1);
      }
      writes := writes[i := w];
    }

    /** A TCP owner's close request, refused over its own I/O and while its handle is being passed. */
    method RequestCloseTcp(t: nat) returns (busy: bool)
      requires Valid() && t < |tcps|
      modifies this
      ensures Valid() && m == Step(old(m), CloseTcp(t))
      ensures busy <==> tcps[t].ioActive || exists w :: Pins(m, w, t)
      ensures busy ==> m == old(m)
      ensures !busy ==> tcps == old(tcps)[t := old(tcps)[t].(closing := true)]
      ensures pipes == old(pipes) && writes == old(writes)
    {
      StepKeepsInv(m, CloseTcp(t));
      assert forall w :: 0 <= w < |m.writes| ==> WriteInv(m, m.writes[w]);
      m := Step(m, CloseTcp(t));
      busy := tcps[t].exportActive || tcps[t].ioActive;
      if !busy {
        tcps := tcps[t := tcps[t].(closing := true)];
      }
    }
  }
}
