/**
`resource_scope`: two-phase, retryable, suspendable cleanup over a vector of adopted records.
Listeners stop admission first; connections, sockets and files close afterwards. A failed
attempt leaves the records it did not retire for the next one.

A record is identified by its position in the vector, which it keeps until the vector is cleared.
*/
module ResourceScope {

  import opened Options

  /** `Connection` stands for TCP, pipe and UDP owners alike. */
  datatype Kind = Listener | Connection | File

  /** `closed` is set for a resource whose native close had completed before adoption, with whether it failed. */
  datatype Record = Record(kind: Kind, released: bool, closed: Option<bool>)

  /** Nothing native is left to close. */
  predicate Done(r: Record) {
    r.released || r.closed.Some?
  }

  datatype Cleanup = Open | Active | Interrupted | Finished

  datatype CleanupPhase = StopAdmission | CloseResources

  /** Where an active attempt is; `awaiting` while it is suspended in a record's close. */
  datatype Position = Position(phase: CleanupPhase, index: nat, awaiting: bool)

  /** A record began cleanup; `listenersLeft` says whether a listener record remained at that time. */
  datatype Start = Start(record: nat, listenersLeft: bool)

  datatype State = State(
    cleanup: Cleanup,
    resources: seq<Option<Record>>,
    position: Position,
    // history; native closes include those completed before adoption
    adopted: seq<Kind>,
    begun: seq<Start>,
    nativeCloses: seq<nat>,
    retired: seq<nat>)

  datatype Event =
    | Own(kind: Kind, sameLoop: bool, closed: Option<bool>)
    | Finish(sameLoop: bool)
    | Advance(busy: bool)
    | Closed(failed: bool)

  const Init: State := State(Open, [], Position(StopAdmission, 0, false), [], [], [], [])

  function PhaseOf(kind: Kind): CleanupPhase {
    if kind == Listener then StopAdmission else CloseResources
  }

  predicate Enabled(s: State, e: Event) {
    match e
    case Own(_, _, _) => true
    case Finish(_) => true
    case Advance(_) => s.cleanup == Active && !s.position.awaiting
    case Closed(_) => s.cleanup == Active && s.position.awaiting && s.position.index < |s.resources|
                      && s.resources[s.position.index].Some?
  }

  predicate ListenersLeft(resources: seq<Option<Record>>) {
    exists i :: 0 <= i < |resources| && resources[i].Some? && resources[i].value.kind == Listener
  }

  function Retire(s: State): State
    requires s.position.index < |s.resources|
  {
    var i := s.position.index;
    s.(resources := s.resources[i := None], retired := s.retired + [i],
       position := s.position.(index := i + 1, awaiting := false))
  }

  /** A file whose close has failed gives up its owner and fails the attempt; its record is retired by the next one. */
  function Interrupt(s: State, record: Record): State
    requires s.position.index < |s.resources|
  {
    s.(cleanup := Interrupted, resources := s.resources[s.position.index := Some(record.(released := true))],
       position := s.position.(awaiting := false))
  }

  /** A record's `finish()` up to its first suspension; closing a closed resource does not suspend. */
  function BeginRecord(s: State, record: Record, busy: bool): State
    requires s.position.index < |s.resources|
  {
    var i := s.position.index;
    if record.released then Retire(s)
    else if record.kind != Listener && busy then s.(cleanup := Interrupted)
    else
      var t := s.(begun := s.begun + [Start(i, ListenersLeft(s.resources))]);
      if record.closed == None then t.(position := t.position.(awaiting := true))
      else if record.kind == File && record.closed.value then Interrupt(t, record)
      else Retire(t)
  }

  /** One turn of the two nested loops of `finish_impl`. */
  function AdvanceStep(s: State, busy: bool): State {
    var Position(phase, i, _) := s.position;
    if i >= |s.resources| then
      if phase == StopAdmission then s.(position := Position(CloseResources, 0, false))
      else s.(resources := [], cleanup := Finished)
    else match s.resources[i]
      case None => s.(position := s.position.(index := i + 1))
      case Some(record) =>
        if PhaseOf(record.kind) != phase then s.(position := s.position.(index := i + 1))
        else BeginRecord(s, record, busy)
  }

  /** The record's close completed. An error on a file is terminal for the file, not for the record. */
  function ClosedStep(s: State, failed: bool): State
    requires Enabled(s, Closed(failed))
  {
    var i := s.position.index;
    var record := s.resources[i].value;
    var t := s.(nativeCloses := s.nativeCloses + [i]);
    if record.kind == File && failed then Interrupt(t, record) else Retire(t)
  }

  function Step(s: State, e: Event): State {
    if !Enabled(s, e) then s else
    match e
    case Own(kind, sameLoop, closed) =>
      if s.cleanup != Open || !sameLoop then s
      else s.(resources := s.resources + [Some(Record(kind, false, closed))], adopted := s.adopted + [kind],
              nativeCloses := if closed.Some? then s.nativeCloses + [|s.adopted|] else s.nativeCloses)
    case Finish(sameLoop) =>
      if !sameLoop || s.cleanup == Active || s.cleanup == Finished then s
      else s.(cleanup := Active, position := Position(StopAdmission, 0, false))
    case Advance(busy) => AdvanceStep(s, busy)
    case Closed(failed) => ClosedStep(s, failed)
  }

  function Run(s: State, es: seq<Event>): State {
    if es == [] then s else Step(Run(s, es[..|es| - 1]), es[|es| - 1])
  }

  // ----- The cleanup order -----

  /** The first `n` records of one phase, in order of adoption. */
  function OfPhase(adopted: seq<Kind>, phase: CleanupPhase, n: nat): seq<nat>
    requires n <= |adopted|
  {
    if n == 0 then []
    else OfPhase(adopted, phase, n - 1) + (if PhaseOf(adopted[n - 1]) == phase then [n - 1] else [])
  }

  /** Every listener, then everything else, each in order of adoption. */
  function CleanupOrder(adopted: seq<Kind>): seq<nat> {
    OfPhase(adopted, StopAdmission, |adopted|) + OfPhase(adopted, CloseResources, |adopted|)
  }

  lemma {:induction false} OfPhaseMembers(adopted: seq<Kind>, phase: CleanupPhase, n: nat)
    requires n <= |adopted|
    ensures forall i: nat :: i in OfPhase(adopted, phase, n) <==> i < n && PhaseOf(adopted[i]) == phase
    ensures forall i, j :: 0 <= i < j < |OfPhase(adopted, phase, n)| ==>
              OfPhase(adopted, phase, n)[i] < OfPhase(adopted, phase, n)[j]
  {
    if n > 0 {
      OfPhaseMembers(adopted, phase, n - 1);
      var front := OfPhase(adopted, phase, n - 1);
      forall i | 0 <= i < |front|
        ensures front[i] < n - 1
      {
        assert front[i] in front;
      }
    }
  }

  /** A record is at the place in the order that its predecessors of the same phase leave it. */
  lemma {:induction false} OfPhasePlace(adopted: seq<Kind>, phase: CleanupPhase, i: nat, n: nat)
    requires i < n <= |adopted|
    ensures OfPhase(adopted, phase, i) <= OfPhase(adopted, phase, n)
    ensures PhaseOf(adopted[i]) == phase ==>
              |OfPhase(adopted, phase, i)| < |OfPhase(adopted, phase, n)|
              && OfPhase(adopted, phase, n)[|OfPhase(adopted, phase, i)|] == i
    decreases n
  {
    if i < n - 1 {
      OfPhasePlace(adopted, phase, i, n - 1);
    }
  }

  /** How much of the order lies before a position of the two loops. */
  function Before(adopted: seq<Kind>, phase: CleanupPhase, index: nat): nat
    requires index <= |adopted|
  {
    if phase == StopAdmission then |OfPhase(adopted, StopAdmission, index)|
    else |OfPhase(adopted, StopAdmission, |adopted|)| + |OfPhase(adopted, CloseResources, index)|
  }

  lemma OrderAt(adopted: seq<Kind>, i: nat)
    requires i < |adopted|
    ensures var phase := PhaseOf(adopted[i]);
            && Before(adopted, phase, i) < |CleanupOrder(adopted)|
            && CleanupOrder(adopted)[Before(adopted, phase, i)] == i
            && Before(adopted, phase, i + 1) == Before(adopted, phase, i) + 1
  {
    OfPhasePlace(adopted, PhaseOf(adopted[i]), i, |adopted|);
  }

  // ----- The invariant -----

  predicate Live(s: State) {
    && |s.resources| == |s.adopted|
    && (forall i :: 0 <= i < |s.adopted| ==>
          (s.resources[i].Some? <==> i !in s.retired)
          && (s.resources[i].Some? ==> s.resources[i].value.kind == s.adopted[i])
          && (i in s.nativeCloses <==> s.resources[i] == None || Done(s.resources[i].value))
          && (s.resources[i].Some? && s.resources[i].value.released ==> s.adopted[i] == File))
  }

  predicate Distinct(ids: seq<nat>) {
    forall i, j :: 0 <= i < j < |ids| ==> ids[i] != ids[j]
  }

  predicate PositionMatches(s: State) {
    && s.position.index <= |s.adopted|
    && Before(s.adopted, s.position.phase, s.position.index) <= |s.retired|
    && (s.position.awaiting ==>
          s.position.index < |s.resources| && s.resources[s.position.index].Some?
          && !Done(s.resources[s.position.index].value)
          && PhaseOf(s.resources[s.position.index].value.kind) == s.position.phase)
  }

  predicate Inv(s: State) {
    && s.retired <= CleanupOrder(s.adopted)
    && Distinct(s.nativeCloses)
    && (forall i :: 0 <= i < |s.nativeCloses| ==> s.nativeCloses[i] < |s.adopted|)
    && (forall i :: 0 <= i < |s.begun| ==>
          s.begun[i].record < |s.adopted| && (s.begun[i].listenersLeft ==> s.adopted[s.begun[i].record] == Listener))
    && (s.cleanup == Open ==> s.retired == [])
    && (s.cleanup == Finished ==>
          s.resources == [] && s.retired == CleanupOrder(s.adopted)
          && forall i :: 0 <= i < |s.adopted| ==> i in s.nativeCloses)
    && (s.cleanup != Finished ==> Live(s))
    && (s.cleanup == Active ==> PositionMatches(s))
  }

  /** An unretired record that the loops have come to is the next one of the order. */
  lemma NextInOrder(s: State)
    requires Inv(s) && s.cleanup == Active && s.position.index < |s.resources|
    requires s.resources[s.position.index].Some?
    requires PhaseOf(s.resources[s.position.index].value.kind) == s.position.phase
    ensures s.retired + [s.position.index] <= CleanupOrder(s.adopted)
    ensures Before(s.adopted, s.position.phase, s.position.index + 1) == |s.retired| + 1
  {
    var i := s.position.index;
    OrderAt(s.adopted, i);
    assert forall k :: 0 <= k < |s.retired| ==> s.retired[k] != i;
  }

  /** Retiring the record the loops have come to, after its native close if it still needed one. */
  lemma RetireKeepsInv(s: State)
    requires Inv(s) && s.cleanup == Active && s.position.index < |s.resources|
    requires s.resources[s.position.index].Some?
    requires PhaseOf(s.resources[s.position.index].value.kind) == s.position.phase
    ensures var i := s.position.index;
            Inv(Retire(if Done(s.resources[i].value) then s else s.(nativeCloses := s.nativeCloses + [i])))
  {
    NextInOrder(s);
    var i := s.position.index;
    var t := Retire(if Done(s.resources[i].value) then s else s.(nativeCloses := s.nativeCloses + [i]));
    RetireKeepsLive(s);
    if !Done(s.resources[i].value) {
      DistinctOneMore(s.nativeCloses, i);
    }
    assert Distinct(t.nativeCloses);
    assert t.retired == s.retired + [i];
  }

  lemma DistinctOneMore(ids: seq<nat>, id: nat)
    requires Distinct(ids) && id !in ids
    ensures Distinct(ids + [id])
  {
  }

  lemma RetireKeepsLive(s: State)
    requires Live(s) && s.position.index < |s.resources| && s.resources[s.position.index].Some?
    ensures var i := s.position.index;
            Live(Retire(if Done(s.resources[i].value) then s else s.(nativeCloses := s.nativeCloses + [i])))
  {
    var i := s.position.index;
    var t := Retire(if Done(s.resources[i].value) then s else s.(nativeCloses := s.nativeCloses + [i]));
    forall k | 0 <= k < |t.adopted|
      ensures (t.resources[k].Some? <==> k !in t.retired)
      ensures (k in t.nativeCloses <==> t.resources[k] == None || Done(t.resources[k].value))
    {
      assert k in t.retired <==> k in s.retired || k == i;
      assert k in t.nativeCloses <==> k in s.nativeCloses || k == i;
    }
  }

  lemma ClosedKeepsInv(s: State, failed: bool)
    requires Inv(s) && Enabled(s, Closed(failed))
    ensures Inv(Step(s, Closed(failed)))
  {
    var i := s.position.index;
    var t := Step(s, Closed(failed));
    if s.resources[i].value.kind == File && failed {
      forall k | 0 <= k < |t.adopted|
        ensures (k in t.nativeCloses <==> t.resources[k] == None || Done(t.resources[k].value))
      {
        assert k in t.nativeCloses <==> k in s.nativeCloses || k == i;
      }
      assert Live(t);
    } else {
      RetireKeepsInv(s);
    }
  }

  /** Nothing but listeners are met before the second phase, and no listener is left in it. */
  lemma NoListenerLeftInSecondPhase(s: State)
    requires Inv(s) && s.cleanup == Active && s.position.phase == CloseResources
    ensures !ListenersLeft(s.resources)
  {
    var listeners := OfPhase(s.adopted, StopAdmission, |s.adopted|);
    OfPhaseMembers(s.adopted, StopAdmission, |s.adopted|);
    assert forall k :: 0 <= k < |listeners| ==> s.retired[k] == listeners[k];
    forall i | 0 <= i < |s.resources| && s.adopted[i] == Listener
      ensures s.resources[i] == None
    {
      assert i in listeners;
    }
  }

  lemma AdvanceKeepsInv(s: State, busy: bool)
    requires Inv(s) && Enabled(s, Advance(busy))
    ensures Inv(Step(s, Advance(busy)))
  {
    var Position(phase, i, _) := s.position;
    if i >= |s.resources| {
      EndOfPhaseKeepsInv(s, busy);
    } else if s.resources[i] == None || PhaseOf(s.adopted[i]) != phase {
      SkipKeepsInv(s);
    } else {
      BeginKeepsInv(s, busy);
    }
  }

  lemma EndOfPhaseKeepsInv(s: State, busy: bool)
    requires Inv(s) && Enabled(s, Advance(busy)) && s.position.index >= |s.resources|
    ensures Inv(Step(s, Advance(busy)))
  {
    if s.position.phase == CloseResources {
      assert s.retired == CleanupOrder(s.adopted);
      EverythingRetired(s);
    }
  }

  lemma BeginKeepsInv(s: State, busy: bool)
    requires Inv(s) && Enabled(s, Advance(busy)) && s.position.index < |s.resources|
    requires s.resources[s.position.index].Some? && PhaseOf(s.adopted[s.position.index]) == s.position.phase
    ensures Inv(BeginRecord(s, s.resources[s.position.index].value, busy))
  {
    var i := s.position.index;
    var record := s.resources[i].value;
    if s.position.phase == CloseResources {
      NoListenerLeftInSecondPhase(s);
    }
    var t := s.(begun := s.begun + [Start(i, ListenersLeft(s.resources))]);
    assert record.kind != Listener ==> !ListenersLeft(s.resources);
    assert Inv(t);
    if record.released {
      RetireKeepsInv(s);
    } else if record.closed.Some? && !(record.kind != Listener && busy) {
      if record.kind == File && record.closed.value {
        InterruptKeepsInv(t);
      } else {
        RetireKeepsInv(t);
      }
    }
  }

  /** A file that fails the attempt had its native close already. */
  lemma InterruptKeepsInv(s: State)
    requires Inv(s) && s.cleanup == Active && s.position.index < |s.resources| && s.resources[s.position.index].Some?
    requires s.resources[s.position.index].value.kind == File && Done(s.resources[s.position.index].value)
    ensures Inv(Interrupt(s, s.resources[s.position.index].value))
  {
    var t := Interrupt(s, s.resources[s.position.index].value);
    assert Live(t);
  }

  lemma EverythingRetired(s: State)
    requires Inv(s) && s.cleanup == Active && s.retired == CleanupOrder(s.adopted)
    ensures forall i :: 0 <= i < |s.adopted| ==> i in s.nativeCloses
  {
    forall i | 0 <= i < |s.adopted|
      ensures i in s.nativeCloses
    {
      OrderAt(s.adopted, i);
      assert i in s.retired;
    }
  }

  /** Passing over an empty slot or a record of the other phase. */
  lemma SkipKeepsInv(s: State)
    requires Inv(s) && s.cleanup == Active && s.position.index < |s.resources|
    requires s.resources[s.position.index] == None || PhaseOf(s.adopted[s.position.index]) != s.position.phase
    requires !s.position.awaiting
    ensures Inv(s.(position := s.position.(index := s.position.index + 1)))
  {
    var i := s.position.index;
    if PhaseOf(s.adopted[i]) == s.position.phase {
      OrderAt(s.adopted, i);
      var place := Before(s.adopted, s.position.phase, i);
      assert i in s.retired;
      var k :| 0 <= k < |s.retired| && s.retired[k] == i;
      OrderDistinct(s.adopted);
      assert k == place;
    }
  }

  lemma OrderDistinct(adopted: seq<Kind>)
    ensures Distinct(CleanupOrder(adopted))
  {
    OfPhaseMembers(adopted, StopAdmission, |adopted|);
    OfPhaseMembers(adopted, CloseResources, |adopted|);
    var a, b := OfPhase(adopted, StopAdmission, |adopted|), OfPhase(adopted, CloseResources, |adopted|);
    assert forall i :: 0 <= i < |a| ==> a[i] in a && a[i] !in b;
  }

  lemma OwnKeepsInv(s: State, kind: Kind, closed: Option<bool>)
    requires Inv(s) && s.cleanup == Open
    ensures Inv(Step(s, Own(kind, true, closed)))
  {
    var t, n := Step(s, Own(kind, true, closed)), |s.adopted|;
    assert n !in s.nativeCloses;
    forall i | 0 <= i < |t.adopted|
      ensures i in t.nativeCloses <==> t.resources[i] == None || Done(t.resources[i].value)
    {
      assert i in t.nativeCloses <==> i in s.nativeCloses || (i == n && closed.Some?);
    }
    assert Live(t);
  }

  lemma StepKeepsInv(s: State, e: Event)
    requires Inv(s)
    ensures Inv(Step(s, e))
  {
    if Enabled(s, e) {
      match e
      case Own(kind, sameLoop, closed) =>
        if s.cleanup == Open && sameLoop {
          OwnKeepsInv(s, kind, closed);
        }
      case Finish(_) =>
      case Advance(busy) => AdvanceKeepsInv(s, busy);
      case Closed(failed) => ClosedKeepsInv(s, failed);
    }
  }

  lemma {:induction false} RunKeepsInv(es: seq<Event>)
    ensures Inv(Run(Init, es))
  {
    if es != [] {
      RunKeepsInv(es[..|es| - 1]);
      StepKeepsInv(Run(Init, es[..|es| - 1]), es[|es| - 1]);
    }
  }

  // ----- Theorems over every run -----

  /**
  Across any number of failing and retried attempts, what has been retired is a prefix of one
  fixed order, all listeners and then everything else in order of adoption. The vector keeps
  exactly the records not retired yet, each in its own place, until everything is retired.
  */
  lemma {:induction false} RetirementFollowsTheOrder(es: seq<Event>)
    ensures var s := Run(Init, es);
            && s.retired <= CleanupOrder(s.adopted)
            && (s.cleanup != Finished ==>
                  |s.resources| == |s.adopted|
                  && forall i :: 0 <= i < |s.adopted| ==> (s.resources[i].Some? <==> i !in s.retired))
            && (s.cleanup == Finished ==> s.retired == CleanupOrder(s.adopted) && s.resources == [])
  {
    RunKeepsInv(es);
  }

  /**
  No connection, socket or file begins cleanup while a listener record remains, and no record is
  retired that has not begun it.
  */
  lemma {:induction false} ListenersStopAdmissionFirst(es: seq<Event>)
    ensures var s := Run(Init, es);
            forall i :: 0 <= i < |s.begun| && s.begun[i].listenersLeft ==>
              s.begun[i].record < |s.adopted| && s.adopted[s.begun[i].record] == Listener
    ensures forall i :: i in Run(Init, es).retired ==> Begun(Run(Init, es), i)
  {
    RunKeepsInv(es);
    RunKeepsBegun(es);
  }

  /**
  No record has more than one completed native close, counting one from before its adoption, also
  when that completion reported an error and the attempt was retried; and every retired record
  has had one.
  */
  lemma {:induction false} NativeCloseCompletesOnce(es: seq<Event>)
    ensures var s := Run(Init, es);
            && Distinct(s.nativeCloses)
            && (s.cleanup != Finished ==>
                  forall i :: 0 <= i < |s.adopted| && i in s.retired ==> i in s.nativeCloses)
            && (s.cleanup == Finished ==> forall i :: 0 <= i < |s.adopted| ==> i in s.nativeCloses)
  {
    RunKeepsInv(es);
    var s := Run(Init, es);
    if s.cleanup != Finished {
      assert forall i :: 0 <= i < |s.adopted| && i in s.retired ==> s.resources[i] == None;
    }
  }

  /** While an attempt is under way, adoption and other attempts are refused, so the vector is not resized. */
  lemma {:induction false} ActiveAttemptIsUndisturbed(s: State, es: seq<Event>)
    requires s.cleanup == Active
    requires forall i :: 0 <= i < |es| ==> es[i].Own? || es[i].Finish?
    ensures Run(s, es) == s
  {
    if es != [] {
      ActiveAttemptIsUndisturbed(s, es[..|es| - 1]);
      assert es[|es| - 1].Own? || es[|es| - 1].Finish?;
    }
  }

  /**
  Once the first attempt has begun, nothing is adopted any more, and whatever the attempts
  themselves do, the vector keeps its length until it is cleared at the end.
  */
  lemma {:induction false} SealedVectorIsNotResized(s: State, es: seq<Event>)
    requires Inv(s) && s.cleanup != Open
    ensures var t := Run(s, es);
            && Inv(t) && t.cleanup != Open && t.adopted == s.adopted
            && (t.cleanup != Finished && s.cleanup != Finished ==> |t.resources| == |s.resources|)
            && (t.cleanup == Finished ==> t.resources == [])
  {
    if es != [] {
      var front, e := es[..|es| - 1], es[|es| - 1];
      SealedVectorIsNotResized(s, front);
      StepKeepsInv(Run(s, front), e);
      SealedStep(Run(s, front), e);
    }
  }

  lemma SealedStep(s: State, e: Event)
    requires s.cleanup != Open
    ensures Step(s, e).cleanup != Open && Step(s, e).adopted == s.adopted
    ensures s.cleanup == Finished ==> Step(s, e) == s
  {
  }

  lemma RunOneMore(s: State, es: seq<Event>, e: Event)
    ensures Run(s, es + [e]) == Step(Run(s, es), e)
  {
    assert (es + [e])[..|es|] == es;
  }

  lemma {:induction false} RunConcat(s: State, a: seq<Event>, b: seq<Event>)
    ensures Run(s, a + b) == Run(Run(s, a), b)
    decreases |b|
  {
    if b == [] {
      assert a + b == a;
    } else {
      var front := b[..|b| - 1];
      assert (a + b)[..|a + b| - 1] == a + front;
      RunConcat(s, a, front);
    }
  }

  /** The record has begun its cleanup. */
  predicate Begun(s: State, i: nat) {
    exists k :: 0 <= k < |s.begun| && s.begun[k].record == i
  }

  predicate BegunFirst(s: State) {
    && (forall i :: i in s.retired ==> Begun(s, i))
    && (s.cleanup != Finished ==>
          forall i :: 0 <= i < |s.resources| && s.resources[i].Some? && s.resources[i].value.released ==> Begun(s, i))
    && (s.cleanup == Active && s.position.awaiting ==> Begun(s, s.position.index))
  }

  lemma BegunStays(s: State, t: State, i: nat)
    requires Begun(s, i) && s.begun <= t.begun
    ensures Begun(t, i)
  {
    var k :| 0 <= k < |s.begun| && s.begun[k].record == i;
    assert t.begun[k].record == i;
  }

  lemma StepKeepsBegun(s: State, e: Event)
    requires Inv(s) && BegunFirst(s)
    ensures BegunFirst(Step(s, e))
  {
    if Enabled(s, e) {
      match e
      case Own(_, _, _) => SameBegun(s, Step(s, e));
      case Finish(_) => SameBegun(s, Step(s, e));
      case Advance(busy) => AdvanceKeepsBegun(s, busy);
      case Closed(failed) => ClosedKeepsBegun(s, failed);
    }
  }

  /** Nothing is retired or given up, and nobody waits who did not before. */
  lemma SameBegun(s: State, t: State)
    requires BegunFirst(s) && s.begun <= t.begun && t.retired == s.retired
    requires t.cleanup != Finished ==>
               s.cleanup != Finished && |s.resources| <= |t.resources| && t.resources[..|s.resources|] == s.resources
    requires t.cleanup != Finished ==>
               forall i :: |s.resources| <= i < |t.resources| && t.resources[i].Some? ==> !t.resources[i].value.released
    requires t.cleanup == Active && t.position.awaiting ==> Begun(t, t.position.index)
    ensures BegunFirst(t)
  {
    forall i | Begun(s, i)
      ensures Begun(t, i)
    {
      BegunStays(s, t, i);
    }
    if t.cleanup != Finished {
      forall i | 0 <= i < |s.resources|
        ensures t.resources[i] == s.resources[i]
      {
        assert t.resources[..|s.resources|][i] == t.resources[i];
      }
    }
  }

  lemma AdvanceKeepsBegun(s: State, busy: bool)
    requires Inv(s) && BegunFirst(s) && Enabled(s, Advance(busy))
    ensures BegunFirst(Step(s, Advance(busy)))
  {
    var Position(phase, i, _) := s.position;
    if i < |s.resources| && s.resources[i].Some? && PhaseOf(s.resources[i].value.kind) == phase {
      BeginKeepsBegun(s, s.resources[i].value, busy);
    } else {
      SameBegun(s, Step(s, Advance(busy)));
    }
  }

  lemma BeginKeepsBegun(s: State, record: Record, busy: bool)
    requires Inv(s) && BegunFirst(s) && s.cleanup == Active && s.position.index < |s.resources|
    requires s.resources[s.position.index] == Some(record)
    requires !s.position.awaiting
    ensures BegunFirst(BeginRecord(s, record, busy))
  {
    var i := s.position.index;
    if record.released {
      RetireKeepsBegun(s);
    } else if record.kind != Listener && busy {
      SameBegun(s, BeginRecord(s, record, busy));
    } else {
      var t := s.(begun := s.begun + [Start(i, ListenersLeft(s.resources))]);
      assert t.begun[|s.begun|].record == i;
      assert Begun(t, i);
      SameBegun(s, t);
      if record.closed == None {
        SameBegun(t, BeginRecord(s, record, busy));
      } else if record.kind == File && record.closed.value {
        InterruptKeepsBegun(t, record);
      } else {
        RetireKeepsBegun(t);
      }
    }
  }

  lemma RetireKeepsBegun(s: State)
    requires BegunFirst(s) && s.cleanup == Active && s.position.index < |s.resources| && Begun(s, s.position.index)
    ensures BegunFirst(Retire(s))
  {
    var t := Retire(s);
    forall i | Begun(s, i)
      ensures Begun(t, i)
    {
      BegunStays(s, t, i);
    }
  }

  lemma InterruptKeepsBegun(s: State, record: Record)
    requires BegunFirst(s) && s.cleanup == Active && s.position.index < |s.resources| && Begun(s, s.position.index)
    ensures BegunFirst(Interrupt(s, record))
  {
    var t := Interrupt(s, record);
    forall i | Begun(s, i)
      ensures Begun(t, i)
    {
      BegunStays(s, t, i);
    }
  }

  lemma ClosedKeepsBegun(s: State, failed: bool)
    requires BegunFirst(s) && Enabled(s, Closed(failed))
    ensures BegunFirst(Step(s, Closed(failed)))
  {
    var i := s.position.index;
    var t := s.(nativeCloses := s.nativeCloses + [i]);
    BegunStays(s, t, i);
    SameBegun(s, t);
    if s.resources[i].value.kind == File && failed {
      InterruptKeepsBegun(t, s.resources[i].value);
    } else {
      RetireKeepsBegun(t);
    }
  }

  lemma {:induction false} RunKeepsBegun(es: seq<Event>)
    ensures BegunFirst(Run(Init, es))
  {
    if es != [] {
      RunKeepsBegun(es[..|es| - 1]);
      RunKeepsInv(es[..|es| - 1]);
      StepKeepsBegun(Run(Init, es[..|es| - 1]), es[|es| - 1]);
    }
  }

  // ----- The scope object -----

  /** Whether a record's `finish()` ends with the record retired. */
  predicate RetiresNow(record: Record, busy: bool, failed: bool) {
    || record.released
    || (record.kind == Listener)
    || (!busy && !(record.kind == File && (if record.closed.Some? then record.closed.value else failed)))
  }

  datatype AdoptAnswer = Sealed | WrongLoop | Adopted

  /** `Threw` left the scope interrupted; `Rejected` changed nothing. */
  datatype FinishAnswer = Rejected | Threw | Complete

  /** Only slot `i` may differ: it is empty, as before, or given up. */
  predicate OnlySlot(before: seq<Option<Record>>, after: seq<Option<Record>>, i: nat)
    requires i < |before| == |after|
  {
    && after == before[i := after[i]]
    && (after[i] == None || after[i] == before[i] || after[i].value.released)
  }

  lemma OnlySlotKeepsFailures(before: seq<Option<Record>>, after: seq<Option<Record>>, i: nat)
    requires i < |before| == |after| && OnlySlot(before, after, i) && NoClosedFailure(before)
    ensures NoClosedFailure(after)
  {
    assert forall k :: 0 <= k < |after| && k != i ==> after[k] == before[k];
  }

  /** No file was adopted after a failed close of its own, unless its owner has been given up. */
  predicate NoClosedFailure(resources: seq<Option<Record>>) {
    forall i :: 0 <= i < |resources| && resources[i].Some? ==>
      resources[i].value.released || resources[i].value.closed != Some(true)
  }

  /** `resource_scope`. The ghost `m` adds the suspended attempt's position and the history. */
  class Scope {
    var state: Cleanup
    var resources: seq<Option<Record>>
    ghost var m: State

    ghost predicate Valid()
      reads this
    {
      Inv(m) && m.cleanup == state && m.resources == resources
    }

    constructor ()
      ensures Valid() && m == Init
    {
      state, resources := Open, [];
      m := Init;
    }

    /** `own`, of an open resource or of one that is closed already. */
    method Adopt(kind: Kind, sameLoop: bool, closed: Option<bool>) returns (answer: AdoptAnswer)
      requires Valid()
      modifies this
      ensures Valid() && m == Step(old(m), Own(kind, sameLoop, closed))
      ensures answer == (if old(state) != Open then Sealed else if !sameLoop then WrongLoop else Adopted)
      ensures answer == Adopted ==> resources == old(resources) + [Some(Record(kind, false, closed))]
      ensures answer != Adopted ==> m == old(m)
    {
      StepKeepsInv(m, Own(kind, sameLoop, closed));
      m := Step(m, Own(kind, sameLoop, closed));
      if state != Open {
        return Sealed;
      }
      if !sameLoop {
        return WrongLoop;
      }
      resources := resources + [Some(Record(kind, false, closed))];
      answer := Adopted;
    }

    /** The checks at the head of `finish_impl`. */
    method StartAttempt(sameLoop: bool) returns (started: bool)
      requires Valid()
      modifies this
      ensures Valid() && m == Step(old(m), Finish(sameLoop))
      ensures started <==> sameLoop && old(state) != Active && old(state) != Finished
      ensures started ==>
                state == Active && m.position == Position(StopAdmission, 0, false) && resources == old(resources)
      ensures !started ==> m == old(m)
    {
      StepKeepsInv(m, Finish(sameLoop));
      m := Step(m, Finish(sameLoop));
      if !sameLoop || state == Active || state == Finished {
        return false;
      }
      state := Active;
      started := true;
    }

    /** What other tasks try with the scope while an attempt is suspended. */
    method WhileSuspended(actions: seq<Event>)
      requires Valid() && state == Active
      requires forall i :: 0 <= i < |actions| ==> actions[i].Own? || actions[i].Finish?
      modifies this
      ensures Valid() && m == old(m) == Run(old(m), actions)
    {
      ActiveAttemptIsUndisturbed(m, actions);
      for k := 0 to |actions|
        invariant Valid() && m == old(m)
      {
        match actions[k]
        case Own(kind, sameLoop, closed) =>
          var answer := Adopt(kind, sameLoop, closed);
        case Finish(sameLoop) =>
          var started := StartAttempt(sameLoop);
      }
    }

    /**
    One record's `finish()`: false when it throws. `busy` says a borrowed operation has not
    settled, `failed` that a native close completes with an error.
    */
    method FinishRecord(i: nat, busy: bool, failed: bool, during: seq<Event>)
      returns (retired: bool, ghost trace: seq<Event>)
      requires Valid() && state == Active && i < |resources| && resources[i].Some?
      requires m.position == Position(PhaseOf(resources[i].value.kind), i, false)
      requires forall k :: 0 <= k < |during| ==> during[k].Own? || during[k].Finish?
      modifies this
      ensures Valid() && m == Run(old(m), trace)
      ensures |resources| == |old(resources)| && OnlySlot(old(resources), resources, i)
      ensures retired ==> state == Active && resources[i] == None && m.position == old(m.position).(index := i + 1)
      ensures !retired ==> state == Interrupted && resources[i].Some?
      ensures retired <==> RetiresNow(old(resources)[i].value, busy, failed)
    {
      var record := resources[i].value;
      RunOneMore(m, [], Advance(busy));
      trace := [] + [Advance(busy)];
      if record.released || (record.kind != Listener && busy) || record.closed.Some? {
        retired := FinishAtOnce(i, busy);
        return;
      }
      BeginClose(i, busy);
      RunConcat(old(m), trace, during);
      trace := trace + during;
      WhileSuspended(during);
      RunOneMore(old(m), trace, Closed(failed));
      trace := trace + [Closed(failed)];
      retired := CompleteRecord(i, failed);
    }

    /** A record that does not have to suspend. */
    method FinishAtOnce(i: nat, busy: bool) returns (retired: bool)
      requires Valid() && state == Active && i < |resources| && resources[i].Some?
      requires m.position == Position(PhaseOf(resources[i].value.kind), i, false)
      requires var r := resources[i].value; r.released || (r.kind != Listener && busy) || r.closed.Some?
      modifies this
      ensures Valid() && m == Step(old(m), Advance(busy))
      ensures |resources| == |old(resources)| && OnlySlot(old(resources), resources, i)
      ensures retired ==> state == Active && resources[i] == None && m.position == old(m.position).(index := i + 1)
      ensures !retired ==> state == Interrupted && resources[i].Some?
      ensures forall failed :: retired <==> RetiresNow(old(resources)[i].value, busy, failed)
    {
      var record := resources[i].value;
      StepKeepsInv(m, Advance(busy));
      m := Step(m, Advance(busy));
      if !record.released {
        if record.kind != Listener && busy {
          state := Interrupted;
          return false;
        }
        if record.kind == File && record.closed.value {
          resources := resources[i := Some(record.(released := true))];
          state := Interrupted;
          return false;
        }
      }
      resources := resources[i := None];
      retired := true;
    }

    /** The native close is under way and the attempt suspends. */
    method BeginClose(i: nat, busy: bool)
      requires Valid() && state == Active && i < |resources| && resources[i].Some?
      requires m.position == Position(PhaseOf(resources[i].value.kind), i, false)
      requires !Done(resources[i].value) && (resources[i].value.kind != Listener ==> !busy)
      modifies this`m
      ensures Valid() && m == Step(old(m), Advance(busy))
      ensures m.position == old(m.position).(awaiting := true)
    {
      StepKeepsInv(m, Advance(busy));
      m := Step(m, Advance(busy));
    }

    /** The awaited close has completed. */
    method CompleteRecord(i: nat, failed: bool) returns (retired: bool)
      requires Valid() && Enabled(m, Closed(failed)) && m.position.index == i
      modifies this
      ensures Valid() && m == Step(old(m), Closed(failed))
      ensures |resources| == |old(resources)| && OnlySlot(old(resources), resources, i)
      ensures retired <==> !failed || old(resources)[i].value.kind != File
      ensures retired ==> state == Active && resources[i] == None
                          && m.position == old(m.position).(index := i + 1, awaiting := false)
      ensures !retired ==> state == Interrupted && resources[i] == Some(old(resources)[i].value.(released := true))
    {
      StepKeepsInv(m, Closed(failed));
      m := Step(m, Closed(failed));
      var record := resources[i].value;
      if record.kind == File && failed {
        resources := resources[i := Some(record.(released := true))];
        state := Interrupted;
        return false;
      }
      resources := resources[i := None];
      retired := true;
    }

    /** The inner loop of `finish_impl`, over every record of one phase. */
    method FinishPhase(phase: CleanupPhase, busy: nat -> bool, failed: nat -> bool, during: nat -> seq<Event>)
      returns (ok: bool, ghost trace: seq<Event>)
      requires Valid() && state == Active && m.position == Position(phase, 0, false)
      requires forall i: nat, k :: 0 <= k < |during(i)| ==> during(i)[k].Own? || during(i)[k].Finish?
      modifies this
      ensures Valid() && m == Run(old(m), trace) && |resources| == |old(resources)|
      ensures ok ==> state == Active && m.position == Position(phase, |resources|, false)
      ensures !ok ==> state == Interrupted
      ensures (forall i: nat :: !busy(i) && !failed(i)) && NoClosedFailure(old(resources)) ==> ok
      ensures NoClosedFailure(old(resources)) ==> NoClosedFailure(resources)
    {
      trace := [];
      for i := 0 to |resources|
        invariant Valid() && m == Run(old(m), trace) && |resources| == |old(resources)|
        invariant state == Active && m.position == Position(phase, i, false)
        invariant NoClosedFailure(old(resources)) ==> NoClosedFailure(resources)
      {
        ghost var more;
        ok, more := FinishSlot(phase, i, busy(i), failed(i), during(i));
        RunConcat(old(m), trace, more);
        trace := trace + more;
        if !ok {
          return;
        }
      }
      ok := true;
    }

    /** One turn of the inner loop: a record of this phase is finished, anything else is passed over. */
    method FinishSlot(phase: CleanupPhase, i: nat, busy: bool, failed: bool, during: seq<Event>)
      returns (ok: bool, ghost trace: seq<Event>)
      requires Valid() && state == Active && i < |resources| && m.position == Position(phase, i, false)
      requires forall k :: 0 <= k < |during| ==> during[k].Own? || during[k].Finish?
      modifies this
      ensures Valid() && m == Run(old(m), trace) && |resources| == |old(resources)|
      ensures ok ==> state == Active && m.position == Position(phase, i + 1, false)
      ensures !ok ==> state == Interrupted
      ensures !busy && !failed && NoClosedFailure(old(resources)) ==> ok
      ensures NoClosedFailure(old(resources)) ==> NoClosedFailure(resources)
    {
      if resources[i].Some? && PhaseOf(resources[i].value.kind) == phase {
        ok, trace := FinishRecord(i, busy, failed, during);
        if NoClosedFailure(old(resources)) {
          OnlySlotKeepsFailures(old(resources), resources, i);
        }
      } else {
        trace := PassOver(i, busy);
        ok := true;
      }
    }

    method PassOver(i: nat, busy: bool) returns (ghost trace: seq<Event>)
      requires Valid() && state == Active && i < |resources| && m.position.index == i && !m.position.awaiting
      requires resources[i] == None || PhaseOf(resources[i].value.kind) != m.position.phase
      modifies this`m
      ensures Valid() && m == Run(old(m), trace) && state == Active
      ensures m.position == old(m.position).(index := i + 1)
    {
      RunOneMore(m, [], Advance(busy));
      trace := [] + [Advance(busy)];
      StepKeepsInv(m, Advance(busy));
      m := Step(m, Advance(busy));
    }

    /** `finish_impl`: the listeners' phase, then everything else; any throw leaves the scope interrupted. */
    method FinishAll(sameLoop: bool, busy: nat -> bool, failed: nat -> bool, during: nat -> seq<Event>)
      returns (answer: FinishAnswer, ghost trace: seq<Event>)
      requires Valid()
      requires forall i: nat, k :: 0 <= k < |during(i)| ==> during(i)[k].Own? || during(i)[k].Finish?
      modifies this
      ensures Valid() && m == Run(old(m), trace)
      ensures answer == Rejected <==> !sameLoop || old(state) == Active
      ensures answer == Rejected ==> m == old(m)
      ensures answer == Complete ==> state == Finished && resources == [] && m.retired == CleanupOrder(m.adopted)
      ensures answer == Threw ==> state == Interrupted && |resources| == |old(resources)|
      ensures answer != Rejected && (forall i: nat :: !busy(i) && !failed(i)) && NoClosedFailure(old(resources)) ==>
                answer == Complete
    {
      RunOneMore(m, [], Finish(sameLoop));
      trace := [] + [Finish(sameLoop)];
      var wasFinished := state == Finished;
      var started := StartAttempt(sameLoop);
      if !started {
        answer := if sameLoop && wasFinished then Complete else Rejected;
        return;
      }
      var ok: bool;
      ghost var more;
      ok, more := FinishPhase(StopAdmission, busy, failed, during);
      RunConcat(old(m), trace, more);
      trace := trace + more;
      if !ok {
        return Threw, trace;
      }
      ok, more := FinishSecondPhase(busy, failed, during);
      RunConcat(old(m), trace, more);
      trace := trace + more;
      answer := if ok then Complete else Threw;
    }

    /** Everything that is not a listener, and the end of the attempt. */
    method FinishSecondPhase(busy: nat -> bool, failed: nat -> bool, during: nat -> seq<Event>)
      returns (ok: bool, ghost trace: seq<Event>)
      requires Valid() && state == Active && m.position == Position(StopAdmission, |resources|, false)
      requires forall i: nat, k :: 0 <= k < |during(i)| ==> during(i)[k].Own? || during(i)[k].Finish?
      modifies this
      ensures Valid() && m == Run(old(m), trace)
      ensures ok ==> state == Finished && resources == [] && m.retired == CleanupOrder(m.adopted)
      ensures !ok ==> state == Interrupted && |resources| == |old(resources)|
      ensures (forall i: nat :: !busy(i) && !failed(i)) && NoClosedFailure(old(resources)) ==> ok
    {
      RunOneMore(m, [], Advance(false));
      trace := [] + [Advance(false)];
      NextPhase();
      ghost var more;
      ok, more := FinishPhase(CloseResources, busy, failed, during);
      RunConcat(old(m), trace, more);
      trace := trace + more;
      if ok {
        RunOneMore(old(m), trace, Advance(false));
        trace := trace + [Advance(false)];
        Clear();
      }
    }

    method NextPhase()
      requires Valid() && state == Active && m.position == Position(StopAdmission, |resources|, false)
      modifies this`m
      ensures Valid() && m == Step(old(m), Advance(false)) && m.position == Position(CloseResources, 0, false)
    {
      StepKeepsInv(m, Advance(false));
      m := Step(m, Advance(false));
    }

    method Clear()
      requires Valid() && state == Active && m.position == Position(CloseResources, |resources|, false)
      modifies this
      ensures Valid() && m == Step(old(m), Advance(false)) && state == Finished && resources == []
      ensures m.retired == CleanupOrder(m.adopted)
    {
      StepKeepsInv(m, Advance(false));
      m := Step(m, Advance(false));
      resources := [];
      state := Finished;
    }
  }
}
