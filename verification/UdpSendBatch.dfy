/**
`udp_send_batch`: a list of datagrams kept as one flat buffer, with start, count and address
tables and a cache of pointers into the flat buffer for libuv. The flat buffer moves whenever
it reallocates, and the cache must follow.

Storage has an address. A pointer is an address and an offset, and it can be read only while
it points into storage that is still there.
*/
module UdpSendBatch {

  import opened Options

  type Buffer = nat
  type Address = nat

  /** The largest native count, `std::numeric_limits<unsigned int>::max()`. */
  const MAX_COUNT: nat := 4294967295

  datatype Pointer = Null | At(base: nat, offset: nat)

  datatype Datagram = Datagram(buffers: seq<Buffer>, address: Address)

  /** `base` is the address of the flat buffer's storage, 0 before anything was allocated. */
  datatype Batch = Batch(
    raw: seq<Buffer>,
    base: nat,
    capacity: nat,
    starts: seq<nat>,
    counts: seq<nat>,
    addresses: seq<Address>,
    arrays: seq<Pointer>)

  const Empty: Batch := Batch([], 0, 0, [], [], [], [])

  function PointerTo(base: nat, first: nat, count: nat): Pointer {
    if count == 0 then Null else At(base, first)
  }

  /** What libuv finds behind a pointer and a count: nothing at all when the pointer is stale. */
  function Deref(b: Batch, p: Pointer, count: nat): Option<seq<Buffer>> {
    if count == 0 then Some([])
    else if p.At? && p.base == b.base && p.offset + count <= |b.raw| then Some(b.raw[p.offset..p.offset + count])
    else None
  }

  /** The batch as `view()` presents it. */
  function View(b: Batch): seq<Option<Datagram>>
    requires |b.counts| == |b.addresses| == |b.arrays|
  {
    seq(|b.arrays|, i requires 0 <= i < |b.arrays| =>
      var buffers := Deref(b, b.arrays[i], b.counts[i]);
      if buffers == None then None else Some(Datagram(buffers.value, b.addresses[i])))
  }

  // ----- The operations -----

  function Rebuild(b: Batch): Batch
    requires |b.starts| == |b.counts|
  {
    b.(arrays := seq(|b.starts|, i requires 0 <= i < |b.starts| => PointerTo(b.base, b.starts[i], b.counts[i])))
  }

  /** `vector::reserve` on the flat buffer: storage moves to `storage` when it has to grow. */
  function ReserveRaw(b: Batch, n: nat, storage: nat, slack: nat): Batch {
    if n <= b.capacity then b else b.(base := storage, capacity := n + slack)
  }

  function Reserve(b: Batch, bufferCount: nat, storage: nat, slack: nat): Batch
    requires |b.starts| == |b.counts|
  {
    var t := ReserveRaw(b, bufferCount, storage, slack);
    if t.base != b.base then Rebuild(t) else t
  }

  function Append(b: Batch, buffers: seq<Buffer>, address: Address, storage: nat, slack: nat): Batch
    requires |b.starts| == |b.counts|
  {
    var t := ReserveRaw(b, |b.raw| + |buffers|, storage, slack);
    var first := |t.raw|;
    var u := t.(raw := t.raw + buffers, starts := t.starts + [first], counts := t.counts + [|buffers|],
                addresses := t.addresses + [address]);
    if t.base != b.base then Rebuild(u)
    else u.(arrays := u.arrays + [PointerTo(u.base, first, |buffers|)])
  }

  /** Copying allocates exactly what the elements need, and nothing for none. */
  function Copy(b: Batch, storage: nat): Batch
    requires |b.starts| == |b.counts|
  {
    Rebuild(b.(base := if b.raw == [] then 0 else storage, capacity := |b.raw|))
  }

  function Cleared(b: Batch): Batch {
    b.(raw := [], starts := [], counts := [], addresses := [], arrays := [])
  }

  // ----- Well-formed batches -----

  function End(b: Batch, i: nat): nat
    requires i < |b.starts| == |b.counts|
  {
    b.starts[i] + b.counts[i]
  }

  /** Where piece `i` must start: at the end of the one before it. */
  function StartOf(b: Batch, i: nat): nat
    requires |b.starts| == |b.counts| && i <= |b.starts|
  {
    if i == 0 then 0 else End(b, i - 1)
  }

  predicate Follows(b: Batch, i: nat)
    requires i < |b.starts| == |b.counts|
  {
    b.starts[i] == StartOf(b, i)
  }

  /** Starts and counts cut the flat buffer into consecutive pieces, with nothing between or after them. */
  predicate Partition(b: Batch) {
    && |b.starts| == |b.counts|
    && (forall i: nat {:trigger Follows(b, i)} :: i < |b.starts| ==> Follows(b, i))
    && |b.raw| == StartOf(b, |b.starts|)
  }

  predicate WellFormed(b: Batch) {
    && Partition(b)
    && |b.starts| == |b.addresses| == |b.arrays| <= MAX_COUNT
    && |b.raw| <= b.capacity && (b.base == 0 ==> b.capacity == 0)
    && (forall i :: 0 <= i < |b.counts| ==> b.counts[i] <= MAX_COUNT)
    && (forall i :: 0 <= i < |b.arrays| ==> b.arrays[i] == PointerTo(b.base, b.starts[i], b.counts[i]))
  }

  lemma {:induction false} PieceInside(b: Batch, i: nat)
    requires Partition(b) && i < |b.starts|
    ensures End(b, i) <= |b.raw|
    decreases |b.starts| - i
  {
    if i + 1 < |b.starts| {
      PieceInside(b, i + 1);
      assert Follows(b, i + 1);
    }
  }

  function Piece(b: Batch, i: nat): seq<Buffer>
    requires i < |b.starts| == |b.counts|
  {
    if End(b, i) <= |b.raw| then b.raw[b.starts[i]..End(b, i)] else []
  }

  /** The datagrams the tables describe. */
  function Datagrams(b: Batch): seq<Datagram>
    requires |b.starts| == |b.counts| == |b.addresses|
  {
    seq(|b.starts|, i requires 0 <= i < |b.starts| => Datagram(Piece(b, i), b.addresses[i]))
  }

  /** What libuv reads through the cached pointers is exactly the datagrams, none of them stale. */
  lemma ViewShowsDatagrams(b: Batch)
    requires WellFormed(b)
    ensures |View(b)| == |Datagrams(b)|
    ensures forall i :: 0 <= i < |View(b)| ==> View(b)[i] == Some(Datagrams(b)[i])
  {
    forall i | 0 <= i < |View(b)|
      ensures View(b)[i] == Some(Datagrams(b)[i])
    {
      PieceInside(b, i);
      PointerReadsPiece(b, i);
    }
  }

  lemma PointerReadsPiece(b: Batch, i: nat)
    requires WellFormed(b) && i < |b.starts|
    ensures Deref(b, b.arrays[i], b.counts[i]) == Some(Piece(b, i))
  {
    PieceInside(b, i);
    if b.counts[i] == 0 {
      assert Piece(b, i) == [];
    }
  }

  function Flatten(ds: seq<Datagram>): seq<Buffer> {
    if ds == [] then [] else Flatten(ds[..|ds| - 1]) + ds[|ds| - 1].buffers
  }

  lemma {:induction false} FlattenPrefix(b: Batch, n: nat)
    requires Partition(b) && |b.starts| == |b.addresses| && n <= |b.starts|
    ensures StartOf(b, n) <= |b.raw| && Flatten(Datagrams(b)[..n]) == b.raw[..StartOf(b, n)]
  {
    if n > 0 {
      FlattenPrefix(b, n - 1);
      PieceInside(b, n - 1);
      assert Follows(b, n - 1);
      assert Datagrams(b)[..n][..n - 1] == Datagrams(b)[..n - 1];
      assert b.raw[..End(b, n - 1)] == b.raw[..b.starts[n - 1]] + Piece(b, n - 1);
    }
  }

  /** Put end to end, the datagrams are the flat buffer. */
  lemma DatagramsPartitionTheBuffer(b: Batch)
    requires WellFormed(b)
    ensures Flatten(Datagrams(b)) == b.raw
  {
    FlattenPrefix(b, |b.starts|);
    assert Datagrams(b)[..|b.starts|] == Datagrams(b);
    assert b.raw[..|b.raw|] == b.raw;
  }

  // ----- What each operation does to the datagrams -----

  lemma ReserveKeepsDatagrams(b: Batch, bufferCount: nat, storage: nat, slack: nat)
    requires WellFormed(b) && storage != 0 && storage != b.base
    ensures WellFormed(Reserve(b, bufferCount, storage, slack))
    ensures Datagrams(Reserve(b, bufferCount, storage, slack)) == Datagrams(b)
  {
    SamePartition(b, Reserve(b, bufferCount, storage, slack));
    assert forall i :: 0 <= i < |b.starts| ==> Piece(Reserve(b, bufferCount, storage, slack), i) == Piece(b, i);
  }

  lemma AppendAddsDatagram(b: Batch, buffers: seq<Buffer>, address: Address, storage: nat, slack: nat)
    requires WellFormed(b) && storage != 0 && storage != b.base
    requires |buffers| <= MAX_COUNT && |b.starts| + 1 <= MAX_COUNT
    ensures var t := Append(b, buffers, address, storage, slack);
            WellFormed(t) && Datagrams(t) == Datagrams(b) + [Datagram(buffers, address)]
  {
    var t := Append(b, buffers, address, storage, slack);
    var n := |b.starts|;
    AppendKeepsPartition(b, t, buffers);
    forall i | 0 <= i < n
      ensures Piece(t, i) == Piece(b, i)
    {
      PieceInside(b, i);
    }
    assert Piece(t, n) == buffers;
  }

  lemma AppendKeepsPartition(b: Batch, t: Batch, buffers: seq<Buffer>)
    requires Partition(b)
    requires t.starts == b.starts + [|b.raw|] && t.counts == b.counts + [|buffers|] && t.raw == b.raw + buffers
    ensures Partition(t)
  {
    forall i: nat | i < |t.starts|
      ensures Follows(t, i)
    {
      if i < |b.starts| {
        assert Follows(b, i);
      }
    }
  }

  lemma SamePartition(b: Batch, t: Batch)
    requires Partition(b) && t.starts == b.starts && t.counts == b.counts && |t.raw| == |b.raw|
    ensures Partition(t)
  {
    forall i: nat | i < |t.starts|
      ensures Follows(t, i)
    {
      assert Follows(b, i);
    }
  }

  lemma CopyKeepsDatagrams(b: Batch, storage: nat)
    requires WellFormed(b) && storage != 0
    ensures WellFormed(Copy(b, storage)) && Datagrams(Copy(b, storage)) == Datagrams(b)
  {
    var t := Copy(b, storage);
    SamePartition(b, t);
    assert forall i :: 0 <= i < |b.starts| ==> Piece(t, i) == Piece(b, i);
  }

  lemma ClearedIsEmpty(b: Batch)
    requires WellFormed(b)
    ensures WellFormed(Cleared(b)) && Datagrams(Cleared(b)) == []
  {
  }

  // ----- Every sequence of operations on any number of batches -----

  /**
  Live batches, what has been put in each of them, and the next storage address. An operation
  that throws, for a count over the limit or for lack of memory, is one whose `allocates` is
  false or whose counts are too large.
  */
  datatype State = State(pool: seq<Batch>, contents: seq<seq<Datagram>>, next: nat)

  datatype Event =
    | Create
    | ReserveIn(batch: nat, datagramCount: nat, bufferCount: nat, allocates: bool, slack: nat)
    | Add(batch: nat, buffers: seq<Buffer>, address: Address, allocates: bool, slack: nat)
    | Clear(batch: nat)
    | CopyConstruct(source: nat, allocates: bool)
    | CopyAssign(batch: nat, source: nat, allocates: bool)
    | MoveConstruct(source: nat)
    | MoveAssign(batch: nat, source: nat)

  const Init: State := State([], [], 1)

  predicate Succeeds(s: State, e: Event) {
    match e
    case Create => true
    case ReserveIn(i, d, n, allocates, _) => i < |s.pool| && d <= MAX_COUNT && n <= MAX_COUNT && allocates
    case Add(i, buffers, _, allocates, _) =>
      i < |s.pool| && |buffers| <= MAX_COUNT && |s.pool[i].counts| + 1 <= MAX_COUNT && allocates
    case Clear(i) => i < |s.pool|
    case CopyConstruct(j, allocates) => j < |s.pool| && allocates
    case CopyAssign(i, j, allocates) => i < |s.pool| && j < |s.pool| && allocates
    case MoveConstruct(j) => j < |s.pool|
    case MoveAssign(i, j) => i < |s.pool| && j < |s.pool|
  }

  function Put(s: State, i: nat, b: Batch, ds: seq<Datagram>): State
    requires i < |s.pool| && i < |s.contents|
  {
    s.(pool := s.pool[i := b], contents := s.contents[i := ds], next := s.next + 1)
  }

  function Step(s: State, e: Event): State
    requires Inv(s)
  {
    if !Succeeds(s, e) then s else
    match e
    case Create => s.(pool := s.pool + [Empty], contents := s.contents + [[]])
    case ReserveIn(i, _, n, _, slack) => Put(s, i, Reserve(s.pool[i], n, s.next, slack), s.contents[i])
    case Add(i, buffers, address, _, slack) =>
      Put(s, i, Append(s.pool[i], buffers, address, s.next, slack), s.contents[i] + [Datagram(buffers, address)])
    case Clear(i) => Put(s, i, Cleared(s.pool[i]), [])
    case CopyConstruct(j, _) =>
      s.(pool := s.pool + [Copy(s.pool[j], s.next)], contents := s.contents + [s.contents[j]], next := s.next + 1)
    case CopyAssign(i, j, _) =>
      if i == j then s else Put(s, i, Copy(s.pool[j], s.next), s.contents[j])
    case MoveConstruct(j) =>
      s.(pool := s.pool[j := Empty] + [s.pool[j]], contents := s.contents[j := []] + [s.contents[j]])
    case MoveAssign(i, j) =>
      s.(pool := s.pool[i := s.pool[j]][j := s.pool[i]],
         contents := s.contents[i := s.contents[j]][j := s.contents[i]])
  }

  /** Every batch denotes what was put in it, and no two batches share storage. */
  predicate Inv(s: State) {
    && |s.pool| == |s.contents| && s.next > 0
    && (forall i :: 0 <= i < |s.pool| ==>
          WellFormed(s.pool[i]) && Datagrams(s.pool[i]) == s.contents[i] && s.pool[i].base < s.next)
    && (forall i, j :: 0 <= i < j < |s.pool| && s.pool[i].base != 0 ==> s.pool[i].base != s.pool[j].base)
  }

  lemma PutKeepsInv(s: State, i: nat, b: Batch, ds: seq<Datagram>)
    requires Inv(s) && i < |s.pool| && WellFormed(b) && Datagrams(b) == ds
    requires b.base == s.next || b.base == s.pool[i].base || b.base == 0
    ensures Inv(Put(s, i, b, ds))
  {
  }

  lemma StepKeepsInv(s: State, e: Event)
    requires Inv(s)
    ensures Inv(Step(s, e))
  {
    if Succeeds(s, e) {
      match e
      case Create => CreateKeepsInv(s);
      case ReserveIn(i, _, n, _, slack) =>
        ReserveKeepsDatagrams(s.pool[i], n, s.next, slack);
        PutKeepsInv(s, i, Reserve(s.pool[i], n, s.next, slack), s.contents[i]);
      case Add(i, buffers, address, _, slack) =>
        AppendAddsDatagram(s.pool[i], buffers, address, s.next, slack);
        var added := s.contents[i] + [Datagram(buffers, address)];
        PutKeepsInv(s, i, Append(s.pool[i], buffers, address, s.next, slack), added);
      case Clear(i) =>
        ClearedIsEmpty(s.pool[i]);
        PutKeepsInv(s, i, Cleared(s.pool[i]), []);
      case CopyConstruct(j, _) => CopyConstructKeepsInv(s, j);
      case CopyAssign(i, j, _) =>
        if i != j {
          CopyKeepsDatagrams(s.pool[j], s.next);
          PutKeepsInv(s, i, Copy(s.pool[j], s.next), s.contents[j]);
        }
      case MoveConstruct(j) => MoveConstructKeepsInv(s, j);
      case MoveAssign(i, j) => MoveAssignKeepsInv(s, i, j);
    }
  }

  lemma CreateKeepsInv(s: State)
    requires Inv(s)
    ensures Inv(Step(s, Create))
  {
    assert Datagrams(Empty) == [];
  }

  lemma CopyConstructKeepsInv(s: State, j: nat)
    requires Inv(s) && j < |s.pool|
    ensures Inv(Step(s, CopyConstruct(j, true)))
  {
    CopyKeepsDatagrams(s.pool[j], s.next);
  }

  lemma MoveConstructKeepsInv(s: State, j: nat)
    requires Inv(s) && j < |s.pool|
    ensures Inv(Step(s, MoveConstruct(j)))
  {
    assert Datagrams(Empty) == [];
  }

  lemma MoveAssignKeepsInv(s: State, i: nat, j: nat)
    requires Inv(s) && i < |s.pool| && j < |s.pool|
    ensures Inv(Step(s, MoveAssign(i, j)))
  {
    var t := Step(s, MoveAssign(i, j));
    forall k | 0 <= k < |t.pool|
      ensures WellFormed(t.pool[k]) && Datagrams(t.pool[k]) == t.contents[k] && t.pool[k].base < t.next
    {
      var from := if k == i then j else if k == j then i else k;
      assert t.pool[k] == s.pool[from] && t.contents[k] == s.contents[from];
    }
    forall k, l | 0 <= k < l < |t.pool| && t.pool[k].base != 0
      ensures t.pool[k].base != t.pool[l].base
    {
      var a := if k == i then j else if k == j then i else k;
      var b := if l == i then j else if l == j then i else l;
      assert t.pool[k] == s.pool[a] && t.pool[l] == s.pool[b];
    }
  }

  /** The states of a run; `Inv` is what makes each operation applicable. */
  function Run(es: seq<Event>): (s: State)
    ensures Inv(s)
  {
    if es == [] then Init
    else
      var s := Run(es[..|es| - 1]);
      StepKeepsInv(s, es[|es| - 1]);
      Step(s, es[|es| - 1])
  }

  /**
  After any sequence of reserve, add, clear, copy, move and swap on any batches, what libuv
  reads through every batch's cached pointers is exactly the datagrams added to it, in order;
  an operation that throws changes nothing.
  */
  lemma {:induction false} EveryViewShowsWhatWasAdded(es: seq<Event>, i: nat)
    requires i < |Run(es).pool|
    ensures var s := Run(es);
            && |View(s.pool[i])| == |s.contents[i]|
            && (forall k :: 0 <= k < |s.contents[i]| ==> View(s.pool[i])[k] == Some(s.contents[i][k]))
            && Flatten(s.contents[i]) == s.pool[i].raw
    ensures forall e :: !Succeeds(Run(es), e) ==> Step(Run(es), e) == Run(es)
  {
    var s := Run(es);
    ViewShowsDatagrams(s.pool[i]);
    DatagramsPartitionTheBuffer(s.pool[i]);
  }

  // ----- The batch object -----

  class SendBatch {
    var raw: seq<Buffer>
    var base: nat
    var capacity: nat
    var starts: seq<nat>
    var counts: seq<nat>
    var addresses: seq<Address>
    var arrays: seq<Pointer>

    function Model(): Batch
      reads this
    {
      Batch(raw, base, capacity, starts, counts, addresses, arrays)
    }

    constructor ()
      ensures Model() == Empty
    {
      raw, base, capacity, starts, counts, addresses, arrays := [], 0, 0, [], [], [], [];
    }

    /** The copy constructor: the tables are copied, the pointers are made anew. */
    constructor CopyOf(other: SendBatch, storage: nat)
      requires WellFormed(other.Model()) && storage != 0
      ensures Model() == Copy(other.Model(), storage)
      ensures WellFormed(Model()) && Datagrams(Model()) == Datagrams(other.Model())
    {
      raw, starts, counts, addresses := other.raw, other.starts, other.counts, other.addresses;
      base := if other.raw == [] then 0 else storage;
      capacity := |other.raw|;
      arrays := [];
      new;
      RebuildBufferPointers();
      CopyKeepsDatagrams(other.Model(), storage);
    }

    method RebuildBufferPointers()
      requires |starts| == |counts|
      modifies this`arrays
      ensures Model() == Rebuild(old(Model()))
      ensures |arrays| == |starts|
      ensures forall k :: 0 <= k < |arrays| ==> arrays[k] == (if counts[k] == 0 then Null else At(base, starts[k]))
    {
      arrays := [];
      for index := 0 to |starts|
        invariant |arrays| == index
        invariant forall k :: 0 <= k < index ==> arrays[k] == PointerTo(base, starts[k], counts[k])
      {
        arrays := arrays + [PointerTo(base, starts[index], counts[index])];
      }
    }

    method ReserveStorage(n: nat, storage: nat, slack: nat)
      modifies this`base, this`capacity
      ensures Model() == ReserveRaw(old(Model()), n, storage, slack)
    {
      if n > capacity {
        base := storage;
        capacity := n + slack;
      }
    }

    /** `reserve()`; `allocates` is whether memory is available. */
    method ReserveFor(datagramCount: nat, bufferCount: nat, allocates: bool, storage: nat, slack: nat)
      returns (ok: bool)
      requires WellFormed(Model()) && storage != 0 && storage != base
      modifies this
      ensures ok <==> datagramCount <= MAX_COUNT && bufferCount <= MAX_COUNT && allocates
      ensures Model() == if ok then Reserve(old(Model()), bufferCount, storage, slack) else old(Model())
      ensures WellFormed(Model()) && Datagrams(Model()) == Datagrams(old(Model()))
      ensures ok ==> capacity >= bufferCount
    {
      if datagramCount > MAX_COUNT || bufferCount > MAX_COUNT || !allocates {
        return false;
      }
      ReserveKeepsDatagrams(Model(), bufferCount, storage, slack);
      var previous := base;
      ReserveStorage(bufferCount, storage, slack);
      if base != previous {
        RebuildBufferPointers();
      }
      ok := true;
    }

    /** `append()`: everything that can throw comes before the first change. */
    method AppendDatagram(buffers: seq<Buffer>, address: Address, allocates: bool, storage: nat, slack: nat)
      returns (ok: bool)
      requires WellFormed(Model()) && storage != 0 && storage != base
      modifies this
      ensures ok <==> |buffers| <= MAX_COUNT && |old(counts)| + 1 <= MAX_COUNT && allocates
      ensures ok ==> Model() == Append(old(Model()), buffers, address, storage, slack)
      ensures !ok ==> Model() == old(Model())
      ensures WellFormed(Model())
      ensures Datagrams(Model()) ==
              Datagrams(old(Model())) + (if ok then [Datagram(buffers, address)] else [])
      ensures ok && buffers == [] ==> arrays != [] && arrays[|arrays| - 1] == Null
    {
      if |buffers| > MAX_COUNT || |counts| + 1 > MAX_COUNT || !allocates {
        return false;
      }
      AppendAddsDatagram(Model(), buffers, address, storage, slack);
      var previous := base;
      ReserveStorage(|raw| + |buffers|, storage, slack);
      var first := |raw|;
      PushBuffers(buffers);
      starts := starts + [first];
      counts := counts + [|buffers|];
      addresses := addresses + [address];
      if base != previous {
        RebuildBufferPointers();
      } else {
        arrays := arrays + [PointerTo(base, first, |buffers|)];
      }
      ok := true;
    }

    method PushBuffers(buffers: seq<Buffer>)
      modifies this`raw
      ensures raw == old(raw) + buffers
    {
      for i := 0 to |buffers|
        invariant raw == old(raw) + buffers[..i]
      {
        raw := raw + [buffers[i]];
      }
    }

    method ClearAll()
      requires WellFormed(Model())
      modifies this
      ensures Model() == Cleared(old(Model()))
      ensures WellFormed(Model()) && Datagrams(Model()) == []
    {
      raw, starts, counts, addresses, arrays := [], [], [], [], [];
    }

    /** `swap()`, which is also move assignment. */
    method Swap(other: SendBatch)
      modifies this, other
      ensures Model() == old(other.Model()) && other.Model() == old(Model())
    {
      raw, other.raw := other.raw, raw;
      base, other.base := other.base, base;
      capacity, other.capacity := other.capacity, capacity;
      starts, other.starts := other.starts, starts;
      counts, other.counts := other.counts, counts;
      addresses, other.addresses := other.addresses, addresses;
      arrays, other.arrays := other.arrays, arrays;
    }
  }
}
