/** `Arena` of examples/rule_of_0_5/main.cpp over an explicit heap of blocks.

    The heap counts memory errors (freeing or copying a block that is not live), so that their absence
    is something to prove. What `malloc` answers is chosen by the environment: an address or null, and
    the bytes that happen to be in the new block. `Meaning` says what the operations mean to a caller
    who thinks of arenas as byte strings; the main theorem is that every run of the pointer code does
    exactly that. */
module Arenas {
  import opened Bytes
  import opened Options

  /** 0 is the null pointer. */
  type Ptr = nat

  datatype HeapState = HeapState(blocks: map<Ptr, seq<Byte>>, faults: nat)

  /** `size_` and `data_`. */
  datatype Fields = Fields(size: nat, data: Ptr)

  /** What `malloc` answers when it is called. */
  datatype Grant = Grant(answer: Ptr, junk: seq<Byte>)

  predicate LegalGrant(heap: HeapState, bytes: nat, grant: Grant) {
    |grant.junk| == bytes && grant.answer !in heap.blocks
  }

  const EMPTY := Fields(0, 0)

  // ---------- The C library ----------

  function Malloc(heap: HeapState, grant: Grant): HeapState {
    if grant.answer == 0 then heap else heap.(blocks := heap.blocks[grant.answer := grant.junk])
  }

  function Free(heap: HeapState, p: Ptr): HeapState {
    if p == 0 then heap
    else if p in heap.blocks then heap.(blocks := heap.blocks - {p})
    else heap.(faults := heap.faults + 1)
  }

  predicate Accessible(heap: HeapState, p: Ptr, offset: nat, len: nat) {
    p in heap.blocks && offset + len <= |heap.blocks[p]|
  }

  /** Overwrites bytes of block `p` from `offset` on. */
  function Store(heap: HeapState, p: Ptr, offset: nat, s: seq<Byte>): HeapState {
    if s == [] then heap
    else if !Accessible(heap, p, offset, |s|) then heap.(faults := heap.faults + 1)
    else
      var block := heap.blocks[p];
      heap.(blocks := heap.blocks[p := block[..offset] + s + block[offset + |s|..]])
  }

  /** `memcpy(to, from, len)` for whole blocks. */
  function CopyBlock(heap: HeapState, to: Ptr, from: Ptr, len: nat): HeapState {
    if len == 0 then heap
    else if !Accessible(heap, from, 0, len) then heap.(faults := heap.faults + 1)
    else Store(heap, to, 0, heap.blocks[from][..len])
  }

  // ---------- The special members, on values ----------

  /** `Arena(bytes)`; no object when it throws `bad_alloc`. */
  function Construct(heap: HeapState, bytes: nat, grant: Grant): (HeapState, Option<Fields>) {
    if bytes == 0 then (heap, Some(EMPTY))
    else (Malloc(heap, grant), if grant.answer == 0 then None else Some(Fields(bytes, grant.answer)))
  }

  /** `Arena(const Arena&)`. */
  function CopyConstruct(heap: HeapState, other: Fields, grant: Grant): (HeapState, Option<Fields>) {
    var (grown, made) := Construct(heap, other.size, grant);
    match made
    case None => (grown, None)
    case Some(me) => (CopyBlock(grown, me.data, other.data, me.size), made)
  }

  /** `operator=(const Arena&)` for two different objects: copy, swap, destroy the old value. */
  function CopyAssign(heap: HeapState, me: Fields, other: Fields, grant: Grant): (HeapState, Option<Fields>) {
    var (copied, made) := CopyConstruct(heap, other, grant);
    match made
    case None => (copied, None)
    case Some(tmp) => (Free(copied, me.data), made)
  }

  // ---------- Programs over named arenas ----------

  datatype World = World(heap: HeapState, arenas: map<nat, Fields>)

  datatype Op =
    | New(a: nat, bytes: nat, grant: Grant)
    | NewCopy(a: nat, from: nat, grant: Grant)
    | NewMoved(a: nat, from: nat)
    | AssignCopy(a: nat, from: nat, grant: Grant)
    | AssignMoved(a: nat, from: nat)
    | Swap(a: nat, from: nat)
    | Write(a: nat, offset: nat, s: seq<Byte>)
    | Destroy(a: nat)

  /** The operands exist, a constructed name is new, and `malloc` answers by its contract. */
  predicate Legal(w: World, op: Op) {
    match op
    case New(a, bytes, grant) => a !in w.arenas && LegalGrant(w.heap, bytes, grant)
    case NewCopy(a, from, grant) =>
      a !in w.arenas && from in w.arenas && LegalGrant(w.heap, w.arenas[from].size, grant)
    case NewMoved(a, from) => a !in w.arenas && from in w.arenas
    case AssignCopy(a, from, grant) =>
      a in w.arenas && from in w.arenas && LegalGrant(w.heap, w.arenas[from].size, grant)
    case Write(a, _, _) => a in w.arenas
    case Destroy(a) => a in w.arenas
    case _ => op.a in w.arenas && op.from in w.arenas
  }

  function Exec(w: World, op: Op): World
    requires Legal(w, op)
  {
    match op
    case New(a, bytes, grant) =>
      var (heap, made) := Construct(w.heap, bytes, grant);
      World(heap, if made.None? then w.arenas else w.arenas[a := made.value])
    case NewCopy(a, from, grant) =>
      var (heap, made) := CopyConstruct(w.heap, w.arenas[from], grant);
      World(heap, if made.None? then w.arenas else w.arenas[a := made.value])
    case NewMoved(a, from) => w.(arenas := w.arenas[a := w.arenas[from]][from := EMPTY])
    case AssignCopy(a, from, grant) =>
      if a == from then w
      else
        var (heap, made) := CopyAssign(w.heap, w.arenas[a], w.arenas[from], grant);
        World(heap, if made.None? then w.arenas else w.arenas[a := made.value])
    case AssignMoved(a, from) =>
      if a == from then w
      else World(Free(w.heap, w.arenas[a].data), w.arenas[a := w.arenas[from]][from := EMPTY])
    case Swap(a, from) => w.(arenas := w.arenas[a := w.arenas[from]][from := w.arenas[a]])
    case Write(a, offset, s) =>
      if offset + |s| > w.arenas[a].size then w
      else w.(heap := Store(w.heap, w.arenas[a].data, offset, s))
    case Destroy(a) => World(Free(w.heap, w.arenas[a].data), w.arenas - {a})
  }

  predicate Runnable(w: World, ops: seq<Op>)
    decreases |ops|
  {
    ops == [] || (Legal(w, ops[0]) && Runnable(Exec(w, ops[0]), ops[1..]))
  }

  function Run(w: World, ops: seq<Op>): World
    requires Runnable(w, ops)
    decreases |ops|
  {
    if ops == [] then w else Run(Exec(w, ops[0]), ops[1..])
  }

  /** A program can be continued by exactly the operations that are legal at its end. */
  lemma {:induction false} RunExtends(w: World, ops: seq<Op>, op: Op)
    requires Runnable(w, ops)
    ensures Runnable(w, ops + [op]) <==> Legal(Run(w, ops), op)
    ensures Legal(Run(w, ops), op) ==> Run(w, ops + [op]) == Exec(Run(w, ops), op)
    decreases |ops|
  {
    if ops != [] {
      RunExtends(Exec(w, ops[0]), ops[1..], op);
      assert (ops + [op])[1..] == ops[1..] + [op];
    }
  }

  /** Callers and the allocator are free: arenas that exist can be used in any way, also with themselves, a new one
      can be made, and `malloc` may answer null or any block that is not live, with any bytes in it. */
  lemma CallersAreFree(w: World, a: nat, from: nat, bytes: nat, grant: Grant, offset: nat, s: seq<Byte>)
    requires from in w.arenas
    ensures a !in w.arenas && |grant.junk| == bytes && grant.answer !in w.heap.blocks ==> Legal(w, New(a, bytes, grant))
    ensures |grant.junk| == w.arenas[from].size && grant.answer !in w.heap.blocks ==>
              Legal(w, if a in w.arenas then AssignCopy(a, from, grant) else NewCopy(a, from, grant))
    ensures a !in w.arenas ==> Legal(w, NewMoved(a, from))
    ensures a in w.arenas ==> Legal(w, AssignMoved(a, from)) && Legal(w, Swap(a, from))
    ensures Legal(w, Write(from, offset, s)) && Legal(w, Destroy(from))
  {
  }

  // ---------- What the operations mean ----------

  /** `std::bad_alloc`: a non-empty allocation that `malloc` answered with null. */
  predicate Fails(bytes: nat, grant: Grant) { bytes != 0 && grant.answer == 0 }

  function Get(values: map<nat, seq<Byte>>, a: nat): seq<Byte> {
    if a in values then values[a] else []
  }

  /** Arenas as byte strings: no heap, no pointers, no sharing. */
  function Meaning(values: map<nat, seq<Byte>>, op: Op): map<nat, seq<Byte>> {
    match op
    case New(a, bytes, grant) =>
      if Fails(bytes, grant) then values else values[a := if bytes == 0 then [] else grant.junk]
    case NewCopy(a, from, grant) => if Fails(|Get(values, from)|, grant) then values else values[a := Get(values, from)]
    case NewMoved(a, from) => values[a := Get(values, from)][from := []]
    case AssignCopy(a, from, grant) =>
      if Fails(|Get(values, from)|, grant) then values else values[a := Get(values, from)]
    case AssignMoved(a, from) => if a == from then values else values[a := Get(values, from)][from := []]
    case Swap(a, from) => values[a := Get(values, from)][from := Get(values, a)]
    case Write(a, offset, s) =>
      if offset + |s| > |Get(values, a)| then values
      else values[a := Get(values, a)[..offset] + s + Get(values, a)[offset + |s|..]]
    case Destroy(a) => values - {a}
  }

  function Value(heap: HeapState, me: Fields): seq<Byte> {
    if me.data != 0 && me.data in heap.blocks then heap.blocks[me.data] else []
  }

  function Values(w: World): map<nat, seq<Byte>> {
    map a | a in w.arenas :: Value(w.heap, w.arenas[a])
  }

  // ---------- Ownership ----------

  /** `data_` is null exactly when `size_` is 0, and otherwise a live block of that size. */
  predicate WellFormed(heap: HeapState, me: Fields) {
    if me.size == 0 then me.data == 0
    else me.data != 0 && me.data in heap.blocks && |heap.blocks[me.data]| == me.size
  }

  /** No memory error so far, and `owner` is a bijection from the live blocks to the arenas whose
      `data_` is not null: each block has one owner, whose `data_` points to it. */
  ghost predicate Inv(w: World, owner: map<Ptr, nat>) {
    && w.heap.faults == 0
    && 0 !in w.heap.blocks
    && owner.Keys == w.heap.blocks.Keys
    && (forall p | p in owner :: owner[p] in w.arenas && w.arenas[owner[p]].data == p)
    && (forall a | a in w.arenas ::
          WellFormed(w.heap, w.arenas[a]) && (w.arenas[a].data != 0 ==> owner[w.arenas[a].data] == a))
  }

  ghost function Give(owner: map<Ptr, nat>, p: Ptr, a: nat): map<Ptr, nat> {
    if p == 0 then owner else owner[p := a]
  }

  /** Who owns which block after an operation. */
  ghost function OwnerAfter(w: World, owner: map<Ptr, nat>, op: Op): map<Ptr, nat>
    requires Legal(w, op)
  {
    match op
    case New(a, bytes, grant) => if bytes == 0 then owner else Give(owner, grant.answer, a)
    case NewCopy(a, from, grant) => if w.arenas[from].size == 0 then owner else Give(owner, grant.answer, a)
    case NewMoved(a, from) => Give(owner, w.arenas[from].data, a)
    case AssignCopy(a, from, grant) =>
      if a == from || Fails(w.arenas[from].size, grant) then owner
      else if w.arenas[from].size == 0 then owner - {w.arenas[a].data}
      else Give(owner - {w.arenas[a].data}, grant.answer, a)
    case AssignMoved(a, from) =>
      if a == from then owner else Give(owner - {w.arenas[a].data}, w.arenas[from].data, a)
    case Swap(a, from) => Give(Give(owner, w.arenas[a].data, from), w.arenas[from].data, a)
    case Write(_, _, _) => owner
    case Destroy(a) => owner - {w.arenas[a].data}
  }

  /** A copy is a new block with the bytes of the original. */
  lemma CopyIsCorrect(heap: HeapState, other: Fields, grant: Grant)
    requires heap.faults == 0 && 0 !in heap.blocks
    requires WellFormed(heap, other) && LegalGrant(heap, other.size, grant)
    ensures var (grown, made) := CopyConstruct(heap, other, grant);
            && (made.None? <==> Fails(other.size, grant))
            && (made.None? ==> grown == heap)
            && (made.Some? ==>
                  && WellFormed(grown, made.value)
                  && made.value == (if other.size == 0 then EMPTY else Fields(other.size, grant.answer))
                  && grown == if other.size == 0 then heap
                              else heap.(blocks := heap.blocks[grant.answer := heap.blocks[other.data]]))
  {
    if other.size != 0 && grant.answer != 0 {
      var bytes := heap.blocks[other.data];
      assert bytes[..other.size] == bytes;
      assert grant.junk[..0] + bytes + grant.junk[0 + |bytes|..] == bytes;
    }
  }

  /** The operations are put together from four moves, each of which keeps the ownership: a new empty arena,
      a new block for an arena that has none, the release of an arena's block, and its transfer. */
  lemma EmptyKeepsInv(w: World, owner: map<Ptr, nat>, a: nat)
    requires Inv(w, owner) && a !in w.arenas
    ensures Inv(w.(arenas := w.arenas[a := EMPTY]), owner)
  {
  }

  lemma GrantKeepsInv(w: World, owner: map<Ptr, nat>, a: nat, p: Ptr, block: seq<Byte>)
    requires Inv(w, owner) && p != 0 && p !in w.heap.blocks && block != []
    requires a in w.arenas ==> w.arenas[a] == EMPTY
    ensures Inv(World(w.heap.(blocks := w.heap.blocks[p := block]), w.arenas[a := Fields(|block|, p)]),
                Give(owner, p, a))
  {
  }

  lemma ReleaseKeepsInv(w: World, owner: map<Ptr, nat>, a: nat)
    requires Inv(w, owner) && a in w.arenas
    ensures Inv(World(Free(w.heap, w.arenas[a].data), w.arenas[a := EMPTY]), owner - {w.arenas[a].data})
  {
  }

  lemma TransferKeepsInv(w: World, owner: map<Ptr, nat>, a: nat, from: nat)
    requires Inv(w, owner) && from in w.arenas && a != from && (a in w.arenas ==> w.arenas[a] == EMPTY)
    ensures Inv(w.(arenas := w.arenas[a := w.arenas[from]][from := EMPTY]), Give(owner, w.arenas[from].data, a))
  {
  }

  lemma NewInv(w: World, owner: map<Ptr, nat>, op: Op)
    requires Inv(w, owner) && Legal(w, op) && op.New?
    ensures Inv(Exec(w, op), OwnerAfter(w, owner, op))
  {
    if op.bytes == 0 {
      EmptyKeepsInv(w, owner, op.a);
    } else if op.grant.answer != 0 {
      GrantKeepsInv(w, owner, op.a, op.grant.answer, op.grant.junk);
    }
  }

  lemma NewCopyInv(w: World, owner: map<Ptr, nat>, op: Op)
    requires Inv(w, owner) && Legal(w, op) && op.NewCopy?
    ensures Inv(Exec(w, op), OwnerAfter(w, owner, op))
  {
    var other := w.arenas[op.from];
    if other.size == 0 {
      EmptyKeepsInv(w, owner, op.a);
    } else if op.grant.answer != 0 {
      GrantKeepsInv(w, owner, op.a, op.grant.answer, w.heap.blocks[other.data]);
    }
  }

  /** A new block may be made before or after another one is released. */
  lemma GrantThenRelease(heap: HeapState, mine: Ptr, p: Ptr, block: seq<Byte>)
    requires p !in heap.blocks && p != mine && (mine == 0 || mine in heap.blocks)
    ensures Free(heap.(blocks := heap.blocks[p := block]), mine)
         == Free(heap, mine).(blocks := Free(heap, mine).blocks[p := block])
  {
    assert heap.blocks[p := block] - {mine} == (heap.blocks - {mine})[p := block];
  }

  lemma AssignCopyInv(w: World, owner: map<Ptr, nat>, op: Op)
    requires Inv(w, owner) && Legal(w, op) && op.AssignCopy?
    ensures Inv(Exec(w, op), OwnerAfter(w, owner, op))
  {
    var me, other := w.arenas[op.a], w.arenas[op.from];
    CopyIsCorrect(w.heap, other, op.grant);
    if op.a != op.from && !Fails(other.size, op.grant) {
      ReleaseKeepsInv(w, owner, op.a);
      if other.size != 0 {
        var p, block := op.grant.answer, w.heap.blocks[other.data];
        var released := World(Free(w.heap, me.data), w.arenas[op.a := EMPTY]);
        GrantKeepsInv(released, owner - {me.data}, op.a, p, block);
        GrantThenRelease(w.heap, me.data, p, block);
        assert released.arenas[op.a := Fields(|block|, p)] == w.arenas[op.a := Fields(|block|, p)];
      }
    }
  }

  lemma SwapInv(w: World, owner: map<Ptr, nat>, op: Op)
    requires Inv(w, owner) && Legal(w, op) && op.Swap?
    ensures Inv(Exec(w, op), OwnerAfter(w, owner, op))
  {
  }

  lemma AssignMovedInv(w: World, owner: map<Ptr, nat>, op: Op)
    requires Inv(w, owner) && Legal(w, op) && op.AssignMoved?
    ensures Inv(Exec(w, op), OwnerAfter(w, owner, op))
  {
    if op.a != op.from {
      var me := w.arenas[op.a];
      ReleaseKeepsInv(w, owner, op.a);
      TransferKeepsInv(World(Free(w.heap, me.data), w.arenas[op.a := EMPTY]), owner - {me.data}, op.a, op.from);
      assert w.arenas[op.a := EMPTY][op.a := w.arenas[op.from]] == w.arenas[op.a := w.arenas[op.from]];
    }
  }

  lemma InvStep(w: World, owner: map<Ptr, nat>, op: Op)
    requires Inv(w, owner) && Legal(w, op)
    ensures Inv(Exec(w, op), OwnerAfter(w, owner, op))
  {
    match op
    case New(_, _, _) => NewInv(w, owner, op);
    case NewCopy(_, _, _) => NewCopyInv(w, owner, op);
    case AssignCopy(_, _, _) => AssignCopyInv(w, owner, op);
    case NewMoved(a, from) => TransferKeepsInv(w, owner, a, from);
    case AssignMoved(_, _) => AssignMovedInv(w, owner, op);
    case Swap(_, _) => SwapInv(w, owner, op);
    case _ =>
  }

  lemma NewCopyMeaning(w: World, owner: map<Ptr, nat>, op: Op)
    requires Inv(w, owner) && Legal(w, op) && op.NewCopy?
    ensures Values(Exec(w, op)) == Meaning(Values(w), op)
  {
    CopyIsCorrect(w.heap, w.arenas[op.from], op.grant);
  }

  lemma AssignCopyMeaning(w: World, owner: map<Ptr, nat>, op: Op)
    requires Inv(w, owner) && Legal(w, op) && op.AssignCopy?
    ensures Values(Exec(w, op)) == Meaning(Values(w), op)
  {
    CopyIsCorrect(w.heap, w.arenas[op.from], op.grant);
  }

  lemma MoveMeaning(w: World, owner: map<Ptr, nat>, op: Op)
    requires Inv(w, owner) && Legal(w, op) && (op.NewMoved? || op.AssignMoved?)
    ensures Values(Exec(w, op)) == Meaning(Values(w), op)
  {
  }

  lemma SwapMeaning(w: World, owner: map<Ptr, nat>, op: Op)
    requires Inv(w, owner) && Legal(w, op) && op.Swap?
    ensures Values(Exec(w, op)) == Meaning(Values(w), op)
  {
  }

  lemma WriteMeaning(w: World, owner: map<Ptr, nat>, op: Op)
    requires Inv(w, owner) && Legal(w, op) && op.Write?
    ensures Values(Exec(w, op)) == Meaning(Values(w), op)
  {
    var v := Value(w.heap, w.arenas[op.a]);
    if op.s == [] && op.offset <= |v| {
      assert v[..op.offset] + op.s + v[op.offset + |op.s|..] == v;
    }
  }

  lemma MeaningStep(w: World, owner: map<Ptr, nat>, op: Op)
    requires Inv(w, owner) && Legal(w, op)
    ensures Values(Exec(w, op)) == Meaning(Values(w), op)
  {
    match op
    case NewCopy(_, _, _) => NewCopyMeaning(w, owner, op);
    case AssignCopy(_, _, _) => AssignCopyMeaning(w, owner, op);
    case NewMoved(_, _) => MoveMeaning(w, owner, op);
    case AssignMoved(_, _) => MoveMeaning(w, owner, op);
    case Swap(_, _) => SwapMeaning(w, owner, op);
    case Write(_, _, _) => WriteMeaning(w, owner, op);
    case _ =>
  }

  // ---------- Whole runs ----------

  function RunMeaning(values: map<nat, seq<Byte>>, ops: seq<Op>): map<nat, seq<Byte>>
    decreases |ops|
  {
    if ops == [] then values else RunMeaning(Meaning(values, ops[0]), ops[1..])
  }

  /** Main result: any run of the pointer code does to the arenas' contents what the same operations do to
      plain byte strings, failed allocations, self-assignment and moved-from arenas included. */
  lemma {:induction false} RunIsValueSemantics(w: World, owner: map<Ptr, nat>, ops: seq<Op>)
    returns (after: map<Ptr, nat>)
    requires Inv(w, owner) && Runnable(w, ops)
    ensures Inv(Run(w, ops), after)
    ensures Values(Run(w, ops)) == RunMeaning(Values(w), ops)
    decreases |ops|
  {
    if ops == [] {
      after := owner;
    } else {
      InvStep(w, owner, ops[0]);
      MeaningStep(w, owner, ops[0]);
      after := RunIsValueSemantics(Exec(w, ops[0]), OwnerAfter(w, owner, ops[0]), ops[1..]);
    }
  }

  const START := World(HeapState(map[], 0), map[])

  /** Main result: from the empty heap, every run frees each block at most once and touches live blocks
      only, `data_` is null exactly for empty arenas and otherwise a block of `size_` bytes, no two arenas
      share a block, no block is lost, and destroying every arena leaves the heap empty. */
  lemma OwnershipOverRuns(ops: seq<Op>)
    requires Runnable(START, ops)
    ensures var w := Run(START, ops);
            && w.heap.faults == 0
            && (forall a | a in w.arenas ::
                  && (w.arenas[a].data == 0 <==> w.arenas[a].size == 0)
                  && (w.arenas[a].data != 0 ==>
                        w.arenas[a].data in w.heap.blocks && |w.heap.blocks[w.arenas[a].data]| == w.arenas[a].size))
            && (forall a, b | a in w.arenas && b in w.arenas && w.arenas[a].data == w.arenas[b].data != 0 :: a == b)
            && (forall p | p in w.heap.blocks :: exists a :: a in w.arenas && w.arenas[a].data == p)
            && (w.arenas == map[] ==> w.heap.blocks == map[])
            && Values(w) == RunMeaning(map[], ops)
  {
    assert Values(START) == map[];
    var owner := RunIsValueSemantics(START, map[], ops);
    var w := Run(START, ops);
    forall p | p in w.heap.blocks ensures exists a :: a in w.arenas && w.arenas[a].data == p {
      assert p in owner && owner[p] in w.arenas;
    }
  }

  /** A copy assignment that throws leaves every arena and the whole heap as they were. */
  lemma FailedCopyAssignChangesNothing(w: World, owner: map<Ptr, nat>, op: Op)
    requires Inv(w, owner) && Legal(w, op) && op.AssignCopy?
    requires op.a != op.from && w.arenas[op.from].size != 0 && op.grant.answer == 0
    ensures Exec(w, op) == w
  {
  }

  // ---------- The classes ----------

  class Heap {
    var blocks: map<Ptr, seq<Byte>>
    var faults: nat

    function View(): HeapState
      reads this
    {
      HeapState(blocks, faults)
    }

    constructor ()
      ensures View() == START.heap
    {
      blocks, faults := map[], 0;
    }

    method Alloc(grant: Grant) returns (p: Ptr)
      modifies this
      ensures p == grant.answer && View() == Malloc(old(View()), grant)
    {
      p := grant.answer;
      if p != 0 {
        blocks := blocks[p := grant.junk];
      }
    }

    method Release(p: Ptr)
      modifies this
      ensures View() == Free(old(View()), p)
    {
      if p != 0 {
        if p in blocks {
          blocks := blocks - {p};
        } else {
          faults := faults + 1;
        }
      }
    }

    method StoreBytes(p: Ptr, offset: nat, s: seq<Byte>)
      modifies this
      ensures View() == Store(old(View()), p, offset, s)
    {
      if s != [] {
        if Accessible(View(), p, offset, |s|) {
          var block := blocks[p];
          blocks := blocks[p := block[..offset] + s + block[offset + |s|..]];
        } else {
          faults := faults + 1;
        }
      }
    }

    method CopyBytes(to: Ptr, from: Ptr, len: nat)
      modifies this
      ensures View() == CopyBlock(old(View()), to, from, len)
    {
      if len != 0 {
        if Accessible(View(), from, 0, len) {
          StoreBytes(to, 0, blocks[from][..len]);
        } else {
          faults := faults + 1;
        }
      }
    }
  }

  class Arena {
    var size: nat
    var data: Ptr

    function View(): Fields
      reads this
    {
      Fields(size, data)
    }

    constructor Raw(size: nat, data: Ptr)
      ensures View() == Fields(size, data)
    {
      this.size, this.data := size, data;
    }

    /** `explicit Arena(std::size_t bytes)`. */
    static method Make(heap: Heap, bytes: nat, grant: Grant) returns (made: Option<Arena>)
      modifies heap
      ensures heap.View() == Construct(old(heap.View()), bytes, grant).0
      ensures made.Some? <==> Construct(old(heap.View()), bytes, grant).1.Some?
      ensures made.Some? ==>
                fresh(made.value) && Some(made.value.View()) == Construct(old(heap.View()), bytes, grant).1
    {
      var p := 0;
      if bytes != 0 {
        p := heap.Alloc(grant);
      }
      if bytes != 0 && p == 0 {
        return None;
      }
      var me := new Arena.Raw(bytes, p);
      made := Some(me);
    }

    /** `Arena(const Arena&)`. */
    static method MakeCopy(heap: Heap, other: Arena, grant: Grant) returns (made: Option<Arena>)
      modifies heap
      ensures heap.View() == CopyConstruct(old(heap.View()), other.View(), grant).0
      ensures made.Some? <==> CopyConstruct(old(heap.View()), other.View(), grant).1.Some?
      ensures made.Some? ==>
                fresh(made.value) && Some(made.value.View()) == CopyConstruct(old(heap.View()), other.View(), grant).1
    {
      made := Make(heap, other.size, grant);
      if made.Some? && made.value.size != 0 {
        heap.CopyBytes(made.value.data, other.data, made.value.size);
      }
    }

    /** `Arena(Arena&&)`. */
    constructor MakeMoved(other: Arena)
      modifies other
      ensures View() == old(other.View()) && other.View() == EMPTY
    {
      size, data := other.size, other.data;
      new;
      other.size := 0;
      other.data := 0;
    }

    /** `operator=(const Arena&)`: copy and swap; false when it throws `bad_alloc`. */
    method AssignFrom(heap: Heap, other: Arena, grant: Grant) returns (ok: bool)
      modifies this, heap
      ensures this == other ==> ok && View() == old(View()) && heap.View() == old(heap.View())
      ensures this != other ==>
                var (grown, made) := CopyAssign(old(heap.View()), old(View()), other.View(), grant);
                && heap.View() == grown && (ok <==> made.Some?)
                && View() == if made.Some? then made.value else old(View())
    {
      if this == other {
        return true;
      }
      var tmp := MakeCopy(heap, other, grant);
      if tmp.None? {
        return false;
      }
      SwapWith(tmp.value);
      tmp.value.Dispose(heap);
      ok := true;
    }

    /** `operator=(Arena&&)`. */
    method MoveFrom(heap: Heap, other: Arena)
      modifies this, heap, other
      ensures this == other ==> View() == old(View()) && heap.View() == old(heap.View())
      ensures this != other ==>
                && heap.View() == Free(old(heap.View()), old(data))
                && View() == old(other.View()) && other.View() == EMPTY
    {
      if this == other {
        return;
      }
      heap.Release(data);
      size := other.size;
      data := other.data;
      other.size := 0;
      other.data := 0;
    }

    /** `swap(Arena&)`. */
    method SwapWith(other: Arena)
      modifies this, other
      ensures View() == old(other.View()) && other.View() == old(View())
    {
      size, other.size := other.size, size;
      data, other.data := other.data, data;
    }

    /** `write`; false when it throws `out_of_range`. */
    method WriteAt(heap: Heap, offset: nat, s: seq<Byte>) returns (ok: bool)
      requires offset + |s| < 0x1_0000_0000_0000_0000
      modifies heap
      ensures ok <==> offset + |s| <= size
      ensures heap.View() == if ok then Store(old(heap.View()), data, offset, s) else old(heap.View())
      ensures ok && WellFormed(old(heap.View()), View()) ==>
                var v := old(Value(heap.View(), View()));
                offset + |s| <= |v| && Value(heap.View(), View()) == v[..offset] + s + v[offset + |s|..]
    {
      ghost var before := Value(heap.View(), View());
      assert s == [] && offset <= |before| ==> before[..offset] + s + before[offset + |s|..] == before;
      if offset + |s| > size {
        return false;
      }
      heap.StoreBytes(data, offset, s);
      ok := true;
    }

    /** `read`; no string when it throws `out_of_range`. */
    method ReadAt(heap: Heap, offset: nat, len: nat) returns (s: Option<seq<Byte>>)
      requires WellFormed(heap.View(), View())
      requires offset + len < 0x1_0000_0000_0000_0000
      ensures var v := Value(heap.View(), View());
              s == if offset + len <= |v| then Some(v[offset..offset + len]) else None
    {
      if offset + len > size {
        return None;
      }
      assert Value(heap.View(), View())[offset..offset] == [];
      s := Some(if len == 0 then [] else heap.blocks[data][offset..offset + len]);
    }

    /** The destructor. */
    method Dispose(heap: Heap)
      modifies heap
      ensures heap.View() == Free(old(heap.View()), data)
    {
      heap.Release(data);
    }
  }

  /** A caller holding named arenas over one heap; different names are different objects. */
  class Program {
    const heap: Heap
    var arenas: map<nat, Arena>

    ghost predicate Valid()
      reads this
    {
      forall a, b | a in arenas && b in arenas && a != b :: arenas[a] != arenas[b]
    }

    ghost function View(): World
      reads this, heap, arenas.Values
    {
      World(heap.View(), map a | a in arenas :: arenas[a].View())
    }

    constructor ()
      ensures Valid() && fresh(heap) && View() == START
    {
      heap := new Heap();
      arenas := map[];
    }

    /** Gives a newly constructed arena its name, unless the constructor threw. */
    method Bind(a: nat, made: Option<Arena>)
      requires Valid() && (made.Some? ==> made.value !in arenas.Values)
      modifies this
      ensures Valid()
      ensures arenas.Values <= old(arenas.Values) + (if made.Some? then {made.value} else {})
      ensures made.None? ==> View() == old(View())
      ensures made.Some? ==> View() == old(View()).(arenas := old(View()).arenas[a := made.value.View()])
    {
      if made.Some? {
        arenas := arenas[a := made.value];
      }
    }

    method StepNew(a: nat, bytes: nat, grant: Grant)
      requires Valid() && Legal(View(), New(a, bytes, grant))
      modifies this, heap
      ensures Valid() && fresh(arenas.Values - old(arenas.Values))
      ensures View() == Exec(old(View()), New(a, bytes, grant))
    {
      var made := Arena.Make(heap, bytes, grant);
      assert View().arenas == old(View()).arenas;
      Bind(a, made);
    }

    method StepNewCopy(a: nat, from: nat, grant: Grant)
      requires Valid() && Legal(View(), NewCopy(a, from, grant))
      modifies this, heap
      ensures Valid() && fresh(arenas.Values - old(arenas.Values))
      ensures View() == Exec(old(View()), NewCopy(a, from, grant))
    {
      var made := Arena.MakeCopy(heap, arenas[from], grant);
      assert View().arenas == old(View()).arenas;
      Bind(a, made);
    }

    method StepNewMoved(a: nat, from: nat)
      requires Valid() && Legal(View(), NewMoved(a, from))
      modifies this, arenas.Values
      ensures Valid() && fresh(arenas.Values - old(arenas.Values))
      ensures View() == Exec(old(View()), NewMoved(a, from))
    {
      var made := new Arena.MakeMoved(arenas[from]);
      assert View().arenas == old(View()).arenas[from := EMPTY];
      Bind(a, Some(made));
      assert View().arenas == old(View()).arenas[a := old(View()).arenas[from]][from := EMPTY];
    }

    method StepAssignCopy(a: nat, from: nat, grant: Grant)
      requires Valid() && Legal(View(), AssignCopy(a, from, grant))
      modifies heap, arenas.Values
      ensures View() == Exec(old(View()), AssignCopy(a, from, grant))
    {
      var ok := arenas[a].AssignFrom(heap, arenas[from], grant);
    }

    method StepAssignMoved(a: nat, from: nat)
      requires Valid() && Legal(View(), AssignMoved(a, from))
      modifies heap, arenas.Values
      ensures View() == Exec(old(View()), AssignMoved(a, from))
    {
      arenas[a].MoveFrom(heap, arenas[from]);
    }

    method StepSwap(a: nat, from: nat)
      requires Valid() && Legal(View(), Swap(a, from))
      modifies arenas.Values
      ensures View() == Exec(old(View()), Swap(a, from))
    {
      arenas[a].SwapWith(arenas[from]);
    }

    method StepWrite(a: nat, offset: nat, s: seq<Byte>)
      requires Valid() && Legal(View(), Write(a, offset, s))
      requires offset + |s| < 0x1_0000_0000_0000_0000
      modifies heap
      ensures View() == Exec(old(View()), Write(a, offset, s))
    {
      var ok := arenas[a].WriteAt(heap, offset, s);
    }

    method StepDestroy(a: nat)
      requires Valid() && Legal(View(), Destroy(a))
      modifies this, heap
      ensures Valid() && arenas.Values <= old(arenas.Values)
      ensures View() == Exec(old(View()), Destroy(a))
    {
      arenas[a].Dispose(heap);
      arenas := arenas - {a};
    }

    /** Executes one operation by calling the members of `Arena` on the objects themselves. */
    method Step(op: Op)
      requires Valid() && Legal(View(), op)
      requires op.Write? ==> op.offset + |op.s| < 0x1_0000_0000_0000_0000
      modifies this, heap, arenas.Values
      ensures Valid() && fresh(arenas.Values - old(arenas.Values))
      ensures View() == Exec(old(View()), op)
    {
      match op
      case New(a, bytes, grant) => StepNew(a, bytes, grant);
      case NewCopy(a, from, grant) => StepNewCopy(a, from, grant);
      case NewMoved(a, from) => StepNewMoved(a, from);
      case AssignCopy(a, from, grant) => StepAssignCopy(a, from, grant);
      case AssignMoved(a, from) => StepAssignMoved(a, from);
      case Swap(a, from) => StepSwap(a, from);
      case Write(a, offset, s) => StepWrite(a, offset, s);
      case Destroy(a) => StepDestroy(a);
    }

    /** Executes a whole program. */
    method Execute(ops: seq<Op>)
      requires Valid() && Runnable(View(), ops)
      requires forall k | 0 <= k < |ops| :: ops[k].Write? ==> ops[k].offset + |ops[k].s| < 0x1_0000_0000_0000_0000
      modifies this, heap, arenas.Values
      ensures Valid() && fresh(arenas.Values - old(arenas.Values))
      ensures View() == Run(old(View()), ops)
      decreases |ops|
    {
      if ops != [] {
        Step(ops[0]);
        Execute(ops[1..]);
      }
    }
  }
}
