// Data pointers shared between storages (c10/core/RefcountedDeleter.cpp, StorageImpl.h):
// a shared context counts the storages carrying it, and the original deleter runs
// exactly once, when the last of them goes.
module SharedStorage {

  type Address = nat
  type StorageId = nat

  // Who disposes of the data: the original deleter on its context, or the refcounted deleter
  // on a shared context. The null context is 0.
  datatype Owner = Original(deleter: nat, ctx: Address) | Shared(ctx: Address)

  datatype DataPtr = DataPtr(data: Address, owner: Owner, device: nat)

  // RefcountedDeleterContext
  datatype Context = Context(otherCtx: Address, otherDeleter: nat, refcount: int)

  // One run of a deleter on a context.
  datatype Deletion = Deletion(deleter: nat, ctx: Address)

  // nbytes is absent when the size is symbolic.
  datatype StorageImpl = StorageImpl(
    ptr: DataPtr,
    nbytes: int,
    nbytesIsHeapAllocated: bool,
    allocator: nat,
    resizable: bool,
    throwOnImmutable: bool,
    throwOnMutable: bool)

  datatype Status = Ok | DataPtrAccessError | NullDataPtrError | SymbolicSizeError

  type Storages = map<StorageId, StorageImpl>
  type Contexts = map<Address, Context>

  // ----- counting -----

  predicate Carries(i: StorageImpl, a: Address) {
    i.ptr.owner == Shared(a)
  }

  predicate Owns(i: StorageImpl, c: Address) {
    i.ptr.owner.Original? && i.ptr.owner.ctx == c
  }

  function Sharers(storages: Storages, a: Address): (r: set<StorageId>) {
    set s | s in storages.Keys && Carries(storages[s], a)
  }

  function Direct(storages: Storages, c: Address): (r: set<StorageId>) {
    set s | s in storages.Keys && Owns(storages[s], c)
  }

  function Wrapped(contexts: Contexts, c: Address): (r: set<Address>) {
    set a | a in contexts.Keys && contexts[a].otherCtx == c
  }

  function One(b: bool): (n: nat) {
    if b then 1 else 0
  }

  lemma SharersAdd(storages: Storages, s: StorageId, i: StorageImpl, a: Address)
    requires s !in storages
    ensures |Sharers(storages[s := i], a)| == |Sharers(storages, a)| + One(Carries(i, a))
  {
    assert Sharers(storages[s := i], a) == Sharers(storages, a) + if Carries(i, a) then {s} else {};
  }

  lemma DirectAdd(storages: Storages, s: StorageId, i: StorageImpl, c: Address)
    requires s !in storages
    ensures |Direct(storages[s := i], c)| == |Direct(storages, c)| + One(Owns(i, c))
  {
    assert Direct(storages[s := i], c) == Direct(storages, c) + if Owns(i, c) then {s} else {};
  }

  lemma StorageAdd(storages: Storages, s: StorageId, i: StorageImpl, a: Address)
    requires s !in storages
    ensures |Sharers(storages[s := i], a)| == |Sharers(storages, a)| + One(Carries(i, a))
    ensures |Direct(storages[s := i], a)| == |Direct(storages, a)| + One(Owns(i, a))
  {
    SharersAdd(storages, s, i, a);
    DirectAdd(storages, s, i, a);
  }

  lemma StorageRemove(storages: Storages, s: StorageId, a: Address)
    requires s in storages
    ensures |Sharers(storages - {s}, a)| == |Sharers(storages, a)| - One(Carries(storages[s], a))
    ensures |Direct(storages - {s}, a)| == |Direct(storages, a)| - One(Owns(storages[s], a))
  {
    var rest := storages - {s};
    assert storages == rest[s := storages[s]];
    StorageAdd(rest, s, storages[s], a);
  }

  lemma ContextAdd(contexts: Contexts, x: Address, c: Context, a: Address)
    requires x !in contexts
    ensures |Wrapped(contexts[x := c], a)| == |Wrapped(contexts, a)| + One(c.otherCtx == a)
  {
    assert Wrapped(contexts[x := c], a) == Wrapped(contexts, a) + if c.otherCtx == a then {x} else {};
  }

  lemma ContextRemove(contexts: Contexts, x: Address, a: Address)
    requires x in contexts
    ensures |Wrapped(contexts - {x}, a)| == |Wrapped(contexts, a)| - One(contexts[x].otherCtx == a)
  {
    var rest := contexts - {x};
    assert contexts == rest[x := contexts[x]];
    ContextAdd(rest, x, contexts[x], a);
  }

  lemma ContextRecount(contexts: Contexts, x: Address, n: int, a: Address)
    requires x in contexts
    ensures |Wrapped(contexts[x := contexts[x].(refcount := n)], a)| == |Wrapped(contexts, a)|
  {
    assert Wrapped(contexts[x := contexts[x].(refcount := n)], a) == Wrapped(contexts, a);
  }

  // ----- what holds at every moment -----

  // deleted lists the runs of original deleters; created maps every original context
  // to its deleter.
  datatype World = World(storages: Storages, contexts: Contexts, deleted: seq<Deletion>, created: map<Address, nat>)

  // A shared context is alive exactly while storages carry it, and counts them.
  ghost predicate CountRight(w: World, a: Address) {
    if a in w.contexts.Keys then w.contexts[a].refcount == |Sharers(w.storages, a)| >= 1
    else |Sharers(w.storages, a)| == 0
  }

  // How often the deleter of an original context has run on it.
  function Runs(w: World, c: Address): (n: nat) {
    if c in w.created then multiset(w.deleted)[Deletion(w.created[c], c)] else 0
  }

  // Every original context is in exactly one place: held by one storage, wrapped in one shared
  // context, or already deleted, once.
  function Places(w: World, c: Address): (n: nat) {
    |Direct(w.storages, c)| + |Wrapped(w.contexts, c)| + Runs(w, c)
  }

  ghost predicate OwnedOnce(w: World, c: Address) {
    c != 0 ==> Places(w, c) == One(c in w.created.Keys)
  }

  // The deleter is the one the context was created with.
  predicate DeletionOk(w: World, d: Deletion) {
    d.ctx != 0 ==> d.ctx in w.created.Keys && w.created[d.ctx] == d.deleter
  }

  predicate OwnerOk(w: World, o: Owner) {
    o.Original? ==> DeletionOk(w, Deletion(o.deleter, o.ctx))
  }

  ghost predicate Inv(w: World) {
    && (forall a :: CountRight(w, a))
    && (forall c :: OwnedOnce(w, c))
    && (forall s :: s in w.storages ==> OwnerOk(w, w.storages[s].ptr.owner))
    && (forall a :: a in w.contexts ==> DeletionOk(w, Deletion(w.contexts[a].otherDeleter, w.contexts[a].otherCtx)))
    && (forall k :: 0 <= k < |w.deleted| ==> w.deleted[k].ctx != 0 && DeletionOk(w, w.deleted[k]))
  }

  // ----- the operations -----

  // Destroying an owner: the deleter runs only on a context that is not null.
  function Dispose(w: World, o: Owner): (w': World)
    requires o.Shared? ==> o.ctx in w.contexts.Keys
  {
    match o
    case Original(d, c) => if c == 0 then w else w.(deleted := w.deleted + [Deletion(d, c)])
    case Shared(a) => RefcountedDeleter(w, a)
  }

  // refcounted_deleter
  function RefcountedDeleter(w: World, a: Address): (w': World)
    requires a in w.contexts.Keys
  {
    var x := w.contexts[a];
    if x.refcount - 1 == 0 then
      var w' := w.(contexts := w.contexts - {a});
      if x.otherCtx == 0 then w' else w'.(deleted := w'.deleted + [Deletion(x.otherDeleter, x.otherCtx)])
    else w.(contexts := w.contexts[a := x.(refcount := x.refcount - 1)])
  }

  function Drop(w: World, s: StorageId): (w': World)
    requires s in w.storages && (w.storages[s].ptr.owner.Shared? ==> w.storages[s].ptr.owner.ctx in w.contexts.Keys)
  {
    Dispose(w.(storages := w.storages - {s}), w.storages[s].ptr.owner)
  }

  lemma SharedContextLives(w: World, s: StorageId)
    requires Inv(w) && s in w.storages && w.storages[s].ptr.owner.Shared?
    ensures w.storages[s].ptr.owner.ctx in w.contexts.Keys
  {
    var a := w.storages[s].ptr.owner.ctx;
    assert CountRight(w, a) && s in Sharers(w.storages, a);
  }

  lemma DropInv(w: World, s: StorageId)
    requires Inv(w) && s in w.storages
    ensures w.storages[s].ptr.owner.Shared? ==> w.storages[s].ptr.owner.ctx in w.contexts.Keys
    ensures Inv(Drop(w, s))
  {
    var o := w.storages[s].ptr.owner;
    if o.Shared? {
      SharedContextLives(w, s);
    }
    forall x ensures CountRight(Drop(w, s), x) && OwnedOnce(Drop(w, s), x) {
      DropCount(w, s, x);
      DropPlaces(w, s, x);
    }
  }

  lemma DropCount(w: World, s: StorageId, a: Address)
    requires Inv(w) && s in w.storages
    requires w.storages[s].ptr.owner.Shared? ==> w.storages[s].ptr.owner.ctx in w.contexts.Keys
    ensures CountRight(Drop(w, s), a)
  {
    assert CountRight(w, a);
    StorageRemove(w.storages, s, a);
  }

  lemma RunsAppend(w: World, d: Deletion, c: Address)
    requires DeletionOk(w, d) && d.ctx != 0 && c != 0
    ensures Runs(w.(deleted := w.deleted + [d]), c) == Runs(w, c) + One(d.ctx == c)
  {
  }

  lemma DropOriginalPlaces(w: World, s: StorageId, c: Address)
    requires Inv(w) && s in w.storages && w.storages[s].ptr.owner.Original? && c != 0
    ensures Places(Drop(w, s), c) == Places(w, c)
  {
    var o := w.storages[s].ptr.owner;
    StorageRemove(w.storages, s, c);
    if o.ctx != 0 {
      RunsAppend(w.(storages := w.storages - {s}), Deletion(o.deleter, o.ctx), c);
    }
  }

  lemma DropSharedPlaces(w: World, s: StorageId, c: Address)
    requires Inv(w) && s in w.storages && w.storages[s].ptr.owner.Shared? && c != 0
    requires w.storages[s].ptr.owner.ctx in w.contexts.Keys
    ensures Places(Drop(w, s), c) == Places(w, c)
  {
    var a := w.storages[s].ptr.owner.ctx;
    var x := w.contexts[a];
    StorageRemove(w.storages, s, c);
    if x.refcount - 1 == 0 {
      ContextRemove(w.contexts, a, c);
      if x.otherCtx != 0 {
        RunsAppend(w.(storages := w.storages - {s}, contexts := w.contexts - {a}), Deletion(x.otherDeleter, x.otherCtx), c);
      }
    } else {
      ContextRecount(w.contexts, a, x.refcount - 1, c);
    }
  }

  lemma DropPlaces(w: World, s: StorageId, c: Address)
    requires Inv(w) && s in w.storages
    requires w.storages[s].ptr.owner.Shared? ==> w.storages[s].ptr.owner.ctx in w.contexts.Keys
    ensures OwnedOnce(Drop(w, s), c)
  {
    assert OwnedOnce(w, c);
    if c != 0 {
      if w.storages[s].ptr.owner.Shared? {
        DropSharedPlaces(w, s, c);
      } else {
        DropOriginalPlaces(w, s, c);
      }
    }
  }

  // A storage with its own original owner.
  lemma CreateInv(w: World, s: StorageId, i: StorageImpl)
    requires Inv(w) && s !in w.storages && i.ptr.owner.Original? && (i.ptr.owner.ctx == 0 || i.ptr.owner.ctx !in w.created)
    ensures Inv(w.(storages := w.storages[s := i], created := w.created[i.ptr.owner.ctx := i.ptr.owner.deleter]))
  {
    var w' := w.(storages := w.storages[s := i], created := w.created[i.ptr.owner.ctx := i.ptr.owner.deleter]);
    forall a ensures CountRight(w', a) && OwnedOnce(w', a) {
      assert CountRight(w, a) && OwnedOnce(w, a);
      StorageAdd(w.storages, s, i, a);
    }
  }

  // Wrapping the original owner of storage s in a new context.
  lemma WrapInv(w: World, s: StorageId, a: Address)
    requires Inv(w) && s in w.storages && w.storages[s].ptr.owner.Original? && a !in w.contexts
    ensures var i := w.storages[s];
            Inv(w.(storages := w.storages[s := i.(ptr := i.ptr.(owner := Shared(a)))],
                   contexts := w.contexts[a := Context(i.ptr.owner.ctx, i.ptr.owner.deleter, 1)]))
  {
    var i := w.storages[s];
    var i' := i.(ptr := i.ptr.(owner := Shared(a)));
    var w' := w.(storages := w.storages[s := i'], contexts := w.contexts[a := Context(i.ptr.owner.ctx, i.ptr.owner.deleter, 1)]);
    var rest := w.storages - {s};
    assert w.storages[s := i'] == rest[s := i'];
    forall x ensures CountRight(w', x) && OwnedOnce(w', x) {
      assert CountRight(w, x) && OwnedOnce(w, x);
      StorageRemove(w.storages, s, x);
      StorageAdd(rest, s, i', x);
      ContextAdd(w.contexts, a, Context(i.ptr.owner.ctx, i.ptr.owner.deleter, 1), x);
    }
  }

  // One more storage on a shared context.
  lemma ShareInv(w: World, s: StorageId, i: StorageImpl, a: Address)
    requires Inv(w) && s !in w.storages && i.ptr.owner == Shared(a) && a in w.contexts
    ensures Inv(w.(storages := w.storages[s := i],
                   contexts := w.contexts[a := w.contexts[a].(refcount := w.contexts[a].refcount + 1)]))
  {
    var w' := w.(storages := w.storages[s := i],
                 contexts := w.contexts[a := w.contexts[a].(refcount := w.contexts[a].refcount + 1)]);
    forall x ensures CountRight(w', x) && OwnedOnce(w', x) {
      assert CountRight(w, x) && OwnedOnce(w, x);
      StorageAdd(w.storages, s, i, x);
      ContextRecount(w.contexts, a, w.contexts[a].refcount + 1, x);
    }
  }

  // The storage leads to the original context c, directly or through a shared context.
  predicate LeadsTo(w: World, s: StorageId, c: Address)
    requires s in w.storages
  {
    match w.storages[s].ptr.owner
    case Original(_, x) => x == c
    case Shared(a) => a in w.contexts && w.contexts[a].otherCtx == c
  }

  ghost predicate Reachable(w: World, c: Address) {
    exists s :: s in w.storages && LeadsTo(w, s, c)
  }

  lemma HeldIsReachable(w: World, c: Address)
    requires Inv(w)
    ensures Direct(w.storages, c) != {} || Wrapped(w.contexts, c) != {} <==> Reachable(w, c)
  {
    if Direct(w.storages, c) != {} {
      var s :| s in Direct(w.storages, c);
      assert LeadsTo(w, s, c);
    } else if Wrapped(w.contexts, c) != {} {
      var a :| a in Wrapped(w.contexts, c);
      assert CountRight(w, a);
      var s :| s in Sharers(w.storages, a);
      assert LeadsTo(w, s, c);
    }
    if Reachable(w, c) {
      var s :| s in w.storages && LeadsTo(w, s, c);
      match w.storages[s].ptr.owner
      case Original(_, x) => assert s in Direct(w.storages, c);
      case Shared(a) => assert a in Wrapped(w.contexts, c);
    }
  }

  // The deleter that the context was created with has run once if no storage leads to the context any
  // more, and not at all before; no other deleter ever runs on it.
  ghost predicate DeletedRight(w: World, c: Address)
    requires c in w.created
  {
    && multiset(w.deleted)[Deletion(w.created[c], c)] == (if Reachable(w, c) then 0 else 1)
    && forall d :: d in w.deleted && d.ctx == c ==> d.deleter == w.created[c]
  }

  lemma DeletedExactlyOnceAtTheEnd(w: World, c: Address)
    requires Inv(w) && c != 0 && c in w.created
    ensures DeletedRight(w, c)
  {
    assert OwnedOnce(w, c);
    HeldIsReachable(w, c);
  }

  datatype Op =
    | OpCreate(s: StorageId, i: StorageImpl)
    | OpShare(s: StorageId, newCtx: Address)
    | OpClone(s: StorageId, clone: StorageId, newCtx: Address)
    | OpDrop(s: StorageId)

  // mutable_data_ptr without a materializer.
  function AccessStatus(i: StorageImpl): (status: Status) {
    if i.throwOnImmutable then DataPtrAccessError
    else if i.throwOnMutable then NullDataPtrError
    else Ok
  }

  // The state after maybeApplyRefcountedDeleter.
  function Share(w: World, s: StorageId, newCtx: Address): (w': World)
    requires s in w.storages
  {
    var i := w.storages[s];
    if AccessStatus(i) != Ok || i.ptr.owner.Shared? then w
    else w.(storages := w.storages[s := i.(ptr := i.ptr.(owner := Shared(newCtx)))],
            contexts := w.contexts[newCtx := Context(i.ptr.owner.ctx, i.ptr.owner.deleter, 1)])
  }

  // The state after newStorageImplFromRefcountedDataPtr: the new storage takes pointer, size, allocator
  // and resizability over, and none of the access restrictions.
  function Clone(w: World, s: StorageId, clone: StorageId, newCtx: Address): (w': World)
    requires s in w.storages
  {
    var w1 := Share(w, s, newCtx);
    var i := w1.storages[s];
    if AccessStatus(i) != Ok || i.nbytesIsHeapAllocated || !i.ptr.owner.Shared? || i.ptr.owner.ctx !in w1.contexts then w1
    else
      var a := i.ptr.owner.ctx;
      w1.(storages := w1.storages[clone := StorageImpl(i.ptr, i.nbytes, false, i.allocator, i.resizable, false, false)],
          contexts := w1.contexts[a := w1.contexts[a].(refcount := w1.contexts[a].refcount + 1)])
  }

  // What a successful clone is: one more storage on the same data, with pointer, size, allocator and
  // resizability of the original; only the original's owner may have changed besides.
  lemma CloneMeans(w: World, s: StorageId, clone: StorageId, newCtx: Address)
    requires Inv(w) && s in w.storages && clone !in w.storages && newCtx != 0 && newCtx !in w.contexts
    ensures var i, w' := w.storages[s], Clone(w, s, clone, newCtx);
            if AccessStatus(i) == Ok && !i.nbytesIsHeapAllocated
              then
                && s in w'.storages && clone in w'.storages
                && w'.storages[s] == i.(ptr := w'.storages[s].ptr)
                && w'.storages[s].ptr == i.ptr.(owner := Shared(if i.ptr.owner.Shared? then i.ptr.owner.ctx else newCtx))
                && w'.storages[clone] == StorageImpl(w'.storages[s].ptr, i.nbytes, false, i.allocator, i.resizable, false, false)
                && w'.storages.Keys == w.storages.Keys + {clone}
                && (forall x :: x in w.storages && x != s ==> w'.storages[x] == w.storages[x])
              else
                && w'.storages.Keys == w.storages.Keys
                && (forall x :: x in w.storages && x != s ==> w'.storages[x] == w.storages[x])
                && w'.storages[s].ptr.data == i.ptr.data && w'.deleted == w.deleted
  {
    if w.storages[s].ptr.owner.Shared? {
      SharedContextLives(w, s);
    }
  }

  // An operation is possible when its operands are there.
  predicate Possible(w: World, op: Op) {
    match op
    case OpCreate(s, i) =>
      s !in w.storages && i.ptr.owner.Original? && (i.ptr.owner.ctx == 0 || i.ptr.owner.ctx !in w.created)
    case OpShare(s, x) => s in w.storages && x != 0 && x !in w.contexts
    case OpClone(s, clone, x) => s in w.storages && clone !in w.storages && x != 0 && x !in w.contexts
    case OpDrop(s) =>
      s in w.storages && (w.storages[s].ptr.owner.Shared? ==> w.storages[s].ptr.owner.ctx in w.contexts)
  }

  function After(w: World, op: Op): (w': World)
    requires Possible(w, op)
  {
    match op
    case OpCreate(s, i) => w.(storages := w.storages[s := i], created := w.created[i.ptr.owner.ctx := i.ptr.owner.deleter])
    case OpShare(s, x) => Share(w, s, x)
    case OpClone(s, clone, x) => Clone(w, s, clone, x)
    case OpDrop(s) => Drop(w, s)
  }

  // A program; operations that are not possible when their turn comes are left out.
  function AfterAll(w: World, ops: seq<Op>): (w': World) {
    var n := |ops| - 1;
    if n < 0 then w
    else
      var w1 := AfterAll(w, ops[..n]);
      if Possible(w1, ops[n]) then After(w1, ops[n]) else w1
  }

  class Process {
    var storages: Storages
    var contexts: Contexts
    // What became of the original contexts, seen from outside.
    var deleted: seq<Deletion>
    var created: map<Address, nat>

    function Abs(): (w': World)
      reads this
    {
      World(storages, contexts, deleted, created)
    }

    ghost predicate Valid()
      reads this
    {
      Inv(Abs())
    }

    constructor ()
      ensures Valid() && Abs() == World(map[], map[], [], map[])
    {
      storages, contexts, deleted, created := map[], map[], [], map[];
    }

    // A storage on fresh memory with its allocator's deleter. Contexts are named apart: an address that is
    // used again after its deletion counts as a new one.
    method NewStorage(s: StorageId, i: StorageImpl)
      requires Valid() && s !in storages && i.ptr.owner.Original? && (i.ptr.owner.ctx == 0 || i.ptr.owner.ctx !in created)
      modifies this
      ensures Valid() && Abs() == After(old(Abs()), OpCreate(s, i))
    {
      CreateInv(Abs(), s, i);
      storages, created := storages[s := i], created[i.ptr.owner.ctx := i.ptr.owner.deleter];
    }

    method MaybeApplyRefcountedDeleter(s: StorageId, newCtx: Address) returns (r: Status)
      requires Valid() && s in storages && newCtx != 0 && newCtx !in contexts
      modifies this
      ensures Valid() && r == AccessStatus(old(storages[s])) && deleted == old(deleted) && created == old(created)
      ensures storages.Keys == old(storages.Keys) && Abs() == Share(old(Abs()), s, newCtx)
      ensures r != Ok || old(storages[s]).ptr.owner.Shared? ==> storages == old(storages) && contexts == old(contexts)
      ensures r == Ok ==> storages[s].ptr.owner.Shared? && storages[s].ptr.owner.ctx in contexts
      ensures r == Ok && old(storages[s]).ptr.owner.Original? ==>
                && storages == old(storages)[s := old(storages[s]).(ptr := old(storages[s]).ptr.(owner := Shared(newCtx)))]
                && contexts == old(contexts)[newCtx := Context(old(storages[s]).ptr.owner.ctx, old(storages[s]).ptr.owner.deleter, 1)]
    {
      r := AccessStatus(storages[s]);
      if r != Ok {
        return;
      }
      var ptr := storages[s].ptr;
      if ptr.owner.Shared? {
        SharedContextLives(Abs(), s);
        return;
      }
      WrapInv(Abs(), s, newCtx);
      contexts := contexts[newCtx := Context(ptr.owner.ctx, ptr.owner.deleter, 1)];
      // The old pointer was told to release its context, so replacing it runs no deleter.
      storages := storages[s := storages[s].(ptr := ptr.(owner := Shared(newCtx)))];
    }

    // The size check throws after the count went up; unwinding destroys the new pointer, which takes
    // it down again.
    method Unwind(a: Address)
      requires a in contexts && contexts[a].refcount >= 1
      modifies `contexts
      ensures contexts == old(contexts)
    {
      contexts := contexts[a := contexts[a].(refcount := contexts[a].refcount + 1)];
      contexts := contexts[a := contexts[a].(refcount := contexts[a].refcount - 1)];
    }

    method NewStorageImplFromRefcountedDataPtr(s: StorageId, s': StorageId, newCtx: Address) returns (r: Status)
      requires Valid() && s in storages && s' !in storages && newCtx != 0 && newCtx !in contexts
      modifies this
      ensures Valid() && deleted == old(deleted) && created == old(created)
      ensures r == if AccessStatus(old(storages[s])) != Ok then AccessStatus(old(storages[s]))
                   else if old(storages[s]).nbytesIsHeapAllocated then SymbolicSizeError else Ok
      ensures r == Ok ==>
                && s in storages && s' in storages && storages[s'].ptr == storages[s].ptr && storages[s].ptr.owner.Shared?
                && storages[s'].nbytes == storages[s].nbytes
                && storages[s].ptr.data == old(storages[s]).ptr.data && storages[s].ptr.device == old(storages[s]).ptr.device
      ensures Abs() == Clone(old(Abs()), s, s', newCtx)
    {
      r := MaybeApplyRefcountedDeleter(s, newCtx);
      if r != Ok {
        return;
      }
      var i := storages[s];
      var a := i.ptr.owner.ctx;
      assert CountRight(Abs(), a);
      if i.nbytesIsHeapAllocated {
        Unwind(a);
        return SymbolicSizeError;
      }
      ghost var w := Abs();
      var i' := StorageImpl(i.ptr, i.nbytes, false, i.allocator, i.resizable, false, false);
      ShareInv(w, s', i', a);
      contexts := contexts[a := contexts[a].(refcount := contexts[a].refcount + 1)];
      storages := storages[s' := i'];
    }

    // The end of a storage: its data pointer is destroyed.
    method DropStorage(s: StorageId)
      requires Valid() && s in storages
      modifies this
      ensures Valid() && storages == old(storages) - {s} && created == old(created)
      ensures Possible(old(Abs()), OpDrop(s)) && Abs() == Drop(old(Abs()), s)
      ensures forall c :: c != 0 && c in created ==>
                DeletedRight(Abs(), c)
    {
      ghost var w := Abs();
      DropInv(w, s);
      var owner := storages[s].ptr.owner;
      storages := storages - {s};
      match owner {
        case Original(d, c) =>
          if c != 0 {
            deleted := deleted + [Deletion(d, c)];
          }
        case Shared(a) =>
          var x := contexts[a];
          if x.refcount - 1 == 0 {
            contexts := contexts - {a};
            if x.otherCtx != 0 {
              deleted := deleted + [Deletion(x.otherDeleter, x.otherCtx)];
            }
          } else {
            contexts := contexts[a := x.(refcount := x.refcount - 1)];
          }
      }
      assert Abs() == Drop(w, s);
      forall c | c != 0 && c in created ensures DeletedRight(Abs(), c) {
        DeletedExactlyOnceAtTheEnd(Abs(), c);
      }
    }

    method Perform(op: Op)
      requires Valid() && Possible(Abs(), op)
      modifies this
      ensures Valid() && Abs() == After(old(Abs()), op)
    {
      match op {
        case OpCreate(s, i) => NewStorage(s, i);
        case OpShare(s, x) => var r := MaybeApplyRefcountedDeleter(s, x);
        case OpClone(s, clone, x) => var r := NewStorageImplFromRefcountedDataPtr(s, clone, x);
        case OpDrop(s) => DropStorage(s);
      }
    }

    // Over any run the original deleter of a context has run exactly when no storage leads to it any
    // more, and then once; shared contexts count the storages carrying them.
    method Execute(ops: seq<Op>)
      requires Valid()
      modifies this
      ensures Valid() && Abs() == AfterAll(old(Abs()), ops)
      ensures forall c :: c != 0 && c in created ==> DeletedRight(Abs(), c)
      ensures forall a :: a in contexts ==> contexts[a].refcount == |Sharers(storages, a)| >= 1
    {
      for k := 0 to |ops|
        invariant Valid() && Abs() == AfterAll(old(Abs()), ops[..k])
      {
        assert ops[..k + 1][..k] == ops[..k];
        if Possible(Abs(), ops[k]) {
          Perform(ops[k]);
        }
      }
      assert ops[..|ops|] == ops;
      forall c | c != 0 && c in created ensures DeletedRight(Abs(), c) {
        DeletedExactlyOnceAtTheEnd(Abs(), c);
      }
      forall a | a in contexts ensures contexts[a].refcount == |Sharers(storages, a)| >= 1 {
        assert CountRight(Abs(), a);
      }
    }
  }
}
