// Ownership of symbolic nodes by SymInts (c10/core/SymInt.h and .cpp): constructors,
// copies, moves, assignments and destructors keep every node's count equal to the number
// of its owners. SymInts are given by the content of their word; SymIntWord shows that the
// word determines it.
module SymIntOwnership {
  import opened SymIntWord
  import opened Wrappers

  // constant is the integer of a boxed constant, absent for a truly symbolic node.
  datatype SymNode = SymNode(refcount: nat, constant: Option<Int64>)

  type Slot = nat
  type Nodes = map<Address, SymNode>
  type Ints = map<Slot, Content>

  // The SymInts holding c.
  function Holders(ints: Ints, c: Content): (r: set<Slot>) {
    set s | s in ints.Keys && ints[s] == c
  }

  lemma HoldersAdd(ints: Ints, s: Slot, c: Content, x: Content)
    requires s !in ints
    ensures |Holders(ints[s := c], x)| == |Holders(ints, x)| + if c == x then 1 else 0
  {
    assert Holders(ints[s := c], x) == Holders(ints, x) + if c == x then {s} else {};
  }

  lemma HoldersRemove(ints: Ints, s: Slot, x: Content)
    requires s in ints
    ensures |Holders(ints - {s}, x)| == |Holders(ints, x)| - if ints[s] == x then 1 else 0
  {
    assert Holders(ints, x) == Holders(ints - {s}, x) + if ints[s] == x then {s} else {};
  }

  // The owners of the node at address a: SymInts holding it, and SymNode handles.
  function Owners(ints: Ints, handles: multiset<Address>, a: Address): (n: nat) {
    |Holders(ints, NodeAt(a))| + handles[a]
  }

  // A node is alive exactly as long as somebody owns it, and counts its owners.
  ghost predicate NodeBalanced(nodes: Nodes, owners: nat, a: Address) {
    if a in nodes.Keys then nodes[a].refcount == owners >= 1 else owners == 0
  }

  ghost predicate Balanced(nodes: Nodes, ints: Ints, handles: multiset<Address>) {
    forall a :: NodeBalanced(nodes, Owners(ints, handles, a), a)
  }

  // Counting changes no constant and brings no node back.
  ghost predicate OnlyCounts(before: Nodes, after: Nodes) {
    after.Keys <= before.Keys && forall a :: a in after.Keys ==> after[a].constant == before[a].constant
  }

  function IncRef(nodes: Nodes, a: Address): (r: Nodes)
    requires a in nodes.Keys
    ensures OnlyCounts(nodes, r)
  {
    nodes[a := nodes[a].(refcount := nodes[a].refcount + 1)]
  }

  // intrusive_ptr release: the last owner frees the node.
  function DecRef(nodes: Nodes, a: Address): (r: Nodes)
    requires a in nodes.Keys && nodes[a].refcount >= 1
    ensures OnlyCounts(nodes, r)
  {
    if nodes[a].refcount == 1 then nodes - {a} else nodes[a := nodes[a].(refcount := nodes[a].refcount - 1)]
  }

  lemma OwnedNodeLives(nodes: Nodes, ints: Ints, handles: multiset<Address>, a: Address)
    requires Balanced(nodes, ints, handles)
    requires a in handles || exists s :: s in ints && ints[s] == NodeAt(a)
    ensures a in nodes.Keys && nodes[a].refcount >= 1
  {
    assert NodeBalanced(nodes, Owners(ints, handles, a), a);
    if a !in handles {
      var s :| s in ints && ints[s] == NodeAt(a);
      assert s in Holders(ints, NodeAt(a));
    }
  }

  // What giving up, or taking on, a content does to the nodes.
  function Released(nodes: Nodes, c: Content): (r: Nodes)
    requires c.NodeAt? ==> c.address in nodes.Keys && nodes[c.address].refcount >= 1
    ensures OnlyCounts(nodes, r)
  {
    if c.NodeAt? then DecRef(nodes, c.address) else nodes
  }

  function Acquired(nodes: Nodes, c: Content): (r: Nodes)
    requires c.NodeAt? ==> c.address in nodes.Keys
    ensures OnlyCounts(nodes, r)
  {
    if c.NodeAt? then IncRef(nodes, c.address) else nodes
  }

  // Releasing one SymInt keeps everything balanced ...
  lemma RemoveBalanced(nodes: Nodes, ints: Ints, handles: multiset<Address>, s: Slot)
    requires Balanced(nodes, ints, handles) && s in ints
    ensures ints[s].NodeAt? ==> ints[s].address in nodes.Keys && nodes[ints[s].address].refcount >= 1
    ensures Balanced(Released(nodes, ints[s]), ints - {s}, handles)
  {
    if ints[s].NodeAt? {
      OwnedNodeLives(nodes, ints, handles, ints[s].address);
    }
    forall a ensures NodeBalanced(Released(nodes, ints[s]), Owners(ints - {s}, handles, a), a) {
      assert NodeBalanced(nodes, Owners(ints, handles, a), a);
      HoldersRemove(ints, s, NodeAt(a));
    }
  }

  // ... and so does adding one that shares a live node or holds an integer.
  lemma AddBalanced(nodes: Nodes, ints: Ints, handles: multiset<Address>, s: Slot, c: Content)
    requires Balanced(nodes, ints, handles) && s !in ints
    requires c.NodeAt? ==> c.address in nodes.Keys
    ensures Balanced(Acquired(nodes, c), ints[s := c], handles)
  {
    var nodes', ints' := Acquired(nodes, c), ints[s := c];
    forall a ensures NodeBalanced(nodes', Owners(ints', handles, a), a) {
      assert NodeBalanced(nodes, Owners(ints, handles, a), a);
      HoldersAdd(ints, s, c, NodeAt(a));
    }
  }

  // A new node owned by one new SymInt.
  lemma BoxBalanced(nodes: Nodes, ints: Ints, handles: multiset<Address>, s: Slot, address: Address, n: SymNode)
    requires Balanced(nodes, ints, handles) && s !in ints && address !in nodes.Keys && n.refcount == 1
    ensures Balanced(nodes[address := n], ints[s := NodeAt(address)], handles)
  {
    var ints' := ints[s := NodeAt(address)];
    forall a ensures NodeBalanced(nodes[address := n], Owners(ints', handles, a), a) {
      assert NodeBalanced(nodes, Owners(ints, handles, a), a);
      HoldersAdd(ints, s, NodeAt(address), NodeAt(a));
    }
  }

  // A handle turns into a SymInt without a count changing.
  lemma AdoptBalanced(nodes: Nodes, ints: Ints, handles: multiset<Address>, s: Slot, address: Address)
    requires Balanced(nodes, ints, handles) && s !in ints && address in handles
    ensures Balanced(nodes, ints[s := NodeAt(address)], handles - multiset{address})
  {
    var ints', handles' := ints[s := NodeAt(address)], handles - multiset{address};
    forall a ensures NodeBalanced(nodes, Owners(ints', handles', a), a) {
      assert NodeBalanced(nodes, Owners(ints, handles, a), a);
      HoldersAdd(ints, s, NodeAt(address), NodeAt(a));
    }
  }

  // Moving a content and clearing the source changes no count.
  lemma MoveBalanced(nodes: Nodes, ints: Ints, handles: multiset<Address>, dst: Slot, src: Slot)
    requires Balanced(nodes, ints, handles) && dst !in ints && src in ints
    ensures Balanced(nodes, ints[dst := ints[src]][src := Integer(Int64(0))], handles)
  {
    var c := ints[src];
    var rest, moved := ints - {src}, ints[dst := c][src := Integer(Int64(0))];
    assert ints == rest[src := c] && moved == rest[dst := c][src := Integer(Int64(0))];
    forall a ensures NodeBalanced(nodes, Owners(moved, handles, a), a) {
      assert NodeBalanced(nodes, Owners(ints, handles, a), a);
      HoldersAdd(rest, src, c, NodeAt(a));
      HoldersAdd(rest, dst, c, NodeAt(a));
      HoldersAdd(rest[dst := c], src, Integer(Int64(0)), NodeAt(a));
    }
  }

  // One more, or one fewer, handle.
  lemma HandleBalanced(nodes: Nodes, ints: Ints, handles: multiset<Address>, address: Address)
    requires Balanced(nodes, ints, handles) && address in nodes.Keys
    ensures Balanced(IncRef(nodes, address), ints, handles + multiset{address})
    ensures address in handles ==> nodes[address].refcount >= 1
    ensures address in handles ==> Balanced(DecRef(nodes, address), ints, handles - multiset{address})
  {
    assert NodeBalanced(nodes, Owners(ints, handles, address), address);
    var more := handles + multiset{address};
    forall a ensures NodeBalanced(IncRef(nodes, address), Owners(ints, more, a), a) {
      assert NodeBalanced(nodes, Owners(ints, handles, a), a);
    }
    if address in handles {
      var fewer := handles - multiset{address};
      forall a ensures NodeBalanced(DecRef(nodes, address), Owners(ints, fewer, a), a) {
        assert NodeBalanced(nodes, Owners(ints, handles, a), a);
      }
    }
  }

  // maybe_as_int: the inline integer, or the constant in the node.
  function ReadInt(nodes: Nodes, c: Content): (r: Option<Int64>) {
    match c
    case Integer(i) => Some(i)
    case NodeAt(a) => if a in nodes.Keys then nodes[a].constant else None
  }

  // The nodes that SymInts hold keep their constants.
  ghost predicate KeepsConstants(ints: Ints, before: Nodes, after: Nodes) {
    forall s :: s in ints ==> ReadInt(after, ints[s]) == ReadInt(before, ints[s])
  }

  lemma HeldKeepConstants(before: Nodes, after: Nodes, ints: Ints, handles: multiset<Address>)
    requires Balanced(after, ints, handles) && OnlyCounts(before, after)
    requires forall s :: s in ints && ints[s].NodeAt? ==> ints[s].address in before.Keys
    ensures KeepsConstants(ints, before, after)
  {
    forall s | s in ints && ints[s].NodeAt? ensures ints[s].address in after.Keys {
      OwnedNodeLives(after, ints, handles, ints[s].address);
    }
  }

  lemma HeldAreAlive(nodes: Nodes, ints: Ints, handles: multiset<Address>)
    requires Balanced(nodes, ints, handles)
    ensures forall s :: s in ints && ints[s].NodeAt? ==> ints[s].address in nodes.Keys
    ensures forall a :: a in handles ==> a in nodes.Keys
  {
    forall s | s in ints && ints[s].NodeAt? ensures ints[s].address in nodes.Keys {
      OwnedNodeLives(nodes, ints, handles, ints[s].address);
    }
    forall a | a in handles ensures a in nodes.Keys {
      OwnedNodeLives(nodes, ints, handles, a);
    }
  }

  datatype Op =
    | OpFromInt(s: Slot, d: Int64, address: Address)
    | OpNewNode(address: Address)
    | OpFromNode(s: Slot, address: Address)
    | OpCopyConstruct(dst: Slot, src: Slot)
    | OpMoveConstruct(dst: Slot, src: Slot)
    | OpCopyAssign(dst: Slot, src: Slot)
    | OpMoveAssign(dst: Slot, src: Slot)
    | OpDestroy(s: Slot)
    | OpToSymNode(s: Slot)
    | OpDropHandle(address: Address)

  // What the SymInts and handles of a program hold; which nodes there are and what they count follows.
  datatype Holdings = Holdings(ints: Ints, handles: multiset<Address>)

  // A new node needs an address that nobody owns.
  predicate Unowned(h: Holdings, a: Address) {
    a !in h.handles && NodeAt(a) !in h.ints.Values
  }

  // An operation is possible when its operands are there.
  predicate Possible(h: Holdings, op: Op) {
    match op
    case OpFromInt(s, d, address) => s !in h.ints && Unowned(h, address) && Representable(NodeAt(address))
    case OpNewNode(address) => Unowned(h, address) && Representable(NodeAt(address))
    case OpFromNode(s, address) => s !in h.ints && address in h.handles
    case OpCopyConstruct(dst, src) => dst !in h.ints && src in h.ints
    case OpMoveConstruct(dst, src) => dst !in h.ints && src in h.ints
    case OpCopyAssign(dst, src) => dst in h.ints && src in h.ints
    case OpMoveAssign(dst, src) => dst in h.ints && src in h.ints
    case OpDestroy(s) => s in h.ints
    case OpToSymNode(s) => s in h.ints && h.ints[s].NodeAt?
    case OpDropHandle(address) => address in h.handles
  }

  // Value semantics: a copy duplicates, a move leaves 0 behind; only a moved-from assignment keeps a plain
  // integer.
  function After(h: Holdings, op: Op): (h': Holdings)
    requires Possible(h, op)
  {
    var zero := Integer(Int64(0));
    match op
    case OpFromInt(s, d, address) => h.(ints := h.ints[s := if FitsInline(d) then Integer(d) else NodeAt(address)])
    case OpNewNode(address) => h.(handles := h.handles + multiset{address})
    case OpFromNode(s, address) => Holdings(h.ints[s := NodeAt(address)], h.handles - multiset{address})
    case OpCopyConstruct(dst, src) => h.(ints := h.ints[dst := h.ints[src]])
    case OpMoveConstruct(dst, src) => h.(ints := h.ints[dst := h.ints[src]][src := zero])
    case OpCopyAssign(dst, src) => h.(ints := h.ints[dst := h.ints[src]])
    case OpMoveAssign(dst, src) =>
      if dst == src then h
      else h.(ints := h.ints[dst := h.ints[src]][src := if h.ints[src].NodeAt? then zero else h.ints[src]])
    case OpDestroy(s) => h.(ints := h.ints - {s})
    case OpToSymNode(s) => h.(handles := h.handles + multiset{h.ints[s].address})
    case OpDropHandle(address) => h.(handles := h.handles - multiset{address})
  }

  // A program; operations that are not possible when their turn comes are left out.
  function AfterAll(h: Holdings, ops: seq<Op>): (h': Holdings) {
    var n := |ops| - 1;
    if n < 0 then h
    else
      var h1 := AfterAll(h, ops[..n]);
      if Possible(h1, ops[n]) then After(h1, ops[n]) else h1
  }

  lemma UnownedIsUnused(nodes: Nodes, ints: Ints, handles: multiset<Address>, a: Address)
    requires Balanced(nodes, ints, handles) && Unowned(Holdings(ints, handles), a)
    ensures a !in nodes.Keys
  {
    assert NodeBalanced(nodes, Owners(ints, handles, a), a);
    assert Holders(ints, NodeAt(a)) == {};
  }

  class Arena {
    var nodes: Nodes
    var ints: Ints
    var handles: multiset<Address>

    ghost predicate Valid()
      reads this
    {
      && Balanced(nodes, ints, handles)
      && (forall s :: s in ints ==> Representable(ints[s]))
      && (forall a :: a in nodes.Keys ==> Representable(NodeAt(a)))
    }

    function MaybeAsInt(s: Slot): (r: Option<Int64>)
      requires s in ints
      reads this
    {
      ReadInt(nodes, ints[s])
    }

    // No SymInt but those in `touched` changes or reads differently.
    twostate predicate OthersSame(touched: set<Slot>)
      reads this
    {
      && (forall s :: s !in touched ==> (s in ints <==> s in old(ints)))
      && (forall s :: s !in touched && s in ints && s in old(ints) ==>
            ints[s] == old(ints[s]) && MaybeAsInt(s) == old(MaybeAsInt(s)))
    }

    constructor ()
      ensures Valid() && ints == map[] && handles == multiset{} && nodes == map[]
    {
      nodes, ints, handles := map[], map[], multiset{};
    }

    // SymInt(int64_t): a large negative integer is boxed in a constant node at an unused address.
    method FromInt(s: Slot, d: Int64, address: Address)
      requires Valid() && s !in ints && address !in nodes.Keys && Representable(NodeAt(address))
      modifies this
      ensures Valid() && s in ints && MaybeAsInt(s) == Some(d) && OthersSame({s})
      ensures ints == old(ints)[s := if FitsInline(d) then Integer(d) else NodeAt(address)] && handles == old(handles)
    {
      HeldAreAlive(nodes, ints, handles);
      if FitsInline(d) {
        AddBalanced(nodes, ints, handles, s, Integer(d));
        ints := ints[s := Integer(d)];
      } else {
        BoxBalanced(nodes, ints, handles, s, address, SymNode(1, Some(d)));
        nodes, ints := nodes[address := SymNode(1, Some(d))], ints[s := NodeAt(address)];
      }
    }

    // make_intrusive: a new symbolic node with one handle.
    method NewNode(address: Address)
      requires Valid() && address !in nodes.Keys && Representable(NodeAt(address))
      modifies this
      ensures Valid() && ints == old(ints) && handles == old(handles) + multiset{address} && OthersSame({})
    {
      HeldAreAlive(nodes, ints, handles);
      ghost var before := nodes;
      forall a ensures NodeBalanced(before[address := SymNode(1, None)], Owners(ints, handles + multiset{address}, a), a) {
        assert NodeBalanced(before, Owners(ints, handles, a), a);
      }
      nodes, handles := nodes[address := SymNode(1, None)], handles + multiset{address};
    }

    // SymInt(SymNode): the handle's reference is taken over.
    method FromNode(s: Slot, address: Address)
      requires Valid() && s !in ints && address in handles
      modifies this
      ensures Valid() && ints == old(ints)[s := NodeAt(address)] && nodes == old(nodes) && OthersSame({s})
      ensures handles == old(handles) - multiset{address}
    {
      HeldAreAlive(nodes, ints, handles);
      AdoptBalanced(nodes, ints, handles, s, address);
      ints, handles := ints[s := NodeAt(address)], handles - multiset{address};
    }

    // SymInt(const SymInt&)
    method CopyConstruct(dst: Slot, src: Slot)
      requires Valid() && dst !in ints && src in ints
      modifies this
      ensures Valid() && ints == old(ints)[dst := old(ints[src])]
      ensures MaybeAsInt(dst) == old(MaybeAsInt(src)) && OthersSame({dst}) && handles == old(handles)
    {
      HeldAreAlive(nodes, ints, handles);
      ghost var before := nodes;
      AddBalanced(nodes, ints, handles, dst, ints[src]);
      ints, nodes := ints[dst := ints[src]], Acquired(nodes, ints[src]);
      HeldKeepConstants(before, nodes, ints, handles);
    }

    // SymInt(SymInt&&)
    method MoveConstruct(dst: Slot, src: Slot)
      requires Valid() && dst !in ints && src in ints
      modifies this
      ensures Valid() && ints == old(ints)[dst := old(ints[src])][src := Integer(Int64(0))] && nodes == old(nodes)
      ensures MaybeAsInt(dst) == old(MaybeAsInt(src)) && OthersSame({dst, src}) && handles == old(handles)
    {
      MoveBalanced(nodes, ints, handles, dst, src);
      ints := ints[dst := ints[src]][src := Integer(Int64(0))];
    }

    // ~SymInt
    method Destroy(s: Slot)
      requires Valid() && s in ints
      modifies this
      ensures Valid() && ints == old(ints) - {s} && OthersSame({s}) && handles == old(handles)
    {
      HeldAreAlive(nodes, ints, handles);
      RemoveBalanced(nodes, ints, handles, s);
      ghost var before := nodes;
      nodes := Released(nodes, ints[s]);
      ints := ints - {s};
      HeldKeepConstants(before, nodes, ints, handles);
    }

    // operator=(const SymInt&): release, copy the word, count the new owner.
    method CopyAssign(dst: Slot, src: Slot)
      requires Valid() && dst in ints && src in ints
      modifies this
      ensures Valid() && ints == old(ints)[dst := old(ints[src])]
      ensures MaybeAsInt(dst) == old(MaybeAsInt(src)) && OthersSame({dst}) && handles == old(handles)
    {
      if dst != src {
        Destroy(dst);
        CopyConstruct(dst, src);
      }
    }

    // operator=(SymInt&&): the source is cleared only when it held a node.
    method MoveAssign(dst: Slot, src: Slot)
      requires Valid() && dst in ints && src in ints
      modifies this
      ensures Valid() && handles == old(handles)
      ensures ints == if dst == src then old(ints)
                      else old(ints)[dst := old(ints[src])]
                           [src := if old(ints[src]).NodeAt? then Integer(Int64(0)) else old(ints[src])]
      ensures MaybeAsInt(dst) == old(MaybeAsInt(src)) && OthersSame({dst, src})
    {
      if dst != src {
        Destroy(dst);
        assert ints[src] == old(ints[src]) && MaybeAsInt(src) == old(MaybeAsInt(src));
        if ints[src].NodeAt? {
          MoveConstruct(dst, src);
        } else {
          CopyConstruct(dst, src);
        }
      }
    }

    // toSymNode: another handle on the same node.
    method ToSymNode(s: Slot) returns (address: Address)
      requires Valid() && s in ints && ints[s].NodeAt?
      modifies this
      ensures Valid() && ints == old(ints) && ints[s] == NodeAt(address) && OthersSame({})
      ensures handles == old(handles) + multiset{address}
    {
      HeldAreAlive(nodes, ints, handles);
      address := ints[s].address;
      HandleBalanced(nodes, ints, handles, address);
      ghost var before := nodes;
      nodes, handles := IncRef(nodes, address), handles + multiset{address};
      HeldKeepConstants(before, nodes, ints, handles);
    }

    method DropHandle(address: Address)
      requires Valid() && address in handles
      modifies this
      ensures Valid() && ints == old(ints) && handles == old(handles) - multiset{address} && OthersSame({})
    {
      HeldAreAlive(nodes, ints, handles);
      HandleBalanced(nodes, ints, handles, address);
      ghost var before := nodes;
      nodes, handles := DecRef(nodes, address), handles - multiset{address};
      HeldKeepConstants(before, nodes, ints, handles);
    }

    function Contents(): (h: Holdings)
      reads this
    {
      Holdings(ints, handles)
    }

    method Perform(op: Op)
      requires Valid() && Possible(Contents(), op)
      modifies this
      ensures Valid() && Contents() == After(old(Contents()), op)
    {
      match op {
        case OpFromInt(s, d, address) =>
          UnownedIsUnused(nodes, ints, handles, address);
          FromInt(s, d, address);
        case OpNewNode(address) =>
          UnownedIsUnused(nodes, ints, handles, address);
          NewNode(address);
        case OpFromNode(s, address) => FromNode(s, address);
        case OpCopyConstruct(dst, src) => CopyConstruct(dst, src);
        case OpMoveConstruct(dst, src) => MoveConstruct(dst, src);
        case OpCopyAssign(dst, src) => CopyAssign(dst, src);
        case OpMoveAssign(dst, src) => MoveAssign(dst, src);
        case OpDestroy(s) => Destroy(s);
        case OpToSymNode(s) => var a := ToSymNode(s);
        case OpDropHandle(address) => DropHandle(address);
      }
    }

    // Over any run every node counts its owners, and only owned nodes are alive.
    method Execute(ops: seq<Op>)
      requires Valid()
      modifies this
      ensures Valid() && Contents() == AfterAll(old(Contents()), ops)
      ensures forall a :: a in nodes.Keys ==> nodes[a].refcount == Owners(ints, handles, a) >= 1
      ensures forall a :: Owners(ints, handles, a) > 0 ==> a in nodes.Keys
    {
      for i := 0 to |ops|
        invariant Valid() && Contents() == AfterAll(old(Contents()), ops[..i])
      {
        assert ops[..i + 1][..i] == ops[..i];
        if Possible(Contents(), ops[i]) {
          Perform(ops[i]);
        }
      }
      assert ops[..|ops|] == ops;
      CountsAreOwners();
    }

    lemma CountsAreOwners()
      requires Valid()
      ensures forall a :: a in nodes.Keys ==> nodes[a].refcount == Owners(ints, handles, a) >= 1
      ensures forall a :: Owners(ints, handles, a) > 0 ==> a in nodes.Keys
    {
      forall a
        ensures a in nodes.Keys ==> nodes[a].refcount == Owners(ints, handles, a) >= 1
        ensures Owners(ints, handles, a) > 0 ==> a in nodes.Keys
      {
        assert NodeBalanced(nodes, Owners(ints, handles, a), a);
      }
    }

    // Once the last owner is gone, so is every node.
    lemma NothingLeaks()
      requires Valid() && ints == map[] && handles == multiset{}
      ensures nodes == map[]
    {
      forall a ensures a !in nodes.Keys {
        assert NodeBalanced(nodes, Owners(ints, handles, a), a);
      }
    }
  }
}
