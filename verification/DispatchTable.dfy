// DispatchKeySet priorities and the operator-table index (c10/core/DispatchKeySet.h and .cpp):
// the branch-free index computation agrees with the readable priority rule, and gives every
// runtime key its own slot.
module DispatchTable {
  import opened Bits
  import opened DispatchKeys

  // DispatchKeySet(BackendComponent)
  function OfBackend(b: nat): (n: nat) {
    if b == 0 then 0 else Shl(1, b - 1)
  }

  // DispatchKeySet(DispatchKey)
  function OfKey(c: Config, k: nat): (n: nat)
    requires c.Valid()
  {
    if k == 0 then 0
    else if k <= c.functionalities then Shl(1, c.backends + k - 1)
    else if k < c.Start(|c.perBackend|) then
      var f := c.ToFunctionality(k);
      Shl(1, c.backends + f - 1) + OfBackend(c.ToBackend(k))
    else 0
  }

  // DispatchKeySet(FULL)
  function Full(c: Config): (n: nat)
    requires c.Valid()
  {
    Ones(c.backends + c.functionalities - 1)
  }

  ghost predicate InsideFull(c: Config, r: nat)
    requires c.Valid()
  {
    forall i: nat :: Has(r, i) ==> i < c.backends + c.functionalities - 1
  }

  // FULL.isSupersetOf(r)
  lemma InsideFullIsSubset(c: Config, r: nat)
    requires c.Valid()
    ensures InsideFull(c, r) <==> And(Full(c), r) == r
  {
    forall i: nat
      ensures Has(And(Full(c), r), i) <==> i < c.backends + c.functionalities - 1 && Has(r, i)
    {
      HasAnd(Full(c), r, i);
      HasOnes(c.backends + c.functionalities - 1, i);
    }
    if InsideFull(c, r) {
      SameBits(And(Full(c), r), r);
    }
  }

  function HighestFunctionality(c: Config, r: nat): (n: nat) {
    if BitLength(r) < c.backends then 0 else BitLength(r) - c.backends
  }

  function HighestBackend(c: Config, r: nat): (n: nat) {
    BitLength(And(r, Ones(c.backends)))
  }

  // highestPriorityTypeId
  function HighestPriority(c: Config, r: nat): (n: nat) {
    var f := HighestFunctionality(c, r);
    if c.IsPerBackend(f) then c.RuntimeKey(f, HighestBackend(c, r)) else f
  }

  datatype OffsetAndMask = OffsetAndMask(offset: nat, mask: nat)

  // Slots before functionality k: one for each, and the extra backends of the per-backend ones.
  function OffsetOf(c: Config, k: nat): (n: nat)
    requires c.Valid()
  {
    k + Below(c, k) * (c.backends - 1)
  }

  function Entry(c: Config, k: nat): (entry: OffsetAndMask)
    requires c.Valid()
  {
    OffsetAndMask(OffsetOf(c, k), if c.IsPerBackend(k) then Ones(c.backends) else 0)
  }

  function NumRuntimeEntries(c: Config): (n: nat)
    requires c.Valid()
  {
    c.functionalities + |c.perBackend| * (c.backends - 1)
  }

  // A functionality takes one slot, or one per backend.
  function Width(c: Config, k: nat): (n: nat) {
    if c.IsPerBackend(k) then c.backends else 1
  }

  lemma OffsetStep(c: Config, k: nat)
    requires c.Valid()
    ensures OffsetOf(c, k + 1) == OffsetOf(c, k) + Width(c, k)
  {
    BelowStep(c, k);
    var n, m := Below(c, k), c.backends - 1;
    assert (n + 1) * m == n * m + m;
  }

  lemma OffsetEnds(c: Config)
    requires c.Valid()
    ensures OffsetOf(c, 0) == 0 && OffsetOf(c, c.functionalities) == NumRuntimeEntries(c)
    ensures OffsetOf(c, c.functionalities - 1) == NumRuntimeEntries(c) - 1
  {
    BelowNone(c, 0);
    BelowAll(c, c.functionalities);
    BelowAll(c, c.functionalities - 1);
  }

  lemma {:induction false} OffsetMonotone(c: Config, i: nat, j: nat)
    requires c.Valid() && i < j
    ensures OffsetOf(c, i) + Width(c, i) <= OffsetOf(c, j)
    decreases j
  {
    OffsetStep(c, j - 1);
    if i < j - 1 {
      OffsetMonotone(c, i, j - 1);
    }
  }

  // The loop over all functionality keys, each entry from the one before it.
  method InitializeFunctionalityOffsetsAndMasks(c: Config) returns (table: array<OffsetAndMask>)
    requires c.Valid()
    ensures table.Length == c.functionalities
    ensures forall k :: 0 <= k < c.functionalities ==> table[k] == Entry(c, k)
    ensures table[c.functionalities - 1].offset == NumRuntimeEntries(c) - 1
  {
    table := new OffsetAndMask[c.functionalities](_ => OffsetAndMask(0, 0));
    OffsetEnds(c);
    for k := 1 to c.functionalities
      invariant forall j :: 0 <= j < k ==> table[j] == Entry(c, j)
    {
      var prev := table[k - 1];
      OffsetStep(c, k - 1);
      var nextOffset := prev.offset + (if prev.mask == 0 then 1 else c.backends);
      var nextMask := if c.IsPerBackend(k) then Ones(c.backends) else 0;
      table[k] := OffsetAndMask(nextOffset, nextMask);
    }
  }

  // getDispatchTableIndexForDispatchKeySet
  function TableIndex(c: Config, r: nat): (n: nat)
    requires c.Valid()
  {
    var e := Entry(c, BitLength(Shr(r, c.backends)));
    e.offset + BitLength(Shr(And(r, e.mask), 1))
  }

  // The same computation on the table that was built.
  method GetDispatchTableIndex(c: Config, table: array<OffsetAndMask>, r: nat) returns (index: nat)
    requires c.Valid() && InsideFull(c, r) && table.Length == c.functionalities
    requires forall k :: 0 <= k < c.functionalities ==> table[k] == Entry(c, k)
    ensures index == TableIndex(c, r) && index < NumRuntimeEntries(c)
  {
    TopInsideFull(c, r);
    var e := table[BitLength(Shr(r, c.backends))];
    index := e.offset + BitLength(Shr(And(r, e.mask), 1));
    IndexInRange(c, r);
  }

  lemma TopInsideFull(c: Config, r: nat)
    requires c.Valid() && InsideFull(c, r)
    ensures BitLength(Shr(r, c.backends)) == HighestFunctionality(c, r) < c.functionalities
  {
    BitLengthShr(r, c.backends);
    BitLengthIsHighest(r);
  }

  // ----- the index refines the priority rule -----

  // The slot of functionality f on backend b (b is 0 when f is not per backend).
  function Slot(c: Config, f: nat, b: nat): (n: nat)
    requires c.Valid()
  {
    OffsetOf(c, f) + if b > 0 then b - 1 else 0
  }

  lemma BackendBits(c: Config, r: nat)
    requires c.Valid()
    ensures HighestBackend(c, r) <= c.backends
    ensures BitLength(Shr(And(r, Ones(c.backends)), 1)) ==
            if HighestBackend(c, r) > 0 then HighestBackend(c, r) - 1 else 0
  {
    BitLengthShr(And(r, Ones(c.backends)), 1);
    BitLengthIsHighest(And(r, Ones(c.backends)));
    var h := HighestBackend(c, r);
    if h > 0 {
      HasAnd(r, Ones(c.backends), h - 1);
      HasOnes(c.backends, h - 1);
    }
  }

  lemma IndexIsSlot(c: Config, r: nat)
    requires c.Valid() && InsideFull(c, r)
    ensures var f := HighestFunctionality(c, r);
            TableIndex(c, r) == Slot(c, f, if c.IsPerBackend(f) then HighestBackend(c, r) else 0)
  {
    TopInsideFull(c, r);
    BackendBits(c, r);
    AndZero(r);
  }

  lemma IndexInRange(c: Config, r: nat)
    requires c.Valid() && InsideFull(c, r)
    ensures TableIndex(c, r) < NumRuntimeEntries(c)
  {
    IndexIsSlot(c, r);
    TopInsideFull(c, r);
    BackendBits(c, r);
    OffsetEnds(c);
    var f := HighestFunctionality(c, r);
    OffsetMonotone(c, f, c.functionalities);
  }

  lemma BackendWord(n: nat, b: nat)
    requires b <= n
    ensures OfBackend(b) < Shl(1, n) && BitLength(OfBackend(b)) == b
  {
    if b > 0 {
      ShlMonotone(b - 1, n);
      BitLengthShl(1, b - 1);
    } else {
      ShlMonotone(0, n);
    }
  }

  lemma WordLengths(n: nat, f: nat, b: nat, r: nat)
    requires f >= 1 && b <= n && r == Shl(1, n + f - 1) + OfBackend(b)
    ensures BitLength(r) == n + f && BitLength(And(r, Ones(n))) == b
  {
    BackendWord(n, b);
    ShlAdd(1, f - 1, n);
    var high := Shl(1, f - 1);
    SplitWord(high, OfBackend(b), n);
    BitLengthShl(1, f - 1);
    BitLengthShr(r, n);
  }

  // The word of functionality f together with a backend bit b (or none).
  lemma WordOf(c: Config, f: nat, b: nat)
    requires c.Valid() && 1 <= f < c.functionalities && b <= c.backends
    ensures var r := Shl(1, c.backends + f - 1) + OfBackend(b);
            InsideFull(c, r) && HighestFunctionality(c, r) == f && HighestBackend(c, r) == b
  {
    var r := Shl(1, c.backends + f - 1) + OfBackend(b);
    WordLengths(c.backends, f, b, r);
    BitLengthIsHighest(r);
  }

  // Index of a single runtime key.
  lemma IndexOfKey(c: Config, f: nat, b: nat)
    requires c.Valid() && f < c.functionalities && (if c.IsPerBackend(f) then b <= c.backends else b == 0)
    ensures var k := if c.IsPerBackend(f) then c.RuntimeKey(f, b) else f;
            InsideFull(c, OfKey(c, k)) && TableIndex(c, OfKey(c, k)) == Slot(c, f, b)
  {
    if c.IsPerBackend(f) {
      RuntimeKeyRoundTrip(c, f, b);
      RuntimeKeyBelowEnd(c, f, b);
      WordOf(c, f, b);
      IndexIsSlot(c, OfKey(c, c.RuntimeKey(f, b)));
    } else if f == 0 {
      EmptyIndex(c);
    } else {
      WordOf(c, f, 0);
      IndexIsSlot(c, OfKey(c, f));
    }
  }

  lemma RuntimeKeyBelowEnd(c: Config, f: nat, b: nat)
    requires c.Valid() && c.IsPerBackend(f) && b <= c.backends
    ensures c.RuntimeKey(f, b) < c.Start(|c.perBackend|)
  {
    var j :| 0 <= j < |c.perBackend| && c.perBackend[j] == f;
    RuntimeKeyOf(c, j, b, 0);
    StartGrows(c, j, |c.perBackend|);
  }

  lemma EmptyIndex(c: Config)
    requires c.Valid()
    ensures InsideFull(c, 0) && TableIndex(c, 0) == Slot(c, 0, 0)
  {
    forall i: nat ensures !Has(0, i) {
      HasZero(i);
    }
    BitLengthShr(0, c.backends);
  }

  predicate NoBit(r: nat, lo: nat, hi: nat) {
    forall i: nat :: lo <= i < hi ==> !Has(r, i)
  }

  lemma HighestFunctionalityIsTop(c: Config, r: nat)
    requires c.Valid() && InsideFull(c, r)
    ensures var f, top := HighestFunctionality(c, r), c.backends + c.functionalities - 1;
            && f < c.functionalities
            && (f == 0 <==> NoBit(r, c.backends, top))
            && (f > 0 ==> Has(r, c.backends + f - 1) && NoBit(r, c.backends + f, top))
  {
    TopInsideFull(c, r);
    BitLengthIsHighest(r);
  }

  lemma HighestBackendIsTop(c: Config, r: nat)
    requires c.Valid()
    ensures var b := HighestBackend(c, r);
            && b <= c.backends
            && (b == 0 <==> NoBit(r, 0, c.backends))
            && (b > 0 ==> Has(r, b - 1) && NoBit(r, b, c.backends))
  {
    var m := And(r, Ones(c.backends));
    BackendBits(c, r);
    BitLengthIsHighest(m);
    forall i: nat ensures Has(m, i) <==> i < c.backends && Has(r, i) {
      HasAnd(r, Ones(c.backends), i);
      HasOnes(c.backends, i);
    }
    if m == 0 {
      forall i: nat ensures !Has(m, i) {
        HasZero(i);
      }
    }
  }

  // k names the top functionality of r and, when that is per backend, its top backend; 0 stands for
  // no functionality, and backend 0 for no backend.
  ghost predicate IsTopKey(c: Config, r: nat, k: nat)
    requires c.Valid()
  {
    var f, b, top := c.ToFunctionality(k), c.ToBackend(k), c.backends + c.functionalities - 1;
    && (k == 0 <==> NoBit(r, c.backends, top))
    && (k > 0 ==> 1 <= f < c.functionalities && Has(r, c.backends + f - 1) && NoBit(r, c.backends + f, top))
    && (k > 0 && !c.IsPerBackend(f) ==> k == f)
    && (k > 0 && c.IsPerBackend(f) ==>
          && k == c.RuntimeKey(f, b) && b <= c.backends
          && (b == 0 <==> NoBit(r, 0, c.backends))
          && (b > 0 ==> Has(r, b - 1) && NoBit(r, b, c.backends)))
  }

  // highestPriorityTypeId, in terms of the bits of the keyset.
  lemma HighestPriorityIsTop(c: Config, r: nat)
    requires c.Valid() && InsideFull(c, r)
    ensures IsTopKey(c, r, HighestPriority(c, r))
  {
    var f, b := HighestFunctionality(c, r), HighestBackend(c, r);
    HighestFunctionalityIsTop(c, r);
    HighestBackendIsTop(c, r);
    if c.IsPerBackend(f) {
      RuntimeKeyRoundTrip(c, f, b);
    }
  }

  lemma OfKeyWord(c: Config, f: nat, b: nat)
    requires c.Valid() && 1 <= f < c.functionalities && (if c.IsPerBackend(f) then b <= c.backends else b == 0)
    ensures OfKey(c, if c.IsPerBackend(f) then c.RuntimeKey(f, b) else f) == Shl(1, c.backends + f - 1) + OfBackend(b)
  {
    if c.IsPerBackend(f) {
      RuntimeKeyRoundTrip(c, f, b);
      RuntimeKeyBelowEnd(c, f, b);
    }
  }

  lemma WordBits(n: nat, f: nat, b: nat, i: nat)
    requires f >= 1 && b <= n
    ensures Has(Shl(1, n + f - 1) + OfBackend(b), i) <==> i == n + f - 1 || (b > 0 && i == b - 1)
  {
    if b > 0 {
      TwoBits(n + f - 1, b - 1, i);
    } else {
      HasSingle(n + f - 1, i);
    }
  }

  // The bits of a single key: its functionality, and its backend if it names one.
  lemma KeyBits(c: Config, f: nat, b: nat, i: nat)
    requires c.Valid() && 1 <= f < c.functionalities && (if c.IsPerBackend(f) then b <= c.backends else b == 0)
    ensures Has(OfKey(c, if c.IsPerBackend(f) then c.RuntimeKey(f, b) else f), i) <==>
            i == c.backends + f - 1 || (b > 0 && i == b - 1)
  {
    OfKeyWord(c, f, b);
    WordBits(c.backends, f, b, i);
  }

  lemma {:induction false} HasSingle(n: nat, i: nat)
    ensures Has(Shl(1, n), i) <==> i == n
  {
    HasShl(1, n, i);
    if i > n {
      HasZero(i - n - 1);
    }
  }

  lemma {:induction false} TwoBits(n: nat, m: nat, i: nat)
    requires m < n
    ensures Has(Shl(1, n) + Shl(1, m), i) <==> i == n || i == m
    decreases m
  {
    if m > 0 {
      if i > 0 {
        TwoBits(n - 1, m - 1, i - 1);
      }
    } else if i > 0 {
      HasSingle(n - 1, i - 1);
    }
  }

  // The hot path finds the slot of the key of highest priority, for every keyset inside FULL.
  lemma HotPathRefinesPriority(c: Config, r: nat)
    requires c.Valid() && InsideFull(c, r)
    ensures TableIndex(c, r) == TableIndex(c, OfKey(c, HighestPriority(c, r)))
  {
    TopInsideFull(c, r);
    BackendBits(c, r);
    IndexIsSlot(c, r);
    var f := HighestFunctionality(c, r);
    IndexOfKey(c, f, if c.IsPerBackend(f) then HighestBackend(c, r) else 0);
  }

  // ----- every runtime key has its own slot, and every slot a runtime key -----

  predicate IsRuntimeKey(c: Config, f: nat, b: nat) {
    f < c.functionalities && if c.IsPerBackend(f) then 1 <= b <= c.backends else b == 0
  }

  lemma SlotsAreDistinct(c: Config, f: nat, b: nat, f': nat, b': nat)
    requires c.Valid() && IsRuntimeKey(c, f, b) && IsRuntimeKey(c, f', b')
    requires Slot(c, f, b) == Slot(c, f', b')
    ensures f == f' && b == b'
  {
    if f < f' {
      OffsetMonotone(c, f, f');
    } else if f' < f {
      OffsetMonotone(c, f', f);
    }
  }

  // Slots follow the order of functionality, then backend; so which slot a key has is no choice.
  lemma SlotsAscend(c: Config, f: nat, b: nat, f': nat, b': nat)
    requires c.Valid() && IsRuntimeKey(c, f, b) && IsRuntimeKey(c, f', b')
    ensures Slot(c, f, b) < Slot(c, f', b') <==> f < f' || (f == f' && b < b')
    ensures Slot(c, 0, 0) == 0
  {
    OffsetEnds(c);
    if f < f' {
      OffsetMonotone(c, f, f');
    } else if f' < f {
      OffsetMonotone(c, f', f);
    }
  }

  lemma {:induction false} FindSlot(c: Config, v: nat, k: nat) returns (f: nat, b: nat)
    requires c.Valid() && 1 <= k <= c.functionalities && v < OffsetOf(c, k)
    ensures IsRuntimeKey(c, f, b) && f < k && Slot(c, f, b) == v
    decreases k
  {
    OffsetEnds(c);
    OffsetStep(c, k - 1);
    if v < OffsetOf(c, k - 1) {
      f, b := FindSlot(c, v, k - 1);
    } else {
      f := k - 1;
      b := if c.IsPerBackend(f) then v - OffsetOf(c, f) + 1 else 0;
    }
  }

  lemma SlotsFillTheTable(c: Config, v: nat)
    requires c.Valid()
    ensures v < NumRuntimeEntries(c) <==> exists f, b :: IsRuntimeKey(c, f, b) && Slot(c, f, b) == v
  {
    OffsetEnds(c);
    if v < NumRuntimeEntries(c) {
      var f, b := FindSlot(c, v, c.functionalities);
    }
    forall f, b | IsRuntimeKey(c, f, b) && Slot(c, f, b) == v ensures v < NumRuntimeEntries(c) {
      OffsetMonotone(c, f, c.functionalities);
    }
  }
}
