// DispatchKeySet::iterator (c10/core/DispatchKeySet.h and .cpp): the masking, skipping
// iterator visits exactly the runtime keys of a keyset, in order.
module KeyIterator {
  import opened Bits
  import opened DispatchKeys
  import opened DispatchTable

  // A runtime key: functionality f and backend component b (0 when f is not per backend).
  datatype Key = Key(f: nat, b: nat)

  predicate Before(x: Key, y: Key) {
    x.f < y.f || (x.f == y.f && x.b < y.b)
  }

  // ----- what iteration has to deliver -----

  // Backend components with their bit at position `from` or above.
  function BackendsFrom(c: Config, r: nat, f: nat, from: nat): (keys: seq<Key>)
    decreases c.backends - from
  {
    if from >= c.backends then []
    else (if Has(r, from) then [Key(f, from + 1)] else []) + BackendsFrom(c, r, f, from + 1)
  }

  // The keys of functionality f, from backend bit `from` on.
  function KeysOf(c: Config, r: nat, f: nat, from: nat): (keys: seq<Key>)
    requires c.Valid() && f >= 1
  {
    if !Has(r, c.backends + f - 1) then []
    else if c.IsPerBackend(f) then BackendsFrom(c, r, f, from)
    else [Key(f, 0)]
  }

  // All keys of functionalities f and above.
  function KeysFrom(c: Config, r: nat, f: nat): (keys: seq<Key>)
    requires c.Valid() && f >= 1
    decreases c.functionalities - f
  {
    if f >= c.functionalities then [] else KeysOf(c, r, f, 0) + KeysFrom(c, r, f + 1)
  }

  // The keys after position (f, from): the rest of f, then everything above.
  function KeysAfter(c: Config, r: nat, f: nat, from: nat): (keys: seq<Key>)
    requires c.Valid() && 1 <= f < c.functionalities
  {
    KeysOf(c, r, f, from) + KeysFrom(c, r, f + 1)
  }

  predicate InKeySet(c: Config, r: nat, k: Key)
    requires c.Valid()
  {
    && 1 <= k.f < c.functionalities && Has(r, c.backends + k.f - 1)
    && if c.IsPerBackend(k.f) then 1 <= k.b <= c.backends && Has(r, k.b - 1) else k.b == 0
  }

  lemma {:induction false} BackendsFromMember(c: Config, r: nat, f: nat, from: nat, k: Key)
    ensures k in BackendsFrom(c, r, f, from) <==> k.f == f && from < k.b <= c.backends && Has(r, k.b - 1)
    decreases c.backends - from
  {
    if from < c.backends {
      BackendsFromMember(c, r, f, from + 1, k);
    }
  }

  lemma {:induction false} KeysFromMember(c: Config, r: nat, f: nat, k: Key)
    requires c.Valid() && f >= 1
    ensures k in KeysFrom(c, r, f) <==> k.f >= f && InKeySet(c, r, k)
    decreases c.functionalities - f
  {
    if f < c.functionalities {
      KeysFromMember(c, r, f + 1, k);
      BackendsFromMember(c, r, f, 0, k);
    }
  }

  predicate Ascending(s: seq<Key>) {
    forall i, j :: 0 <= i < j < |s| ==> Before(s[i], s[j])
  }

  lemma AscendingConcat(s: seq<Key>, t: seq<Key>)
    requires Ascending(s) && Ascending(t) && forall x, y :: x in s && y in t ==> Before(x, y)
    ensures Ascending(s + t)
  {
  }

  lemma {:induction false} BackendsFromAscending(c: Config, r: nat, f: nat, from: nat)
    ensures Ascending(BackendsFrom(c, r, f, from))
    decreases c.backends - from
  {
    if from < c.backends {
      BackendsFromAscending(c, r, f, from + 1);
      var rest := BackendsFrom(c, r, f, from + 1);
      forall y | y in rest ensures Before(Key(f, from + 1), y) {
        BackendsFromMember(c, r, f, from + 1, y);
      }
      AscendingConcat(if Has(r, from) then [Key(f, from + 1)] else [], rest);
    }
  }

  // The listing is strictly ascending, so no key is visited twice.
  lemma {:induction false} KeysFromAscending(c: Config, r: nat, f: nat)
    requires c.Valid() && f >= 1
    ensures Ascending(KeysFrom(c, r, f))
    decreases c.functionalities - f
  {
    if f < c.functionalities {
      KeysFromAscending(c, r, f + 1);
      BackendsFromAscending(c, r, f, 0);
      forall x, y | x in KeysOf(c, r, f, 0) && y in KeysFrom(c, r, f + 1) ensures Before(x, y) {
        BackendsFromMember(c, r, f, 0, x);
        KeysFromMember(c, r, f + 1, y);
      }
      AscendingConcat(KeysOf(c, r, f, 0), KeysFrom(c, r, f + 1));
    }
  }

  // ----- facts about the masks -----

  // Bits of r at position n and above, as maskTrailingZeros(n) & r.
  function MaskLow(r: nat, n: nat): (v: nat) {
    AndNot(r, Ones(n))
  }

  lemma HasMaskLow(r: nat, n: nat, i: nat)
    ensures Has(MaskLow(r, n), i) <==> i >= n && Has(r, i)
  {
    HasAndNot(r, Ones(n), i);
    HasOnes(n, i);
  }

  // No bit of r is set at positions lo .. hi - 1.
  ghost predicate Clear(r: nat, lo: nat, hi: nat) {
    forall i: nat :: lo <= i < hi ==> !Has(r, i)
  }

  // The first set bit at or above n, when there is one.
  lemma FirstFrom(r: nat, n: nat)
    requires MaskLow(r, n) != 0
    ensures var i := FirstSet(MaskLow(r, n)); i >= n && Has(r, i) && Clear(r, n, i)
  {
    var m := MaskLow(r, n);
    LowestBitIsLowest(m);
    HasMaskLow(r, n, LowestBit(m));
    forall j: nat | n <= j < LowestBit(m) ensures !Has(r, j) {
      HasMaskLow(r, n, j);
    }
  }

  lemma NoneFrom(r: nat, n: nat, i: nat)
    requires MaskLow(r, n) == 0 && i >= n
    ensures !Has(r, i)
  {
    HasMaskLow(r, n, i);
    HasZero(i);
  }

  // Backend bits at position nb and above.
  function BackendBitsFrom(c: Config, r: nat, nb: nat): (n: nat) {
    And(MaskLow(r, nb), Ones(c.backends))
  }

  lemma HasBackendBit(c: Config, r: nat, nb: nat, i: nat)
    ensures Has(BackendBitsFrom(c, r, nb), i) <==> nb <= i < c.backends && Has(r, i)
  {
    HasAnd(MaskLow(r, nb), Ones(c.backends), i);
    HasMaskLow(r, nb, i);
    HasOnes(c.backends, i);
  }

  lemma FirstBackendFrom(c: Config, r: nat, nb: nat)
    requires BackendBitsFrom(c, r, nb) != 0
    ensures var i := FirstSet(BackendBitsFrom(c, r, nb)); nb <= i < c.backends && Has(r, i) && Clear(r, nb, i)
  {
    var m := BackendBitsFrom(c, r, nb);
    LowestBitIsLowest(m);
    HasBackendBit(c, r, nb, LowestBit(m));
    forall j: nat | nb <= j < LowestBit(m) ensures !Has(r, j) {
      HasBackendBit(c, r, nb, j);
    }
  }

  lemma NoBackendFrom(c: Config, r: nat, nb: nat)
    requires BackendBitsFrom(c, r, nb) == 0
    ensures Clear(r, nb, c.backends)
  {
    forall i: nat | nb <= i < c.backends ensures !Has(r, i) {
      HasBackendBit(c, r, nb, i);
      HasZero(i);
    }
  }

  lemma {:induction false} SkipFunctionalities(c: Config, r: nat, f: nat, g: nat)
    requires c.Valid() && 1 <= f <= g <= c.functionalities
    requires Clear(r, c.backends + f - 1, c.backends + g - 1)
    ensures KeysFrom(c, r, f) == KeysFrom(c, r, g)
    decreases g - f
  {
    if f < g {
      SkipFunctionalities(c, r, f + 1, g);
    }
  }

  lemma {:induction false} SkipBackends(c: Config, r: nat, f: nat, from: nat, to: nat)
    requires from <= to <= c.backends && Clear(r, from, to)
    ensures BackendsFrom(c, r, f, from) == BackendsFrom(c, r, f, to)
    decreases c.backends - from
  {
    if from < to {
      SkipBackends(c, r, f, from + 1, to);
    }
  }

  // Functionality whose bit is the first one at position nf or above.
  function FunctionalityAt(c: Config, r: nat, nf: nat): (n: nat) {
    var bit := FirstSet(MaskLow(r, nf));
    if bit + 1 >= c.backends then bit + 1 - c.backends else 0
  }

  // Mask positions an iterator can be in: nf is the position of a functionality; nb is open only
  // inside a per-backend functionality that has a further backend.
  ghost predicate ValidAt(c: Config, r: nat, nf: nat, nb: nat) {
    && c.Valid() && InsideFull(c, r)
    && c.backends <= nf <= c.backends + c.functionalities
    && nb <= c.backends
    && (nb > 0 ==>
          && MaskLow(r, nf) != 0
          && c.IsPerBackend(FunctionalityAt(c, r, nf))
          && BackendBitsFrom(c, r, nb) != 0)
  }

  lemma FunctionalityAtFacts(c: Config, r: nat, nf: nat)
    requires c.Valid() && InsideFull(c, r) && nf >= c.backends && MaskLow(r, nf) != 0
    ensures var f := FunctionalityAt(c, r, nf);
            && 1 <= f < c.functionalities && Has(r, c.backends + f - 1) && nf < c.backends + f
            && FirstSet(MaskLow(r, nf)) == c.backends + f - 1
  {
    FirstFrom(r, nf);
  }

  // The keys still to come from mask positions nf and nb.
  ghost function RemainingAt(c: Config, r: nat, nf: nat, nb: nat): (keys: seq<Key>)
    requires ValidAt(c, r, nf, nb)
  {
    if MaskLow(r, nf) == 0 then []
    else
      FunctionalityAtFacts(c, r, nf);
      KeysAfter(c, r, FunctionalityAt(c, r, nf), nb)
  }

  lemma BeginRemaining(c: Config, r: nat)
    requires c.Valid() && InsideFull(c, r)
    ensures ValidAt(c, r, c.backends, 0) && RemainingAt(c, r, c.backends, 0) == KeysFrom(c, r, 1)
  {
    SkipToNext(c, r, 1);
  }

  // Nothing between functionality f and the next one whose bit is set.
  lemma SkipToNext(c: Config, r: nat, f: nat)
    requires c.Valid() && InsideFull(c, r) && 1 <= f <= c.functionalities
    ensures ValidAt(c, r, c.backends + f - 1, 0) && RemainingAt(c, r, c.backends + f - 1, 0) == KeysFrom(c, r, f)
  {
    if MaskLow(r, c.backends + f - 1) == 0 {
      SkipToEnd(c, r, f);
    } else {
      SkipGap(c, r, f);
    }
  }

  lemma SkipToEnd(c: Config, r: nat, f: nat)
    requires c.Valid() && 1 <= f <= c.functionalities && MaskLow(r, c.backends + f - 1) == 0
    ensures KeysFrom(c, r, f) == []
  {
    forall i: nat | c.backends + f - 1 <= i < c.backends + c.functionalities - 1 ensures !Has(r, i) {
      NoneFrom(r, c.backends + f - 1, i);
    }
    SkipFunctionalities(c, r, f, c.functionalities);
  }

  lemma SkipGap(c: Config, r: nat, f: nat)
    requires c.Valid() && InsideFull(c, r) && 1 <= f <= c.functionalities && MaskLow(r, c.backends + f - 1) != 0
    ensures var g := FunctionalityAt(c, r, c.backends + f - 1);
            1 <= g < c.functionalities && KeysFrom(c, r, f) == KeysAfter(c, r, g, 0)
  {
    FirstFrom(r, c.backends + f - 1);
    SkipFunctionalities(c, r, f, FunctionalityAt(c, r, c.backends + f - 1));
  }

  // At the end mask nothing remains.
  lemma EndRemaining(c: Config, r: nat)
    requires c.Valid() && InsideFull(c, r)
    ensures MaskLow(r, c.backends + c.functionalities) == 0
  {
    if MaskLow(r, c.backends + c.functionalities) != 0 {
      FirstFrom(r, c.backends + c.functionalities);
    }
  }

  // A functionality without backends is one key.
  lemma StepSingle(c: Config, r: nat, nf: nat, nb: nat)
    requires ValidAt(c, r, nf, nb) && MaskLow(r, nf) != 0 && !c.IsPerBackend(FunctionalityAt(c, r, nf))
    ensures var f := FunctionalityAt(c, r, nf);
            && nb == 0 && ValidAt(c, r, c.backends + f, 0)
            && RemainingAt(c, r, nf, nb) == [Key(f, 0)] + RemainingAt(c, r, c.backends + f, 0)
  {
    FunctionalityAtFacts(c, r, nf);
    SkipToNext(c, r, FunctionalityAt(c, r, nf) + 1);
  }

  lemma FirstBackendKey(c: Config, r: nat, f: nat, nb: nat, first: nat)
    requires nb <= first < c.backends && Has(r, first) && Clear(r, nb, first)
    ensures BackendsFrom(c, r, f, nb) == [Key(f, first + 1)] + BackendsFrom(c, r, f, first + 1)
  {
    SkipBackends(c, r, f, nb, first);
  }

  lemma NextBackendKey(c: Config, r: nat, f: nat, nb: nat, first: nat)
    requires c.Valid() && 1 <= f < c.functionalities && Has(r, c.backends + f - 1) && c.IsPerBackend(f)
    requires BackendBitsFrom(c, r, nb) != 0 && first == FirstSet(BackendBitsFrom(c, r, nb))
    ensures nb <= first < c.backends
    ensures KeysAfter(c, r, f, nb) == [Key(f, first + 1)] + KeysAfter(c, r, f, first + 1)
  {
    FirstBackendFrom(c, r, nb);
    FirstBackendKey(c, r, f, nb, first);
  }

  lemma NoMoreBackends(c: Config, r: nat, f: nat, nb: nat)
    requires c.Valid() && 1 <= f < c.functionalities && Has(r, c.backends + f - 1) && c.IsPerBackend(f)
    requires nb <= c.backends && BackendBitsFrom(c, r, nb) == 0
    ensures KeysAfter(c, r, f, nb) == KeysFrom(c, r, f + 1)
  {
    NoBackendFrom(c, r, nb);
    SkipBackends(c, r, f, nb, c.backends);
  }

  // Without any backend bit a per-backend functionality contributes nothing.
  lemma SkipEmptyFunctionality(c: Config, r: nat, nf: nat, nb: nat)
    requires ValidAt(c, r, nf, nb) && MaskLow(r, nf) != 0 && c.IsPerBackend(FunctionalityAt(c, r, nf))
    requires BackendBitsFrom(c, r, nb) == 0
    ensures var next := c.backends + FunctionalityAt(c, r, nf);
            nb == 0 && nf < next && ValidAt(c, r, next, 0) && RemainingAt(c, r, nf, nb) == RemainingAt(c, r, next, 0)
  {
    FunctionalityAtFacts(c, r, nf);
    var f := FunctionalityAt(c, r, nf);
    NoMoreBackends(c, r, f, 0);
    SkipToNext(c, r, f + 1);
  }

  // The next backend of a per-backend functionality; afterwards either its next backend or the next functionality.
  lemma StepBackend(c: Config, r: nat, nf: nat, nb: nat, first: nat)
    requires ValidAt(c, r, nf, nb) && MaskLow(r, nf) != 0 && c.IsPerBackend(FunctionalityAt(c, r, nf))
    requires BackendBitsFrom(c, r, nb) != 0 && first == FirstSet(BackendBitsFrom(c, r, nb))
    ensures var f, last := FunctionalityAt(c, r, nf), BackendBitsFrom(c, r, first + 1) == 0;
            var nf', nb' := if last then c.backends + f else nf, if last then 0 else first + 1;
            && ValidAt(c, r, nf', nb')
            && RemainingAt(c, r, nf, nb) == [Key(f, first + 1)] + RemainingAt(c, r, nf', nb')
  {
    FunctionalityAtFacts(c, r, nf);
    var f := FunctionalityAt(c, r, nf);
    NextBackendKey(c, r, f, nb, first);
    if BackendBitsFrom(c, r, first + 1) == 0 {
      NoMoreBackends(c, r, f, first + 1);
      SkipToNext(c, r, f + 1);
    }
  }

  class Iterator {
    const c: Config
    const repr: nat
    var nextFunctionality: nat
    var nextBackend: nat
    var currentKey: nat
    var currentBackend: nat

    ghost predicate Valid()
      reads this
    {
      ValidAt(c, repr, nextFunctionality, nextBackend)
    }

    ghost function Remaining(): (keys: seq<Key>)
      requires Valid()
      reads this
    {
      RemainingAt(c, repr, nextFunctionality, nextBackend)
    }

    predicate IsEnd()
      reads this
    {
      && nextFunctionality == c.backends + c.functionalities
      && currentKey == c.functionalities
      && nextBackend == 0
      && currentBackend == c.functionalities
    }

    // The runtime key that operator* stands on.
    function Current(): (key: Key)
      reads this
    {
      Key(currentKey, if c.IsPerBackend(currentKey) then currentBackend else 0)
    }

    // The constructor without its first increment; `from` is num_backends for begin() and the
    // end mask for end().
    constructor (c: Config, repr: nat, from: nat)
      requires c.Valid() && InsideFull(c, repr) && c.backends <= from <= c.backends + c.functionalities
      ensures Valid() && nextFunctionality == from && nextBackend == 0
      ensures this.c == c && this.repr == repr
    {
      this.c, this.repr := c, repr;
      nextFunctionality, nextBackend := from, 0;
      currentKey, currentBackend := c.functionalities, c.functionalities;
    }

    // operator++
    method Advance()
      requires Valid()
      modifies this
      ensures Valid()
      ensures old(Remaining()) == [] ==> IsEnd() && Remaining() == []
      ensures old(Remaining()) != [] ==>
                currentKey < c.functionalities && old(Remaining()) == [Current()] + Remaining()
      decreases c.backends + c.functionalities - nextFunctionality
    {
      EndRemaining(c, repr);
      var masked := MaskLow(repr, nextFunctionality);
      if masked == 0 || nextFunctionality == c.backends + c.functionalities {
        nextFunctionality, currentKey := c.backends + c.functionalities, c.functionalities;
        nextBackend, currentBackend := 0, c.functionalities;
        return;
      }
      FunctionalityAtFacts(c, repr, nextFunctionality);
      var newNextFunctionality := FirstSet(masked) + 1;
      var f := newNextFunctionality - c.backends;
      if !c.IsPerBackend(f) {
        StepSingle(c, repr, nextFunctionality, nextBackend);
        assert nextBackend == 0;
        currentKey, nextFunctionality := f, newNextFunctionality;
      } else if BackendBitsFrom(c, repr, nextBackend) == 0 {
        SkipEmptyFunctionality(c, repr, nextFunctionality, nextBackend);
        nextFunctionality := newNextFunctionality;
        Advance();
      } else {
        AdvanceBackend(f);
      }
    }

    // operator++ inside a per-backend functionality that has a backend left.
    method AdvanceBackend(f: nat)
      requires Valid() && MaskLow(repr, nextFunctionality) != 0 && f == FunctionalityAt(c, repr, nextFunctionality)
      requires c.IsPerBackend(f) && BackendBitsFrom(c, repr, nextBackend) != 0
      modifies this
      ensures Valid() && currentKey < c.functionalities
      ensures old(Remaining()) == [Current()] + Remaining()
    {
      var first := FirstSet(BackendBitsFrom(c, repr, nextBackend));
      StepBackend(c, repr, nextFunctionality, nextBackend, first);
      FunctionalityAtFacts(c, repr, nextFunctionality);
      currentKey, currentBackend := f, first + 1;
      if BackendBitsFrom(c, repr, first + 1) == 0 {
        nextFunctionality, nextBackend := c.backends + f, 0;
      } else {
        nextBackend := first + 1;
      }
    }
  }

  // Iterating from begin() to end(): the runtime keys of the set, each once, in order.
  method Collect(c: Config, repr: nat) returns (keys: seq<Key>)
    requires c.Valid() && InsideFull(c, repr)
    ensures keys == KeysFrom(c, repr, 1)
    ensures Ascending(keys) && forall k :: k in keys <==> InKeySet(c, repr, k)
  {
    keys := [];
    var it := new Iterator(c, repr, c.backends);
    ghost var rest := it.Remaining();
    BeginRemaining(c, repr);
    it.Advance();
    while !it.IsEnd()
      invariant it.Valid() && fresh(it)
      invariant keys + rest == KeysFrom(c, repr, 1)
      invariant rest == if it.IsEnd() then [] else [it.Current()] + it.Remaining()
      decreases |rest|
    {
      keys := keys + [it.Current()];
      rest := rest[1..];
      it.Advance();
    }
    ListingIsKeySet(c, repr);
  }

  lemma ListingIsKeySet(c: Config, r: nat)
    requires c.Valid()
    ensures Ascending(KeysFrom(c, r, 1)) && forall k :: k in KeysFrom(c, r, 1) <==> InKeySet(c, r, k)
  {
    KeysFromAscending(c, r, 1);
    forall k ensures k in KeysFrom(c, r, 1) <==> InKeySet(c, r, k) {
      KeysFromMember(c, r, 1, k);
    }
  }

  // operator*: the runtime key number under the iterator, and the order check it makes.
  lemma DereferenceOk(c: Config, r: nat, k: Key)
    requires c.Valid() && InKeySet(c, r, k)
    ensures c.IsPerBackend(k.f) ==>
              c.ToBackend(c.RuntimeKey(k.f, k.b)) == k.b && c.ToFunctionality(c.RuntimeKey(k.f, k.b)) == k.f
    ensures !c.IsPerBackend(k.f) ==> c.ToFunctionality(k.f) == k.f
  {
    if c.IsPerBackend(k.f) {
      RuntimeKeyRoundTrip(c, k.f, k.b);
    }
  }

  // The number of a runtime key, as operator* gives it.
  function KeyNumber(c: Config, k: Key): (n: nat) {
    if c.IsPerBackend(k.f) then c.RuntimeKey(k.f, k.b) else k.f
  }

  // The top functionality contributes a runtime key.
  predicate TopContributes(c: Config, r: nat) {
    var f := HighestFunctionality(c, r);
    f > 0 && (c.IsPerBackend(f) ==> HighestBackend(c, r) > 0)
  }

  // highestPriorityTypeId is the last key that iteration yields.
  lemma LastIsHighestPriority(c: Config, r: nat)
    requires c.Valid() && InsideFull(c, r) && TopContributes(c, r)
    ensures var listing := KeysFrom(c, r, 1);
            listing != [] && KeyNumber(c, listing[|listing| - 1]) == HighestPriority(c, r)
  {
    var listing, f := KeysFrom(c, r, 1), HighestFunctionality(c, r);
    var key := Key(f, if c.IsPerBackend(f) then HighestBackend(c, r) else 0);
    HighestFunctionalityIsTop(c, r);
    HighestBackendIsTop(c, r);
    ListingIsKeySet(c, r);
    assert InKeySet(c, r, key) && key in listing;
    var last := listing[|listing| - 1];
    assert last in listing && InKeySet(c, r, last);
    assert last == key || Before(key, last);
    NothingAbove(c, r, last);
  }

  lemma NothingAbove(c: Config, r: nat, k: Key)
    requires c.Valid() && InsideFull(c, r) && InKeySet(c, r, k)
    ensures var f := HighestFunctionality(c, r);
            k.f <= f && (k.f == f ==> k.b <= if c.IsPerBackend(f) then HighestBackend(c, r) else 0)
  {
    HighestFunctionalityIsTop(c, r);
    HighestBackendIsTop(c, r);
  }
}
