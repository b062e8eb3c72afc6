// Key numbering of c10/core/DispatchKey.h, with the number of backends and the
// list of per-backend functionalities as parameters.
module DispatchKeys {

  // Functionality keys are numbered 0 (Undefined) .. functionalities - 1. The number
  // `functionalities` itself is EndOfFunctionalityKeys; behind it follows, for every per-backend
  // functionality, one block of a start marker and one runtime key per backend.
  datatype Config = Config(backends: nat, functionalities: nat, perBackend: seq<nat>) {

    // The static assertions of the header and what initializeFunctionalityOffsetsAndMasks assumes.
    predicate Valid() {
      && 1 <= backends <= 16
      && 2 <= functionalities
      && backends + functionalities <= 64
      && (forall j :: 0 <= j < |perBackend| ==> 1 <= perBackend[j] < functionalities - 1)
      && (forall i, j :: 0 <= i < j < |perBackend| ==> perBackend[i] < perBackend[j])
      && Start(|perBackend|) <= 256
    }

    predicate IsPerBackend(k: nat) {
      k in perBackend
    }

    // StartOf...Backends of block j.
    function Start(j: nat): (n: nat) {
      if j == 0 then functionalities + 1 else Start(j - 1) + backends + 1
    }

    // toRuntimePerBackendFunctionalityKey, trying the blocks from j on.
    function RuntimeKeyFrom(f: nat, b: nat, j: nat): (n: nat)
      decreases |perBackend| - j
    {
      if j >= |perBackend| then 0
      else if f == perBackend[j] then Start(j) + b
      else RuntimeKeyFrom(f, b, j + 1)
    }

    function RuntimeKey(f: nat, b: nat): (n: nat) {
      RuntimeKeyFrom(f, b, 0)
    }

    // toFunctionalityKey
    function FunctionalityFrom(k: nat, j: nat): (n: nat)
      decreases |perBackend| - j
    {
      if j >= |perBackend| then 0
      else if k <= Start(j) + backends then perBackend[j]
      else FunctionalityFrom(k, j + 1)
    }

    function ToFunctionality(k: nat): (n: nat) {
      if k <= functionalities then k else FunctionalityFrom(k, 0)
    }

    // toBackendComponent; 0 is InvalidBit.
    function BackendFrom(k: nat, j: nat): (n: nat)
      decreases |perBackend| - j
    {
      if j >= |perBackend| then 0
      else if Start(j) <= k <= Start(j) + backends then k - Start(j)
      else BackendFrom(k, j + 1)
    }

    function ToBackend(k: nat): (n: nat) {
      BackendFrom(k, 0)
    }
  }

  // The numbers of this repository: 16 backends, 48 functionalities including Undefined; Dense, Quantized,
  // Sparse, SparseCsr, NestedTensor and AutogradFunctionality are per backend.
  const TORCH: Config := Config(16, 48, [1, 5, 8, 9, 10, 22])

  lemma TorchIsValid()
    ensures TORCH.Valid()
    ensures TORCH.RuntimeKey(1, 1) == 50 && TORCH.Start(6) == 151
  {
    assert TORCH.Start(2) == 83 && TORCH.Start(4) == 117;
  }

  lemma {:induction false} StartGrows(c: Config, i: nat, j: nat)
    requires i < j
    ensures c.Start(i) + c.backends + 1 <= c.Start(j)
    decreases j
  {
    if i < j - 1 {
      StartGrows(c, i, j - 1);
    }
  }

  lemma {:induction false} StartAboveFunctionalities(c: Config, j: nat)
    ensures c.Start(j) > c.functionalities
  {
    if j > 0 {
      StartAboveFunctionalities(c, j - 1);
    }
  }

  lemma {:induction false} RuntimeKeyOf(c: Config, j: nat, b: nat, i: nat)
    requires c.Valid() && i <= j < |c.perBackend|
    ensures c.RuntimeKeyFrom(c.perBackend[j], b, i) == c.Start(j) + b
    decreases j - i
  {
    if i < j {
      RuntimeKeyOf(c, j, b, i + 1);
    }
  }

  lemma {:induction false} DecodeFrom(c: Config, j: nat, b: nat, i: nat)
    requires c.Valid() && i <= j < |c.perBackend| && b <= c.backends
    ensures c.FunctionalityFrom(c.Start(j) + b, i) == c.perBackend[j]
    ensures c.BackendFrom(c.Start(j) + b, i) == b
    decreases j - i
  {
    if i < j {
      StartGrows(c, i, j);
      DecodeFrom(c, j, b, i + 1);
    }
  }

  // The blocks line up: functionality and backend of a runtime key give both back.
  lemma RuntimeKeyRoundTrip(c: Config, f: nat, b: nat)
    requires c.Valid() && c.IsPerBackend(f) && b <= c.backends
    ensures c.ToFunctionality(c.RuntimeKey(f, b)) == f && c.ToBackend(c.RuntimeKey(f, b)) == b
    ensures c.functionalities < c.RuntimeKey(f, b) < 256
  {
    var j :| 0 <= j < |c.perBackend| && c.perBackend[j] == f;
    RuntimeKeyOf(c, j, b, 0);
    DecodeFrom(c, j, b, 0);
    StartAboveFunctionalities(c, j);
    StartGrows(c, j, |c.perBackend|);
  }

  // The other way round: the blocks leave no gap, every number behind the functionalities is the
  // runtime key (or, for backend 0, the start marker) of what it decodes to.
  lemma {:induction false} BlocksAreDense(c: Config, k: nat, i: nat)
    requires c.Valid() && i < |c.perBackend| && c.Start(i) <= k < c.Start(|c.perBackend|)
    ensures c.BackendFrom(k, i) <= c.backends && c.FunctionalityFrom(k, i) in c.perBackend[i..]
    ensures c.RuntimeKeyFrom(c.FunctionalityFrom(k, i), c.BackendFrom(k, i), i) == k
    decreases |c.perBackend| - i
  {
    if k > c.Start(i) + c.backends {
      BlocksAreDense(c, k, i + 1);
    }
  }

  lemma RuntimeKeyOnto(c: Config, k: nat)
    requires c.Valid() && c.functionalities < k < c.Start(|c.perBackend|)
    ensures c.IsPerBackend(c.ToFunctionality(k)) && c.ToBackend(k) <= c.backends
    ensures c.RuntimeKey(c.ToFunctionality(k), c.ToBackend(k)) == k
  {
    BlocksAreDense(c, k, 0);
  }

  // numPerBackendFunctionalityKeys
  method CountPerBackend(c: Config) returns (count: nat)
    requires c.Valid()
    ensures count == |c.perBackend|
  {
    count := 0;
    BelowNone(c, 0);
    for k := 0 to c.functionalities + 1
      invariant count == Below(c, k)
    {
      BelowStep(c, k);
      if c.IsPerBackend(k) {
        count := count + 1;
      }
    }
    BelowAll(c, c.functionalities + 1);
  }

  // How many per-backend functionalities are below k.
  function BelowFrom(c: Config, k: nat, j: nat): (n: nat)
    decreases |c.perBackend| - j
  {
    if j >= |c.perBackend| then 0
    else (if c.perBackend[j] < k then 1 else 0) + BelowFrom(c, k, j + 1)
  }

  function Below(c: Config, k: nat): (n: nat) {
    BelowFrom(c, k, 0)
  }

  lemma {:induction false} BelowStepFrom(c: Config, k: nat, j: nat)
    requires c.Valid() && j <= |c.perBackend|
    ensures BelowFrom(c, k + 1, j) == BelowFrom(c, k, j) + if k in c.perBackend[j..] then 1 else 0
    decreases |c.perBackend| - j
  {
    if j < |c.perBackend| {
      BelowStepFrom(c, k, j + 1);
      assert c.perBackend[j..] == [c.perBackend[j]] + c.perBackend[j + 1..];
    }
  }

  lemma BelowStep(c: Config, k: nat)
    requires c.Valid()
    ensures Below(c, k + 1) == Below(c, k) + if c.IsPerBackend(k) then 1 else 0
  {
    BelowStepFrom(c, k, 0);
    assert c.perBackend[0..] == c.perBackend;
  }

  lemma {:induction false} BelowAllFrom(c: Config, k: nat, j: nat)
    requires c.Valid() && k + 1 >= c.functionalities && j <= |c.perBackend|
    ensures BelowFrom(c, k, j) == |c.perBackend| - j
    decreases |c.perBackend| - j
  {
    if j < |c.perBackend| {
      BelowAllFrom(c, k, j + 1);
    }
  }

  lemma BelowAll(c: Config, k: nat)
    requires c.Valid() && k + 1 >= c.functionalities
    ensures Below(c, k) == |c.perBackend|
  {
    BelowAllFrom(c, k, 0);
  }

  lemma {:induction false} BelowNone(c: Config, j: nat)
    ensures BelowFrom(c, 0, j) == 0
    decreases |c.perBackend| - j
  {
    if j < |c.perBackend| {
      BelowNone(c, j + 1);
    }
  }
}
