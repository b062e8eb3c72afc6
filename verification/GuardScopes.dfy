// Nested thread-local guards: InferenceMode (c10/core/InferenceMode.h), AutoGradMode,
// NoGradGuard and AutoFwGradMode (c10/core/GradMode.h) over the flags of
// c10/core/AutogradState.h and the dispatch key sets of impl/LocalDispatchKeySet.h.
module GuardScopes {
  import opened Bits
  import opened DispatchKeys
  import opened Wrappers

  const BACKEND_SELECT: nat := 11
  const AD_INPLACE_OR_VIEW: nat := 20
  const AUTOGRAD_KEYS: seq<nat> := [22, 21, 23]
  const AUTOCAST_KEYS: seq<nat> := [25, 32, 33, 28, 29, 30, 31, 34, 26, 27]

  // ----- key sets -----

  // DispatchKeySet(initializer_list<DispatchKey>)
  function KeysToRepr(ks: seq<nat>): (n: nat) {
    if ks == [] then 0 else Or(Shl(1, TORCH.backends + ks[0] - 1), KeysToRepr(ks[1..]))
  }

  // Functionality bits are removed, backend bits stay.
  function Minus(x: nat, y: nat): (n: nat) {
    AndNot(x, AndNot(y, Ones(TORCH.backends)))
  }

  predicate HasKey(r: nat, k: nat) {
    Has(r, TORCH.backends + k - 1)
  }

  lemma {:induction false} HasOne(i: nat)
    ensures Has(1, i) <==> i == 0
  {
    if i > 0 {
      HasZero(i - 1);
    }
  }

  lemma {:induction false} HasKeys(ks: seq<nat>, k: nat)
    ensures HasKey(KeysToRepr(ks), k) <==> k in ks
  {
    var i := TORCH.backends + k - 1;
    if ks == [] {
      HasZero(i);
    } else {
      var n := TORCH.backends + ks[0] - 1;
      HasKeys(ks[1..], k);
      HasOr(Shl(1, n), KeysToRepr(ks[1..]), i);
      HasShl(1, n, i);
      if i >= n {
        HasOne(i - n);
      }
    }
  }

  lemma HasMinus(x: nat, y: nat, k: nat)
    requires k >= 1
    ensures HasKey(Minus(x, y), k) <==> HasKey(x, k) && !HasKey(y, k)
  {
    var i := TORCH.backends + k - 1;
    HasAndNot(x, AndNot(y, Ones(TORCH.backends)), i);
    HasAndNot(y, Ones(TORCH.backends), i);
    HasOnes(TORCH.backends, i);
  }

  lemma XorTwice(x: nat, d: nat)
    ensures Xor(Xor(x, d), d) == x
  {
    forall i: nat ensures Has(Xor(Xor(x, d), d), i) == Has(x, i) {
      HasXor(Xor(x, d), d, i);
      HasXor(x, d, i);
    }
    SameBits(Xor(Xor(x, d), d), x);
  }

  // ----- thread-local state -----

  datatype AutogradState = AutogradState(
    graphExecGroup: int,          // -1 when absent
    gradMode: bool,
    inferenceMode: bool,
    fwGradMode: bool,
    multithreading: bool,
    viewReplay: bool,
    gradLayoutEnforcement: bool)

  // The four-argument constructor.
  function MakeAutogradState(grad: bool, inference: bool, fwGrad: bool, multithreading: bool): (r: AutogradState) {
    AutogradState(-1, grad, inference, fwGrad, multithreading, false, true)
  }

  datatype Tls = Tls(autograd: AutogradState, included: nat, excluded: nat)

  const DEFAULT_INCLUDED: nat := KeysToRepr([BACKEND_SELECT, AD_INPLACE_OR_VIEW])
  const DEFAULT_EXCLUDED: nat := KeysToRepr(AUTOCAST_KEYS)
  const DEFAULT_TLS: Tls := Tls(MakeAutogradState(true, false, true, true), DEFAULT_INCLUDED, DEFAULT_EXCLUDED)

  // NoGradGuard is GradMode(false).
  datatype Guard = InferenceMode(enabled: bool) | GradMode(enabled: bool) | FwGradMode(enabled: bool)

  // A guard's constructor.
  function Open(s: Tls, g: Guard): (s': Tls) {
    match g
    case InferenceMode(e) =>
      Tls(MakeAutogradState(!e, e, !e, !e),
          if e then Minus(s.included, KeysToRepr([AD_INPLACE_OR_VIEW]))
               else Or(s.included, KeysToRepr([AD_INPLACE_OR_VIEW])),
          if e then Or(s.excluded, KeysToRepr(AUTOGRAD_KEYS)) else Minus(s.excluded, KeysToRepr(AUTOGRAD_KEYS)))
    case GradMode(e) => s.(autograd := s.autograd.(gradMode := e))
    case FwGradMode(e) => s.(autograd := s.autograd.(fwGradMode := e))
  }

  // A guard's destructor; saved is the state its constructor saw. InferenceMode saved all
  // of it, the grad-mode guards saved one flag.
  function Close(s: Tls, g: Guard, saved: Tls): (s': Tls) {
    match g
    case InferenceMode(_) => saved
    case GradMode(_) => s.(autograd := s.autograd.(gradMode := saved.autograd.gradMode))
    case FwGradMode(_) => s.(autograd := s.autograd.(fwGradMode := saved.autograd.fwGradMode))
  }

  // Guards are scoped objects, so their lifetimes nest: a guard, what runs under it, what runs after it.
  datatype Scopes = Done | Under(guard: Guard, body: Scopes, rest: Scopes)

  function Run(s: Tls, scopes: Scopes): (s': Tls)
    decreases scopes
  {
    match scopes
    case Done => s
    case Under(g, body, rest) => Run(Close(Run(Open(s, g), body), g, s), rest)
  }

  // A state the thread goes through, and the guards open in it, innermost last.
  datatype Moment = Moment(enclosing: seq<Guard>, state: Tls)

  function Visited(s: Tls, scopes: Scopes, enclosing: seq<Guard>): (moments: seq<Moment>)
    decreases scopes
  {
    match scopes
    case Done => [Moment(enclosing, s)]
    case Under(g, body, rest) =>
      [Moment(enclosing, s)] + Visited(Open(s, g), body, enclosing + [g])
      + Visited(Close(Run(Open(s, g), body), g, s), rest, enclosing)
  }

  // A body leaves the state it found, so what runs after the guard starts where the guard started.
  lemma VisitedUnder(s: Tls, g: Guard, body: Scopes, rest: Scopes, enclosing: seq<Guard>)
    ensures forall m :: m in Visited(s, Under(g, body, rest), enclosing) <==>
              || m == Moment(enclosing, s)
              || m in Visited(Open(s, g), body, enclosing + [g])
              || m in Visited(s, rest, enclosing)
  {
    RunRestores(Open(s, g), body);
  }

  // Closing every guard restores the starting state, whatever it was.
  lemma {:induction false} RunRestores(s: Tls, scopes: Scopes)
    ensures Run(s, scopes) == s
    decreases scopes
  {
    match scopes
    case Done =>
    case Under(g, body, rest) =>
      RunRestores(Open(s, g), body);
      RunRestores(s, rest);
  }

  // Inference mode is on exactly when ADInplaceOrView is not included, exactly when all autograd
  // functionalities are excluded and exactly when some is; ADInplaceOrView is never excluded and no
  // autograd functionality included.
  ghost predicate ModesAgree(s: Tls) {
    && (s.autograd.inferenceMode <==> !HasKey(s.included, AD_INPLACE_OR_VIEW))
    && (forall k :: k in AUTOGRAD_KEYS ==> (HasKey(s.excluded, k) <==> s.autograd.inferenceMode))
    && !HasKey(s.excluded, AD_INPLACE_OR_VIEW)
    && (forall k :: k in AUTOGRAD_KEYS ==> !HasKey(s.included, k))
  }

  lemma ModesOfLists(s: Tls, included: seq<nat>, excluded: seq<nat>)
    requires s.included == KeysToRepr(included) && s.excluded == KeysToRepr(excluded)
    requires !s.autograd.inferenceMode
    requires AD_INPLACE_OR_VIEW in included && AD_INPLACE_OR_VIEW !in excluded
    requires forall k :: k in AUTOGRAD_KEYS ==> k !in included && k !in excluded
    ensures ModesAgree(s)
  {
    HasKeys(included, AD_INPLACE_OR_VIEW);
    HasKeys(excluded, AD_INPLACE_OR_VIEW);
    forall k | k in AUTOGRAD_KEYS ensures !HasKey(s.excluded, k) && !HasKey(s.included, k) {
      HasKeys(included, k);
      HasKeys(excluded, k);
    }
  }

  // Autocast keys are numbered above the autograd keys and ADInplaceOrView.
  lemma AutocastIsAbove(k: nat)
    ensures k in AUTOCAST_KEYS ==> k >= 25
    ensures k in AUTOGRAD_KEYS ==> AD_INPLACE_OR_VIEW < k < 25
  {
  }

  lemma DefaultModesAgree()
    ensures ModesAgree(DEFAULT_TLS)
  {
    AutocastIsAbove(AD_INPLACE_OR_VIEW);
    forall k | k in AUTOGRAD_KEYS ensures k !in AUTOCAST_KEYS && k > AD_INPLACE_OR_VIEW > BACKEND_SELECT {
      AutocastIsAbove(k);
    }
    ModesOfLists(DEFAULT_TLS, [BACKEND_SELECT, AD_INPLACE_OR_VIEW], AUTOCAST_KEYS);
  }

  lemma HasUnion(x: nat, ks: seq<nat>, k: nat)
    ensures HasKey(Or(x, KeysToRepr(ks)), k) <==> HasKey(x, k) || k in ks
  {
    HasOr(x, KeysToRepr(ks), TORCH.backends + k - 1);
    HasKeys(ks, k);
  }

  lemma HasRemoved(x: nat, ks: seq<nat>, k: nat)
    requires k >= 1
    ensures HasKey(Minus(x, KeysToRepr(ks)), k) <==> HasKey(x, k) && k !in ks
  {
    HasMinus(x, KeysToRepr(ks), k);
    HasKeys(ks, k);
  }

  lemma OpenKeepsModes(s: Tls, g: Guard)
    requires ModesAgree(s)
    ensures ModesAgree(Open(s, g))
  {
    if g.InferenceMode? {
      forall k | k in AUTOGRAD_KEYS || k == AD_INPLACE_OR_VIEW
        ensures HasKey(Open(s, g).included, k) <==> if k == AD_INPLACE_OR_VIEW then !g.enabled else HasKey(s.included, k)
        ensures HasKey(Open(s, g).excluded, k) <==> if k in AUTOGRAD_KEYS then g.enabled else HasKey(s.excluded, k)
      {
        HasUnion(s.included, [AD_INPLACE_OR_VIEW], k);
        HasRemoved(s.included, [AD_INPLACE_OR_VIEW], k);
        HasUnion(s.excluded, AUTOGRAD_KEYS, k);
        HasRemoved(s.excluded, AUTOGRAD_KEYS, k);
      }
    }
  }

  // The modes agree in every state of every nested run.
  lemma {:induction false} RunKeepsModes(s: Tls, scopes: Scopes, enclosing: seq<Guard>)
    requires ModesAgree(s)
    ensures forall m :: m in Visited(s, scopes, enclosing) ==> ModesAgree(m.state)
    decreases scopes
  {
    match scopes
    case Done =>
    case Under(g, body, rest) =>
      VisitedUnder(s, g, body, rest, enclosing);
      OpenKeepsModes(s, g);
      RunKeepsModes(Open(s, g), body, enclosing + [g]);
      RunKeepsModes(s, rest, enclosing);
  }

  // ----- what a guard changes, and what it leaves alone -----

  // The bit of functionality k.
  function Bit(k: nat): (i: nat)
    requires k >= 1
  {
    TORCH.backends + k - 1
  }

  predicate IsAutogradBit(i: nat) {
    exists k :: k in AUTOGRAD_KEYS && k >= 1 && i == Bit(k)
  }

  lemma HasListBits(ks: seq<nat>, i: nat)
    requires forall k :: k in ks ==> k >= 1
    ensures Has(KeysToRepr(ks), i) <==> exists k :: k in ks && k >= 1 && i == Bit(k)
  {
    if i >= TORCH.backends {
      HasKeys(ks, i - TORCH.backends + 1);
    } else {
      NoBackendBits(ks, i);
    }
  }

  lemma {:induction false} NoBackendBits(ks: seq<nat>, i: nat)
    requires i < TORCH.backends && forall k :: k in ks ==> k >= 1
    ensures !Has(KeysToRepr(ks), i)
  {
    if ks == [] {
      HasZero(i);
    } else {
      assert ks[0] in ks && forall k :: k in ks[1..] ==> k in ks;
      NoBackendBits(ks[1..], i);
      HasOr(Shl(1, Bit(ks[0])), KeysToRepr(ks[1..]), i);
      HasShl(1, Bit(ks[0]), i);
    }
  }

  lemma HasMinusBit(x: nat, ks: seq<nat>, i: nat)
    requires forall k :: k in ks ==> k >= 1
    ensures Has(Minus(x, KeysToRepr(ks)), i) <==> Has(x, i) && !Has(KeysToRepr(ks), i)
  {
    HasAndNot(x, AndNot(KeysToRepr(ks), Ones(TORCH.backends)), i);
    HasAndNot(KeysToRepr(ks), Ones(TORCH.backends), i);
    HasOnes(TORCH.backends, i);
    if i < TORCH.backends {
      NoBackendBits(ks, i);
    }
  }

  // Every bit of both key sets, and every flag, after an InferenceMode guard opened.
  lemma InferenceModeFrame(s: Tls, e: bool, i: nat)
    ensures var t := Open(s, InferenceMode(e));
            && (Has(t.included, i) <==> if i == Bit(AD_INPLACE_OR_VIEW) then !e else Has(s.included, i))
            && (Has(t.excluded, i) <==> if IsAutogradBit(i) then e else Has(s.excluded, i))
            && t.autograd == AutogradState(-1, !e, e, !e, !e, false, true)
  {
    HasListBits([AD_INPLACE_OR_VIEW], i);
    HasListBits(AUTOGRAD_KEYS, i);
    HasOr(s.included, KeysToRepr([AD_INPLACE_OR_VIEW]), i);
    HasOr(s.excluded, KeysToRepr(AUTOGRAD_KEYS), i);
    HasMinusBit(s.included, [AD_INPLACE_OR_VIEW], i);
    HasMinusBit(s.excluded, AUTOGRAD_KEYS, i);
  }

  // ----- the innermost guard decides -----

  // What the innermost InferenceMode guard asks for, if there is one.
  function InnermostInference(enclosing: seq<Guard>): (mode: Option<bool>) {
    var n := |enclosing| - 1;
    if n < 0 then None
    else match enclosing[n]
      case InferenceMode(e) => Some(e)
      case _ => InnermostInference(enclosing[..n])
  }

  // Grad mode is set by GradMode guards and, the other way round, by InferenceMode guards.
  function InnermostGrad(start: bool, enclosing: seq<Guard>): (on: bool) {
    var n := |enclosing| - 1;
    if n < 0 then start
    else match enclosing[n]
      case InferenceMode(e) => !e
      case GradMode(e) => e
      case FwGradMode(_) => InnermostGrad(start, enclosing[..n])
  }

  function InnermostFwGrad(start: bool, enclosing: seq<Guard>): (on: bool) {
    var n := |enclosing| - 1;
    if n < 0 then start
    else match enclosing[n]
      case InferenceMode(e) => !e
      case GradMode(_) => InnermostFwGrad(start, enclosing[..n])
      case FwGradMode(e) => e
  }

  // The state of the innermost InferenceMode guard, with the start's state where it sets nothing; grad
  // and forward grad mode may be set by guards further in.
  ghost predicate InnermostDecides(start: Tls, m: Moment) {
    var mode, a, s := InnermostInference(m.enclosing), m.state.autograd, start.autograd;
    && a.gradMode == InnermostGrad(s.gradMode, m.enclosing)
    && a.fwGradMode == InnermostFwGrad(s.fwGradMode, m.enclosing)
    && match mode
       case None =>
         && m.state.included == start.included && m.state.excluded == start.excluded
         && a == s.(gradMode := a.gradMode, fwGradMode := a.fwGradMode)
       case Some(e) =>
         && a == AutogradState(-1, a.gradMode, e, a.fwGradMode, !e, false, true)
         && (forall i: nat :: Has(m.state.included, i) <==> if i == Bit(AD_INPLACE_OR_VIEW) then !e else Has(start.included, i))
         && (forall i: nat :: Has(m.state.excluded, i) <==> if IsAutogradBit(i) then e else Has(start.excluded, i))
  }

  lemma OpenDecides(start: Tls, s: Tls, g: Guard, enclosing: seq<Guard>)
    requires InnermostDecides(start, Moment(enclosing, s))
    ensures InnermostDecides(start, Moment(enclosing + [g], Open(s, g)))
  {
    assert (enclosing + [g])[..|enclosing|] == enclosing;
    if g.InferenceMode? {
      forall i: nat
        ensures Has(Open(s, g).included, i) <==> if i == Bit(AD_INPLACE_OR_VIEW) then !g.enabled else Has(start.included, i)
        ensures Has(Open(s, g).excluded, i) <==> if IsAutogradBit(i) then g.enabled else Has(start.excluded, i)
      {
        InferenceModeFrame(s, g.enabled, i);
      }
      InferenceModeFrame(s, g.enabled, 0);
    }
  }

  // In every state of every nested run every flag and every bit of the key sets is what the innermost
  // guard that sets it asks for, or what it was at the start.
  lemma {:induction false} RunFollowsInnermost(start: Tls, s: Tls, scopes: Scopes, enclosing: seq<Guard>)
    requires InnermostDecides(start, Moment(enclosing, s))
    ensures forall m :: m in Visited(s, scopes, enclosing) ==> InnermostDecides(start, m)
    decreases scopes
  {
    match scopes
    case Done =>
    case Under(g, body, rest) =>
      VisitedUnder(s, g, body, rest, enclosing);
      OpenDecides(start, s, g, enclosing);
      RunFollowsInnermost(start, Open(s, g), body, enclosing + [g]);
      RunFollowsInnermost(start, s, rest, enclosing);
  }

  // From any start, without guards around it.
  lemma InnermostGuardDecides(s: Tls, scopes: Scopes)
    ensures forall m :: m in Visited(s, scopes, []) ==> InnermostDecides(s, m)
  {
    RunFollowsInnermost(s, s, scopes, []);
  }

  // The grad-mode destructors put back one flag each and leave everything else as it is by then, so such
  // guards may also be closed in another order than they were opened.
  lemma GradGuardsCommute(s: Tls, e: bool, f: bool, saved: Tls, saved': Tls)
    ensures var t := Close(Close(s, GradMode(e), saved), FwGradMode(f), saved');
            && t == Close(Close(s, FwGradMode(f), saved'), GradMode(e), saved)
            && t == s.(autograd := s.autograd.(gradMode := saved.autograd.gradMode, fwGradMode := saved'.autograd.fwGradMode))
  {
  }

  // ----- the thread-local variables themselves -----

  // The raw sets are stored xor-ed with the defaults, so that the zero-initialised state is the default.
  class ThreadLocals {
    var autograd: AutogradState
    var rawIncluded: nat
    var rawExcluded: nat

    function Abs(): (s': Tls)
      reads this
    {
      Tls(autograd, Xor(rawIncluded, DEFAULT_INCLUDED), Xor(rawExcluded, DEFAULT_EXCLUDED))
    }

    constructor ()
      ensures Abs() == DEFAULT_TLS
    {
      autograd := MakeAutogradState(true, false, true, true);
      rawIncluded, rawExcluded := 0, 0;
      new;
      XorTwice(0, DEFAULT_INCLUDED);
      XorTwice(0, DEFAULT_EXCLUDED);
      XorZero(DEFAULT_INCLUDED);
      XorZero(DEFAULT_EXCLUDED);
    }

    // _force_tls_local_dispatch_key_set
    method ForceKeySets(included: nat, excluded: nat)
      modifies this
      ensures Abs() == Tls(old(autograd), included, excluded)
    {
      rawIncluded, rawExcluded := Xor(included, DEFAULT_INCLUDED), Xor(excluded, DEFAULT_EXCLUDED);
      XorTwice(included, DEFAULT_INCLUDED);
      XorTwice(excluded, DEFAULT_EXCLUDED);
    }

    // The constructor of a guard; it keeps what it saw.
    method OpenGuard(g: Guard) returns (saved: Tls)
      modifies this
      ensures saved == old(Abs()) && Abs() == Open(saved, g)
    {
      saved := Abs();
      match g {
        case InferenceMode(e) =>
          autograd := MakeAutogradState(!e, e, !e, !e);
          if e {
            ForceKeySets(Minus(saved.included, KeysToRepr([AD_INPLACE_OR_VIEW])),
                         Or(saved.excluded, KeysToRepr(AUTOGRAD_KEYS)));
          } else {
            ForceKeySets(Or(saved.included, KeysToRepr([AD_INPLACE_OR_VIEW])),
                         Minus(saved.excluded, KeysToRepr(AUTOGRAD_KEYS)));
          }
        case GradMode(e) =>
          autograd := autograd.(gradMode := e);
        case FwGradMode(e) =>
          autograd := autograd.(fwGradMode := e);
      }
    }

    // The destructor.
    method CloseGuard(g: Guard, saved: Tls)
      modifies this
      ensures Abs() == Close(old(Abs()), g, saved)
    {
      match g {
        case InferenceMode(_) =>
          autograd := saved.autograd;
          ForceKeySets(saved.included, saved.excluded);
        case GradMode(_) =>
          autograd := autograd.(gradMode := saved.autograd.gradMode);
        case FwGradMode(_) =>
          autograd := autograd.(fwGradMode := saved.autograd.fwGradMode);
      }
    }

    // A block of nested guards.
    method Execute(scopes: Scopes)
      modifies this
      ensures Abs() == Run(old(Abs()), scopes)
      decreases scopes
    {
      match scopes {
        case Done =>
        case Under(g, body, rest) =>
          var saved := OpenGuard(g);
          Execute(body);
          CloseGuard(g, saved);
          Execute(rest);
      }
    }
  }

  lemma XorZero(d: nat)
    ensures Xor(0, d) == d
  {
    forall i: nat ensures Has(Xor(0, d), i) == Has(d, i) {
      HasXor(0, d, i);
      HasZero(i);
    }
    SameBits(Xor(0, d), d);
  }
}
