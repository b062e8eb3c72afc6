// Symbolic integers and booleans (c10/core/SymInt.h, SymBool.cpp) as
// expressions over named symbols, together with the guards that decide them.
module Symbolic {
  import opened Wrappers

  // What each symbol stands for in one run of the traced program.
  type Valuation = nat -> int

  datatype IntExpr =
    | Literal(v: int)
    | Symbol(id: nat)
    | Times(x: IntExpr, y: IntExpr)
    | Max(x: IntExpr, y: IntExpr)
  {
    function Eval(env: Valuation): (v: int) {
      match this
      case Literal(v) => v
      case Symbol(id) => env(id)
      case Times(x, y) => x.Eval(env) * y.Eval(env)
      case Max(x, y) => if x.Eval(env) < y.Eval(env) then y.Eval(env) else x.Eval(env)
    }
  }

  datatype BoolExpr =
    | Truth(b: bool)
    | Equal(x: IntExpr, y: IntExpr)
    | NotEqual(x: IntExpr, y: IntExpr)
    | Less(x: IntExpr, y: IntExpr)
    | Greater(x: IntExpr, y: IntExpr)
    | And(p: BoolExpr, q: BoolExpr)
    | Or(p: BoolExpr, q: BoolExpr)
    | Not(p: BoolExpr)
  {
    predicate Eval(env: Valuation) {
      match this
      case Truth(b) => b
      case Equal(x, y) => x.Eval(env) == y.Eval(env)
      case NotEqual(x, y) => x.Eval(env) != y.Eval(env)
      case Less(x, y) => x.Eval(env) < y.Eval(env)
      case Greater(x, y) => x.Eval(env) > y.Eval(env)
      case And(p, q) => p.Eval(env) && q.Eval(env)
      case Or(p, q) => p.Eval(env) || q.Eval(env)
      case Not(p) => !p.Eval(env)
    }
  }

  // A plain integer, or a node of the symbolic expression graph.
  datatype SymInt = Plain(value: int) | Node(expr: IntExpr) {

    function Eval(env: Valuation): (v: int) {
      match this
      case Plain(v) => v
      case Node(e) => e.Eval(env)
    }

    // A node that holds a constant also counts as an integer.
    function MaybeAsInt(): (r: Option<int>)
      ensures r.Some? ==> forall env :: Eval(env) == r.value
      ensures Plain? || expr.Literal? ==> r.Some?
    {
      match this
      case Plain(v) => Some(v)
      case Node(Literal(v)) => Some(v)
      case _ => None
    }

    // The node for this value, wrapping an integer when needed.
    function Wrap(): (e: IntExpr)
      ensures forall env :: e.Eval(env) == Eval(env)
    {
      match this
      case Plain(v) => Literal(v)
      case Node(e) => e
    }

    function Mul(other: SymInt): (r: SymInt)
      ensures forall env :: r.Eval(env) == Eval(env) * other.Eval(env)
      ensures MaybeAsInt().Some? && other.MaybeAsInt().Some? ==> r.Plain?
    {
      var a, b := MaybeAsInt(), other.MaybeAsInt();
      if a.Some? && b.Some? then Plain(a.value * b.value) else Node(Times(Wrap(), other.Wrap()))
    }

    function AtLeast(other: SymInt): (r: SymInt)
      ensures forall env ::
        r.Eval(env) == if Eval(env) < other.Eval(env) then other.Eval(env) else Eval(env)
      ensures MaybeAsInt().Some? && other.MaybeAsInt().Some? ==> r.Plain?
    {
      var a, b := MaybeAsInt(), other.MaybeAsInt();
      if a.Some? && b.Some? then Plain(if a.value < b.value then b.value else a.value)
      else Node(Max(Wrap(), other.Wrap()))
    }

    function SymEq(other: SymInt): (r: SymBool)
      ensures forall env :: r.Eval(env) <==> Eval(env) == other.Eval(env)
      ensures MaybeAsInt().Some? && other.MaybeAsInt().Some? ==> r.Decided?
    {
      var a, b := MaybeAsInt(), other.MaybeAsInt();
      if a.Some? && b.Some? then Decided(a.value == b.value) else Condition(Equal(Wrap(), other.Wrap()))
    }

    function SymNe(other: SymInt): (r: SymBool)
      ensures forall env :: r.Eval(env) <==> Eval(env) != other.Eval(env)
      ensures MaybeAsInt().Some? && other.MaybeAsInt().Some? ==> r.Decided?
    {
      var a, b := MaybeAsInt(), other.MaybeAsInt();
      if a.Some? && b.Some? then Decided(a.value != b.value) else Condition(NotEqual(Wrap(), other.Wrap()))
    }

    function SymLt(other: SymInt): (r: SymBool)
      ensures forall env :: r.Eval(env) <==> Eval(env) < other.Eval(env)
      ensures MaybeAsInt().Some? && other.MaybeAsInt().Some? ==> r.Decided?
    {
      var a, b := MaybeAsInt(), other.MaybeAsInt();
      if a.Some? && b.Some? then Decided(a.value < b.value) else Condition(Less(Wrap(), other.Wrap()))
    }

    function SymGt(other: SymInt): (r: SymBool)
      ensures forall env :: r.Eval(env) <==> Eval(env) > other.Eval(env)
      ensures MaybeAsInt().Some? && other.MaybeAsInt().Some? ==> r.Decided?
    {
      var a, b := MaybeAsInt(), other.MaybeAsInt();
      if a.Some? && b.Some? then Decided(a.value > b.value) else Condition(Greater(Wrap(), other.Wrap()))
    }
  }

  datatype SymBool = Decided(value: bool) | Condition(expr: BoolExpr) {

    predicate Eval(env: Valuation) {
      match this
      case Decided(b) => b
      case Condition(e) => e.Eval(env)
    }

    function MaybeAsBool(): (r: Option<bool>)
      ensures r.Some? ==> forall env :: Eval(env) == r.value
      ensures Decided? || expr.Truth? ==> r.Some?
    {
      match this
      case Decided(b) => Some(b)
      case Condition(Truth(b)) => Some(b)
      case _ => None
    }

    function Wrap(): (e: BoolExpr)
      ensures forall env :: e.Eval(env) == Eval(env)
    {
      match this
      case Decided(b) => Truth(b)
      case Condition(e) => e
    }

    function SymAnd(other: SymBool): (r: SymBool)
      ensures forall env :: r.Eval(env) <==> Eval(env) && other.Eval(env)
      ensures MaybeAsBool().Some? && other.MaybeAsBool().Some? ==> r.Decided?
    {
      var a, b := MaybeAsBool(), other.MaybeAsBool();
      if a.Some? && b.Some? then Decided(a.value && b.value) else Condition(And(Wrap(), other.Wrap()))
    }

    function SymOr(other: SymBool): (r: SymBool)
      ensures forall env :: r.Eval(env) <==> Eval(env) || other.Eval(env)
      ensures MaybeAsBool().Some? && other.MaybeAsBool().Some? ==> r.Decided?
    {
      var a, b := MaybeAsBool(), other.MaybeAsBool();
      if a.Some? && b.Some? then Decided(a.value || b.value) else Condition(Or(Wrap(), other.Wrap()))
    }

    function SymNot(): (r: SymBool)
      ensures forall env :: r.Eval(env) <==> !Eval(env)
      ensures MaybeAsBool().Some? ==> r.Decided?
    {
      var a := MaybeAsBool();
      if a.Some? then Decided(!a.value) else Condition(Not(Wrap()))
    }
  }

  ghost predicate AllPlain(s: seq<SymInt>) {
    forall k :: 0 <= k < |s| ==> s[k].Plain?
  }

  // Any valuation at all, to read off plain values.
  const ZERO: Valuation := _ => 0

  function EvalAll(s: seq<SymInt>, env: Valuation): (r: seq<int>) {
    seq(|s|, k requires 0 <= k < |s| => s[k].Eval(env))
  }

  // The answers of the symbolic shape environment. `allowed` holds of the
  // valuations under which the compiled program may run. A guard_or_* answer may be
  // incomplete but never wrong; guard_bool fixes the answer of the expression it is asked.
  datatype Guards = Guards(
    allowed: Valuation -> bool,
    orFalse: BoolExpr -> bool,
    orTrue: BoolExpr -> bool,
    guardBool: BoolExpr -> bool,
    nodeHasHint: IntExpr -> bool)
  {
    ghost predicate Sound() {
      && (forall e, env :: orFalse(e) && allowed(env) ==> e.Eval(env))
      && (forall e, env :: !orTrue(e) && allowed(env) ==> !e.Eval(env))
    }

    // guard_or_true sees that nothing differs from itself.
    ghost predicate KnowsSelf() {
      forall e :: !orTrue(NotEqual(e, e))
    }

    // guard_or_true sees whenever two expressions agree in all allowed valuations, of which there is one.
    ghost predicate KnowsIdentities() {
      && (exists env :: allowed(env))
      && forall x: IntExpr, y: IntExpr ::
           (forall env :: allowed(env) ==> x.Eval(env) == y.Eval(env)) ==> !orTrue(NotEqual(x, y))
    }

    function GuardOrFalse(b: SymBool): (r: bool)
      requires Sound()
      ensures r ==> forall env :: allowed(env) ==> b.Eval(env)
      ensures b.MaybeAsBool().Some? ==> r == b.MaybeAsBool().value
    {
      var m := b.MaybeAsBool();
      if m.Some? then m.value else orFalse(b.Wrap())
    }

    function GuardOrTrue(b: SymBool): (r: bool)
      requires Sound()
      ensures !r ==> forall env :: allowed(env) ==> !b.Eval(env)
      ensures b.MaybeAsBool().Some? ==> r == b.MaybeAsBool().value
    {
      var m := b.MaybeAsBool();
      if m.Some? then m.value else orTrue(b.Wrap())
    }

    // env gives every expression that guard_bool was asked the answer it returned.
    ghost predicate Consistent(asked: set<BoolExpr>, env: Valuation) {
      forall e :: e in asked ==> (e.Eval(env) <==> guardBool(e))
    }

    // guard_bool answers from the hints: every answer is the value under the valuation env.
    ghost predicate AnswersBy(env: Valuation) {
      forall e :: guardBool(e) <==> e.Eval(env)
    }

    // What guard_bool has to ask: nothing when the answer is already known.
    function Asks(b: SymBool): (asked: set<BoolExpr>) {
      if b.MaybeAsBool().Some? then {} else {b.Wrap()}
    }

    function GuardBool(b: SymBool): (r: bool)
      ensures forall env :: Consistent(Asks(b), env) ==> (b.Eval(env) <==> r)
    {
      var m := b.MaybeAsBool();
      if m.Some? then m.value else
        assert b.Wrap() in Asks(b);
        guardBool(b.Wrap())
    }

    predicate HasHint(a: SymInt) {
      match a
      case Plain(_) => true
      case Node(e) => nodeHasHint(e)
    }

    predicate AllHinted(sizes: seq<SymInt>, strides: seq<SymInt>) {
      (forall k :: 0 <= k < |sizes| ==> HasHint(sizes[k])) && (forall k :: 0 <= k < |strides| ==> HasHint(strides[k]))
    }
  }
}
