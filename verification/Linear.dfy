/** Linear expressions and constraints over integer variables (src/arith/linear_expression.hpp:25-140,
    src/arith/linear_constraint.hpp:11-78).  Variables are numbered. */
module Linear {

  type Terms = map<nat, int>

  /** A sum of variables with coefficients and a constant. */
  datatype Expression = Expression(terms: Terms, constant: int)
  {
    /** The coefficient of a variable; zero if it has no term. */
    function Coefficient(v: nat): int {
      if v in terms then terms[v] else 0
    }

    predicate IsConstant() {
      terms == map[]
    }

    /** No term has coefficient zero. */
    ghost predicate Normal() {
      forall v :: v in terms ==> terms[v] != 0
    }
  }

  /** Drops terms without effect. */
  function Make(terms: Terms, constant: int): Expression {
    Expression(map v | v in terms && terms[v] != 0 :: terms[v], constant)
  }

  // ----- values -----

  /** The part of the sum over variables below `n`. */
  ghost function Part(e: Expression, value: nat -> int, n: nat): int {
    if n == 0 then 0 else Part(e, value, n - 1) + e.Coefficient(n - 1) * value(n - 1)
  }

  /** A number above all variables of the expression. */
  ghost function Above(e: Expression): (n: nat)
    ensures forall v :: v in e.terms ==> v < n
  {
    AboveAll(e.terms.Keys)
  }

  ghost function AboveAll(s: set<nat>): (n: nat)
    ensures forall v :: v in s ==> v < n
  {
    if s == {} then 0
    else
      var v :| v in s;
      var rest := AboveAll(s - {v});
      assert forall u :: u in s ==> u == v || u in s - {v};
      if v < rest then rest else v + 1
  }

  ghost function Value(e: Expression, value: nat -> int): int {
    Part(e, value, Above(e)) + e.constant
  }

  lemma {:induction false} PartSettles(e: Expression, value: nat -> int, n: nat, m: nat)
    requires n <= m && forall v :: v in e.terms ==> v < n
    ensures Part(e, value, m) == Part(e, value, n)
    decreases m
  {
    if n < m {
      PartSettles(e, value, n, m - 1);
    }
  }

  lemma {:induction false} ValueBelow(e: Expression, value: nat -> int, n: nat)
    requires forall v :: v in e.terms ==> v < n
    ensures Value(e, value) == Part(e, value, n) + e.constant
  {
    if n < Above(e) {
      PartSettles(e, value, n, Above(e));
    } else {
      PartSettles(e, value, Above(e), n);
    }
  }

  lemma {:induction false} PartCombines(
    a: Expression, b: Expression, c: Expression, k: int, l: int, value: nat -> int, n: nat)
    requires forall v: nat :: c.Coefficient(v) == k * a.Coefficient(v) + l * b.Coefficient(v)
    ensures Part(c, value, n) == k * Part(a, value, n) + l * Part(b, value, n)
  {
    if n > 0 {
      PartCombines(a, b, c, k, l, value, n - 1);
      hide Expression.Coefficient;
      var x, y, v := a.Coefficient(n - 1), b.Coefficient(n - 1), value(n - 1);
      assert c.Coefficient(n - 1) == k * x + l * y;
      Distributes(k, l, x, y, v, Part(a, value, n - 1), Part(b, value, n - 1));
    }
  }

  lemma {:induction false} Distributes(k: int, l: int, x: int, y: int, v: int, p: int, q: int)
    ensures k * p + l * q + (k * x + l * y) * v == k * (p + x * v) + l * (q + y * v)
  {
    assert (k * x + l * y) * v == (k * x) * v + (l * y) * v;
    assert (k * x) * v == k * (x * v) && (l * y) * v == l * (y * v);
    assert k * (p + x * v) == k * p + k * (x * v);
    assert l * (q + y * v) == l * q + l * (y * v);
  }

  /** If the coefficients are those of `k * a + l * b`, so is the value, whatever the variables are. */
  lemma {:induction false} Combines(a: Expression, b: Expression, c: Expression, k: int, l: int, value: nat -> int)
    requires c.constant == k * a.constant + l * b.constant
    requires forall v: nat :: c.Coefficient(v) == k * a.Coefficient(v) + l * b.Coefficient(v)
    ensures Value(c, value) == k * Value(a, value) + l * Value(b, value)
  {
    hide Value, Part, Expression.Coefficient;
    var n := Above(a) + Above(b) + Above(c);
    ValueBelow(a, value, n);
    ValueBelow(b, value, n);
    ValueBelow(c, value, n);
    PartCombines(a, b, c, k, l, value, n);
    Distributes(k, l, a.constant, b.constant, 1, Part(a, value, n), Part(b, value, n));
  }

  // ----- operations -----

  method Plus(a: Expression, b: Expression) returns (r: Expression)
    ensures r.Normal() && r.constant == a.constant + b.constant
    ensures forall v: nat :: r.Coefficient(v) == a.Coefficient(v) + b.Coefficient(v)
    ensures forall value: nat -> int :: Value(r, value) == Value(a, value) + Value(b, value)
  {
    hide Value;
    var terms := a.terms;
    var todo := b.terms.Keys;
    while todo != {}
      invariant todo <= b.terms.Keys && a.terms.Keys <= terms.Keys <= a.terms.Keys + b.terms.Keys
      invariant forall v :: v in b.terms && v !in todo ==> v in terms && terms[v] == a.Coefficient(v) + b.terms[v]
      invariant forall v :: v in terms && (v in todo || v !in b.terms) ==> v in a.terms && terms[v] == a.terms[v]
      decreases todo
    {
      var v :| v in todo;
      todo := todo - {v};
      terms := terms[v := a.Coefficient(v) + b.terms[v]];
    }
    r := Make(terms, a.constant + b.constant);
    forall value: nat -> int ensures Value(r, value) == Value(a, value) + Value(b, value) {
      Combines(a, b, r, 1, 1, value);
    }
  }

  method Subtract(a: Expression, b: Expression) returns (r: Expression)
    ensures r.Normal() && r.constant == a.constant - b.constant
    ensures forall v: nat :: r.Coefficient(v) == a.Coefficient(v) - b.Coefficient(v)
    ensures forall value: nat -> int :: Value(r, value) == Value(a, value) - Value(b, value)
  {
    hide Value;
    var terms := a.terms;
    var todo := b.terms.Keys;
    while todo != {}
      invariant todo <= b.terms.Keys && a.terms.Keys <= terms.Keys <= a.terms.Keys + b.terms.Keys
      invariant forall v :: v in b.terms && v !in todo ==> v in terms && terms[v] == a.Coefficient(v) - b.terms[v]
      invariant forall v :: v in terms && (v in todo || v !in b.terms) ==> v in a.terms && terms[v] == a.terms[v]
      decreases todo
    {
      var v :| v in todo;
      todo := todo - {v};
      terms := terms[v := a.Coefficient(v) - b.terms[v]];
    }
    r := Make(terms, a.constant - b.constant);
    forall value: nat -> int ensures Value(r, value) == Value(a, value) - Value(b, value) {
      Combines(a, b, r, 1, -1, value);
    }
  }

  /** Multiplication by a constant, on the terms as they are. */
  function Scaled(e: Expression, k: int): Expression {
    Make(map v | v in e.terms :: e.terms[v] * k, e.constant * k)
  }

  method Multiply(e: Expression, k: int) returns (r: Expression)
    ensures r == Scaled(e, k)
  {
    var terms: Terms := map[];
    var todo := e.terms.Keys;
    while todo != {}
      invariant todo <= e.terms.Keys && terms.Keys == e.terms.Keys - todo
      invariant forall v :: v in terms ==> terms[v] == e.terms[v] * k
      decreases todo
    {
      var v :| v in todo;
      todo := todo - {v};
      terms := terms[v := e.terms[v] * k];
    }
    assert terms == map v | v in e.terms :: e.terms[v] * k;
    r := Make(terms, e.constant * k);
  }

  lemma {:induction false} ScaledValue(e: Expression, k: int, value: nat -> int)
    ensures Scaled(e, k).Normal() && Value(Scaled(e, k), value) == k * Value(e, value)
  {
    hide Value;
    assert forall v: nat :: Scaled(e, k).Coefficient(v) == k * e.Coefficient(v);
    Combines(e, e, Scaled(e, k), k, 0, value);
  }

  // ----- constraints -----

  datatype Kind = EqualsZero | AtMostZero | BelowZero | NotZero

  datatype Constraint = Constraint(expression: Expression, kind: Kind)

  ghost predicate Satisfied(c: Constraint, value: nat -> int) {
    Compares(c.kind, Value(c.expression, value))
  }

  predicate Compares(kind: Kind, n: int) {
    match kind
    case EqualsZero => n == 0
    case AtMostZero => n <= 0
    case BelowZero => n < 0
    case NotZero => n != 0
  }

  predicate IsTautology(c: Constraint) {
    c.expression.IsConstant() && Compares(c.kind, c.expression.constant)
  }

  predicate IsContradiction(c: Constraint) {
    c.expression.IsConstant() && !IsTautology(c)
  }

  function Negated(c: Constraint): Constraint {
    match c.kind
    case NotZero => Constraint(c.expression, EqualsZero)
    case EqualsZero => Constraint(c.expression, NotZero)
    case BelowZero => Constraint(Scaled(c.expression, -1), AtMostZero)
    case AtMostZero => Constraint(Scaled(c.expression, -1), BelowZero)
  }

  /** Negation is the exact complement over the integers. */
  lemma {:induction false} NegatedIsComplement(c: Constraint, value: nat -> int)
    ensures Satisfied(Negated(c), value) <==> !Satisfied(c, value)
  {
    hide Value;
    ScaledValue(c.expression, -1, value);
  }

  lemma {:induction false} ConstantValue(e: Expression, value: nat -> int)
    requires e.IsConstant()
    ensures Value(e, value) == e.constant
  {
    ValueBelow(e, value, 0);
  }

  /** What is called a tautology always holds, and what is called a contradiction never. */
  lemma {:induction false} AnswersAreRight(c: Constraint, value: nat -> int)
    ensures IsTautology(c) ==> Satisfied(c, value)
    ensures IsContradiction(c) ==> !Satisfied(c, value)
  {
    hide Value;
    if c.expression.IsConstant() {
      ConstantValue(c.expression, value);
    }
  }

  lemma {:induction false} SingleValue(e: Expression, v: nat, x: int)
    ensures Value(e, (u: nat) => if u == v then x else 0) == e.Coefficient(v) * x + e.constant
  {
    var value := (u: nat) => if u == v then x else 0;
    var n := Above(e) + v + 1;
    ValueBelow(e, value, n);
    SinglePart(e, v, x, n);
  }

  lemma {:induction false} SinglePart(e: Expression, v: nat, x: int, n: nat)
    ensures Part(e, (u: nat) => if u == v then x else 0, n) == if v < n then e.Coefficient(v) * x else 0
  {
    if n > 0 {
      SinglePart(e, v, x, n - 1);
    }
  }

  /** An order constraint in normal form that depends on a variable is neither always nor never met, so
      there the answers miss nothing. */
  lemma {:induction false} OrderAnswersAreComplete(c: Constraint)
    requires c.expression.Normal() && (c.kind == AtMostZero || c.kind == BelowZero)
    ensures IsTautology(c) <==> forall value: nat -> int :: Satisfied(c, value)
    ensures IsContradiction(c) <==> forall value: nat -> int :: !Satisfied(c, value)
  {
    hide Value;
    if c.expression.IsConstant() {
      ConstantValue(c.expression, (u: nat) => 0);
      assert Satisfied(c, (u: nat) => 0) <==> IsTautology(c);
      forall value: nat -> int ensures Satisfied(c, value) <==> IsTautology(c) {
        ConstantValue(c.expression, value);
      }
    } else {
      var v :| v in c.expression.terms;
      var a, b := c.expression.terms[v], c.expression.constant;
      var up := if a > 0 then 1 + Size(b) else -1 - Size(b);
      SingleValue(c.expression, v, up);
      SingleValue(c.expression, v, -up);
      LargeProduct(a, Size(b));
      assert !Satisfied(c, (u: nat) => if u == v then up else 0);
      assert Satisfied(c, (u: nat) => if u == v then -up else 0);
    }
  }

  function Size(n: int): nat {
    if n < 0 then -n else n
  }

  lemma {:induction false} LargeProduct(a: int, n: nat)
    requires a != 0
    ensures var up := if a > 0 then 1 + n else -1 - n; a * up > n && a * -up < 0 - n
  {
    if a > 0 {
      assert (a - 1) * (1 + n) >= 0;
    } else {
      assert (-a - 1) * (1 + n) >= 0;
    }
  }
}
