/** Symbolic differentiation through the simplifying constructors, over exact reals. */
module Differentiation {
  import opened MathExpr

  // ---------- The constructors ----------

  function Number(x: real): Expr { if x >= 0.0 then Num(x) else Un(Opp, Num(-x)) }

  predicate IsNum(e: Expr, v: real) { e.Num? && e.v == v }

  predicate IsOpp(e: Expr) { e.Un? && e.op1 == Opp }

  function Neg(e: Expr): Expr
  {
    if e.Num? then Number(-e.v) else if IsOpp(e) then e.arg else Un(Opp, e)
  }

  function Plus(a: Expr, b: Expr): Expr
    decreases Nodes(a) + Nodes(b)
  {
    if a.Num? && b.Num? then Number(a.v + b.v)
    else if IsNum(a, 0.0) then b
    else if IsNum(b, 0.0) then a
    else if IsOpp(a) then Minus(b, a.arg)
    else if IsOpp(b) then Minus(a, b.arg)
    else Bin(Add, a, b)
  }

  function Minus(a: Expr, b: Expr): Expr
    decreases Nodes(a) + Nodes(b)
  {
    if a.Num? && b.Num? then Number(a.v - b.v)
    else if IsNum(a, 0.0) then Neg(b)
    else if IsNum(b, 0.0) then a
    else if IsOpp(a) then Neg(Plus(b, a.arg))
    else if IsOpp(b) then Plus(a, b.arg)
    else Bin(Sub, a, b)
  }

  function Times(a: Expr, b: Expr): Expr
    decreases Nodes(a) + Nodes(b)
  {
    if a.Num? && b.Num? then Number(a.v * b.v)
    else if IsNum(a, 0.0) || IsNum(b, 0.0) then Number(0.0)
    else if IsNum(a, 1.0) then b
    else if IsNum(b, 1.0) then a
    else if IsOpp(a) then Neg(Times(a.arg, b))
    else if IsOpp(b) then Neg(Times(a, b.arg))
    else Bin(Mult, a, b)
  }

  // ---------- Their value ----------

  predicate Polynomial(e: Expr)
  {
    match e
    case Num(_) => true
    case Var(_) => true
    case Bin(op, l, r) => (op == Add || op == Sub || op == Mult) && Polynomial(l) && Polynomial(r)
    case Un(op, a) => op == Opp && Polynomial(a)
    case _ => false
  }

  // Multiplication under a name, so that proofs about trees can treat it as unknown.
  function Mul(a: real, b: real): real { a * b }

  function Value(e: Expr, env: int -> real): real
    requires Polynomial(e)
  {
    match e
    case Num(v) => v
    case Var(x) => env(x)
    case Bin(op, l, r) =>
      if op == Add then Value(l, env) + Value(r, env)
      else if op == Sub then Value(l, env) - Value(r, env)
      else Mul(Value(l, env), Value(r, env))
    case Un(_, a) => -Value(a, env)
  }

  lemma NumberValue(x: real, env: int -> real)
    ensures Polynomial(Number(x)) && Value(Number(x), env) == x
  {
  }

  lemma NegValue(e: Expr, env: int -> real)
    requires Polynomial(e)
    ensures Polynomial(Neg(e)) && Value(Neg(e), env) == -Value(e, env)
  {
    if e.Num? { NumberValue(-e.v, env); }
  }

  /** Sums and differences are simplified through each other and keep their value. */
  lemma {:induction false} SumValue(a: Expr, b: Expr, env: int -> real)
    requires Polynomial(a) && Polynomial(b)
    ensures Polynomial(Plus(a, b)) && Value(Plus(a, b), env) == Value(a, env) + Value(b, env)
    ensures Polynomial(Minus(a, b)) && Value(Minus(a, b), env) == Value(a, env) - Value(b, env)
    decreases Nodes(a) + Nodes(b)
  {
    if a.Num? && b.Num? {
      NumberValue(a.v + b.v, env);
      NumberValue(a.v - b.v, env);
    } else {
      NegValue(b, env);
      if IsOpp(a) {
        SumValue(b, a.arg, env);
        NegValue(Plus(b, a.arg), env);
      } else if IsOpp(b) {
        SumValue(a, b.arg, env);
      }
    }
  }

  lemma MulSigns(a: real, b: real)
    ensures Mul(a, b) == a * b == Mul(b, a)
    ensures Mul(-a, b) == -Mul(a, b) == Mul(a, -b)
    ensures Mul(0.0, b) == 0.0 == Mul(a, 0.0) && Mul(1.0, b) == b && Mul(a, 1.0) == a
  {
  }

  lemma {:induction false} ProductValue(a: Expr, b: Expr, env: int -> real)
    requires Polynomial(a) && Polynomial(b)
    ensures Polynomial(Times(a, b)) && Value(Times(a, b), env) == Mul(Value(a, env), Value(b, env))
    decreases Nodes(a) + Nodes(b)
  {
    hide Mul;
    MulSigns(Value(a, env), Value(b, env));
    if a.Num? && b.Num? {
      NumberValue(a.v * b.v, env);
      MulSigns(a.v, b.v);
    } else if IsNum(a, 0.0) || IsNum(b, 0.0) {
      NumberValue(0.0, env);
    } else if IsNum(a, 1.0) || IsNum(b, 1.0) {
    } else if IsOpp(a) {
      ProductValue(a.arg, b, env);
      MulSigns(Value(a.arg, env), Value(b, env));
      NegValue(Times(a.arg, b), env);
    } else if IsOpp(b) {
      ProductValue(a, b.arg, env);
      MulSigns(Value(a, env), Value(b.arg, env));
      NegValue(Times(a, b.arg), env);
    }
  }

  // ---------- The derivative ----------

  predicate ContainVar(e: Expr, x: int)
  {
    match e
    case Var(y) => x == y
    case Juxt(l, r) => ContainVar(l, x) || ContainVar(r, x)
    case Bin(_, l, r) => ContainVar(l, x) || ContainVar(r, x)
    case Un(_, a) => ContainVar(a, x)
    case Call(_, a) => ContainVar(a, x)
    case _ => false
  }

  function Diff(e: Expr, x: int): Expr
    requires Polynomial(e)
  {
    if !ContainVar(e, x) then Number(0.0)
    else
      match e
      case Var(_) => Number(1.0)
      case Bin(op, l, r) =>
        if op == Add then Plus(Diff(l, x), Diff(r, x))
        else if op == Sub then Minus(Diff(l, x), Diff(r, x))
        else Plus(Times(l, Diff(r, x)), Times(r, Diff(l, x)))
      case Un(_, a) => Neg(Diff(a, x))
  }

  lemma {:induction false} DiffPolynomial(e: Expr, x: int)
    requires Polynomial(e)
    ensures Polynomial(Diff(e, x))
  {
    var env := (_: int) => 0.0;
    if ContainVar(e, x) {
      match e
      case Var(_) =>
      case Bin(op, l, r) =>
        DiffPolynomial(l, x);
        DiffPolynomial(r, x);
        if op == Mult {
          ProductValue(l, Diff(r, x), env);
          ProductValue(r, Diff(l, x), env);
          SumValue(Times(l, Diff(r, x)), Times(r, Diff(l, x)), env);
        } else {
          SumValue(Diff(l, x), Diff(r, x), env);
        }
      case Un(_, a) =>
        DiffPolynomial(a, x);
        NegValue(Diff(a, x), env);
    }
  }

  // ---------- Simplified trees stay simplified ----------

  /** Numbers are not negative, signs stand outside, no number is left to compute with another, and none
      is added as 0 or multiplied as 0 or 1. */
  predicate Tidy(e: Expr)
  {
    match e
    case Num(v) => v >= 0.0
    case Bin(op, l, r) =>
      && Tidy(l) && Tidy(r)
      && (op == Add || op == Sub || op == Mult ==>
        !(l.Num? && r.Num?) && !IsOpp(l) && !IsOpp(r) && !IsNum(l, 0.0) && !IsNum(r, 0.0))
      && (op == Mult ==> !IsNum(l, 1.0) && !IsNum(r, 1.0))
    case Un(op, a) => Tidy(a) && (op == Opp ==> !IsOpp(a) && !IsNum(a, 0.0))
    case _ => true
  }

  lemma NegTidy(e: Expr)
    requires Tidy(e)
    ensures Tidy(Neg(e))
  {
  }

  lemma {:induction false} SumTidy(a: Expr, b: Expr)
    requires Tidy(a) && Tidy(b)
    ensures Tidy(Plus(a, b)) && Tidy(Minus(a, b))
    decreases Nodes(a) + Nodes(b)
  {
    hide Tidy;
    if a.Num? && b.Num? {
      NumberTidy(a.v + b.v);
      NumberTidy(a.v - b.v);
    } else {
      NegTidy(b);
      if IsOpp(a) {
        OppTidy(a);
        SumTidy(b, a.arg);
        NegTidy(Plus(b, a.arg));
      } else if IsOpp(b) {
        OppTidy(b);
        SumTidy(a, b.arg);
      } else if !IsNum(a, 0.0) && !IsNum(b, 0.0) {
        BinTidy(Add, a, b);
        BinTidy(Sub, a, b);
      }
    }
  }

  lemma {:induction false} ProductTidy(a: Expr, b: Expr)
    requires Tidy(a) && Tidy(b)
    ensures Tidy(Times(a, b))
    decreases Nodes(a) + Nodes(b)
  {
    hide Tidy;
    if a.Num? && b.Num? {
      forall v ensures Tidy(Number(v)) { NumberTidy(v); }
    } else {
      NumberTidy(0.0);
      if IsOpp(a) {
        OppTidy(a);
        ProductTidy(a.arg, b);
        NegTidy(Times(a.arg, b));
      } else if IsOpp(b) {
        OppTidy(b);
        ProductTidy(a, b.arg);
        NegTidy(Times(a, b.arg));
      } else if !IsNum(a, 0.0) && !IsNum(b, 0.0) && !IsNum(a, 1.0) && !IsNum(b, 1.0) {
        BinTidy(Mult, a, b);
      }
    }
  }

  lemma NumberTidy(x: real)
    ensures Tidy(Number(x))
  {
  }

  lemma OppTidy(e: Expr)
    requires IsOpp(e) && Tidy(e)
    ensures Tidy(e.arg)
  {
  }

  lemma BinTidy(op: Op2, a: Expr, b: Expr)
    requires Tidy(a) && Tidy(b) && !(a.Num? && b.Num?) && !IsOpp(a) && !IsOpp(b) && !IsNum(a, 0.0) && !IsNum(b, 0.0)
    requires op == Mult ==> !IsNum(a, 1.0) && !IsNum(b, 1.0)
    ensures Tidy(Bin(op, a, b))
  {
  }

  /** The derivative of a simplified tree is simplified. */
  lemma {:induction false} DiffTidy(e: Expr, x: int)
    requires Polynomial(e) && Tidy(e)
    ensures Tidy(Diff(e, x))
  {
    if ContainVar(e, x) {
      match e
      case Bin(op, l, r) =>
        DiffTidy(l, x);
        DiffTidy(r, x);
        SumTidy(Diff(l, x), Diff(r, x));
        ProductTidy(l, Diff(r, x));
        ProductTidy(r, Diff(l, x));
        SumTidy(Times(l, Diff(r, x)), Times(r, Diff(l, x)));
      case Un(_, a) =>
        DiffTidy(a, x);
        NegTidy(Diff(a, x));
      case _ =>
    }
  }

  function Magnitude(r: real): real { if r < 0.0 then -r else r }

  // The environment with x moved by h.
  function Shift(env: int -> real, x: int, h: real): int -> real
  {
    y => if y == x then env(y) + h else env(y)
  }

  // Bounds that do not depend on the step: on the change, and on the error of the linear estimate.
  function Slope(e: Expr, env: int -> real, x: int): real
    requires Polynomial(e)
  {
    match e
    case Num(_) => 0.0
    case Var(y) => if x == y then 1.0 else 0.0
    case Bin(op, l, r) =>
      var a, b := Slope(l, env, x), Slope(r, env, x);
      if op == Mult then Mul(Magnitude(Value(l, env)), b) + Mul(Magnitude(Value(r, env)), a) + Mul(a, b) else a + b
    case Un(_, a) => Slope(a, env, x)
  }

  function Curvature(e: Expr, env: int -> real, x: int): real
    requires Polynomial(e)
  {
    match e
    case Num(_) => 0.0
    case Var(_) => 0.0
    case Bin(op, l, r) =>
      var a, b := Curvature(l, env, x), Curvature(r, env, x);
      if op == Mult then Mul(Magnitude(Value(l, env)), b) + Mul(Magnitude(Value(r, env)), a) +
        Mul(Slope(l, env, x), Slope(r, env, x))
      else a + b
    case Un(_, a) => Curvature(a, env, x)
  }

  lemma MulBound(a: real, b: real, c: real, d: real)
    requires 0.0 <= a <= c && 0.0 <= b <= d
    ensures 0.0 <= Mul(a, b) <= Mul(c, d)
  {
    assert a * b <= c * b;
    assert c * b <= c * d;
  }

  lemma ProductBound(a: real, b: real, c: real, d: real)
    requires Magnitude(a) <= c && Magnitude(b) <= d
    ensures Magnitude(Mul(a, b)) <= Mul(c, d)
  {
    assert Magnitude(Mul(a, b)) == Mul(Magnitude(a), Magnitude(b));
    hide Mul;
    MulBound(Magnitude(a), Magnitude(b), c, d);
  }

  lemma Distribute(a: real, b: real, h: real)
    ensures Mul(a + b, h) == Mul(a, h) + Mul(b, h) && Mul(a - b, h) == Mul(a, h) - Mul(b, h)
    ensures Mul(h, a + b) == Mul(h, a) + Mul(h, b) && Mul(h, a - b) == Mul(h, a) - Mul(h, b)
  {
  }

  lemma Triangle(a: real, b: real, c: real, x: real, y: real, z: real)
    requires Magnitude(a) <= x && Magnitude(b) <= y && Magnitude(c) <= z
    ensures Magnitude(a + b + c) <= x + y + z
  {
  }

  lemma SumBound(dl: real, dr: real, a: real, b: real, q: real)
    requires Magnitude(dl) <= Mul(a, q) && Magnitude(dr) <= Mul(b, q)
    ensures Magnitude(dl + dr) <= Mul(a + b, q) && Magnitude(dl - dr) <= Mul(a + b, q)
  {
    Distribute(a, b, q);
    hide Mul;
  }

  lemma {:induction false} BoundsNonNegative(e: Expr, env: int -> real, x: int)
    requires Polynomial(e)
    ensures Slope(e, env, x) >= 0.0 && Curvature(e, env, x) >= 0.0
  {
    hide Mul;
    match e
    case Bin(op, l, r) =>
      BoundsNonNegative(l, env, x);
      BoundsNonNegative(r, env, x);
      var vl, vr, sl, sr := Magnitude(Value(l, env)), Magnitude(Value(r, env)), Slope(l, env, x), Slope(r, env, x);
      MulBound(vl, sr, vl, sr);
      MulBound(vr, sl, vr, sl);
      MulBound(sl, sr, sl, sr);
      MulBound(vl, Curvature(r, env, x), vl, Curvature(r, env, x));
      MulBound(vr, Curvature(l, env, x), vr, Curvature(l, env, x));
    case Un(_, a) => BoundsNonNegative(a, env, x);
    case _ =>
  }

  // A product f*g changes by f*dg + g*df + df*dg.
  lemma ProductChange(f: real, g: real, df: real, dg: real, sf: real, sg: real, h: real)
    requires Magnitude(df) <= Mul(sf, Magnitude(h)) && Magnitude(dg) <= Mul(sg, Magnitude(h)) && Magnitude(h) <= 1.0 &&
      sf >= 0.0
    ensures Magnitude(Mul(f + df, g + dg) - Mul(f, g)) <=
            Mul(Mul(Magnitude(f), sg) + Mul(Magnitude(g), sf) + Mul(sf, sg), Magnitude(h))
  {
    Expand(f, g, df, dg);
    Collect(Magnitude(f), Magnitude(g), sf, sg, Magnitude(h));
    MulSigns(sf, Magnitude(h));
    hide Mul;
    MulBound(sf, Magnitude(h), sf, 1.0);
    ProductBound(f, dg, Magnitude(f), Mul(sg, Magnitude(h)));
    ProductBound(g, df, Magnitude(g), Mul(sf, Magnitude(h)));
    MulSigns(sf, 1.0);
    ProductBound(df, dg, sf, Mul(sg, Magnitude(h)));
    Triangle(Mul(f, dg), Mul(g, df), Mul(df, dg), Mul(Magnitude(f), Mul(sg, Magnitude(h))),
      Mul(Magnitude(g), Mul(sf, Magnitude(h))),
             Mul(sf, Mul(sg, Magnitude(h))));
  }

  lemma Expand(f: real, g: real, df: real, dg: real)
    ensures Mul(f + df, g + dg) - Mul(f, g) == Mul(f, dg) + Mul(g, df) + Mul(df, dg)
  {
  }

  lemma Collect(f: real, g: real, sf: real, sg: real, h: real)
    ensures Mul(f, Mul(sg, h)) + Mul(g, Mul(sf, h)) + Mul(sf, Mul(sg, h)) ==
      Mul(Mul(f, sg) + Mul(g, sf) + Mul(sf, sg), h)
  {
  }

  // ... and from what the product rule says by f*rg + g*rf + df*dg.
  lemma ProductError(f: real, g: real, df: real, dg: real, f': real, g': real, sf: real, sg: real, kf: real, kg: real,
      h: real)
    requires Magnitude(df) <= Mul(sf, Magnitude(h)) && Magnitude(dg) <= Mul(sg, Magnitude(h))
    requires Magnitude(df - Mul(h, f')) <= Mul(kf, Mul(h, h)) && Magnitude(dg - Mul(h, g')) <= Mul(kg, Mul(h, h))
    ensures Magnitude(Mul(f + df, g + dg) - Mul(f, g) - Mul(h, Mul(f, g') + Mul(g, f'))) <=
            Mul(Mul(Magnitude(f), kg) + Mul(Magnitude(g), kf) + Mul(sf, sg), Mul(h, h))
  {
    var rf, rg := df - Mul(h, f'), dg - Mul(h, g');
    Expand(f, g, df, dg);
    Remainder(f, g, df, dg, f', g', h);
    CollectSquare(Magnitude(f), Magnitude(g), sf, sg, kf, kg, h);
    hide Mul;
    ProductBound(f, rg, Magnitude(f), Mul(kg, Mul(h, h)));
    ProductBound(g, rf, Magnitude(g), Mul(kf, Mul(h, h)));
    ProductBound(df, dg, Mul(sf, Magnitude(h)), Mul(sg, Magnitude(h)));
    Triangle(Mul(f, rg), Mul(g, rf), Mul(df, dg), Mul(Magnitude(f), Mul(kg, Mul(h, h))),
      Mul(Magnitude(g), Mul(kf, Mul(h, h))),
             Mul(Mul(sf, Magnitude(h)), Mul(sg, Magnitude(h))));
  }

  lemma Remainder(f: real, g: real, df: real, dg: real, f': real, g': real, h: real)
    ensures Mul(f, dg) + Mul(g, df) - Mul(h, Mul(f, g') + Mul(g, f')) ==
      Mul(f, dg - Mul(h, g')) + Mul(g, df - Mul(h, f'))
  {
    Rotate(f, h, g');
    Rotate(g, h, f');
    Distribute(dg, Mul(h, g'), f);
    Distribute(df, Mul(h, f'), g);
    Distribute(Mul(f, g'), Mul(g, f'), h);
    hide Mul;
  }

  lemma Rotate(a: real, b: real, c: real)
    ensures Mul(a, Mul(b, c)) == Mul(b, Mul(a, c)) == Mul(Mul(a, b), c)
  {
  }

  lemma CollectSquare(f: real, g: real, sf: real, sg: real, kf: real, kg: real, h: real)
    ensures Mul(f, Mul(kg, Mul(h, h))) + Mul(g, Mul(kf, Mul(h, h))) +
      Mul(Mul(sf, Magnitude(h)), Mul(sg, Magnitude(h))) ==
            Mul(Mul(f, kg) + Mul(g, kf) + Mul(sf, sg), Mul(h, h))
  {
    var a, q := Magnitude(h), Mul(h, h);
    assert Mul(a, a) == q;
    Rotate(f, kg, q);
    Rotate(g, kf, q);
    Rotate(sf, a, Mul(sg, a));
    Rotate(a, sg, a);
    Rotate(sf, sg, q);
    Distribute(Mul(f, kg) + Mul(g, kf), Mul(sf, sg), q);
    Distribute(Mul(f, kg), Mul(g, kf), q);
    hide Mul;
  }

  lemma {:induction false} ChangeBound(e: Expr, env: int -> real, x: int, h: real)
    requires Polynomial(e) && Magnitude(h) <= 1.0
    ensures Magnitude(Value(e, Shift(env, x, h)) - Value(e, env)) <= Mul(Slope(e, env, x), Magnitude(h))
  {
    hide Mul, Magnitude, Diff;
    match e
    case Num(_) => LeafChange(e, env, x, h);
    case Var(_) => LeafChange(e, env, x, h);
    case Bin(op, l, r) =>
      ChangeBound(l, env, x, h);
      ChangeBound(r, env, x, h);
      if op == Mult {
        BoundsNonNegative(l, env, x);
        ProductChange(Value(l, env), Value(r, env), Value(l, Shift(env, x, h)) - Value(l, env),
          Value(r, Shift(env, x, h)) - Value(r, env),
                      Slope(l, env, x), Slope(r, env, x), h);
      } else {
        SumBound(Value(l, Shift(env, x, h)) - Value(l, env), Value(r, Shift(env, x, h)) - Value(r, env),
                 Slope(l, env, x), Slope(r, env, x), Magnitude(h));
      }
    case Un(_, a) =>
      ChangeBound(a, env, x, h);
      MagnitudeNeg(Value(a, Shift(env, x, h)) - Value(a, env));
  }

  lemma LeafChange(e: Expr, env: int -> real, x: int, h: real)
    requires e.Num? || e.Var?
    ensures Magnitude(Value(e, Shift(env, x, h)) - Value(e, env)) <= Mul(Slope(e, env, x), Magnitude(h))
  {
    MulSigns(0.0, Magnitude(h));
    MulSigns(1.0, Magnitude(h));
  }

  lemma MagnitudeNeg(a: real)
    ensures Magnitude(-a) == Magnitude(a)
  {
  }

  lemma {:induction false} NoVarNoChange(e: Expr, env: int -> real, x: int, h: real)
    requires Polynomial(e) && !ContainVar(e, x)
    ensures Value(e, Shift(env, x, h)) == Value(e, env)
  {
    match e
    case Bin(_, l, r) => NoVarNoChange(l, env, x, h); NoVarNoChange(r, env, x, h);
    case Un(_, a) => NoVarNoChange(a, env, x, h);
    case _ =>
  }

  // What the linear estimate with the derivative misses on a step.
  function Missed(e: Expr, env: int -> real, x: int, h: real): real
    requires Polynomial(e) && Polynomial(Diff(e, x))
  {
    Value(e, Shift(env, x, h)) - Value(e, env) - Mul(h, Value(Diff(e, x), env))
  }

  lemma {:induction false} MissedBound(e: Expr, env: int -> real, x: int, h: real)
    requires Polynomial(e) && Magnitude(h) <= 1.0
    ensures Polynomial(Diff(e, x)) && Magnitude(Missed(e, env, x, h)) <= Mul(Curvature(e, env, x), Mul(h, h))
  {
    hide Mul, Value, Curvature;
    DiffPolynomial(e, x);
    if !ContainVar(e, x) {
      NoVarMissed(e, env, x, h);
    } else {
      match e
      case Var(_) => VarMissed(x, env, h);
      case Bin(op, l, r) =>
        MissedBound(l, env, x, h);
        MissedBound(r, env, x, h);
        if op == Mult {
          ProductMissed(l, r, env, x, h);
        } else {
          SumMissed(op, l, r, env, x, h);
        }
      case Un(_, a) =>
        MissedBound(a, env, x, h);
        NegMissed(a, env, x, h);
    }
  }

  lemma NoVarMissed(e: Expr, env: int -> real, x: int, h: real)
    requires Polynomial(e) && !ContainVar(e, x)
    ensures Polynomial(Diff(e, x)) && Magnitude(Missed(e, env, x, h)) <= Mul(Curvature(e, env, x), Mul(h, h))
  {
    assert h * h >= 0.0;
    MulSigns(h, h);
    hide Mul;
    BoundsNonNegative(e, env, x);
    NoVarNoChange(e, env, x, h);
    NumberValue(0.0, env);
    MulSigns(h, 0.0);
    MulBound(Curvature(e, env, x), Mul(h, h), Curvature(e, env, x), Mul(h, h));
  }

  lemma VarMissed(x: int, env: int -> real, h: real)
    ensures Polynomial(Diff(Var(x), x)) && Missed(Var(x), env, x, h) == 0.0
    ensures Mul(Curvature(Var(x), env, x), Mul(h, h)) == 0.0
  {
    NumberValue(1.0, env);
  }

  lemma NegMissed(a: Expr, env: int -> real, x: int, h: real)
    requires Polynomial(a) && Polynomial(Diff(a, x)) && ContainVar(a, x)
    ensures Polynomial(Diff(Un(Opp, a), x)) && Missed(Un(Opp, a), env, x, h) == -Missed(a, env, x, h)
    ensures Curvature(Un(Opp, a), env, x) == Curvature(a, env, x)
  {
    hide Mul;
    NegValue(Diff(a, x), env);
    MulSigns(h, Value(Diff(a, x), env));
  }

  lemma SumMissed(op: Op2, l: Expr, r: Expr, env: int -> real, x: int, h: real)
    requires op == Add || op == Sub
    requires Polynomial(l) && Polynomial(r) && Polynomial(Diff(l, x)) && Polynomial(Diff(r, x))
    requires ContainVar(l, x) || ContainVar(r, x)
    requires Magnitude(Missed(l, env, x, h)) <= Mul(Curvature(l, env, x), Mul(h, h))
    requires Magnitude(Missed(r, env, x, h)) <= Mul(Curvature(r, env, x), Mul(h, h))
    ensures Polynomial(Diff(Bin(op, l, r), x))
    ensures Magnitude(Missed(Bin(op, l, r), env, x, h)) <= Mul(Curvature(Bin(op, l, r), env, x), Mul(h, h))
  {
    hide Mul, Plus, Minus;
    SumValue(Diff(l, x), Diff(r, x), env);
    Distribute(Value(Diff(l, x), env), Value(Diff(r, x), env), h);
    SumBound(Missed(l, env, x, h), Missed(r, env, x, h), Curvature(l, env, x), Curvature(r, env, x), Mul(h, h));
  }

  lemma ProductDerivative(l: Expr, r: Expr, env: int -> real, x: int)
    requires Polynomial(l) && Polynomial(r) && Polynomial(Diff(l, x)) && Polynomial(Diff(r, x))
    requires ContainVar(l, x) || ContainVar(r, x)
    ensures Polynomial(Diff(Bin(Mult, l, r), x))
    ensures Value(Diff(Bin(Mult, l, r), x), env) ==
            Mul(Value(l, env), Value(Diff(r, x), env)) + Mul(Value(r, env), Value(Diff(l, x), env))
  {
    assert Diff(Bin(Mult, l, r), x) == Plus(Times(l, Diff(r, x)), Times(r, Diff(l, x)));
    hide *;
    ProductValue(l, Diff(r, x), env);
    ProductValue(r, Diff(l, x), env);
    SumValue(Times(l, Diff(r, x)), Times(r, Diff(l, x)), env);
  }

  lemma ProductMissed(l: Expr, r: Expr, env: int -> real, x: int, h: real)
    requires Polynomial(l) && Polynomial(r) && Polynomial(Diff(l, x)) && Polynomial(Diff(r, x))
    requires (ContainVar(l, x) || ContainVar(r, x)) && Magnitude(h) <= 1.0
    requires Magnitude(Missed(l, env, x, h)) <= Mul(Curvature(l, env, x), Mul(h, h))
    requires Magnitude(Missed(r, env, x, h)) <= Mul(Curvature(r, env, x), Mul(h, h))
    ensures Polynomial(Diff(Bin(Mult, l, r), x))
    ensures Magnitude(Missed(Bin(Mult, l, r), env, x, h)) <= Mul(Curvature(Bin(Mult, l, r), env, x), Mul(h, h))
  {
    hide Mul, Diff, Slope, Magnitude;
    var f, g, f', g' := Value(l, env), Value(r, env), Value(Diff(l, x), env), Value(Diff(r, x), env);
    ProductDerivative(l, r, env, x);
    ChangeBound(l, env, x, h);
    ChangeBound(r, env, x, h);
    ProductError(f, g, Value(l, Shift(env, x, h)) - f, Value(r, Shift(env, x, h)) - g, f', g',
                 Slope(l, env, x), Slope(r, env, x), Curvature(l, env, x), Curvature(r, env, x), h);
  }

  /** Diff is the derivative: one constant bounds, for all steps, the error of the linear estimate by
      the square of the step. */
  lemma DiffIsDerivative(e: Expr, env: int -> real, x: int) returns (k: real)
    requires Polynomial(e)
    ensures Polynomial(Diff(e, x)) && k >= 0.0
    ensures forall h: real :: Magnitude(h) <= 1.0 ==> Magnitude(Missed(e, env, x, h)) <= k * (h * h)
  {
    hide *;
    k := Curvature(e, env, x);
    BoundsNonNegative(e, env, x);
    DiffPolynomial(e, x);
    forall h: real | Magnitude(h) <= 1.0
      ensures Magnitude(Missed(e, env, x, h)) <= k * (h * h)
    {
      MissedBound(e, env, x, h);
      MulTwice(k, h);
    }
  }

  lemma MulTwice(k: real, h: real)
    ensures Mul(k, Mul(h, h)) == k * (h * h)
  {
  }

  // ---------- The derivative of what the machine computes ----------

  /** The operators mean what they stand for, where polynomial trees use them. */
  ghost predicate Standard(m: Meaning)
  {
    && (forall a, b :: m.bin(Add, a, b) == a + b && m.bin(Sub, a, b) == a - b && m.bin(Mult, a, b) == Mul(a, b))
    && (forall a :: m.un(Opp, a) == -a)
  }

  function Env(mem: Memory): int -> real { x => if x in mem then mem[x] else 0.0 }

  /** On polynomial trees the value is the evaluation that the compiled code computes. */
  lemma {:induction false} ValueIsEval(e: Expr, mem: Memory, m: Meaning)
    requires Polynomial(e) && Allocated(e, mem.Keys) && Standard(m)
    ensures Sound(e) && Width(e) == 1 && Eval(e, mem, m) == Value(e, Env(mem))
  {
    hide Mul;
    match e
    case Bin(_, l, r) => ValueIsEval(l, mem, m); ValueIsEval(r, mem, m);
    case Un(_, a) => ValueIsEval(a, mem, m);
    case _ =>
  }

  lemma SumAllocated(a: Expr, b: Expr, cells: set<int>)
    requires Allocated(a, cells) && Allocated(b, cells)
    ensures Allocated(Plus(a, b), cells) && Allocated(Minus(a, b), cells)
    decreases Nodes(a) + Nodes(b)
  {
    if a.Num? && b.Num? {
    } else if IsOpp(a) {
      SumAllocated(b, a.arg, cells);
    } else if IsOpp(b) {
      SumAllocated(a, b.arg, cells);
    }
  }

  lemma ProductAllocated(a: Expr, b: Expr, cells: set<int>)
    requires Allocated(a, cells) && Allocated(b, cells)
    ensures Allocated(Times(a, b), cells)
    decreases Nodes(a) + Nodes(b)
  {
    if !a.Num? && IsOpp(a) {
      ProductAllocated(a.arg, b, cells);
    } else if IsOpp(b) {
      ProductAllocated(a, b.arg, cells);
    }
  }

  lemma {:induction false} DiffAllocated(e: Expr, x: int, cells: set<int>)
    requires Polynomial(e) && Allocated(e, cells)
    ensures Allocated(Diff(e, x), cells)
  {
    if ContainVar(e, x) {
      match e
      case Var(_) =>
      case Bin(op, l, r) =>
        DiffAllocated(l, x, cells);
        DiffAllocated(r, x, cells);
        if op == Mult {
          ProductAllocated(l, Diff(r, x), cells);
          ProductAllocated(r, Diff(l, x), cells);
          SumAllocated(Times(l, Diff(r, x)), Times(r, Diff(l, x)), cells);
        } else {
          SumAllocated(Diff(l, x), Diff(r, x), cells);
        }
      case Un(_, a) => DiffAllocated(a, x, cells);
    }
  }

  lemma {:induction false} SameEnv(e: Expr, env: int -> real, env': int -> real)
    requires Polynomial(e) && forall y :: env(y) == env'(y)
    ensures Value(e, env) == Value(e, env')
  {
    match e
    case Bin(_, l, r) => SameEnv(l, env, env'); SameEnv(r, env, env');
    case Un(_, a) => SameEnv(a, env, env');
    case _ =>
  }

  // The evaluations of a tree before and after one variable moves by h, and of its derivative.
  ghost predicate Estimates(e: Expr, x: int, mem: Memory, m: Meaning, h: real, k: real)
    requires x in mem && Polynomial(e) && Sound(e) && Sound(Diff(e, x))
    requires Allocated(e, mem.Keys) && Allocated(Diff(e, x), mem.Keys)
  {
    var moved := mem[x := mem[x] + h];
    moved.Keys == mem.Keys &&
      Magnitude(Eval(e, moved, m) - Eval(e, mem, m) - Mul(h, Eval(Diff(e, x), mem, m))) <= k * (h * h)
  }

  /** What Val computes from the code of Diff is the derivative of what it computes from the code of the
      tree: one constant for all steps of at most 1 of the variable's cell. */
  lemma DiffOfVal(e: Expr, x: int, mem: Memory, m: Meaning) returns (k: real)
    requires Polynomial(e) && Allocated(e, mem.Keys) && x in mem && Standard(m)
    ensures Polynomial(Diff(e, x)) && Sound(e) && Sound(Diff(e, x)) && Allocated(Diff(e, x), mem.Keys) && k >= 0.0
    ensures forall h: real :: Magnitude(h) <= 1.0 ==> Estimates(e, x, mem, m, h, k)
  {
    hide Mul, Diff, Value, Eval, Curvature, Sound, Allocated, Polynomial, Standard;
    k := DiffIsDerivative(e, Env(mem), x);
    DiffAllocated(e, x, mem.Keys);
    ValueIsEval(e, mem, m);
    ValueIsEval(Diff(e, x), mem, m);
    forall h: real | Magnitude(h) <= 1.0 ensures Estimates(e, x, mem, m, h, k) {
      var moved := mem[x := mem[x] + h];
      assert moved.Keys == mem.Keys;
      ValueIsEval(e, moved, m);
      SameEnv(e, Env(moved), Shift(Env(mem), x, h));
      assert Value(e, Shift(Env(mem), x, h)) == Eval(e, moved, m);
      assert Value(e, Env(mem)) == Eval(e, mem, m);
      assert Value(Diff(e, x), Env(mem)) == Eval(Diff(e, x), mem, m);
      assert Magnitude(Missed(e, Env(mem), x, h)) <= k * (h * h);
      assert Missed(e, Env(mem), x, h) == Eval(e, moved, m) - Eval(e, mem, m) - Mul(h, Eval(Diff(e, x), mem, m));
    }
  }

  // ---------- Substitution ----------

  function Substitute(e: Expr, x: int, rop: Expr): Expr
  {
    if !ContainVar(e, x) then e
    else
      match e
      case Var(_) => rop
      case Juxt(l, r) => Juxt(Substitute(l, x, rop), Substitute(r, x, rop))
      case Bin(op, l, r) => Bin(op, Substitute(l, x, rop), Substitute(r, x, rop))
      case Un(op, a) => Un(op, Substitute(a, x, rop))
      case Call(f, a) => Call(f, Substitute(a, x, rop))
  }

  // Trees and functions whose value cannot depend on x.
  ghost predicate Ignores(e: Expr, x: int)
  {
    match e
    case Var(y) => x != y
    case Juxt(l, r) => Ignores(l, x) && Ignores(r, x)
    case Bin(_, l, r) => Ignores(l, x) && Ignores(r, x)
    case Un(_, a) => Ignores(a, x)
    case Call(f, a) => Ignores(a, x) && FuncIgnores(f, x)
    case _ => true
  }

  ghost predicate FuncIgnores(f: Func, x: int) { f.Defined? ==> x in f.params || Ignores(f.body, x) }

  // x reaches the tree only where it is written in it, never from inside a function.
  ghost predicate OnlyVisible(e: Expr, x: int)
  {
    match e
    case Juxt(l, r) => OnlyVisible(l, x) && OnlyVisible(r, x)
    case Bin(_, l, r) => OnlyVisible(l, x) && OnlyVisible(r, x)
    case Un(_, a) => OnlyVisible(a, x)
    case Call(f, a) => OnlyVisible(a, x) && FuncIgnores(f, x)
    case _ => true
  }

  lemma {:induction false} VisibleAndAbsent(e: Expr, x: int)
    requires OnlyVisible(e, x) && !ContainVar(e, x)
    ensures Ignores(e, x)
  {
    match e
    case Juxt(l, r) => VisibleAndAbsent(l, x); VisibleAndAbsent(r, x);
    case Bin(_, l, r) => VisibleAndAbsent(l, x); VisibleAndAbsent(r, x);
    case Un(_, a) => VisibleAndAbsent(a, x);
    case Call(_, a) => VisibleAndAbsent(a, x);
    case _ =>
  }

  lemma {:induction false} BindMoved(mem: Memory, params: seq<int>, args: seq<real>, x: int, v: real)
    requires |params| == |args| && x in mem
    ensures Bind(mem[x := v], params, args) == if x in params then Bind(mem, params, args)
      else Bind(mem, params, args)[x := v]
    decreases params
  {
    if params != [] {
      BindMoved(mem[params[0] := args[0]], params[1..], args[1..], x, v);
      if params[0] == x {
        assert mem[x := v][x := args[0]] == mem[x := args[0]];
      } else {
        assert mem[x := v][params[0] := args[0]] == mem[params[0] := args[0]][x := v];
      }
    }
  }

  lemma {:induction false} IgnoredSame(e: Expr, x: int, v: real, mem: Memory, m: Meaning)
    requires Sound(e) && Allocated(e, mem.Keys) && x in mem && Ignores(e, x)
    ensures mem[x := v].Keys == mem.Keys
    ensures Eval(e, mem[x := v], m) == Eval(e, mem, m) && EvalAll(e, mem[x := v], m) == EvalAll(e, mem, m)
  {
    var moved := mem[x := v];
    assert moved.Keys == mem.Keys;
    match e
    case Juxt(l, r) => IgnoredSame(l, x, v, mem, m); IgnoredSame(r, x, v, mem, m);
    case Bin(_, l, r) => IgnoredSame(l, x, v, mem, m); IgnoredSame(r, x, v, mem, m);
    case Un(_, a) => IgnoredSame(a, x, v, mem, m);
    case Call(f, a) =>
      IgnoredSame(a, x, v, mem, m);
      ApplySame(f, EvalAll(a, mem, m), x, v, mem, m);
    case _ =>
  }

  lemma {:induction false} ApplySame(f: Func, args: seq<real>, x: int, v: real, mem: Memory, m: Meaning)
    requires SoundFunc(f) && AllocatedFunc(f, mem.Keys) && |args| == Arity(f) && x in mem && FuncIgnores(f, x)
    ensures mem[x := v].Keys == mem.Keys && Apply(f, args, mem[x := v], m) == Apply(f, args, mem, m)
  {
    assert mem[x := v].Keys == mem.Keys;
    if f.Defined? {
      BindMoved(mem, f.params, args, x, v);
      if x !in f.params {
        IgnoredSame(f.body, x, v, Bind(mem, f.params, args), m);
      }
    }
  }

  lemma {:induction false} SubstituteAllocated(e: Expr, x: int, rop: Expr, cells: set<int>)
    requires Allocated(e, cells) && Allocated(rop, cells)
    ensures Allocated(Substitute(e, x, rop), cells)
  {
    hide AllocatedFunc;
    match e
    case Juxt(l, r) => SubstituteAllocated(l, x, rop, cells); SubstituteAllocated(r, x, rop, cells);
    case Bin(_, l, r) => SubstituteAllocated(l, x, rop, cells); SubstituteAllocated(r, x, rop, cells);
    case Un(_, a) => SubstituteAllocated(a, x, rop, cells);
    case Call(_, a) => SubstituteAllocated(a, x, rop, cells);
    case _ =>
  }

  lemma {:induction false} SubstituteSound(e: Expr, x: int, rop: Expr)
    requires Sound(e) && Sound(rop) && Width(rop) == 1 && NMembers(rop) == 1
    ensures var s := Substitute(e, x, rop); Sound(s) && Width(s) == Width(e) && NMembers(s) == NMembers(e)
  {
    hide SoundFunc;
    match e
    case Juxt(l, r) => SubstituteSound(l, x, rop); SubstituteSound(r, x, rop);
    case Bin(_, l, r) => SubstituteSound(l, x, rop); SubstituteSound(r, x, rop);
    case Un(_, a) => SubstituteSound(a, x, rop);
    case Call(_, a) => SubstituteSound(a, x, rop);
    case _ =>
  }

  /** Substitution keeps operands single values, argument lists their length, and variables in memory. */
  lemma SubstituteShape(e: Expr, x: int, rop: Expr, cells: set<int>)
    requires Sound(e) && Sound(rop) && Allocated(e, cells) && Allocated(rop, cells) && Width(rop) == 1 &&
      NMembers(rop) == 1
    ensures var s := Substitute(e, x, rop);
      Sound(s) && Allocated(s, cells) && Width(s) == Width(e) && NMembers(s) == NMembers(e)
  {
    hide *;
    SubstituteSound(e, x, rop);
    SubstituteAllocated(e, x, rop, cells);
  }

  /** Replacing a variable by an expression is evaluating with the variable at that expression's value,
      for every choice of operators, provided no function called reads the variable behind the tree's back. */
  lemma {:induction false} SubstituteValue(e: Expr, x: int, rop: Expr, mem: Memory, m: Meaning)
    requires Sound(e) && Sound(rop) && Allocated(e, mem.Keys) && Allocated(rop, mem.Keys) && x in mem
    requires Width(rop) == 1 && NMembers(rop) == 1 && OnlyVisible(e, x)
    ensures var s, moved := Substitute(e, x, rop), mem[x := Eval(rop, mem, m)];
      Sound(s) && Allocated(s, mem.Keys) && moved.Keys == mem.Keys &&
      Eval(s, mem, m) == Eval(e, moved, m) && EvalAll(s, mem, m) == EvalAll(e, moved, m)
  {
    hide Apply, SoundFunc, AllocatedFunc, FuncIgnores, Ignores, Bind;
    var v := Eval(rop, mem, m);
    var moved := mem[x := v];
    assert moved.Keys == mem.Keys;
    SubstituteShape(e, x, rop, mem.Keys);
    if !ContainVar(e, x) {
      VisibleAndAbsent(e, x);
      IgnoredSame(e, x, v, mem, m);
    } else {
      match e
      case Var(_) => assert EvalAll(rop, mem, m) == [v];
      case Juxt(l, r) => SubstituteValue(l, x, rop, mem, m); SubstituteValue(r, x, rop, mem, m);
      case Bin(_, l, r) => SubstituteValue(l, x, rop, mem, m); SubstituteValue(r, x, rop, mem, m);
      case Un(_, a) => SubstituteShape(a, x, rop, mem.Keys); SubstituteValue(a, x, rop, mem, m);
      case Call(f, a) =>
        SubstituteShape(a, x, rop, mem.Keys);
        SubstituteValue(a, x, rop, mem, m);
        ApplySame(f, EvalAll(a, moved, m), x, v, mem, m);
    }
  }
}
