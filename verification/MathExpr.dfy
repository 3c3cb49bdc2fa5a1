/** Expression trees, the stack code they are compiled to, and the evaluation of both. */
module MathExpr {

  datatype Op2 = Add | Sub | Mult | Div | Pow | NthRoot | E10
  datatype Op1 = Opp | Sqrt | Abs | Sin | Cos | Tg | Ln | Exp | Acos | Asin | Atan

  // Variables are named by the address of their value.
  datatype Expr =
    | ErrOp
    | Num(v: real)
    | Var(x: int)
    | Juxt(first: Expr, rest: Expr)
    | Bin(op2: Op2, left: Expr, right: Expr)
    | Un(op1: Op1, arg: Expr)
    | Call(f: Func, args: Expr)

  datatype Func = Undefined | Native(id: int) | Defined(params: seq<int>, body: Expr)

  // The meaning of every operator, and the value that stands for errors.
  datatype Meaning = Meaning(
    bin: (Op2, real, real) -> real, un: (Op1, real) -> real, atan2: (real, real) -> real,
    native: (int, real) -> real, err: real)

  type Memory = map<int, real>

  function Arity(f: Func): nat
  {
    match f
    case Undefined => 0
    case Native(_) => 1
    case Defined(params, _) => |params|
  }

  function NMembers(e: Expr): nat
  {
    match e
    case Call(f, _) => (match f case Undefined => 0 case Native(_) => 1 case Defined(_, body) => NMembers(body))
    case Juxt(_, rest) => 1 + NMembers(rest)
    case _ => 1
  }

  /** How many values the code of a tree leaves on the stack. */
  function Width(e: Expr): (w: nat)
    ensures w >= 1
  {
    if e.Juxt? then Width(e.first) + Width(e.rest) else 1
  }

  ghost predicate NoRepeats(s: seq<int>) { forall i, j :: 0 <= i < j < |s| ==> s[i] != s[j] }

  /** Operands are single values, argument lists have the length the function takes, parameters are
      distinct. */
  ghost predicate Sound(e: Expr)
  {
    match e
    case Juxt(l, r) => Sound(l) && Sound(r)
    case Bin(_, l, r) => Sound(l) && Sound(r) && Width(l) == 1 && Width(r) == 1
    case Un(op, a) => Sound(a) && Width(a) == if op == Atan && NMembers(a) > 1 then 2 else 1
    case Call(f, a) => Sound(a) && SoundFunc(f) && Width(a) == Arity(f)
    case _ => true
  }

  ghost predicate SoundFunc(f: Func)
  {
    match f
    case Undefined => false
    case Native(_) => true
    case Defined(params, body) => NoRepeats(params) && Sound(body)
  }

  /** Every variable and parameter has a memory cell. */
  ghost predicate Allocated(e: Expr, cells: set<int>)
  {
    match e
    case Var(x) => x in cells
    case Juxt(l, r) => Allocated(l, cells) && Allocated(r, cells)
    case Bin(_, l, r) => Allocated(l, cells) && Allocated(r, cells)
    case Un(_, a) => Allocated(a, cells)
    case Call(f, a) => Allocated(a, cells) && AllocatedFunc(f, cells)
    case _ => true
  }

  ghost predicate AllocatedFunc(f: Func, cells: set<int>)
  {
    f.Defined? ==> (forall i :: 0 <= i < |f.params| ==> f.params[i] in cells) && Allocated(f.body, cells)
  }

  // ---------- Evaluating the tree ----------

  function Bind(mem: Memory, params: seq<int>, args: seq<real>): (m: Memory)
    requires |params| == |args|
    ensures mem.Keys <= m.Keys
    ensures (forall i :: 0 <= i < |params| ==> params[i] in mem) ==> m.Keys == mem.Keys
    decreases params
  {
    if params == [] then mem else Bind(mem[params[0] := args[0]], params[1..], args[1..])
  }

  ghost function Eval(e: Expr, mem: Memory, m: Meaning): real
    requires Sound(e) && Allocated(e, mem.Keys)
    decreases e, 1
  {
    match e
    case ErrOp => m.err
    case Num(v) => v
    case Var(x) => mem[x]
    case Juxt(_, r) => Eval(r, mem, m)
    case Bin(op, l, r) => m.bin(op, Eval(l, mem, m), Eval(r, mem, m))
    case Un(op, a) =>
      if op == Atan && NMembers(a) > 1 then m.atan2(EvalAll(a, mem, m)[0], EvalAll(a, mem, m)[1])
      else m.un(op, Eval(a, mem, m))
    case Call(f, a) => Apply(f, EvalAll(a, mem, m), mem, m)
  }

  /** The values of the members of a list. */
  ghost function EvalAll(e: Expr, mem: Memory, m: Meaning): (r: seq<real>)
    requires Sound(e) && Allocated(e, mem.Keys)
    ensures |r| == Width(e)
    decreases e, 2
  {
    if e.Juxt? then EvalAll(e.first, mem, m) + EvalAll(e.rest, mem, m) else [Eval(e, mem, m)]
  }

  ghost function Apply(f: Func, args: seq<real>, mem: Memory, m: Meaning): real
    requires SoundFunc(f) && AllocatedFunc(f, mem.Keys) && |args| == Arity(f)
    decreases f, 0
  {
    match f
    case Native(id) => m.native(id, args[0])
    case Defined(params, body) => Eval(body, Bind(mem, params, args), m)
  }

  // ---------- The code ----------

  datatype Instr = NextVal | RFunc | JuxtF | Do2(op2: Op2) | Do1(op1: Op1) | ArcTangente2

  datatype Source = Constant(v: real) | ErrorValue | Cell(x: int)

  // pinstr, pvals, the number of cells of ppile, pfuncpile.
  datatype Code = Code(instrs: seq<Instr>, vals: seq<Source>, pile: nat, funcs: seq<Func>)

  function Joined(a: Code, b: Code, i: Instr): Code
  {
    Code(a.instrs + b.instrs + [i], a.vals + b.vals, a.pile + b.pile, a.funcs + b.funcs)
  }

  function Extended(a: Code, i: Instr, more: seq<Func>): Code
  {
    Code(a.instrs + [i], a.vals, a.pile, a.funcs + more)
  }

  function Compile(e: Expr): Code
  {
    match e
    case ErrOp => Code([NextVal], [ErrorValue], 1, [])
    case Num(v) => Code([NextVal], [Constant(v)], 1, [])
    case Var(x) => Code([NextVal], [Cell(x)], 1, [])
    case Juxt(l, r) => Joined(Compile(l), Compile(r), JuxtF)
    case Bin(op, l, r) => Joined(Compile(l), Compile(r), Do2(op))
    case Un(op, a) => Extended(Compile(a), if op == Atan && NMembers(a) > 1 then ArcTangente2 else Do1(op), [])
    case Call(f, a) => Extended(Compile(a), RFunc, [f])
  }

  // ---------- Running the code ----------

  datatype Run = Fault | Stack(cells: seq<real>)

  ghost function Fetch(s: Source, mem: Memory, m: Meaning): real
  {
    match s
    case Constant(v) => v
    case ErrorValue => m.err
    case Cell(x) => if x in mem then mem[x] else 0.0
  }

  /** The stack after the instructions, on a stack of at most `cap` cells; Fault where the original
      would leave its arrays. */
  ghost function Exec(instrs: seq<Instr>, vals: seq<Source>, funcs: seq<Func>, st: seq<real>, cap: nat, mem: Memory,
      m: Meaning): Run
    decreases instrs
  {
    if instrs == [] then Stack(st)
    else
      var n := |st|;
      match instrs[0]
      case NextVal =>
        if vals == [] || n >= cap then Fault
        else Exec(instrs[1..], vals[1..], funcs, st + [Fetch(vals[0], mem, m)], cap, mem, m)
      case RFunc =>
        if funcs == [] then Fault
        else
          var f, k := funcs[0], Arity(funcs[0]);
          if k == 0 || k > n || !SoundFunc(f) || !AllocatedFunc(f, mem.Keys) then Fault
          else Exec(instrs[1..], vals, funcs[1..], st[..n - k] + [Apply(f, st[n - k..], mem, m)], cap, mem, m)
      case JuxtF => Exec(instrs[1..], vals, funcs, st, cap, mem, m)
      case Do2(op) =>
        if n < 2 then Fault
        else Exec(instrs[1..], vals, funcs, st[..n - 2] + [m.bin(op, st[n - 2], st[n - 1])], cap, mem, m)
      case Do1(op) =>
        if n < 1 then Fault
        else Exec(instrs[1..], vals, funcs, st[..n - 1] + [m.un(op, st[n - 1])], cap, mem, m)
      case ArcTangente2 =>
        if n < 2 then Fault
        else Exec(instrs[1..], vals, funcs, st[..n - 2] + [m.atan2(st[n - 2], st[n - 1])], cap, mem, m)
  }

  function Nodes(e: Expr): nat
  {
    match e
    case Juxt(l, r) => 1 + Nodes(l) + Nodes(r)
    case Bin(_, l, r) => 1 + Nodes(l) + Nodes(r)
    case Un(_, a) => 1 + Nodes(a)
    case Call(_, a) => 1 + Nodes(a)
    case _ => 1
  }

  // One instruction on top of the values its operands left.
  lemma StepDo2(op: Op2, l: real, r: real, instrs: seq<Instr>, vals: seq<Source>, funcs: seq<Func>, st: seq<real>,
      cap: nat, mem: Memory, m: Meaning)
    ensures Exec([Do2(op)] + instrs, vals, funcs, st + [l] + [r], cap, mem, m) ==
      Exec(instrs, vals, funcs, st + [m.bin(op, l, r)], cap, mem, m)
  {
    var s := st + [l] + [r];
    assert ([Do2(op)] + instrs)[1..] == instrs && s[..|s| - 2] == st;
  }

  lemma StepDo1(op: Op1, a: real, instrs: seq<Instr>, vals: seq<Source>, funcs: seq<Func>, st: seq<real>, cap: nat,
      mem: Memory, m: Meaning)
    ensures Exec([Do1(op)] + instrs, vals, funcs, st + [a], cap, mem, m) ==
      Exec(instrs, vals, funcs, st + [m.un(op, a)], cap, mem, m)
  {
    var s := st + [a];
    assert ([Do1(op)] + instrs)[1..] == instrs && s[..|s| - 1] == st;
  }

  lemma StepAtan2(a: seq<real>, instrs: seq<Instr>, vals: seq<Source>, funcs: seq<Func>, st: seq<real>, cap: nat,
      mem: Memory, m: Meaning)
    requires |a| == 2
    ensures Exec([ArcTangente2] + instrs, vals, funcs, st + a, cap, mem, m) ==
      Exec(instrs, vals, funcs, st + [m.atan2(a[0], a[1])], cap, mem, m)
  {
    var s := st + a;
    assert ([ArcTangente2] + instrs)[1..] == instrs && s[..|s| - 2] == st;
  }

  lemma StepCall(f: Func, args: seq<real>, instrs: seq<Instr>, vals: seq<Source>, funcs: seq<Func>, st: seq<real>,
      cap: nat, mem: Memory, m: Meaning)
    requires SoundFunc(f) && AllocatedFunc(f, mem.Keys) && |args| == Arity(f) > 0
    ensures Exec([RFunc] + instrs, vals, [f] + funcs, st + args, cap, mem, m) ==
      Exec(instrs, vals, funcs, st + [Apply(f, args, mem, m)], cap, mem, m)
  {
    hide Apply, SoundFunc, AllocatedFunc;
    var s := st + args;
    assert ([RFunc] + instrs)[1..] == instrs && ([f] + funcs)[1..] == funcs;
    assert s[..|s| - |args|] == st && s[|s| - |args|..] == args;
  }

  lemma StepJuxt(instrs: seq<Instr>, vals: seq<Source>, funcs: seq<Func>, st: seq<real>, cap: nat, mem: Memory,
      m: Meaning)
    ensures Exec([JuxtF] + instrs, vals, funcs, st, cap, mem, m) == Exec(instrs, vals, funcs, st, cap, mem, m)
  {
    assert ([JuxtF] + instrs)[1..] == instrs;
  }

  lemma StepVal(v: Source, instrs: seq<Instr>, vals: seq<Source>, funcs: seq<Func>, st: seq<real>, cap: nat,
      mem: Memory, m: Meaning)
    requires |st| < cap
    ensures Exec([NextVal] + instrs, [v] + vals, [] + funcs, st, cap, mem, m) ==
      Exec(instrs, vals, funcs, st + [Fetch(v, mem, m)], cap, mem, m)
  {
    assert ([NextVal] + instrs)[1..] == instrs && ([v] + vals)[1..] == vals && [] + funcs == funcs;
  }

  /** The code of a tree pushes the values of its members, whatever follows it, without ever needing
      more cells than the tree's own share of the stack. */
  lemma {:induction false} CodePushesValues(e: Expr, instrs: seq<Instr>, vals: seq<Source>, funcs: seq<Func>,
      st: seq<real>, cap: nat, mem: Memory, m: Meaning)
    requires Sound(e) && Allocated(e, mem.Keys) && |st| + Compile(e).pile <= cap
    ensures Width(e) <= Compile(e).pile
    ensures Exec(Compile(e).instrs + instrs, Compile(e).vals + vals, Compile(e).funcs + funcs, st, cap, mem, m) ==
            Exec(instrs, vals, funcs, st + EvalAll(e, mem, m), cap, mem, m)
    decreases Nodes(e), 0
  {
    hide Exec;
    match e
    case ErrOp => StepVal(ErrorValue, instrs, vals, funcs, st, cap, mem, m);
    case Num(v) => StepVal(Constant(v), instrs, vals, funcs, st, cap, mem, m);
    case Var(x) => StepVal(Cell(x), instrs, vals, funcs, st, cap, mem, m);
    case Juxt(l, r) =>
      PairPushes(l, r, JuxtF, instrs, vals, funcs, st, cap, mem, m);
      StepJuxt(instrs, vals, funcs, st + EvalAll(l, mem, m) + EvalAll(r, mem, m), cap, mem, m);
      assert st + (EvalAll(l, mem, m) + EvalAll(r, mem, m)) == (st + EvalAll(l, mem, m)) + EvalAll(r, mem, m);
    case Bin(op, l, r) =>
      PairPushes(l, r, Do2(op), instrs, vals, funcs, st, cap, mem, m);
      StepDo2(op, Eval(l, mem, m), Eval(r, mem, m), instrs, vals, funcs, st, cap, mem, m);
    case Un(op, a) =>
      if op == Atan && NMembers(a) > 1 {
        OnePushes(a, ArcTangente2, [], instrs, vals, funcs, st, cap, mem, m);
        StepAtan2(EvalAll(a, mem, m), instrs, vals, funcs, st, cap, mem, m);
      } else {
        OnePushes(a, Do1(op), [], instrs, vals, funcs, st, cap, mem, m);
        StepDo1(op, Eval(a, mem, m), instrs, vals, funcs, st, cap, mem, m);
      }
      assert [] + funcs == funcs;
    case Call(f, a) =>
      OnePushes(a, RFunc, [f], instrs, vals, funcs, st, cap, mem, m);
      StepCall(f, EvalAll(a, mem, m), instrs, vals, funcs, st, cap, mem, m);
  }

  lemma PairPushes(l: Expr, r: Expr, i: Instr, instrs: seq<Instr>, vals: seq<Source>, funcs: seq<Func>, st: seq<real>,
      cap: nat, mem: Memory, m: Meaning)
    requires Sound(l) && Sound(r) && Allocated(l, mem.Keys) && Allocated(r, mem.Keys)
    requires |st| + Compile(l).pile + Compile(r).pile <= cap && Nodes(l) > 0 && Nodes(r) > 0
    ensures Width(l) <= Compile(l).pile && Width(r) <= Compile(r).pile
    ensures var c := Joined(Compile(l), Compile(r), i);
      Exec(c.instrs + instrs, c.vals + vals, c.funcs + funcs, st, cap, mem, m) ==
      Exec([i] + instrs, vals, funcs, st + EvalAll(l, mem, m) + EvalAll(r, mem, m), cap, mem, m)
    decreases Nodes(l) + Nodes(r), 1
  {
    hide Exec, Eval, EvalAll, Sound, Allocated, Compile;
    var a, b := Compile(l), Compile(r);
    Regroup(a.instrs, b.instrs, [i], instrs);
    Regroup(a.vals, b.vals, [], vals);
    Regroup(a.funcs, b.funcs, [], funcs);
    CodePushesValues(l, b.instrs + ([i] + instrs), b.vals + vals, b.funcs + funcs, st, cap, mem, m);
    CodePushesValues(r, [i] + instrs, vals, funcs, st + EvalAll(l, mem, m), cap, mem, m);
  }

  lemma Regroup<T>(a: seq<T>, b: seq<T>, c: seq<T>, d: seq<T>)
    ensures a + b + c + d == a + (b + (c + d))
    ensures a + b + d == a + (b + d)
  {
  }

  lemma OnePushes(a: Expr, i: Instr, more: seq<Func>, instrs: seq<Instr>, vals: seq<Source>, funcs: seq<Func>,
      st: seq<real>, cap: nat, mem: Memory, m: Meaning)
    requires Sound(a) && Allocated(a, mem.Keys) && |st| + Compile(a).pile <= cap
    ensures Width(a) <= Compile(a).pile
    ensures var c := Extended(Compile(a), i, more);
      Exec(c.instrs + instrs, c.vals + vals, c.funcs + funcs, st, cap, mem, m) ==
      Exec([i] + instrs, vals, more + funcs, st + EvalAll(a, mem, m), cap, mem, m)
    decreases Nodes(a), 1
  {
    hide Exec, Eval;
    var c := Extended(Compile(a), i, more);
    CodePushesValues(a, [i] + instrs, vals, more + funcs, st, cap, mem, m);
    assert c.instrs + instrs == Compile(a).instrs + ([i] + instrs);
    assert c.vals + vals == Compile(a).vals + vals && c.funcs + funcs == Compile(a).funcs + (more + funcs);
  }

  /** Compiled code computes what the tree means, on a stack of exactly its own size. */
  lemma CodeIsCorrect(e: Expr, mem: Memory, m: Meaning)
    requires Sound(e) && Allocated(e, mem.Keys)
    ensures var c := Compile(e); Exec(c.instrs, c.vals, c.funcs, [], c.pile, mem, m) == Stack(EvalAll(e, mem, m))
    ensures EvalAll(e, mem, m)[|EvalAll(e, mem, m)| - 1] == Eval(e, mem, m)
  {
    var c := Compile(e);
    CodePushesValues(e, [], [], [], [], c.pile, mem, m);
    assert c.instrs + [] == c.instrs && c.vals + [] == c.vals && c.funcs + [] == c.funcs;
    assert [] + EvalAll(e, mem, m) == EvalAll(e, mem, m);
    LastValue(e, mem, m);
  }

  lemma {:induction false} LastValue(e: Expr, mem: Memory, m: Meaning)
    requires Sound(e) && Allocated(e, mem.Keys)
    ensures EvalAll(e, mem, m)[|EvalAll(e, mem, m)| - 1] == Eval(e, mem, m)
  {
    if e.Juxt? { LastValue(e.rest, mem, m); }
  }

  // ---------- The arc tangent of one value or of two ----------

  // Several values: a list, or a call of a function whose value is one.
  predicate Several(e: Expr)
  {
    e.Juxt? || (e.Call? && e.f.Defined? && Several(e.f.body))
  }

  /** A list nested to the right. */
  function ListOf(es: seq<Expr>): Expr
    requires es != []
  {
    if |es| == 1 then es[0] else Juxt(es[0], ListOf(es[1..]))
  }

  /** A list of n values has n members, and its code leaves as many on the stack. */
  lemma {:induction false} ListMembers(es: seq<Expr>)
    requires es != [] && forall i :: 0 <= i < |es| ==> !es[i].Juxt? && !es[i].Call?
    ensures NMembers(ListOf(es)) == Width(ListOf(es)) == |es|
  {
    if |es| > 1 { ListMembers(es[1..]); }
  }

  lemma {:induction false} MembersOf(e: Expr)
    requires Sound(e)
    ensures NMembers(e) >= 1 && (NMembers(e) > 1 <==> Several(e))
  {
    match e
    case Juxt(_, rest) => MembersOf(rest);
    case Call(f, _) => if f.Defined? { MembersOf(f.body); }
    case _ =>
  }

  // What running the code of `e` on an empty stack gives.
  ghost function RunCode(e: Expr, mem: Memory, m: Meaning): Run
  {
    var c := Compile(e);
    Exec(c.instrs, c.vals, c.funcs, [], c.pile, mem, m)
  }

  /** atan(a, b) is the arc tangent of the two values, in that order. */
  lemma AtanOfTwo(a: Expr, b: Expr, mem: Memory, m: Meaning)
    requires Sound(a) && Sound(b) && Allocated(a, mem.Keys) && Allocated(b, mem.Keys)
    requires Width(a) == 1 && Width(b) == 1
    ensures var e := Un(Atan, Juxt(a, b));
      && Sound(e) && Compile(e).instrs[|Compile(e).instrs| - 1] == ArcTangente2
      && RunCode(e, mem, m) == Stack([m.atan2(Eval(a, mem, m), Eval(b, mem, m))])
  {
    var e := Un(Atan, Juxt(a, b));
    PairSound(a, b, mem);
    PairValue(a, b, mem, m);
    hide *;
    CodeIsCorrect(e, mem, m);
    CodeOf(e, mem, m);
  }

  lemma PairSound(a: Expr, b: Expr, mem: Memory)
    requires Sound(a) && Sound(b) && Allocated(a, mem.Keys) && Allocated(b, mem.Keys)
    requires Width(a) == 1 && Width(b) == 1
    ensures NMembers(Juxt(a, b)) > 1 && Sound(Juxt(a, b)) && Allocated(Juxt(a, b), mem.Keys)
    ensures var e := Un(Atan, Juxt(a, b));
      Sound(e) && Allocated(e, mem.Keys) && Compile(e).instrs[|Compile(e).instrs| - 1] == ArcTangente2
  {
    MembersOf(b);
  }

  lemma OneValue(a: Expr, mem: Memory, m: Meaning)
    requires Sound(a) && Allocated(a, mem.Keys) && Width(a) == 1
    ensures EvalAll(a, mem, m) == [Eval(a, mem, m)]
  {
    hide Eval;
  }

  lemma PairValue(a: Expr, b: Expr, mem: Memory, m: Meaning)
    requires Sound(a) && Sound(b) && Allocated(a, mem.Keys) && Allocated(b, mem.Keys)
    requires Width(a) == 1 && Width(b) == 1 && NMembers(Juxt(a, b)) > 1
    requires Sound(Un(Atan, Juxt(a, b))) && Allocated(Un(Atan, Juxt(a, b)), mem.Keys)
    ensures EvalAll(Un(Atan, Juxt(a, b)), mem, m) == [m.atan2(Eval(a, mem, m), Eval(b, mem, m))]
  {
    OneValue(a, mem, m);
    OneValue(b, mem, m);
    hide NMembers, Width;
    assert EvalAll(Juxt(a, b), mem, m) == EvalAll(a, mem, m) + EvalAll(b, mem, m);
  }

  lemma CodeOf(e: Expr, mem: Memory, m: Meaning)
    ensures var c := Compile(e); RunCode(e, mem, m) == Exec(c.instrs, c.vals, c.funcs, [], c.pile, mem, m)
  {
  }

  /** The arc tangent of a tree that is not several values is that of its value. */
  lemma AtanOfOne(a: Expr, mem: Memory, m: Meaning)
    requires Sound(a) && Allocated(a, mem.Keys) && !Several(a)
    ensures var e := Un(Atan, a);
      && Sound(e) && Compile(e).instrs[|Compile(e).instrs| - 1] == Do1(Atan)
      && RunCode(e, mem, m) == Stack([m.un(Atan, Eval(a, mem, m))])
  {
    SingleSound(a, mem, m);
    hide *;
    CodeOf(Un(Atan, a), mem, m);
    CodeIsCorrect(Un(Atan, a), mem, m);
  }

  lemma SingleSound(a: Expr, mem: Memory, m: Meaning)
    requires Sound(a) && Allocated(a, mem.Keys) && !Several(a)
    ensures var e := Un(Atan, a);
      && Sound(e) && Allocated(e, mem.Keys) && Compile(e).instrs[|Compile(e).instrs| - 1] == Do1(Atan)
      && EvalAll(e, mem, m) == [m.un(Atan, Eval(a, mem, m))]
  {
    MembersOf(a);
  }

  /** The arc tangent of a call leaves the stack's array exactly when the called function's value is a list:
      the call pushes one value, the instruction takes two. */
  lemma AtanOfCall(f: Func, args: Expr, mem: Memory, m: Meaning)
    requires Sound(Call(f, args)) && Allocated(Call(f, args), mem.Keys)
    ensures RunCode(Un(Atan, Call(f, args)), mem, m) == Fault <==> f.Defined? && Several(f.body)
  {
    if Several(Call(f, args)) {
      ShortOfOne(Call(f, args), mem, m);
    } else {
      AtanOfOne(Call(f, args), mem, m);
    }
  }

  lemma ShortOfOne(a: Expr, mem: Memory, m: Meaning)
    requires Sound(a) && Allocated(a, mem.Keys) && Width(a) == 1 && Several(a)
    ensures RunCode(Un(Atan, a), mem, m) == Fault
  {
    var c, v := Compile(Un(Atan, a)), EvalAll(a, mem, m);
    MembersOf(a);
    assert c == Extended(Compile(a), ArcTangente2, []) && |v| == 1;
    OneIsShort(v, c.pile, mem, m);
    CodeOf(Un(Atan, a), mem, m);
    hide Exec, Compile, EvalAll, Sound, Allocated, RunCode;
    OnePushes(a, ArcTangente2, [], [], [], [], [], c.pile, mem, m);
    assert c.instrs + [] == c.instrs && c.vals + [] == c.vals && c.funcs + [] == c.funcs && [] + v == v;
    assert [ArcTangente2] + [] == [ArcTangente2];
  }

  lemma OneIsShort(v: seq<real>, cap: nat, mem: Memory, m: Meaning)
    requires |v| == 1
    ensures Exec([ArcTangente2], [], [], v, cap, mem, m) == Fault
  {
  }
}
