/** The stack machine as it runs: code arrays filled by copying, a value stack with a moving top, and
    function calls that save, overwrite and restore the variables of their parameters. */
module MathMachine {
  import opened MathExpr

  // ---------- Saving and restoring ----------

  // Memory after the parameters were set one by one, and what was saved on the way.
  ghost function SetAll(mem: Memory, params: seq<int>, args: seq<real>): (r: (Memory, seq<real>))
    requires |params| == |args| && forall i :: 0 <= i < |params| ==> params[i] in mem
    ensures r.0.Keys == mem.Keys && |r.1| == |params| && r.0 == Bind(mem, params, args)
    decreases params
  {
    if params == [] then (mem, [])
    else
      var (m, saved) := SetAll(mem[params[0] := args[0]], params[1..], args[1..]);
      (m, [mem[params[0]]] + saved)
  }

  // Memory after a call whose body changes nothing.
  ghost function AfterCall(mem: Memory, params: seq<int>, args: seq<real>): Memory
    requires |params| == |args| && forall i :: 0 <= i < |params| ==> params[i] in mem
  {
    var (m, saved) := SetAll(mem, params, args);
    Bind(m, params, saved)
  }

  lemma {:induction false} BindOther(mem: Memory, params: seq<int>, args: seq<real>, x: int)
    requires |params| == |args| && x !in params && x in mem
    ensures x in Bind(mem, params, args) && Bind(mem, params, args)[x] == mem[x]
    decreases params
  {
    if params != [] { BindOther(mem[params[0] := args[0]], params[1..], args[1..], x); }
  }

  lemma {:induction false} BindAt(mem: Memory, params: seq<int>, args: seq<real>, i: nat)
    requires |params| == |args| && i < |params| && params[i] !in params[i + 1..]
    ensures params[i] in Bind(mem, params, args) && Bind(mem, params, args)[params[i]] == args[i]
    decreases params
  {
    if i == 0 {
      BindOther(mem[params[0] := args[0]], params[1..], args[1..], params[0]);
    } else {
      assert params[1..][i - 1 + 1..] == params[i + 1..];
      BindAt(mem[params[0] := args[0]], params[1..], args[1..], i - 1);
    }
  }

  // A parameter listed for the first time is saved with its variable's value.
  lemma {:induction false} SavedFirst(mem: Memory, params: seq<int>, args: seq<real>, i: nat)
    requires |params| == |args| && forall k :: 0 <= k < |params| ==> params[k] in mem
    requires i < |params| && forall l :: 0 <= l < i ==> params[l] != params[i]
    ensures SetAll(mem, params, args).1[i] == mem[params[i]]
    decreases params
  {
    if i > 0 { SavedFirst(mem[params[0] := args[0]], params[1..], args[1..], i - 1); }
  }

  // ... and one listed again with the argument given at its place before.
  lemma {:induction false} SavedAgain(mem: Memory, params: seq<int>, args: seq<real>, i: nat, j: nat)
    requires |params| == |args| && forall k :: 0 <= k < |params| ==> params[k] in mem
    requires i < j < |params| && params[i] == params[j] && forall l :: i < l < j ==> params[l] != params[j]
    ensures SetAll(mem, params, args).1[j] == args[i]
    decreases params
  {
    var m := mem[params[0] := args[0]];
    if i > 0 { SavedAgain(m, params[1..], args[1..], i - 1, j - 1); }
      else { SavedFirst(m, params[1..], args[1..], j - 1); }
  }

  lemma DistinctRestores(mem: Memory, params: seq<int>, args: seq<real>)
    requires |params| == |args| && NoRepeats(params) && forall i :: 0 <= i < |params| ==> params[i] in mem
    ensures AfterCall(mem, params, args) == mem
  {
    var (m, saved) := SetAll(mem, params, args);
    var after := AfterCall(mem, params, args);
    forall x | x in mem ensures x in after && after[x] == mem[x] {
      if x in params {
        var i :| 0 <= i < |params| && params[i] == x;
        SavedFirst(mem, params, args, i);
        BindAt(m, params, saved, i);
      } else {
        BindOther(mem, params, args, x);
        BindOther(m, params, saved, x);
      }
    }
    assert after.Keys == mem.Keys;
  }

  lemma HeadRepeats(params: seq<int>)
    ensures params != [] && NoRepeats(params[1..]) && params[0] !in params[1..] ==> NoRepeats(params)
    ensures params == [] ==> NoRepeats(params)
  {
    forall i, j | 0 <= i < j < |params| && NoRepeats(params[1..]) && params[0] !in params[1..]
      ensures params[i] != params[j] {
      assert params[j] == params[1..][j - 1];
      if i > 0 { assert params[i] == params[1..][i - 1]; }
    }
  }

  lemma {:induction false} LastRepeat(params: seq<int>) returns (i: nat, j: nat)
    requires !NoRepeats(params)
    ensures i < j < |params| && params[i] == params[j] && params[j] !in params[j + 1..] && forall l :: i < l < j ==>
      params[l] != params[j]
    decreases params
  {
    HeadRepeats(params);
    if NoRepeats(params[1..]) {
      var k :| 0 <= k < |params| - 1 && params[1..][k] == params[0];
      i, j := 0, k + 1;
      forall l | j + 1 <= l < |params| ensures params[l] != params[j] { assert params[1..][k] != params[1..][l - 1]; }
      forall l | 1 <= l < j ensures params[l] != params[j] { assert params[1..][l - 1] != params[1..][k]; }
    } else {
      i, j := LastRepeat(params[1..]);
      assert params[1..][j + 1..] == params[j + 1 + 1..];
      assert forall l :: i + 1 < l < j + 1 ==> params[1..][l - 1] == params[l];
      i, j := i + 1, j + 1;
    }
  }

  /** Restoring in the order of saving gives every variable its old value back, whatever the arguments,
      exactly when no parameter is listed twice. */
  lemma RestoredIffDistinct(mem: Memory, params: seq<int>)
    requires forall i :: 0 <= i < |params| ==> params[i] in mem
    ensures NoRepeats(params) <==> forall args: seq<real> :: |args| == |params| ==> AfterCall(mem, params, args) == mem
  {
    if NoRepeats(params) {
      forall args: seq<real> | |args| == |params|
        ensures AfterCall(mem, params, args) == mem { DistinctRestores(mem, params, args); }
    } else {
      var args := NotRestored(mem, params);
      hide AfterCall;
      assert |args| == |params| && AfterCall(mem, params, args) != mem;
    }
  }

  lemma NotRestored(mem: Memory, params: seq<int>) returns (args: seq<real>)
    requires !NoRepeats(params) && forall i :: 0 <= i < |params| ==> params[i] in mem
    ensures |args| == |params| && AfterCall(mem, params, args) != mem
  {
    var i, j := LastRepeat(params);
    var x := params[j];
    args := seq(|params|, _ => mem[x] + 1.0);
    SavedAgain(mem, params, args, i, j);
    hide NoRepeats, SetAll, Bind;
    var (m, saved) := SetAll(mem, params, args);
    BindAt(m, params, saved, j);
    assert AfterCall(mem, params, args)[x] == mem[x] + 1.0;
  }

  /** A call of a function that lists one parameter twice leaves its first argument in the variable. */
  lemma RepeatedParameter()
    ensures var mem: Memory := map[5 := 1.0]; AfterCall(mem, [5, 5], [2.0, 3.0]) == map[5 := 2.0] != mem
  {
    var mem: Memory, params, args := map[5 := 1.0], [5, 5], [2.0, 3.0];
    var (m, saved) := SetAll(mem, params, args);
    SavedFirst(mem, params, args, 0);
    SavedAgain(mem, params, args, 0, 1);
    BindAt(m, params, saved, 1);
    assert AfterCall(mem, params, args).Keys == {5};
  }

  // ---------- Filling the arrays ----------

  /** One array: the first code, the second code, the new last entry; each copied entry by entry. */
  method Copy<T(0)>(a: seq<T>, b: seq<T>, c: seq<T>) returns (r: seq<T>)
    ensures r == a + b + c
  {
    var all := new T[|a| + |b| + |c|];
    var k := 0;
    for i := 0 to |a|
      invariant k == i && all[..k] == a[..i]
    {
      all[k] := a[i];
      k := k + 1;
    }
    for i := 0 to |b|
      invariant k == |a| + i && all[..k] == a + b[..i]
    {
      all[k] := b[i];
      k := k + 1;
    }
    for i := 0 to |c|
      invariant k == |a| + |b| + i && all[..k] == a + b + c[..i]
    {
      all[k] := c[i];
      k := k + 1;
    }
    r := all[..];
    assert r == all[..k];
  }

  method BuildCode(e: Expr) returns (c: Code)
    ensures c == Compile(e)
    decreases e
  {
    match e {
      case ErrOp => c := Code([NextVal], [ErrorValue], 1, []);
      case Num(v) => c := Code([NextVal], [Constant(v)], 1, []);
      case Var(x) => c := Code([NextVal], [Cell(x)], 1, []);
      case Juxt(l, r) =>
        var a := BuildCode(l);
        var b := BuildCode(r);
        c := BCDouble(a, b, JuxtF);
      case Bin(op, l, r) =>
        var a := BuildCode(l);
        var b := BuildCode(r);
        c := BCDouble(a, b, Do2(op));
      case Un(op, x) =>
        var a := BuildCode(x);
        c := BCSimple(a, if op == Atan && NMembers(x) > 1 then ArcTangente2 else Do1(op), []);
      case Call(f, x) =>
        var a := BuildCode(x);
        c := BCSimple(a, RFunc, [f]);
    }
  }

  method BCDouble(a: Code, b: Code, i: Instr) returns (c: Code)
    ensures c == Joined(a, b, i)
  {
    var instrs := Copy(a.instrs, b.instrs, [i]);
    var vals := Copy(a.vals, b.vals, []);
    var funcs := Copy(a.funcs, b.funcs, []);
    c := Code(instrs, vals, a.pile + b.pile, funcs);
    assert c == Joined(a, b, i);
  }

  method BCSimple(a: Code, i: Instr, more: seq<Func>) returns (c: Code)
    ensures c == Extended(a, i, more)
  {
    var instrs := Copy(a.instrs, [], [i]);
    var funcs := Copy(a.funcs, [], more);
    c := Code(instrs, a.vals, a.pile, funcs);
    assert c == Extended(a, i, more);
  }

  // ---------- Running ----------

  function Depth(e: Expr): nat
  {
    match e
    case Juxt(l, r) => 1 + Depth(l) + Depth(r)
    case Bin(_, l, r) => 1 + Depth(l) + Depth(r)
    case Un(_, a) => 1 + Depth(a)
    case Call(f, a) => 1 + DepthOf(f) + Depth(a)
    case _ => 1
  }

  function DepthOf(f: Func): nat { if f.Defined? then 1 + Depth(f.body) else 1 }

  // The functions a code calls are parts of the tree it was built from.
  lemma {:induction false} CalledDepth(e: Expr)
    ensures forall k :: 0 <= k < |Compile(e).funcs| ==> DepthOf(Compile(e).funcs[k]) < Depth(e)
    decreases e
  {
    match e
    case Juxt(l, r) => CalledDepth(l); CalledDepth(r);
    case Bin(_, l, r) => CalledDepth(l); CalledDepth(r);
    case Un(_, a) => CalledDepth(a);
    case Call(f, a) => CalledDepth(a);
    case _ =>
  }

  lemma SetStep(mem: Memory, params: seq<int>, args: seq<real>, i: nat)
    requires |params| == |args| && i < |params| && forall k :: 0 <= k < |params| ==> params[k] in mem
    ensures var r := SetAll(mem[params[i] := args[i]], params[i + 1..], args[i + 1..]);
      SetAll(mem, params[i..], args[i..]) == (r.0, [mem[params[i]]] + r.1)
  {
    assert params[i..][1..] == params[i + 1..] && args[i..][1..] == args[i + 1..];
  }

  lemma SetDone(mem: Memory, params: seq<int>, args: seq<real>)
    requires params == [] && args == []
    ensures SetAll(mem, params, args) == (mem, [])
  {
  }

  ghost predicate CanStep(i: Instr, vals: seq<Source>, funcs: seq<Func>, st: seq<real>, cap: nat, mem: Memory)
  {
    match i
    case NextVal => vals != [] && |st| < cap
    case RFunc => funcs != [] && 0 < Arity(funcs[0]) <= |st| && SoundFunc(funcs[0]) && AllocatedFunc(funcs[0], mem.Keys)
    case JuxtF => true
    case Do2(_) => |st| >= 2
    case Do1(_) => |st| >= 1
    case ArcTangente2 => |st| >= 2
  }

  // The value of a call where there is one.
  ghost function Called(f: Func, args: seq<real>, mem: Memory, m: Meaning): real
  {
    if SoundFunc(f) && AllocatedFunc(f, mem.Keys) && |args| == Arity(f) then Apply(f, args, mem, m) else m.err
  }

  // How many cells an instruction leaves as they are; a new top follows, except after JuxtF.
  ghost function Kept(i: Instr, funcs: seq<Func>, n: nat): int
  {
    match i
    case NextVal => n
    case RFunc => if funcs == [] then n else n - Arity(funcs[0])
    case JuxtF => n
    case Do2(_) => n - 2
    case Do1(_) => n - 1
    case ArcTangente2 => n - 2
  }

  // An operator on the top of a stack.
  ghost function Operated(i: Instr, st: seq<real>, m: Meaning): real
  {
    var n := |st|;
    match i
    case Do2(op) => if n < 2 then m.err else m.bin(op, st[n - 2], st[n - 1])
    case Do1(op) => if n < 1 then m.err else m.un(op, st[n - 1])
    case ArcTangente2 => if n < 2 then m.err else m.atan2(st[n - 2], st[n - 1])
    case _ => m.err
  }

  ghost function NewTop(i: Instr, vals: seq<Source>, funcs: seq<Func>, st: seq<real>, cap: nat, mem: Memory,
      m: Meaning): real
    requires CanStep(i, vals, funcs, st, cap, mem)
  {
    var n := |st|;
    match i
    case NextVal => Fetch(vals[0], mem, m)
    case RFunc => Called(funcs[0], st[n - Arity(funcs[0])..], mem, m)
    case JuxtF => 0.0
    case Do2(_) | Do1(_) | ArcTangente2 => Operated(i, st, m)
  }

  ghost function NextStack(i: Instr, vals: seq<Source>, funcs: seq<Func>, st: seq<real>, cap: nat, mem: Memory,
      m: Meaning): seq<real>
    requires CanStep(i, vals, funcs, st, cap, mem)
  {
    if i == JuxtF then st else st[..Kept(i, funcs, |st|)] + [NewTop(i, vals, funcs, st, cap, mem, m)]
  }

  lemma OneStep(instrs: seq<Instr>, vals: seq<Source>, funcs: seq<Func>, st: seq<real>, cap: nat, mem: Memory,
      m: Meaning)
    requires instrs != [] && Exec(instrs, vals, funcs, st, cap, mem, m) != Fault
    ensures CanStep(instrs[0], vals, funcs, st, cap, mem)
    ensures Exec(instrs, vals, funcs, st, cap, mem, m) ==
      Exec(instrs[1..],
           if instrs[0] == NextVal then vals[1..] else vals,
           if instrs[0] == RFunc then funcs[1..] else funcs,
           NextStack(instrs[0], vals, funcs, st, cap, mem, m), cap, mem, m)
  {
    hide Apply, SoundFunc, AllocatedFunc, Fetch;
    assert st[..|st|] == st;
  }

  // In the middle of a code, with these positions and this stack, the rest leads to the goal.
  ghost predicate Running(c: Code, p1: nat, p2: nat, p4: nat, st: seq<real>, mem: Memory, m: Meaning, goal: Run)
  {
    && p1 <= |c.instrs| && p2 <= |c.vals| && p4 <= |c.funcs| && |st| <= c.pile
    && Exec(c.instrs[p1..], c.vals[p2..], c.funcs[p4..], st, c.pile, mem, m) == goal
  }

  function TopOf(st: seq<real>, k: nat): seq<real>
    requires k <= |st|
  {
    st[|st| - k..]
  }

  // The k cells on top replaced by one.
  function Replaced(st: seq<real>, k: nat, v: real): (r: seq<real>)
    requires k <= |st|
    ensures |r| == |st| - k + 1
  {
    st[..|st| - k] + [v]
  }

  // What the next instruction finds, and the stack it leaves.
  ghost predicate Finds(c: Code, p1: nat, p2: nat, p4: nat, st: seq<real>, mem: Memory, m: Meaning, next: seq<real>)
    requires p1 < |c.instrs|
  {
    var i := c.instrs[p1];
    match i
    case NextVal => p2 < |c.vals| && |st| < c.pile && next == Replaced(st, 0, Fetch(c.vals[p2], mem, m))
    case RFunc =>
      && p4 < |c.funcs| && SoundFunc(c.funcs[p4]) && AllocatedFunc(c.funcs[p4], mem.Keys)
      && 0 < Arity(c.funcs[p4]) <= |st|
      && var k := Arity(c.funcs[p4]); next == Replaced(st, k, Called(c.funcs[p4], TopOf(st, k), mem, m))
    case JuxtF => next == st
    case Do1(_) => |st| >= 1 && next == Replaced(st, 1, Operated(i, st, m))
    case Do2(_) | ArcTangente2 => |st| >= 2 && next == Replaced(st, 2, Operated(i, st, m))
  }

  lemma StepInPlace(c: Code, p1: nat, p2: nat, p4: nat, st: seq<real>, mem: Memory, m: Meaning,
      goal: Run) returns (next: seq<real>)
    requires p1 < |c.instrs| && Running(c, p1, p2, p4, st, mem, m, goal) && goal != Fault
    ensures Finds(c, p1, p2, p4, st, mem, m, next)
    ensures var i := c.instrs[p1];
      Running(c, p1 + 1, if i == NextVal then p2 + 1 else p2, if i == RFunc then p4 + 1 else p4, next, mem, m, goal)
  {
    hide Apply, SoundFunc, AllocatedFunc, Fetch, Called, Operated, Arity;
    var i, vals, funcs := c.instrs[p1], c.vals[p2..], c.funcs[p4..];
    OneStep(c.instrs[p1..], vals, funcs, st, c.pile, mem, m);
    hide Exec;
    next := NextStack(i, vals, funcs, st, c.pile, mem, m);
    assert c.instrs[p1..][1..] == c.instrs[p1 + 1..];
    if i == NextVal { assert vals[1..] == c.vals[p2 + 1..]; }
    if i == RFunc { assert funcs[1..] == c.funcs[p4 + 1..]; }
  }

  lemma NoStep(vals: seq<Source>, funcs: seq<Func>, st: seq<real>, cap: nat, mem: Memory, m: Meaning)
    ensures Exec([], vals, funcs, st, cap, mem, m) == Stack(st)
  {
  }

  class Machine {
    const meaning: Meaning
    var mem: Memory

    constructor (meaning: Meaning, mem: Memory)
      ensures this.meaning == meaning && this.mem == mem
    {
      this.meaning, this.mem := meaning, mem;
    }

    method Read(s: Source) returns (v: real)
      ensures v == Fetch(s, mem, meaning)
    {
      match s {
        case Constant(c) => v := c;
        case ErrorValue => v := meaning.err;
        case Cell(x) => v := if x in mem then mem[x] else 0.0;
      }
    }

    /** Saves each parameter's variable and gives it its argument, in order. */
    method SetParams(params: seq<int>, pile: array<real>, from: nat) returns (buf: array<real>)
      requires (forall i :: 0 <= i < |params| ==> params[i] in mem) && from + |params| <= pile.Length
      modifies `mem
      ensures fresh(buf) && buf.Length == |params|
      ensures (mem, buf[..]) == SetAll(old(mem), params, pile[from..from + |params|])
    {
      hide SetAll;
      var n := |params|;
      ghost var mem0, args := mem, pile[from..from + n];
      buf := new real[n];
      assert params[0..] == params && args[0..] == args &&
        buf[..0] + SetAll(mem, params, args).1 == SetAll(mem, params, args).1;
      for i := 0 to n
        modifies buf, `mem
        invariant mem.Keys == mem0.Keys && pile[from..from + n] == args
        invariant var r := SetAll(mem, params[i..], args[i..]); SetAll(mem0, params, args) == (r.0, buf[..i] + r.1)
      {
        ghost var done := buf[..i];
        SetStep(mem, params, args, i);
        buf[i] := mem[params[i]];
        mem := mem[params[i] := pile[from + i]];
        assert buf[..i + 1] == done + [buf[i]];
        ghost var tail := SetAll(mem, params[i + 1..], args[i + 1..]).1;
        assert done + ([buf[i]] + tail) == (done + [buf[i]]) + tail;
      }
      SetDone(mem, params[n..], args[n..]);
      assert buf[..n] == buf[..] && buf[..] + [] == buf[..];
    }

    /** Gives the variables their saved values back, in the same order. */
    method RestoreParams(params: seq<int>, buf: array<real>)
      requires buf.Length == |params|
      modifies `mem
      ensures mem == Bind(old(mem), params, buf[..])
    {
      ghost var bound := mem;
      assert params[0..] == params && buf[0..] == buf[..];
      for i := 0 to |params|
        modifies `mem
        invariant Bind(mem, params[i..], buf[i..]) == Bind(bound, params, buf[..])
      {
        assert params[i..][1..] == params[i + 1..] && buf[i..][1..] == buf[i + 1..];
        mem := mem[params[i] := buf[i]];
      }
    }

    /** RFunction::Val on the cells from `from` on. */
    method FunctionVal(f: Func, pile: array<real>, from: nat) returns (y: real)
      requires SoundFunc(f) && AllocatedFunc(f, mem.Keys) && Arity(f) > 0 && from + Arity(f) <= pile.Length
      modifies `mem
      ensures y == Apply(f, pile[from..from + Arity(f)], old(mem), meaning)
      ensures mem == old(mem)
      decreases DepthOf(f), 1
    {
      if f.Native? {
        return meaning.native(f.id, pile[from]);
      }
      ghost var mem0, args := mem, pile[from..from + |f.params|];
      var buf := SetParams(f.params, pile, from);
      y := Val(f.body);
      RestoreParams(f.params, buf);
      DistinctRestores(mem0, f.params, args);
    }

    /** Puts the value of the function in the place of its arguments. */
    method ApplyRFunc(f: Func, ppile: array<real>, top: int) returns (q: int)
      requires SoundFunc(f) && AllocatedFunc(f, mem.Keys) && 0 < Arity(f) <= top + 1 <= ppile.Length
      modifies ppile, `mem
      ensures mem == old(mem) && q == top + 1 - Arity(f)
      ensures ppile[..q + 1] ==
        Replaced(old(ppile[..top + 1]), Arity(f), Called(f, TopOf(old(ppile[..top + 1]), Arity(f)), old(mem), meaning))
      decreases DepthOf(f), 2
    {
      hide Apply, SoundFunc, AllocatedFunc, Arity, DepthOf;
      ghost var st := ppile[..top + 1];
      q := top - (Arity(f) - 1);
      assert ppile[q..q + Arity(f)] == TopOf(st, Arity(f));
      ppile[q] := FunctionVal(f, ppile, q);
      assert ppile[..q] == st[..q];
    }

    method Push(v: real, ppile: array<real>, top: int) returns (q: int)
      requires -1 <= top < ppile.Length - 1
      modifies ppile
      ensures q == top + 1 && ppile[..q + 1] == Replaced(old(ppile[..top + 1]), 0, v)
    {
      q := top + 1;
      ppile[q] := v;
    }

    /** One of the operators, on the cells at the top of the stack. */
    method Operate(i: Instr, ppile: array<real>, top: int) returns (q: int)
      requires i.Do2? || i.Do1? || i.ArcTangente2?
      requires top < ppile.Length && top >= if i.Do1? then 0 else 1
      modifies ppile
      ensures q == if i.Do1? then top else top - 1
      ensures ppile[..q + 1] ==
        Replaced(old(ppile[..top + 1]), if i.Do1? then 1 else 2, Operated(i, old(ppile[..top + 1]), meaning))
    {
      q := top;
      match i {
        case Do2(op) =>
          q := q - 1;
          ppile[q] := meaning.bin(op, ppile[q], ppile[q + 1]);
        case Do1(op) =>
          ppile[q] := meaning.un(op, ppile[q]);
        case ArcTangente2 =>
          q := q - 1;
          ppile[q] := meaning.atan2(ppile[q], ppile[q + 1]);
      }
      assert ppile[..q] == old(ppile[..top + 1])[..q];
    }

    /** One instruction: the new positions in the values, on the stack and in the functions. */
    method Instruction(c: Code, p1: nat, p2: nat, p3: int, p4: nat, ppile: array<real>, ghost goal: Run,
        ghost depth: nat)
      returns (q2: nat, q3: int, q4: nat)
      requires p1 < |c.instrs| && -1 <= p3 < c.pile == ppile.Length
      requires Running(c, p1, p2, p4, ppile[..p3 + 1], mem, meaning, goal) && goal != Fault
      requires forall k :: 0 <= k < |c.funcs| ==> DepthOf(c.funcs[k]) < depth
      modifies ppile, `mem
      ensures mem == old(mem) && -1 <= q3 < c.pile
      ensures Running(c, p1 + 1, q2, q4, ppile[..q3 + 1], mem, meaning, goal)
      decreases depth, 0
    {
      hide Running, Apply, SoundFunc, AllocatedFunc, Fetch, Arity, DepthOf, Called, Operated, Replaced, TopOf;
      ghost var st := ppile[..p3 + 1];
      ghost var next := StepInPlace(c, p1, p2, p4, st, mem, meaning, goal);
      q2, q3, q4 := p2, p3, p4;
      match c.instrs[p1] {
        case NextVal =>
          var v := Read(c.vals[q2]);
          q3 := Push(v, ppile, q3);
          q2 := q2 + 1;
        case RFunc =>
          q3 := ApplyRFunc(c.funcs[q4], ppile, q3);
          q4 := q4 + 1;
        case JuxtF =>
        case Do2(_) | Do1(_) | ArcTangente2 =>
          q3 := Operate(c.instrs[p1], ppile, q3);
      }
    }

    /** ROperation::Val: the loop over the code.  The stack never leaves its array, and every variable
        has its old value afterwards. */
    method Val(e: Expr) returns (y: real)
      requires Sound(e) && Allocated(e, mem.Keys)
      modifies `mem
      ensures y == Eval(e, old(mem), meaning)
      ensures mem == old(mem)
      decreases Depth(e), 1
    {
      hide Exec, Sound, Allocated, Compile, Eval, EvalAll, Width, Depth, DepthOf;
      var c := BuildCode(e);
      CalledDepth(e);
      CodeIsCorrect(e, mem, meaning);
      ghost var goal := Stack(EvalAll(e, mem, meaning));
      var ppile := new real[c.pile];
      var p1, p2, p3, p4 := 0, 0, -1, 0;
      assert c.instrs[0..] == c.instrs && c.vals[0..] == c.vals && c.funcs[0..] == c.funcs && ppile[..0] == [];
      while p1 < |c.instrs|
        modifies ppile, `mem
        invariant 0 <= p1 <= |c.instrs| && 0 <= p2 && 0 <= p4 && -1 <= p3 < c.pile
        invariant mem == old(mem)
        invariant Running(c, p1, p2, p4, ppile[..p3 + 1], mem, meaning, goal)
      {
        p2, p3, p4 := Instruction(c, p1, p2, p3, p4, ppile, goal, Depth(e));
        p1 := p1 + 1;
      }
      assert c.instrs[p1..] == [];
      NoStep(c.vals[p2..], c.funcs[p4..], ppile[..p3 + 1], c.pile, mem, meaning);
      y := ppile[p3];
    }
  }

  // ---------- Calls ----------

  // The arguments' variables hold the arguments, every other variable what it held.
  ghost predicate Holds(mem: Memory, params: seq<int>, args: seq<real>, inside: Memory)
    requires |params| == |args|
  {
    && inside.Keys == mem.Keys
    && (forall i :: 0 <= i < |params| ==> params[i] in inside && inside[params[i]] == args[i])
    && forall x :: x in mem && x !in params ==> inside[x] == mem[x]
  }

  lemma BindHolds(mem: Memory, params: seq<int>, args: seq<real>)
    requires |params| == |args| && NoRepeats(params) && forall i :: 0 <= i < |params| ==> params[i] in mem
    ensures Holds(mem, params, args, Bind(mem, params, args))
  {
    forall i | 0 <= i < |params| ensures Bind(mem, params, args)[params[i]] == args[i] { BindAt(mem, params, args, i); }
    forall x | x in mem && x !in params ensures Bind(mem, params, args)[x] == mem[x] {
      BindOther(mem, params, args, x);
    }
  }

  /** The code of a call leaves one value: a native function's value at its one argument, or the body's value
      with each parameter's variable at its argument. */
  lemma CallValue(f: Func, args: Expr, mem: Memory, m: Meaning) returns (inside: Memory)
    requires Sound(Call(f, args)) && Allocated(Call(f, args), mem.Keys)
    ensures f.Native? ==>
      Width(args) == 1 && RunCode(Call(f, args), mem, m) == Stack([m.native(f.id, Eval(args, mem, m))])
    ensures f.Defined? ==>
      && Width(args) == |f.params| && Holds(mem, f.params, EvalAll(args, mem, m), inside)
      && Sound(f.body) && Allocated(f.body, inside.Keys)
      && RunCode(Call(f, args), mem, m) == Stack([Eval(f.body, inside, m)])
  {
    inside := mem;
    if f.Defined? {
      inside := Bind(mem, f.params, EvalAll(args, mem, m));
      BindHolds(mem, f.params, EvalAll(args, mem, m));
    }
    CallIs(f, args, mem, m);
    hide *;
    CodeIsCorrect(Call(f, args), mem, m);
    CodeOf(Call(f, args), mem, m);
  }

  lemma CallIs(f: Func, args: Expr, mem: Memory, m: Meaning)
    requires Sound(Call(f, args)) && Allocated(Call(f, args), mem.Keys)
    ensures f.Native? ==> Width(args) == 1 && EvalAll(Call(f, args), mem, m) == [m.native(f.id, Eval(args, mem, m))]
    ensures f.Defined? ==>
      && Width(args) == |f.params| && Sound(f.body)
      && var inside := Bind(mem, f.params, EvalAll(args, mem, m));
         Allocated(f.body, inside.Keys) && EvalAll(Call(f, args), mem, m) == [Eval(f.body, inside, m)]
  {
    hide Bind;
    OneValue(Call(f, args), mem, m);
    if f.Native? { OneValue(args, mem, m); }
    assert Eval(Call(f, args), mem, m) == Apply(f, EvalAll(args, mem, m), mem, m);
  }
}
