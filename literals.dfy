/**
 * The constant table the code generator fills: one entry per literal of the
 * expression, left to right, and the -1.0 that a binary operator without a
 * right operand compares against.
 */
module Literals {
  import opened Chunk
  import opened CodeGen

  /** The constants of `e`, in the order they appear in its source text. */
  function Literals(e: Expr): seq<Constant>
    decreases e, 1
  {
    match e
    case Literal(v) => [v]
    case Variable(_, _) => []
    case Binary(l, r, _, _) => Literals(l) + (if r.Some? then Literals(r.value) else [FloatConst(-1.0)])
    case While(c, body) => Literals(c) + Literals(body)
    case And(l, r) => Literals(l) + Literals(r)
    case Or(l, r) => Literals(l) + Literals(r)
    case Ternary(l, m, alt) => Literals(l) + Literals(m) + (if alt.Some? then Literals(alt.value) else [])
    case Grouping(es, _, _) => LiteralsAll(es)
  }

  function LiteralsAll(es: seq<Expr>): seq<Constant>
    decreases es, 0
  {
    if |es| == 0 then [] else LiteralsAll(es[..|es| - 1]) + Literals(es[|es| - 1])
  }

  /** Only the operands of a construct add to the constant table, in order. */
  lemma BinaryShape(a: Emitted, b: Emitted, op: OpCode, nf: bool)
    ensures BinaryCode(a, b, op, nf).consts == a.consts + b.consts
  {
  }

  lemma WhileShape(a: Emitted, b: Emitted)
    ensures WhileCode(a, b).consts == a.consts + b.consts
  {
  }

  lemma AndShape(a: Emitted, b: Emitted)
    ensures AndCode(a, b).consts == a.consts + b.consts
  {
  }

  lemma OrShape(a: Emitted, b: Emitted)
    ensures OrCode(a, b).consts == a.consts + b.consts
  {
  }

  lemma TernaryShape(a: Emitted, b: Emitted)
    ensures TernaryCode(a, b).consts == a.consts + b.consts
  {
  }

  lemma TernaryElseShape(a: Emitted, b: Emitted, c: Emitted)
    ensures TernaryElseCode(a, b, c).consts == a.consts + b.consts + c.consts
  {
  }

  /** The code of any expression adds its literals to the constant table, in source order, whatever the table held. */
  lemma {:induction false} GenConstants(e: Expr, k: nat)
    ensures Gen(e, k).consts == Literals(e)
    decreases e, 1
  {
    match e
    case Literal(v) =>
    case Variable(_, _) =>
    case Binary(l, r, op, nf) => BinaryConstants(l, r, op, nf, k);
    case While(c, body) => WhileConstants(c, body, k);
    case And(l, r) => AndConstants(l, r, k);
    case Or(l, r) => OrConstants(l, r, k);
    case Ternary(l, m, alt) =>
      if alt.Some? {
        TernaryElseConstants(l, m, alt.value, k);
      } else {
        TernaryConstants(l, m, k);
      }
    case Grouping(es, _, _) => GenAllConstants(es, k);
  }

  lemma {:induction false} BinaryConstants(l: Expr, r: Option<Expr>, op: OpCode, nf: bool, k: nat)
    ensures GenBinary(l, r, op, nf, k).consts == Literals(l) + (if r.Some? then Literals(r.value) else [FloatConst(-1.0)])
    decreases Binary(l, r, op, nf), 0
  {
    var a := Gen(l, k);
    GenConstants(l, k);
    var b := if r.Some? then Gen(r.value, k + |a.consts|) else ConstantCode(FloatConst(-1.0), k + |a.consts|);
    if r.Some? {
      GenConstants(r.value, k + |a.consts|);
    }
    GenBinaryOf(l, r, op, nf, k, a, k + |a.consts|, b);
    BinaryShape(a, b, op, nf);
  }

  lemma {:induction false} WhileConstants(c: Expr, body: Expr, k: nat)
    ensures GenWhile(c, body, k).consts == Literals(c) + Literals(body)
    decreases While(c, body), 0
  {
    var a := Gen(c, k);
    var b := Gen(body, k + |a.consts|);
    GenConstants(c, k);
    GenConstants(body, k + |a.consts|);
    GenWhileOf(c, body, k, a, k + |a.consts|, b);
    WhileShape(a, b);
  }

  lemma {:induction false} AndConstants(l: Expr, r: Expr, k: nat)
    ensures GenAnd(l, r, k).consts == Literals(l) + Literals(r)
    decreases And(l, r), 0
  {
    var a := Gen(l, k);
    var b := Gen(r, k + |a.consts|);
    GenConstants(l, k);
    GenConstants(r, k + |a.consts|);
    GenAndOf(l, r, k, a, k + |a.consts|, b);
    AndShape(a, b);
  }

  lemma {:induction false} OrConstants(l: Expr, r: Expr, k: nat)
    ensures GenOr(l, r, k).consts == Literals(l) + Literals(r)
    decreases Or(l, r), 0
  {
    var a := Gen(l, k);
    var b := Gen(r, k + |a.consts|);
    GenConstants(l, k);
    GenConstants(r, k + |a.consts|);
    GenOrOf(l, r, k, a, k + |a.consts|, b);
    OrShape(a, b);
  }

  lemma {:induction false} TernaryConstants(l: Expr, m: Expr, k: nat)
    ensures GenTernary(l, m, None, k).consts == Literals(l) + Literals(m)
    decreases Ternary(l, m, None), 0
  {
    var a := Gen(l, k);
    var b := Gen(m, k + |a.consts|);
    GenConstants(l, k);
    GenConstants(m, k + |a.consts|);
    GenTernaryOf(l, m, k, a, k + |a.consts|, b);
    TernaryShape(a, b);
  }

  lemma {:induction false} TernaryElseConstants(l: Expr, m: Expr, alt: Expr, k: nat)
    ensures GenTernary(l, m, Some(alt), k).consts == Literals(l) + Literals(m) + Literals(alt)
    decreases Ternary(l, m, Some(alt)), 0
  {
    var a := Gen(l, k);
    var b := Gen(m, k + |a.consts|);
    var c := Gen(alt, k + |a.consts| + |b.consts|);
    GenConstants(l, k);
    GenConstants(m, k + |a.consts|);
    GenConstants(alt, k + |a.consts| + |b.consts|);
    GenTernaryElseOf(l, m, alt, k, a, k + |a.consts|, b, k + |a.consts| + |b.consts|, c);
    TernaryElseShape(a, b, c);
  }

  lemma {:induction false} GenAllConstants(es: seq<Expr>, k: nat)
    ensures GenAll(es, k).consts == LiteralsAll(es)
    decreases es, 0
  {
    if |es| > 0 {
      GenAllConstants(es[..|es| - 1], k);
      GenConstants(es[|es| - 1], k + |LiteralsAll(es[..|es| - 1])|);
    }
  }
}
