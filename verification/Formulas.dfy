/** Which parsed formulas the review validator accepts: the syntax tree and the worklist scan over it. */
module Formulas {
  import opened Lists

  datatype Operator =
    | Add | Sub | Mult | Div | Mod | Pow | FloorDiv
    | MatMult | LShift | RShift | BitOr | BitXor | BitAnd

  datatype UnaryOperator = UAdd | USub | Not | Invert

  /** An expression; everything beyond names, constants and operators is `Other` with its parts. */
  datatype Expr =
    | Constant(text: string)
    | Name(id: string)
    | BinOp(left: Expr, op: Operator, right: Expr)
    | UnaryOp(uop: UnaryOperator, operand: Expr)
    | Other(kind: string, parts: seq<Expr>)

  /** The nodes of the tree as a walk meets them: operators and the load context are nodes too. */
  datatype Node =
    | ExpressionNode(body: Expr)
    | ExprNode(expr: Expr)
    | OperatorNode(op: Operator)
    | UnaryNode(uop: UnaryOperator)
    | LoadNode

  predicate AllowedOperator(op: Operator) {
    op.Add? || op.Sub? || op.Mult? || op.Div? || op.Mod? || op.Pow? || op.FloorDiv?
  }

  /** The kinds of node the validator lets pass, looking at the node alone. */
  predicate Allowed(n: Node) {
    match n
    case ExpressionNode(_) => true
    case ExprNode(e) => !e.Other?
    case OperatorNode(op) => AllowedOperator(op)
    case UnaryNode(u) => u.UAdd? || u.USub?
    case LoadNode => true
  }

  function Exprs(parts: seq<Expr>): seq<Node> {
    if parts == [] then [] else [ExprNode(parts[0])] + Exprs(parts[1..])
  }

  /** `ast.iter_child_nodes` */
  function Children(n: Node): seq<Node> {
    match n
    case ExpressionNode(body) => [ExprNode(body)]
    case ExprNode(Constant(_)) => []
    case ExprNode(Name(_)) => [LoadNode]
    case ExprNode(BinOp(l, op, r)) => [ExprNode(l), OperatorNode(op), ExprNode(r)]
    case ExprNode(UnaryOp(u, e)) => [UnaryNode(u), ExprNode(e)]
    case ExprNode(Other(_, parts)) => Exprs(parts)
    case OperatorNode(_) => []
    case UnaryNode(_) => []
    case LoadNode => []
  }

  // ---------- the arithmetic grammar ----------

  /** Arithmetic: constants, names, and operators applied to arithmetic, but no matrix product and no bit operation. */
  predicate Arithmetic(e: Expr) {
    match e
    case Constant(_) => true
    case Name(_) => true
    case BinOp(l, op, r) =>
      Arithmetic(l) && Arithmetic(r) && op !in {MatMult, LShift, RShift, BitOr, BitXor, BitAnd}
    case UnaryOp(u, x) => u != Not && u != Invert && Arithmetic(x)
    case Other(_, _) => false
  }

  predicate ArithmeticText(formula: string, parse: string -> Option<Expr>) {
    formula != "" && parse(formula).Some? && Arithmetic(parse(formula).value)
  }

  // ---------- the scan ----------

  ghost function ExprSize(e: Expr): (s: nat)
    ensures s >= 2
  {
    match e
    case Constant(_) => 2
    case Name(_) => 3
    case BinOp(l, _, r) => 2 + ExprSize(l) + ExprSize(r)
    case UnaryOp(_, x) => 2 + ExprSize(x)
    case Other(_, parts) => 2 + ExprsSize(parts)
  }

  ghost function ExprsSize(parts: seq<Expr>): nat {
    if parts == [] then 0 else ExprSize(parts[0]) + ExprsSize(parts[1..])
  }

  ghost function Size(n: Node): (s: nat)
    ensures s >= 1
  {
    match n
    case ExpressionNode(body) => 1 + ExprSize(body)
    case ExprNode(e) => ExprSize(e)
    case _ => 1
  }

  ghost function TotalSize(ns: seq<Node>): nat {
    if ns == [] then 0 else Size(ns[0]) + TotalSize(ns[1..])
  }

  lemma {:induction false} TotalSizeConcat(a: seq<Node>, b: seq<Node>)
    ensures TotalSize(a + b) == TotalSize(a) + TotalSize(b)
  {
    if a == [] {
      assert a + b == b;
    } else {
      assert (a + b)[1..] == a[1..] + b;
      TotalSizeConcat(a[1..], b);
    }
  }

  lemma {:induction false} ExprsTotal(parts: seq<Expr>)
    ensures TotalSize(Exprs(parts)) == ExprsSize(parts)
  {
    if parts != [] {
      ExprsTotal(parts[1..]);
      assert Exprs(parts)[1..] == Exprs(parts[1..]);
    }
  }

  lemma ChildrenSmaller(n: Node)
    ensures TotalSize(Children(n)) < Size(n)
  {
    match n
    case ExprNode(BinOp(l, op, r)) =>
      var a, b, c := ExprNode(l), OperatorNode(op), ExprNode(r);
      assert [a, b, c][1..] == [b, c] && [b, c][1..] == [c] && [c][1..] == [];
      assert TotalSize([c]) == Size(c);
    case ExprNode(UnaryOp(u, e)) =>
      var a, b := UnaryNode(u), ExprNode(e);
      assert [a, b][1..] == [b] && [b][1..] == [];
      assert TotalSize([b]) == Size(b);
    case ExprNode(Other(_, parts)) => ExprsTotal(parts);
    case _ =>
  }

  /** What the grammar says of one node and everything below it. */
  ghost predicate Fine(n: Node) {
    match n
    case ExpressionNode(body) => Arithmetic(body)
    case ExprNode(e) => Arithmetic(e)
    case _ => Allowed(n)
  }

  ghost predicate AllFine(ns: seq<Node>) {
    forall n :: n in ns ==> Fine(n)
  }

  /** A node is fine exactly when it is allowed itself and its children are fine. */
  lemma FineUnfolds(n: Node)
    ensures Fine(n) <==> Allowed(n) && AllFine(Children(n))
  {
    match n
    case ExpressionNode(body) =>
      FineOne(ExprNode(body));
    case ExprNode(BinOp(l, op, r)) =>
      FineOne(ExprNode(l));
      FineOne(OperatorNode(op));
      FineOne(ExprNode(r));
      FineConcat([ExprNode(l)], [OperatorNode(op)]);
      FineConcat([ExprNode(l)] + [OperatorNode(op)], [ExprNode(r)]);
      assert Children(n) == [ExprNode(l)] + [OperatorNode(op)] + [ExprNode(r)];
    case ExprNode(UnaryOp(u, e)) =>
      FineOne(UnaryNode(u));
      FineOne(ExprNode(e));
      FineConcat([UnaryNode(u)], [ExprNode(e)]);
      assert Children(n) == [UnaryNode(u)] + [ExprNode(e)];
    case _ =>
  }

  /**
   * `_is_formula_valid`: parse, then take nodes from the front, add their children at the back, and stop at the first
   * node of another kind. Exactly the non-empty texts that parse to arithmetic are accepted.
   */
  method IsFormulaValid(formula: string, parse: string -> Option<Expr>) returns (valid: bool)
    ensures valid <==> ArithmeticText(formula, parse)
  {
    if formula == "" {
      return false;
    }
    var parsed := parse(formula);
    if parsed.None? {
      return false;
    }
    var todo := [ExpressionNode(parsed.value)];
    FineOne(todo[0]);
    while todo != []
      invariant Arithmetic(parsed.value) <==> AllFine(todo)
      decreases TotalSize(todo)
    {
      var node, rest := todo[0], todo[1..];
      ChildrenSmaller(node);
      TotalSizeConcat(rest, Children(node));
      FineUnfolds(node);
      assert todo == [node] + rest;
      assert AllFine(todo) <==> Fine(node) && AllFine(rest) by { FineConcat([node], rest); FineOne(node); }
      FineConcat(rest, Children(node));
      if !Allowed(node) {
        return false;
      }
      todo := rest + Children(node);
    }
    return true;
  }

  lemma FineConcat(a: seq<Node>, b: seq<Node>)
    ensures AllFine(a + b) <==> AllFine(a) && AllFine(b)
  {
    hide Fine;
    forall n | n in a || n in b ensures n in a + b {}
  }

  lemma FineOne(n: Node)
    ensures AllFine([n]) <==> Fine(n)
  {
    hide Fine;
    assert n in [n];
  }
}
