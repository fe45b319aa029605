/** The syntax trees the checkers walk, reduced to the three kinds of node
    they distinguish, with the facts the type checker resolved for them
    attached as data. */
module GoAst {
  import opened Wrappers
  import opened GoTypes

  /** A source range [pos, end) in token.Pos offsets; 0 is token.NoPos. */
  datatype Span = Span(pos: nat, end: nat)

  /** The identity of a declared function object (types.Object), stable across
      packages: its package path, the name of its receiver's base type ("" for
      a package-level function) and its name.  A method (T).Equal and a
      function Equal of the same package are different objects. */
  datatype Symbol = Symbol(pkgPath: string, recv: string, name: string)

  /** A statically resolved callee that is a *types.Func: its FullName() and
      its object.  Its Name() is `sym.name`. */
  datatype Func = Func(fullName: string, sym: Symbol)

  /** An argument expression: its resolved type (pass.TypesInfo.Types), its
      span and its source text as go/printer formats it. */
  datatype Arg = Arg(typ: Type, span: Span, text: string)

  /** An *ast.CallExpr: its span, the result of typeutil.Callee narrowed to
      *types.Func (None when that is nil) and its arguments. */
  datatype CallSite = CallSite(span: Span, callee: Option<Func>, args: seq<Arg>)

  /** An *ast.FuncDecl: the object it defines (TypesInfo.Defs of its name)
      and len(Type.Params.List), the number of parameter field groups. */
  datatype Decl = Decl(sym: Symbol, paramGroups: nat)

  /** A syntax tree node.  The children of a call are the subtrees of its
      function expression and of its arguments. */
  datatype Node =
    | Call(site: CallSite, children: seq<Node>)
    | FuncDecl(decl: Decl, children: seq<Node>)
    | Other(children: seq<Node>)

  /** The call nodes of a tree in pre-order, the order in which
      inspector.Preorder visits them. */
  function Calls(n: Node): seq<CallSite>
  {
    (if n.Call? then [n.site] else []) + CallsIn(n.children)
  }

  /** The call nodes of a sequence of trees (the files of a package), tree
      after tree. */
  function CallsIn(ns: seq<Node>): seq<CallSite>
  {
    if ns == [] then [] else Calls(ns[0]) + CallsIn(ns[1..])
  }

  /** The calls of a sequence of trees are those of its first tree followed
      by those of the rest. */
  lemma CallsInCons(n: Node, ns: seq<Node>)
    ensures CallsIn([n] + ns) == Calls(n) + CallsIn(ns)
    ensures CallsIn([n]) == Calls(n)
  {
    assert [n][1..] == [];
    assert ([n] + ns)[1..] == ns;
  }

  /** The calls of a leaf node: itself if it is a call. */
  lemma CallsOfLeaf(n: Node)
    requires n.children == []
    ensures Calls(n) == if n.Call? then [n.site] else []
  {
  }

  /** The calls of two sibling trees, in order. */
  lemma CallsInTwo(a: Node, b: Node)
    ensures CallsIn([a, b]) == Calls(a) + Calls(b)
  {
    assert [a, b] == [a] + [b];
    CallsInCons(a, [b]);
    CallsInCons(b, []);
  }

  /** Every call of one of the trees is a call of the sequence. */
  lemma {:induction false} CallsInIncludes(ns: seq<Node>, k: nat)
    requires k < |ns|
    ensures forall c | c in Calls(ns[k]) :: c in CallsIn(ns)
  {
    if k > 0 {
      CallsInIncludes(ns[1..], k - 1);
    }
  }
}
