/** The model's outcome on small inputs to the cmpequal checker: the
    checker's own test package a, and single calls that show the message and
    typeName. */
module CmpEqualScenarios {
  import opened Wrappers
  import opened GoTypes
  import opened GoAst
  import opened Analysis
  import opened CmpEqual

  /** A call resolved to go-cmp's cmp.Equal. */
  function EqualCall(span: Span, args: seq<Arg>): CallSite
  {
    CallSite(span, Some(Func(EqualName, Symbol("github.com/google/go-cmp/cmp", "", "Equal"))), args)
  }

  /** The named type X of package a. */
  function X(): Type { Named(Some(TypesPackage("a", "a")), "X") }

  // The package a of cmpequal/testdata/src/a/a.go:
  //   func NewX() *X { return &X{} }
  //   func TestSomething(t *testing.T) {
  //     want := X{}; got := NewX()
  //     if !cmp.Equal(got, want) { t.Error("but they're not equal!") }
  //   }
  // Statements without calls are leaves; the offsets are the 0-based byte
  // offsets of the call expressions and their arguments in that file.

  function Got(): Arg { Arg(Pointer(X()), Span(229, 232), "got") }
  function Want(): Arg { Arg(X(), Span(234, 238), "want") }
  function NewXCall(): CallSite { CallSite(Span(207, 213), Some(Func("a.NewX", Symbol("a", "", "NewX"))), []) }
  function AEqualCall(): CallSite { EqualCall(Span(219, 239), [Got(), Want()]) }

  /** t.Error(...): a method of the embedded testing.common. */
  function ErrorCall(): CallSite
  {
    CallSite(Span(244, 277), Some(Func("(*testing.common).Error", Symbol("testing", "common", "Error"))),
             [Arg(Basic("untyped string"), Span(252, 276), "\"but they're not equal!\"")])
  }

  function NewXDecl(): Node { FuncDecl(Decl(Symbol("a", "", "NewX"), 0), [Other([])]) }
  function GotStmt(): Node { Other([Call(NewXCall(), [])]) }
  function IfStmt(): Node { Other([Other([Call(AEqualCall(), [])]), Other([Call(ErrorCall(), [])])]) }
  function TestDecl(): Node { FuncDecl(Decl(Symbol("a", "", "TestSomething"), 1), [Other([]), GotStmt(), IfStmt()]) }
  function AFile(): Node { Other([NewXDecl(), TestDecl()]) }

  /** A node whose only child is a call leaf. */
  lemma CallsOfWrapped(c: CallSite)
    ensures Calls(Other([Call(c, [])])) == [c]
  {
    CallsOfLeaf(Call(c, []));
    CallsInCons(Call(c, []), []);
  }

  lemma IfCalls()
    ensures Calls(IfStmt()) == [AEqualCall(), ErrorCall()]
  {
    CallsOfWrapped(AEqualCall());
    CallsOfWrapped(ErrorCall());
    CallsInTwo(IfStmt().children[0], IfStmt().children[1]);
  }

  lemma TestCalls()
    ensures Calls(TestDecl()) == [NewXCall(), AEqualCall(), ErrorCall()]
  {
    var kids := TestDecl().children;
    CallsOfLeaf(kids[0]);
    CallsOfWrapped(NewXCall());
    IfCalls();
    assert kids == [kids[0]] + [kids[1], kids[2]];
    CallsInCons(kids[0], [kids[1], kids[2]]);
    CallsInTwo(kids[1], kids[2]);
  }

  lemma NewXDeclCalls()
    ensures Calls(NewXDecl()) == []
  {
    CallsOfLeaf(Other([]));
    CallsInCons(Other([]), []);
  }

  lemma ACalls()
    ensures CallsIn([AFile()]) == [NewXCall(), AEqualCall(), ErrorCall()]
  {
    NewXDeclCalls();
    TestCalls();
    CallsInTwo(NewXDecl(), TestDecl());
    CallsInCons(AFile(), []);
  }

  lemma ExpectedThree(a: CallSite, b: CallSite, c: CallSite)
    requires WellFormed(a) && WellFormed(b) && WellFormed(c)
    ensures Expected([a, b, c]) == Inspect(a) + Inspect(b) + Inspect(c)
  {
    assert [a, b, c][..2] == [a, b] && [a, b][..1] == [a] && [a][..0] == [];
    assert Expected([a]) == Inspect(a);
    assert Expected([a, b]) == Expected([a]) + Inspect(b);
    assert Expected([a, b, c]) == Expected([a, b]) + Inspect(c);
  }

  /** NewX() and t.Error(...) are not calls of cmp.Equal. */
  lemma OtherCallsIgnored()
    ensures WellFormed(NewXCall()) && Inspect(NewXCall()) == []
    ensures WellFormed(ErrorCall()) && Inspect(ErrorCall()) == []
  {
    assert "a.NewX" != EqualName by {
      assert |"a.NewX"| != |EqualName|;
    }
    assert "(*testing.common).Error" != EqualName by {
      assert |"(*testing.common).Error"| != |EqualName|;
    }
  }

  lemma AEqualFixes()
    ensures Fixes(AEqualCall()) == [SuggestedFix("dereference pointer", [TextEdit(229, 232, "*got")])]
  {
    assert "*" + Got().text == "*got";
  }

  lemma AEqualInspect()
    ensures WellFormed(AEqualCall())
    ensures Inspect(AEqualCall()) ==
            [Diagnostic(219, 239, Message("*a.X", "a.X"),
                        [SuggestedFix("dereference pointer", [TextEdit(229, 232, "*got")])])]
  {
    AEqualFixes();
    assert TypeName(Pointer(X())) == "*a.X" && TypeName(X()) == "a.X";
  }

  /** cmp.Equal(got, want) with got of type *a.X and want of type a.X: one
      diagnostic over the whole call, naming *a.X and a.X, with the one fix
      that rewrites got as *got; the calls NewX() and t.Error(...) give
      nothing. */
  lemma PointerAndValueScenario()
    ensures (forall c | c in CallsIn([AFile()]) :: WellFormed(c))
    ensures Expected(CallsIn([AFile()])) ==
            [Diagnostic(219, 239, Message("*a.X", "a.X"),
                        [SuggestedFix("dereference pointer", [TextEdit(229, 232, "*got")])])]
  {
    ACalls();
    AExpected();
  }

  /** The walk over the three calls of a, in pre-order. */
  lemma AExpected()
    ensures forall c | c in [NewXCall(), AEqualCall(), ErrorCall()] :: WellFormed(c)
    ensures Expected([NewXCall(), AEqualCall(), ErrorCall()]) ==
            [Diagnostic(219, 239, Message("*a.X", "a.X"),
                        [SuggestedFix("dereference pointer", [TextEdit(229, 232, "*got")])])]
  {
    OtherCallsIgnored();
    AEqualInspect();
    ExpectedThree(NewXCall(), AEqualCall(), ErrorCall());
  }

  /** cmp.Equal(x, y) with x an int and y a string: a diagnostic without
      fixes. */
  lemma UnrelatedTypesScenario()
    ensures
      var call := EqualCall(Span(10, 30), [Arg(Basic("int"), Span(20, 21), "x"), Arg(Basic("string"), Span(23, 24), "y")]);
      Inspect(call) == [Diagnostic(10, 30, Message("int", "string"), [])]
  {
  }

  /** cmp.Equal(err, target) with err of the predeclared type error and
      target a *a.MyErr. */
  function ErrorTargetCall(): CallSite
  {
    EqualCall(Span(10, 30), [Arg(Named(None, "error"), Span(20, 23), "err"),
                             Arg(Pointer(Named(Some(TypesPackage("a", "a")), "MyErr")), Span(25, 29), "target")])
  }

  lemma ErrorTargetNames()
    ensures TypeNameAsWritten(Named(None, "error")).None?
    ensures TypeName(Named(None, "error")) == "error"
    ensures TypeName(Pointer(Named(Some(TypesPackage("a", "a")), "MyErr"))) == "*a.MyErr"
  {
  }

  /** The argument types differ, so typeName is applied to error, and
      typeName as written dereferences error's nil package; the corrected
      one names it `error`. */
  lemma ErrorArgumentScenario()
    ensures Flagged(ErrorTargetCall())
    ensures TypeNameAsWritten(ErrorTargetCall().args[0].typ).None?
    ensures Inspect(ErrorTargetCall()) == [Diagnostic(10, 30, Message("error", "*a.MyErr"), [])]
  {
    ErrorTargetNames();
    var c := ErrorTargetCall();
    assert !IsPointerTo(c.args[0].typ, c.args[1].typ) && !IsPointerTo(c.args[1].typ, c.args[0].typ);
    assert Fixes(c) == [];
  }
}
