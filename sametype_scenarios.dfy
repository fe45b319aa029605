/** The model's outcome on whole packages for the sametype checker: the
    checker's own test packages mycmp and a, and small packages that show how
    the export pass treats markers. */
module SameTypeScenarios {
  import opened Wrappers
  import opened GoTypes
  import opened GoAst
  import opened Analysis
  import opened SameType

  /** The marker call annotate.SameType() at the given span. */
  function Marker(span: Span): CallSite
  {
    CallSite(span, Some(Func(MarkerName, Symbol("annotate", "", "SameType"))), [])
  }

  /** A call of the package-level function pkg.name. */
  function CallOf(pkgPath: string, name: string, span: Span, args: seq<Arg>): CallSite
  {
    CallSite(span, Some(Func(pkgPath + "." + name, Symbol(pkgPath, "", name))), args)
  }

  lemma WalkInOne(a: Node, stack: seq<Node>)
    ensures WalkExportsIn([a], stack) == WalkExports(a, stack)
    ensures WalkReportsIn([a], stack) == WalkReports(a, stack)
  {
    assert [a][..0] == [];
  }

  lemma WalkInTwo(a: Node, b: Node, stack: seq<Node>)
    ensures WalkExportsIn([a, b], stack) == WalkExports(a, stack) + WalkExports(b, stack)
    ensures WalkReportsIn([a, b], stack) == WalkReports(a, stack) + WalkReports(b, stack)
  {
    assert [a, b][..1] == [a];
    WalkInOne(a, stack);
  }

  lemma CheckAllTwo(a: CallSite, b: CallSite, facts: set<Symbol>)
    requires ArgsPresent(a, facts) && ArgsPresent(b, facts)
    ensures CheckAll([a, b], facts) == CheckCall(a, facts) + CheckCall(b, facts)
  {
    assert [a, b][..1] == [a] && [a][..0] == [];
    assert CheckAll([a], facts) == CheckCall(a, facts);
  }

  /** The package mycmp (sametype/testdata/src/mycmp/equal.go):
      func Equal(a, b interface{}) bool { annotate.SameType(); return reflect.DeepEqual(a, b) } */
  function MycmpMarker(): CallSite { Marker(Span(120, 139)) }
  function MycmpDeepEqual(): CallSite
  {
    CallOf("reflect", "DeepEqual", Span(148, 172),
           [Arg(Literal("interface{}"), Span(166, 167), "a"), Arg(Literal("interface{}"), Span(169, 170), "b")])
  }
  function MycmpEqualDecl(): Node
  {
    FuncDecl(Decl(Symbol("mycmp", "", "Equal"), 1), [Call(MycmpMarker(), []), Other([Call(MycmpDeepEqual(), [])])])
  }
  function MycmpFile(): Node { Other([MycmpEqualDecl()]) }

  /** The package a (sametype/testdata/src/a/a.go): TestSomething calls
      mycmp.Equal(x, &y) with x and y ints, then fmt.Println. */
  function AEqualCall(): CallSite
  {
    CallOf("mycmp", "Equal", Span(200, 218),
           [Arg(Basic("int"), Span(212, 213), "x"), Arg(Pointer(Basic("int")), Span(215, 217), "&y")])
  }
  function APrintln(): CallSite
  {
    CallOf("fmt", "Println", Span(222, 260), [Arg(Basic("untyped string"), Span(234, 259), "\"but they're not equal!\"")])
  }
  function AFile(): Node
  {
    Other([FuncDecl(Decl(Symbol("a", "", "TestSomething"), 1), [Other([Call(AEqualCall(), []), Call(APrintln(), [])])])])
  }

  /** The marker in Equal, under the stack [file, Equal]: the fact for
      Equal and the arity report. */
  lemma MycmpMarkerWalk()
    ensures WalkExports(Call(MycmpMarker(), []), [MycmpFile(), MycmpEqualDecl()]) == {Symbol("mycmp", "", "Equal")}
    ensures WalkReports(Call(MycmpMarker(), []), [MycmpFile(), MycmpEqualDecl()]) == [Diagnostic(120, NoPos, ArityMessage, [])]
  {
    var stack := [MycmpFile(), MycmpEqualDecl()];
    ExportWalkStopsAtCalls(MycmpMarker(), [], stack);
    BadArityStillExports(MycmpMarker(), stack, 1);
    EnclosingFunctionGetsFact(MycmpMarker(), stack, 1);
  }

  /** The return statement of Equal holds no marker. */
  lemma MycmpReturnWalk()
    ensures WalkExports(Other([Call(MycmpDeepEqual(), [])]), [MycmpFile(), MycmpEqualDecl()]) == {}
    ensures WalkReports(Other([Call(MycmpDeepEqual(), [])]), [MycmpFile(), MycmpEqualDecl()]) == []
  {
    var ret := Other([Call(MycmpDeepEqual(), [])]);
    assert "reflect.DeepEqual"[0] != MarkerName[0];
    assert NoMarkers(ret) by {
      CallsInCons(Call(MycmpDeepEqual(), []), []);
    }
    NoMarkersExportNothing(ret, [MycmpFile(), MycmpEqualDecl()]);
  }

  lemma MycmpExports()
    ensures PackageExports([MycmpFile()]) == {Symbol("mycmp", "", "Equal")}
    ensures PackageReports([MycmpFile()]) == [Diagnostic(120, NoPos, ArityMessage, [])]
  {
    var stack := [MycmpFile(), MycmpEqualDecl()];
    var ret := Other([Call(MycmpDeepEqual(), [])]);
    assert [] + [MycmpFile()] == [MycmpFile()] && [MycmpFile()] + [MycmpEqualDecl()] == stack;
    WalkInOne(MycmpFile(), []);
    WalkInOne(MycmpEqualDecl(), [MycmpFile()]);
    WalkInTwo(Call(MycmpMarker(), []), ret, stack);
    MycmpMarkerWalk();
    MycmpReturnWalk();
  }

  lemma MycmpCalls()
    ensures CallsIn([MycmpFile()]) == [MycmpMarker(), MycmpDeepEqual()]
  {
    CallsInCons(MycmpFile(), []);
    CallsInCons(MycmpEqualDecl(), []);
    CallsInTwo(Call(MycmpMarker(), []), Other([Call(MycmpDeepEqual(), [])]));
    CallsInCons(Call(MycmpDeepEqual(), []), []);
  }

  function ABody(): seq<Node> { [Call(AEqualCall(), []), Call(APrintln(), [])] }

  lemma ACalls()
    ensures CallsIn([AFile()]) == [AEqualCall(), APrintln()]
  {
    var decl := AFile().children[0];
    CallsInCons(AFile(), []);
    CallsInCons(decl, []);
    CallsInCons(Other(ABody()), []);
    CallsInTwo(ABody()[0], ABody()[1]);
  }

  lemma AExports()
    ensures PackageExports([AFile()]) == {}
    ensures PackageReports([AFile()]) == []
  {
    ACalls();
    assert AEqualCall().callee.value.fullName != MarkerName by {
      assert |AEqualCall().callee.value.fullName| != |MarkerName|;
    }
    assert APrintln().callee.value.fullName != MarkerName by {
      assert |APrintln().callee.value.fullName| != |MarkerName|;
    }
    CallsInCons(AFile(), []);
    assert NoMarkers(AFile());
    NoMarkersExportNothing(AFile(), []);
    WalkInOne(AFile(), []);
  }

  /** Analysing mycmp, then a, with one shared fact store: Equal(a, b
      interface{}) has ONE parameter field group, so mycmp gets the arity
      diagnostic at its marker, and Equal still gets the fact; the call in
      a, which sees only that fact, is reported with the message "Calls to
      Equal must have arguments of the same type; is called with int and
      *int". */
  lemma CrossPackageScenario()
    ensures var pkgs := [[MycmpFile()], [AFile()]];
      && ExportsUpTo(pkgs, 1) == {Symbol("mycmp", "", "Equal")}
      && ExportsUpTo(pkgs, 2) == {Symbol("mycmp", "", "Equal")}
      && PackageArgsPresent(pkgs[0], ExportsUpTo(pkgs, 1))
      && PackageArgsPresent(pkgs[1], ExportsUpTo(pkgs, 2))
      && PackageDiagnostics(pkgs[0], ExportsUpTo(pkgs, 1)) == [Diagnostic(120, NoPos, ArityMessage, [])]
      && PackageDiagnostics(pkgs[1], ExportsUpTo(pkgs, 2))
         == [Diagnostic(200, NoPos, CallMessage("Equal", Basic("int"), Pointer(Basic("int"))), [])]
  {
    var pkgs := [[MycmpFile()], [AFile()]];
    MycmpExports();
    AExports();
    assert ExportsUpTo(pkgs, 1) == {Symbol("mycmp", "", "Equal")};
    assert ExportsUpTo(pkgs, 2) == {Symbol("mycmp", "", "Equal")};
    MycmpDiagnostics();
    ADiagnostics();
  }

  /** The two argument types of the call in a print as `int` and `*int`. */
  lemma AArgumentTypesPrint()
    ensures TypeString(AEqualCall().args[0].typ) == "int"
    ensures TypeString(AEqualCall().args[1].typ) == "*int"
  {
    assert TypeString(Pointer(Basic("int"))) == "*" + "int";
  }

  lemma MycmpDiagnostics()
    ensures PackageArgsPresent([MycmpFile()], {Symbol("mycmp", "", "Equal")})
    ensures PackageDiagnostics([MycmpFile()], {Symbol("mycmp", "", "Equal")}) == [Diagnostic(120, NoPos, ArityMessage, [])]
  {
    MycmpExports();
    MycmpCalls();
    NoFactNoDiagnostic(CallsIn([MycmpFile()]), {Symbol("mycmp", "", "Equal")});
  }

  lemma ADiagnostics()
    ensures PackageArgsPresent([AFile()], {Symbol("mycmp", "", "Equal")})
    ensures PackageDiagnostics([AFile()], {Symbol("mycmp", "", "Equal")})
            == [Diagnostic(200, NoPos, CallMessage("Equal", Basic("int"), Pointer(Basic("int"))), [])]
  {
    AExports();
    ACalls();
    CheckAllTwo(AEqualCall(), APrintln(), {Symbol("mycmp", "", "Equal")});
    assert CheckCall(APrintln(), {Symbol("mycmp", "", "Equal")}) == [];
  }

  /** A marker inside a closure that is itself called
      (`defer func() { annotate.SameType() }()` in a function with two
      parameter groups) is never seen by the export pass: the closure is the
      function of the deferred call, which has no *types.Func callee, and the
      export walk does not descend below any call.  The check pass still
      visits the marker. */
  lemma MarkerInsideCalledClosureScenario()
    ensures var marker := Marker(Span(40, 59));
            var deferred := CallSite(Span(20, 62), None, []);
            var file := Other([FuncDecl(Decl(Symbol("p", "", "Eq"), 2), [Call(deferred, [Other([Call(marker, [])])])])]);
      && marker in CallsIn([file])
      && PackageExports([file]) == {}
      && PackageReports([file]) == []
  {
    var marker := Marker(Span(40, 59));
    var deferred := CallSite(Span(20, 62), None, []);
    var decl := FuncDecl(Decl(Symbol("p", "", "Eq"), 2), [Call(deferred, [Other([Call(marker, [])])])]);
    var file := Other([decl]);
    assert [] + [file] == [file] && [file] + [decl] == [file, decl];
    WalkInOne(file, []);
    WalkInOne(decl, [file]);
    ExportWalkStopsAtCalls(deferred, [Other([Call(marker, [])])], [file, decl]);
    CallsInCons(file, []);
    CallsInCons(decl, []);
    CallsInCons(Call(deferred, [Other([Call(marker, [])])]), []);
    CallsInCons(Other([Call(marker, [])]), []);
    CallsInCons(Call(marker, []), []);
  }

  /** The call F(1, "x") of FactBeforeDeclarationScenario. */
  function EarlyCall(): CallSite
  {
    CallOf("p", "F", Span(30, 45), [Arg(Basic("int"), Span(32, 33), "1"), Arg(Basic("string"), Span(35, 38), "\"x\"")])
  }

  /** F's marker. */
  function FMarker(): CallSite { Marker(Span(70, 89)) }

  /** func G() { F(1, "x") } followed by func F(a int, b string) { annotate.SameType() }. */
  function EarlyCallFile(): Node
  {
    Other([FuncDecl(Decl(Symbol("p", "", "G"), 0), [Call(EarlyCall(), [])]),
           FuncDecl(Decl(Symbol("p", "", "F"), 2), [Call(FMarker(), [])])])
  }

  lemma EarlyCallExports()
    ensures PackageExports([EarlyCallFile()]) == {Symbol("p", "", "F")}
    ensures PackageReports([EarlyCallFile()]) == []
  {
    var file := EarlyCallFile();
    var user, f := file.children[0], file.children[1];
    assert [] + [file] == [file] && [file] + [user] == [file, user] && [file] + [f] == [file, f];
    WalkInOne(file, []);
    WalkInTwo(user, f, [file]);
    WalkInOne(Call(EarlyCall(), []), [file, user]);
    WalkInOne(Call(FMarker(), []), [file, f]);
    assert EarlyCall().callee.value.fullName != MarkerName by {
      assert |EarlyCall().callee.value.fullName| != |MarkerName|;
    }
    ExportWalkStopsAtCalls(EarlyCall(), [], [file, user]);
    ExportWalkStopsAtCalls(FMarker(), [], [file, f]);
    EnclosingFunctionGetsFact(FMarker(), [file, f], 1);
    BadArityStillExports(FMarker(), [file, f], 1);
  }

  lemma EarlyCallCalls()
    ensures CallsIn([EarlyCallFile()]) == [EarlyCall(), FMarker()]
  {
    var file := EarlyCallFile();
    CallsInCons(file, []);
    CallsInTwo(file.children[0], file.children[1]);
    CallsInCons(Call(EarlyCall(), []), []);
    CallsInCons(Call(FMarker(), []), []);
  }

  /** One file: a call F(1, "x") comes BEFORE the declaration of F that holds
      the marker; it is reported all the same, because the export pass
      covers the package first. */
  lemma FactBeforeDeclarationScenario()
    ensures var files := [EarlyCallFile()];
      && PackageExports(files) == {Symbol("p", "", "F")}
      && PackageArgsPresent(files, PackageExports(files))
      && PackageDiagnostics(files, PackageExports(files)) == [CheckDiagnostic(EarlyCall())]
  {
    EarlyCallExports();
    EarlyCallCalls();
    CheckAllTwo(EarlyCall(), FMarker(), {Symbol("p", "", "F")});
  }

  /** The marker in the method (T).Eq of MethodFactScenario. */
  function TMarker(): CallSite { Marker(Span(40, 59)) }

  /** The call Eq(1, "x") of MethodFactScenario, whose callee is the
      package-level function Eq. */
  function FuncEqCall(): CallSite
  {
    CallOf("p", "Eq", Span(90, 102), [Arg(Basic("int"), Span(93, 94), "1"), Arg(Basic("string"), Span(96, 99), "\"x\"")])
  }

  /** func (T) Eq(a int, b string) { annotate.SameType() } followed by
      func G() { Eq(1, "x") }, where Eq is a package-level function of the
      same package without a marker. */
  function MethodFactFile(): Node
  {
    Other([FuncDecl(Decl(Symbol("p", "T", "Eq"), 2), [Call(TMarker(), [])]),
           FuncDecl(Decl(Symbol("p", "", "G"), 0), [Call(FuncEqCall(), [])])])
  }

  lemma MethodFactExports()
    ensures PackageExports([MethodFactFile()]) == {Symbol("p", "T", "Eq")}
    ensures PackageReports([MethodFactFile()]) == []
  {
    var file := MethodFactFile();
    var m, user := file.children[0], file.children[1];
    assert [] + [file] == [file] && [file] + [m] == [file, m] && [file] + [user] == [file, user];
    WalkInOne(file, []);
    WalkInTwo(m, user, [file]);
    WalkInOne(Call(TMarker(), []), [file, m]);
    WalkInOne(Call(FuncEqCall(), []), [file, user]);
    assert FuncEqCall().callee.value.fullName != MarkerName by {
      assert |FuncEqCall().callee.value.fullName| != |MarkerName|;
    }
    ExportWalkStopsAtCalls(TMarker(), [], [file, m]);
    ExportWalkStopsAtCalls(FuncEqCall(), [], [file, user]);
    EnclosingFunctionGetsFact(TMarker(), [file, m], 1);
    BadArityStillExports(TMarker(), [file, m], 1);
  }

  lemma MethodFactCalls()
    ensures CallsIn([MethodFactFile()]) == [TMarker(), FuncEqCall()]
  {
    var file := MethodFactFile();
    CallsInCons(file, []);
    CallsInTwo(file.children[0], file.children[1]);
    CallsInCons(Call(TMarker(), []), []);
    CallsInCons(Call(FuncEqCall(), []), []);
  }

  /** A marker in the method (T).Eq gives the fact to the method only: the
      call Eq(1, "x") of the package-level function Eq, which has the same
      name and package, is not reported. */
  lemma MethodFactScenario()
    ensures var files := [MethodFactFile()];
      && PackageExports(files) == {Symbol("p", "T", "Eq")}
      && FuncEqCall().callee.value.sym.name == "Eq"
      && !HasFact(FuncEqCall(), PackageExports(files))
      && PackageArgsPresent(files, PackageExports(files))
      && PackageDiagnostics(files, PackageExports(files)) == []
  {
    MethodFactExports();
    MethodFactCalls();
    CheckAllTwo(TMarker(), FuncEqCall(), {Symbol("p", "T", "Eq")});
    assert CheckCall(TMarker(), {Symbol("p", "T", "Eq")}) == [];
    assert CheckCall(FuncEqCall(), {Symbol("p", "T", "Eq")}) == [];
  }

  /** H's marker. */
  function HMarker(): CallSite { Marker(Span(20, 39)) }

  /** The call H(1, "x", 2). */
  function HCall(): CallSite
  {
    CallOf("p", "H", Span(60, 75), [Arg(Basic("int"), Span(62, 63), "1"), Arg(Basic("string"), Span(65, 68), "\"x\""),
                                   Arg(Basic("int"), Span(70, 71), "2")])
  }

  /** func H(a, b, c interface{}) { annotate.SameType() } followed by
      func G() { H(1, "x", 2) }. */
  function MisuseFile(): Node
  {
    Other([FuncDecl(Decl(Symbol("p", "", "H"), 1), [Call(HMarker(), [])]),
           FuncDecl(Decl(Symbol("p", "", "G"), 0), [Call(HCall(), [])])])
  }

  /** The declaration of H: its marker gives the fact and the arity report. */
  lemma MisuseHWalk()
    ensures WalkExports(MisuseFile().children[0], [MisuseFile()]) == {Symbol("p", "", "H")}
    ensures WalkReports(MisuseFile().children[0], [MisuseFile()]) == [Diagnostic(20, NoPos, ArityMessage, [])]
  {
    var file := MisuseFile();
    var h := file.children[0];
    assert [file] + [h] == [file, h];
    WalkInOne(Call(HMarker(), []), [file, h]);
    ExportWalkStopsAtCalls(HMarker(), [], [file, h]);
    EnclosingFunctionGetsFact(HMarker(), [file, h], 1);
    BadArityStillExports(HMarker(), [file, h], 1);
  }

  /** The declaration of G: its call of H exports and reports nothing. */
  lemma MisuseUserWalk()
    ensures WalkExports(MisuseFile().children[1], [MisuseFile()]) == {}
    ensures WalkReports(MisuseFile().children[1], [MisuseFile()]) == []
  {
    var file := MisuseFile();
    var user := file.children[1];
    assert [file] + [user] == [file, user];
    WalkInOne(Call(HCall(), []), [file, user]);
    assert HCall().callee.value.fullName != MarkerName by {
      assert |HCall().callee.value.fullName| != |MarkerName|;
    }
    ExportWalkStopsAtCalls(HCall(), [], [file, user]);
  }

  lemma MisuseExports()
    ensures PackageExports([MisuseFile()]) == {Symbol("p", "", "H")}
    ensures PackageReports([MisuseFile()]) == [Diagnostic(20, NoPos, ArityMessage, [])]
  {
    var file := MisuseFile();
    var h, user := file.children[0], file.children[1];
    assert [] + [file] == [file];
    WalkInOne(file, []);
    WalkInTwo(h, user, [file]);
    MisuseHWalk();
    MisuseUserWalk();
  }

  lemma MisuseCalls()
    ensures CallsIn([MisuseFile()]) == [HMarker(), HCall()]
  {
    var file := MisuseFile();
    CallsInCons(file, []);
    CallsInTwo(file.children[0], file.children[1]);
    CallsInCons(Call(HCall(), []), []);
    CallsInCons(Call(HMarker(), []), []);
  }

  /** A marker in `func H(a, b, c interface{})` (three parameters in ONE field
      group) is reported, and H still gets the fact, so the later call
      H(1, "x", 2) is reported too. */
  lemma MisuseStillConstrainsCallers()
    ensures var files := [MisuseFile()];
      && PackageExports(files) == {Symbol("p", "", "H")}
      && PackageArgsPresent(files, PackageExports(files))
      && PackageDiagnostics(files, PackageExports(files))
         == [Diagnostic(20, NoPos, ArityMessage, []), CheckDiagnostic(HCall())]
  {
    MisuseExports();
    MisuseCalls();
    MisuseChecks();
  }

  /** The check pass over H's marker and the call of H. */
  lemma MisuseChecks()
    ensures ArgsPresent(HMarker(), {Symbol("p", "", "H")}) && ArgsPresent(HCall(), {Symbol("p", "", "H")})
    ensures CheckAll([HMarker(), HCall()], {Symbol("p", "", "H")}) == [CheckDiagnostic(HCall())]
  {
    CheckAllTwo(HMarker(), HCall(), {Symbol("p", "", "H")});
  }

  /** The call F() of MisuseAllowsShortCall. */
  function ShortCall(): CallSite { CallOf("p", "F", Span(60, 63), []) }

  /** func F() { annotate.SameType() } followed by func G() { F() }. */
  function ShortCallFile(): Node
  {
    Other([FuncDecl(Decl(Symbol("p", "", "F"), 0), [Call(HMarker(), [])]),
           FuncDecl(Decl(Symbol("p", "", "G"), 0), [Call(ShortCall(), [])])])
  }

  /** A marker in `func F()` (no parameters) is reported and F still gets
      the fact; the call F() then carries the fact but has no arguments, so
      the check pass's requirement fails: the code would index call.Args[0]
      of an empty argument list. */
  lemma MisuseAllowsShortCall()
    ensures Symbol("p", "", "F") in PackageExports([ShortCallFile()])
    ensures PackageReports([ShortCallFile()]) == [Diagnostic(20, NoPos, ArityMessage, [])]
    ensures !PackageArgsPresent([ShortCallFile()], PackageExports([ShortCallFile()]))
  {
    ShortExports();
    ShortCalls();
    assert !ArgsPresent(ShortCall(), PackageExports([ShortCallFile()]));
  }

  lemma ShortExports()
    ensures PackageExports([ShortCallFile()]) == {Symbol("p", "", "F")}
    ensures PackageReports([ShortCallFile()]) == [Diagnostic(20, NoPos, ArityMessage, [])]
  {
    var file := ShortCallFile();
    var f, user := file.children[0], file.children[1];
    assert [] + [file] == [file];
    WalkInOne(file, []);
    WalkInTwo(f, user, [file]);
    ShortFWalk();
    ShortUserWalk();
  }

  lemma ShortCalls()
    ensures CallsIn([ShortCallFile()]) == [HMarker(), ShortCall()]
  {
    var file := ShortCallFile();
    CallsInCons(file, []);
    CallsInTwo(file.children[0], file.children[1]);
    CallsInCons(Call(HMarker(), []), []);
    CallsInCons(Call(ShortCall(), []), []);
  }

  /** The declaration of F: its marker gives the fact and the arity report. */
  lemma ShortFWalk()
    ensures WalkExports(ShortCallFile().children[0], [ShortCallFile()]) == {Symbol("p", "", "F")}
    ensures WalkReports(ShortCallFile().children[0], [ShortCallFile()]) == [Diagnostic(20, NoPos, ArityMessage, [])]
  {
    var file := ShortCallFile();
    var f := file.children[0];
    assert [file] + [f] == [file, f];
    WalkInOne(Call(HMarker(), []), [file, f]);
    ExportWalkStopsAtCalls(HMarker(), [], [file, f]);
    EnclosingFunctionGetsFact(HMarker(), [file, f], 1);
    BadArityStillExports(HMarker(), [file, f], 1);
  }

  /** The declaration of G: its call F() exports and reports nothing. */
  lemma ShortUserWalk()
    ensures WalkExports(ShortCallFile().children[1], [ShortCallFile()]) == {}
    ensures WalkReports(ShortCallFile().children[1], [ShortCallFile()]) == []
  {
    var file := ShortCallFile();
    var user := file.children[1];
    assert [file] + [user] == [file, user];
    WalkInOne(Call(ShortCall(), []), [file, user]);
    assert ShortCall().callee.value.fullName != MarkerName by {
      assert |ShortCall().callee.value.fullName| != |MarkerName|;
    }
    ExportWalkStopsAtCalls(ShortCall(), [], [file, user]);
  }
}
