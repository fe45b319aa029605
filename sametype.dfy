/** The sametype checker.  A call of the marker annotate.SameType inside a
    function declaration attaches a SameType fact to that function (the
    export pass); every call of a function carrying the fact, in this
    package or in any package analysed later, whose first two argument
    types differ is reported (the check pass). */
module SameType {
  import opened Wrappers
  import opened GoTypes
  import opened GoAst
  import opened Analysis

  /** The FullName() of the marker function. */
  const MarkerName: string := "annotate.SameType"

  /** Reported at a marker whose declaration does not have two parameter
      field groups. */
  const ArityMessage: string := "SameType annotation can only be added to funcs with two arguments"

  /** The message of the check pass; %v of a type prints TypeString. */
  function CallMessage(fnName: string, t0: Type, t1: Type): string
  {
    "Calls to " + fnName + " must have arguments of the same type; "
    + "is called with " + TypeString(t0) + " and " + TypeString(t1)
  }

  /** A statically resolved call of the marker. */
  predicate IsMarker(site: CallSite)
  {
    site.callee.Some? && site.callee.value.fullName == MarkerName
  }

  // ---------------------------------------------------------------------
  // Export pass: specification

  /** The first function declaration met scanning the stack from the root. */
  function FirstFuncDecl(stack: seq<Node>): Option<Decl>
  {
    if stack == [] then None
    else if stack[0].FuncDecl? then Some(stack[0].decl)
    else FirstFuncDecl(stack[1..])
  }

  /** The facts the visitor exports when it is pushed on `call`; `stack`
      runs from the root of the file to the call itself. */
  function ExportsAt(call: CallSite, stack: seq<Node>): set<Symbol>
  {
    if IsMarker(call) && FirstFuncDecl(stack).Some? then {FirstFuncDecl(stack).value.sym} else {}
  }

  /** The diagnostics the visitor reports when it is pushed on `call`. */
  function ReportsAt(call: CallSite, stack: seq<Node>): seq<Diagnostic>
  {
    if IsMarker(call) && FirstFuncDecl(stack).Some? && FirstFuncDecl(stack).value.paramGroups != 2
    then [Diagnostic(call.span.pos, NoPos, ArityMessage, [])]
    else []
  }

  /** The facts exported by the WithStack walk of `n`, whose ancestors are
      `stack`.  The walk does not go below a call node, because the visitor
      refuses to descend on every push. */
  function WalkExports(n: Node, stack: seq<Node>): set<Symbol>
  {
    if n.Call? then ExportsAt(n.site, stack + [n]) else WalkExportsIn(n.children, stack + [n])
  }

  /** The facts exported by the walks of sibling trees, one after another. */
  function WalkExportsIn(ns: seq<Node>, stack: seq<Node>): set<Symbol>
  {
    if ns == [] then {} else WalkExportsIn(ns[..|ns| - 1], stack) + WalkExports(ns[|ns| - 1], stack)
  }

  /** The diagnostics reported by the WithStack walk of `n`. */
  function WalkReports(n: Node, stack: seq<Node>): seq<Diagnostic>
  {
    if n.Call? then ReportsAt(n.site, stack + [n]) else WalkReportsIn(n.children, stack + [n])
  }

  /** The diagnostics reported by the walks of sibling trees, in order. */
  function WalkReportsIn(ns: seq<Node>, stack: seq<Node>): seq<Diagnostic>
  {
    if ns == [] then [] else WalkReportsIn(ns[..|ns| - 1], stack) + WalkReports(ns[|ns| - 1], stack)
  }

  /** The facts the export pass exports for the files of a package. */
  function PackageExports(files: seq<Node>): set<Symbol>
  {
    WalkExportsIn(files, [])
  }

  /** The diagnostics the export pass reports for the files of a package. */
  function PackageReports(files: seq<Node>): seq<Diagnostic>
  {
    WalkReportsIn(files, [])
  }

  // ---------------------------------------------------------------------
  // Check pass: specification

  /** The callee of the call carries the SameType fact. */
  predicate HasFact(site: CallSite, facts: set<Symbol>)
  {
    site.callee.Some? && site.callee.value.sym in facts
  }

  /** What the check pass demands of a call: if its callee carries the
      fact, the two arguments it indexes exist. */
  predicate ArgsPresent(site: CallSite, facts: set<Symbol>)
  {
    HasFact(site, facts) ==> |site.args| >= 2
  }

  /** The diagnostic of the check pass for a call. */
  function CheckDiagnostic(site: CallSite): Diagnostic
    requires site.callee.Some? && |site.args| >= 2
  {
    Diagnostic(site.span.pos, NoPos, CallMessage(site.callee.value.sym.name, site.args[0].typ, site.args[1].typ), [])
  }

  /** What checkForFact reports for one call. */
  function CheckCall(site: CallSite, facts: set<Symbol>): seq<Diagnostic>
    requires ArgsPresent(site, facts)
  {
    if HasFact(site, facts) && !Identical(site.args[0].typ, site.args[1].typ)
    then [CheckDiagnostic(site)]
    else []
  }

  /** What the check pass reports for a sequence of calls. */
  function CheckAll(calls: seq<CallSite>, facts: set<Symbol>): seq<Diagnostic>
    requires forall c | c in calls :: ArgsPresent(c, facts)
  {
    if calls == [] then []
    else CheckAll(calls[..|calls| - 1], facts) + CheckCall(calls[|calls| - 1], facts)
  }

  /** ArgsPresent for every call of a package. */
  predicate PackageArgsPresent(files: seq<Node>, visible: set<Symbol>)
  {
    forall c | c in CallsIn(files) :: ArgsPresent(c, visible)
  }

  /** Everything run reports for a package whose check pass sees `visible`. */
  function PackageDiagnostics(files: seq<Node>, visible: set<Symbol>): seq<Diagnostic>
    requires PackageArgsPresent(files, visible)
  {
    PackageReports(files) + CheckAll(CallsIn(files), visible)
  }

  /** The facts exported by the first k packages. */
  function ExportsUpTo(pkgs: seq<seq<Node>>, k: nat): set<Symbol>
    requires k <= |pkgs|
  {
    if k == 0 then {} else ExportsUpTo(pkgs, k - 1) + PackageExports(pkgs[k - 1])
  }

  // ---------------------------------------------------------------------
  // The passes

  /** The loop of maybeAddFact that looks for the enclosing declaration. */
  method FindEnclosing(stack: seq<Node>) returns (enclosingFunc: Option<Decl>)
    ensures enclosingFunc == FirstFuncDecl(stack)
  {
    enclosingFunc := None;
    for i := 0 to |stack|
      invariant enclosingFunc == None
      invariant FirstFuncDecl(stack) == FirstFuncDecl(stack[i..])
    {
      if stack[i].FuncDecl? {
        enclosingFunc := Some(stack[i].decl);
        break;
      }
      assert stack[i..][1..] == stack[i + 1..];
    }
  }

  /** The maybeAddFact visitor of the export pass. */
  method MaybeAddFact(pass: Pass, call: CallSite, push: bool, stack: seq<Node>) returns (proceed: bool)
    modifies pass`facts, pass`diagnostics
    ensures proceed == !push
    ensures pass.facts == old(pass.facts) + (if push then ExportsAt(call, stack) else {})
    ensures pass.diagnostics == old(pass.diagnostics) + (if push then ReportsAt(call, stack) else [])
  {
    if !push {
      return true;
    }
    if call.callee.None? {
      return false; // not a function call
    }
    var fn := call.callee.value;
    if fn.fullName != MarkerName {
      return false; // not an annotation
    }
    var enclosingFunc := FindEnclosing(stack);
    if enclosingFunc.None? {
      return false; // no enclosing declaration
    } else if enclosingFunc.value.paramGroups != 2 {
      pass.Reportf(call.span.pos, ArityMessage);
    }
    pass.ExportObjectFact(enclosingFunc.value.sym);
    return false;
  }

  /** inspect.WithStack restricted to call nodes, with maybeAddFact as the
      visitor: every node is pushed on the stack, the visitor is called on
      call nodes, and a node's children are visited only when the visitor
      lets it. */
  method WithStack(pass: Pass, n: Node, stack: seq<Node>)
    modifies pass`facts, pass`diagnostics
    ensures pass.facts == old(pass.facts) + WalkExports(n, stack)
    ensures pass.diagnostics == old(pass.diagnostics) + WalkReports(n, stack)
    decreases n
  {
    var st := stack + [n];
    var proceed := true;
    if n.Call? {
      proceed := MaybeAddFact(pass, n.site, true, st);
    }
    if proceed {
      for i := 0 to |n.children|
        invariant pass.facts == old(pass.facts) + WalkExportsIn(n.children[..i], st)
        invariant pass.diagnostics == old(pass.diagnostics) + WalkReportsIn(n.children[..i], st)
      {
        WithStack(pass, n.children[i], st);
        WalkStep(n.children, i, st);
      }
      assert n.children[..|n.children|] == n.children;
    }
  }

  /** One more tree of the walk adds that tree's exports and reports. */
  lemma WalkStep(ns: seq<Node>, i: nat, stack: seq<Node>)
    requires i < |ns|
    ensures WalkExportsIn(ns[..i + 1], stack) == WalkExportsIn(ns[..i], stack) + WalkExports(ns[i], stack)
    ensures WalkReportsIn(ns[..i + 1], stack) == WalkReportsIn(ns[..i], stack) + WalkReports(ns[i], stack)
  {
    assert ns[..i + 1][..i] == ns[..i];
  }

  /** The export pass over every file of the package. */
  method ExportPass(pass: Pass)
    modifies pass`facts, pass`diagnostics
    ensures pass.facts == old(pass.facts) + PackageExports(pass.files)
    ensures pass.diagnostics == old(pass.diagnostics) + PackageReports(pass.files)
  {
    for i := 0 to |pass.files|
      invariant pass.facts == old(pass.facts) + WalkExportsIn(pass.files[..i], [])
      invariant pass.diagnostics == old(pass.diagnostics) + WalkReportsIn(pass.files[..i], [])
    {
      WithStack(pass, pass.files[i], []);
      WalkStep(pass.files, i, []);
    }
    assert pass.files[..|pass.files|] == pass.files;
  }

  /** The checkForFact closure of the check pass. */
  method CheckForFact(pass: Pass, call: CallSite)
    requires ArgsPresent(call, pass.facts)
    modifies pass`diagnostics
    ensures pass.diagnostics == old(pass.diagnostics) + CheckCall(call, pass.facts)
  {
    if call.callee.None? {
      return; // not a function call
    }
    var fn := call.callee.value;
    var sameType := pass.ImportObjectFact(fn.sym);
    if !sameType {
      return;
    }
    var typ0 := call.args[0].typ;
    var typ1 := call.args[1].typ;
    if !Identical(typ0, typ1) {
      pass.Reportf(call.span.pos, CallMessage(fn.sym.name, typ0, typ1));
    }
  }

  /** One more call of the check pass adds that call's diagnostics. */
  lemma CheckAllStep(calls: seq<CallSite>, i: nat, facts: set<Symbol>)
    requires i < |calls| && forall c | c in calls :: ArgsPresent(c, facts)
    ensures ArgsPresent(calls[i], facts) && forall c | c in calls[..i + 1] :: ArgsPresent(c, facts)
    ensures CheckAll(calls[..i + 1], facts) == CheckAll(calls[..i], facts) + CheckCall(calls[i], facts)
  {
    assert calls[..i + 1][..i] == calls[..i];
  }

  /** The check pass: the Preorder walk over every call of the package. */
  method CheckPass(pass: Pass)
    requires forall c | c in CallsIn(pass.files) :: ArgsPresent(c, pass.facts)
    modifies pass`diagnostics
    ensures pass.diagnostics == old(pass.diagnostics) + CheckAll(CallsIn(pass.files), pass.facts)
  {
    var calls := CallsIn(pass.files);
    for i := 0 to |calls|
      invariant pass.diagnostics == old(pass.diagnostics) + CheckAll(calls[..i], pass.facts)
    {
      CheckAllStep(calls, i, pass.facts);
      CheckForFact(pass, calls[i]);
    }
    assert calls[..|calls|] == calls;
  }

  /** run: the export pass over the whole package, then the check pass,
      which therefore sees every fact of this package as well as those it
      started with. */
  method Run(pass: Pass)
    requires PackageArgsPresent(pass.files, pass.facts + PackageExports(pass.files))
    modifies pass`facts, pass`diagnostics
    ensures pass.facts == old(pass.facts) + PackageExports(pass.files)
    ensures pass.diagnostics == old(pass.diagnostics) + PackageDiagnostics(pass.files, pass.facts)
  {
    ExportPass(pass);
    CheckPass(pass);
  }

  /** One package's analysis by the driver: a fresh pass over its files
      that starts from the facts of the packages analysed before it. */
  method AnalyzePackage(files: seq<Node>, imported: set<Symbol>) returns (facts: set<Symbol>, diags: seq<Diagnostic>)
    requires PackageArgsPresent(files, imported + PackageExports(files))
    ensures facts == imported + PackageExports(files)
    ensures diags == PackageDiagnostics(files, facts)
  {
    var pass := new Pass(files, imported);
    Run(pass);
    facts, diags := pass.facts, pass.diagnostics;
  }

  /** Package k of a dependency-ordered list can be checked: its calls meet
      the check pass's requirement against the facts it sees, those of
      packages 0..k on top of the initial ones. */
  predicate PackageReady(pkgs: seq<seq<Node>>, initial: set<Symbol>, k: nat)
    requires k < |pkgs|
  {
    PackageArgsPresent(pkgs[k], initial + ExportsUpTo(pkgs, k + 1))
  }

  /** What run reports for package k of a dependency-ordered list. */
  function DiagnosticsOfPackage(pkgs: seq<seq<Node>>, initial: set<Symbol>, k: nat): seq<Diagnostic>
    requires k < |pkgs| && PackageReady(pkgs, initial, k)
  {
    PackageDiagnostics(pkgs[k], initial + ExportsUpTo(pkgs, k + 1))
  }

  /** The store after one more package holds that package's exports too. */
  lemma ExportsUpToStep(pkgs: seq<seq<Node>>, k: nat, initial: set<Symbol>)
    requires k < |pkgs|
    ensures initial + ExportsUpTo(pkgs, k) + PackageExports(pkgs[k]) == initial + ExportsUpTo(pkgs, k + 1)
  {
  }

  /** Runs the analyzer over packages in dependency order, every package
      after those it imports, threading one fact store from each package to
      the next.  Returns the final store and each package's diagnostics. */
  method Analyze(pkgs: seq<seq<Node>>, initial: set<Symbol>) returns (facts: set<Symbol>, diags: seq<seq<Diagnostic>>)
    requires forall k | 0 <= k < |pkgs| :: PackageReady(pkgs, initial, k)
    ensures facts == initial + ExportsUpTo(pkgs, |pkgs|)
    ensures |diags| == |pkgs|
    ensures forall k | 0 <= k < |pkgs| :: diags[k] == DiagnosticsOfPackage(pkgs, initial, k)
  {
    facts := initial;
    diags := [];
    for k := 0 to |pkgs|
      invariant facts == initial + ExportsUpTo(pkgs, k)
      invariant |diags| == k
      invariant forall j | 0 <= j < k :: diags[j] == DiagnosticsOfPackage(pkgs, initial, j)
    {
      ExportsUpToStep(pkgs, k, initial);
      assert PackageReady(pkgs, initial, k);
      var d;
      facts, d := AnalyzePackage(pkgs[k], facts);
      diags := diags + [d];
    }
  }

  // ---------------------------------------------------------------------
  // Which declaration gets the fact

  /** FirstFuncDecl finds nothing exactly when the stack holds no function
      declaration. */
  lemma {:induction false} FirstFuncDeclNone(stack: seq<Node>)
    ensures FirstFuncDecl(stack).None? <==> forall i | 0 <= i < |stack| :: !stack[i].FuncDecl?
  {
    if stack != [] {
      FirstFuncDeclNone(stack[1..]);
      assert forall i | 1 <= i < |stack| :: stack[i] == stack[1..][i - 1];
    }
  }

  /** FirstFuncDecl finds the declaration at i when no declaration comes
      before i. */
  lemma {:induction false} FirstFuncDeclAt(stack: seq<Node>, i: nat)
    requires i < |stack| && stack[i].FuncDecl?
    requires forall j | 0 <= j < i :: !stack[j].FuncDecl?
    ensures FirstFuncDecl(stack) == Some(stack[i].decl)
  {
    if i > 0 {
      FirstFuncDeclAt(stack[1..], i - 1);
    }
  }

  /** Pushing a node that is not a declaration does not change the
      enclosing declaration. */
  lemma {:induction false} FirstFuncDeclPush(stack: seq<Node>, n: Node)
    requires !n.FuncDecl?
    ensures FirstFuncDecl(stack + [n]) == FirstFuncDecl(stack)
  {
    if stack == [] {
      assert ([] + [n])[1..] == [];
    } else {
      assert (stack + [n])[1..] == stack[1..] + [n];
      FirstFuncDeclPush(stack[1..], n);
    }
  }

  /** A marker with no function declaration on its stack exports nothing
      and reports nothing. */
  lemma MarkerOutsideFunction(call: CallSite, stack: seq<Node>)
    requires forall i | 0 <= i < |stack| :: !stack[i].FuncDecl?
    ensures ExportsAt(call, stack) == {}
    ensures ReportsAt(call, stack) == []
  {
    FirstFuncDeclNone(stack);
  }

  /** A marker exports the fact for the first declaration on its stack,
      scanning from the root, and for no other. */
  lemma EnclosingFunctionGetsFact(call: CallSite, stack: seq<Node>, i: nat)
    requires IsMarker(call)
    requires i < |stack| && stack[i].FuncDecl?
    requires forall j | 0 <= j < i :: !stack[j].FuncDecl?
    ensures ExportsAt(call, stack) == {stack[i].decl.sym}
  {
    FirstFuncDeclAt(stack, i);
  }

  /** A marker whose declaration does not have two parameter field groups
      is reported at the marker and STILL exports the fact; with two groups
      it is not reported. */
  lemma BadArityStillExports(call: CallSite, stack: seq<Node>, i: nat)
    requires IsMarker(call)
    requires i < |stack| && stack[i].FuncDecl?
    requires forall j | 0 <= j < i :: !stack[j].FuncDecl?
    ensures stack[i].decl.sym in ExportsAt(call, stack)
    ensures ReportsAt(call, stack) ==
            if stack[i].decl.paramGroups != 2 then [Diagnostic(call.span.pos, NoPos, ArityMessage, [])] else []
  {
    FirstFuncDeclAt(stack, i);
  }

  // ---------------------------------------------------------------------
  // The export walk does not descend into calls

  /** A call node contributes what the visitor does on it and nothing from
      its children; a call that is not a marker contributes nothing, whatever
      markers its arguments hold. */
  lemma ExportWalkStopsAtCalls(site: CallSite, kids: seq<Node>, stack: seq<Node>)
    ensures WalkExports(Call(site, kids), stack) == ExportsAt(site, stack)
    ensures WalkReports(Call(site, kids), stack) == ReportsAt(site, stack)
    ensures !IsMarker(site) ==> WalkExports(Call(site, kids), stack) == {} && WalkReports(Call(site, kids), stack) == []
  {
    FirstFuncDeclPush(stack, Call(site, kids));
  }

  /** A tree without function declarations. */
  predicate DeclFree(n: Node)
  {
    !n.FuncDecl? && forall k | 0 <= k < |n.children| :: DeclFree(n.children[k])
  }

  /** A tree without function declarations under a stack without them
      exports nothing and reports nothing, wherever its markers are. */
  lemma {:induction false} DeclFreeExportsNothing(n: Node, stack: seq<Node>)
    requires DeclFree(n)
    requires forall i | 0 <= i < |stack| :: !stack[i].FuncDecl?
    ensures WalkExports(n, stack) == {} && WalkReports(n, stack) == []
    decreases n, 1
  {
    var st := stack + [n];
    assert forall i | 0 <= i < |st| :: !st[i].FuncDecl?;
    if n.Call? {
      MarkerOutsideFunction(n.site, st);
    } else {
      DeclFreeInExportsNothing(n.children, st);
    }
  }

  /** DeclFreeExportsNothing for sibling trees. */
  lemma {:induction false} DeclFreeInExportsNothing(ns: seq<Node>, stack: seq<Node>)
    requires forall k | 0 <= k < |ns| :: DeclFree(ns[k])
    requires forall i | 0 <= i < |stack| :: !stack[i].FuncDecl?
    ensures WalkExportsIn(ns, stack) == {} && WalkReportsIn(ns, stack) == []
    decreases ns, 0
  {
    if ns != [] {
      DeclFreeInExportsNothing(ns[..|ns| - 1], stack);
      DeclFreeExportsNothing(ns[|ns| - 1], stack);
    }
  }

  // ---------------------------------------------------------------------
  // The check pass

  /** Every diagnostic of the check pass comes from a call whose callee
      carries the fact and whose first two argument types differ: calls of
      functions without the fact, unresolved calls and calls with identical
      types are never reported. */
  lemma {:induction false} CheckAllSound(calls: seq<CallSite>, facts: set<Symbol>, d: Diagnostic)
    requires forall c | c in calls :: ArgsPresent(c, facts)
    requires d in CheckAll(calls, facts)
    ensures exists c | c in calls :: HasFact(c, facts) && |c.args| >= 2 && !Identical(c.args[0].typ, c.args[1].typ)
                                     && d == CheckDiagnostic(c) && d.pos == c.span.pos
  {
    var init := calls[..|calls| - 1];
    assert forall c | c in init :: c in calls;
    if d in CheckAll(init, facts) {
      CheckAllSound(init, facts, d);
    } else {
      assert d in CheckCall(calls[|calls| - 1], facts);
    }
  }

  /** Every call whose callee carries the fact and whose first two argument
      types differ is reported. */
  lemma {:induction false} CheckAllComplete(calls: seq<CallSite>, facts: set<Symbol>, c: CallSite)
    requires forall c | c in calls :: ArgsPresent(c, facts)
    requires c in calls && HasFact(c, facts) && |c.args| >= 2 && !Identical(c.args[0].typ, c.args[1].typ)
    ensures CheckDiagnostic(c) in CheckAll(calls, facts)
  {
    var init := calls[..|calls| - 1];
    if c != calls[|calls| - 1] {
      assert c in init;
      assert forall c | c in init :: c in calls;
      CheckAllComplete(init, facts, c);
    }
  }

  /** Calls of functions without the fact produce no diagnostic. */
  lemma {:induction false} NoFactNoDiagnostic(calls: seq<CallSite>, facts: set<Symbol>)
    requires forall c | c in calls :: !HasFact(c, facts)
    ensures CheckAll(calls, facts) == []
  {
    if calls != [] {
      NoFactNoDiagnostic(calls[..|calls| - 1], facts);
    }
  }

  /** Because the export pass finishes before the check pass starts, a fact
      exported anywhere in a package reaches every call of that package,
      before or after the declaration in the text. */
  lemma SamePackageFactVisible(files: seq<Node>, imported: set<Symbol>, c: CallSite)
    requires PackageArgsPresent(files, imported + PackageExports(files))
    requires c in CallsIn(files) && c.callee.Some? && c.callee.value.sym in PackageExports(files)
    requires |c.args| >= 2 && !Identical(c.args[0].typ, c.args[1].typ)
    ensures CheckDiagnostic(c) in PackageDiagnostics(files, imported + PackageExports(files))
  {
    CheckAllComplete(CallsIn(files), imported + PackageExports(files), c);
  }

  /** A tree none of whose calls is a marker. */
  predicate NoMarkers(n: Node)
  {
    forall c | c in Calls(n) :: !IsMarker(c)
  }

  /** Only marker calls export facts or report: a tree without a marker
      exports nothing and reports nothing. */
  lemma {:induction false} NoMarkersExportNothing(n: Node, stack: seq<Node>)
    requires NoMarkers(n)
    ensures WalkExports(n, stack) == {} && WalkReports(n, stack) == []
    decreases n, 1
  {
    if n.Call? {
      ExportWalkStopsAtCalls(n.site, n.children, stack);
    } else {
      forall k | 0 <= k < |n.children|
        ensures NoMarkers(n.children[k])
      {
        CallsInIncludes(n.children, k);
      }
      NoMarkersInExportNothing(n.children, stack + [n]);
    }
  }

  /** NoMarkersExportNothing for sibling trees. */
  lemma {:induction false} NoMarkersInExportNothing(ns: seq<Node>, stack: seq<Node>)
    requires forall k | 0 <= k < |ns| :: NoMarkers(ns[k])
    ensures WalkExportsIn(ns, stack) == {} && WalkReportsIn(ns, stack) == []
    decreases ns, 0
  {
    if ns != [] {
      NoMarkersInExportNothing(ns[..|ns| - 1], stack);
      NoMarkersExportNothing(ns[|ns| - 1], stack);
    }
  }
}
