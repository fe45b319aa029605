# cmpequal and sametype, modelled in Dafny

This project models the two go/analysis checkers of the analysistalk
repository. Both enforce one rule: "the first two arguments of certain
calls must have identical types".

- **cmpequal** walks every call of a package in pre-order. It looks at calls
  whose callee resolves to the `*types.Func` `github.com/google/go-cmp/cmp.Equal`.
  When argument 0 and argument 1 have different types, it reports a diagnostic
  over the whole call. If one argument's type is a pointer to the other's, the
  diagnostic carries a "dereference pointer" fix that rewrites that argument
  `e` as `*e`.
- **sametype** works from an annotation and runs two passes over a pass
  state made of object facts and diagnostics.
  - The export pass walks the package with an ancestor stack and never goes
    below a call node. For each call of the marker `annotate.SameType`, it
    exports a `SameType` fact for the first `FuncDecl` on the stack. If that
    declaration does not have two parameter *field groups*, it also reports
    at the marker.
  - The check pass then reports every call whose callee carries the fact and
    whose first two argument types differ.
  - Facts flow from a package to the packages analysed after it.
    `SameType.Analyze` runs the analyzer over packages in dependency order and
    shares one fact store between them.

Files:

- `wrappers.dfy` holds `Option`.
- `go_types.dfy` holds the `Type` datatype. `types.Identical` is structural
  equality on it, and `TypeString` is what `fmt.Sprint` prints for a type.
- `go_ast.dfy` holds the syntax tree. There are call nodes (with the resolved
  callee as data), function declarations (with their symbol and parameter
  group count) and other nodes. `Calls` lists the call nodes in pre-order.
- `analysis.dfy` holds the diagnostic records and the class `Pass`. The class
  has the package's files, the fact set and the diagnostics list, and its
  methods are `Report`, `Reportf`, `ExportObjectFact` and `ImportObjectFact`.
- `cmpequal.dfy` and `sametype.dfy` hold the checkers. The imperative parts
  (the closures and the walks) are methods over a `Pass`. Each method is
  proved equal to a specification function, and lemmas prove the properties
  of those functions.
- `cmpequal_scenarios.dfy` states the model's outcome on cmpequal's test
  package a and on single calls.
- `sametype_scenarios.dfy` states the model's outcome on whole packages: the
  checker's test packages, and packages that show how markers are treated.

## Model

| member | source | states |
|---|---|---|
| `Analysis.Pass.Report` | cmpequal/cmpequal.go:66 | a report appends exactly one diagnostic to the pass's list |
| `Analysis.Pass.Reportf` | sametype/sametype.go:43-46 | a positional report appends a diagnostic at that position, with no end and no fixes |
| `Analysis.Pass.ExportObjectFact` | sametype/sametype.go:76-77 | exporting adds exactly that symbol to the fact store; exporting it again changes nothing |
| `Analysis.Pass.ImportObjectFact` | sametype/sametype.go:35-38 | the import succeeds if and only if the symbol carries the fact |
| `CmpEqual.ReportWithFixes` | cmpequal/cmpequal.go:65-67 | the diagnostic runs from the node's Pos to its End, with the formatted message and the given fixes |
| `CmpEqual.InspectNode` | cmpequal/cmpequal.go:25-48 | for one call, appends exactly what `Inspect` specifies: nothing for an unresolved callee, a callee other than cmp.Equal, or identical types; otherwise one diagnostic with the chosen fixes |
| `CmpEqual.Run` | cmpequal/cmpequal.go:23-53 | the Preorder walk appends `Expected` of the package's calls in pre-order and changes nothing else |
| `CmpEqual.ExpectedAppend` | cmpequal/cmpequal.go:49-51 | the diagnostics of a concatenation of call lists are the concatenation of their diagnostics, so the output follows the pre-order of calls |
| `CmpEqual.ExpectedIsFlaggedInOrder` | cmpequal/cmpequal.go:27-47 | the output has exactly one diagnostic per flagged call (cmp.Equal, differing types), in call order, checked against an independent filter |
| `CmpEqual.ExpectedSound` | cmpequal/cmpequal.go:27-38 | every diagnostic comes from a cmp.Equal call whose argument types differ and spans that call from Pos to End; other callees and identical types are never reported |
| `CmpEqual.ExpectedComplete` | cmpequal/cmpequal.go:36-47 | every cmp.Equal call whose argument types differ is reported |
| `CmpEqual.NoDiagnosticForIdenticalTypes` | cmpequal/cmpequal.go:36-38 | calls whose argument 0 and argument 1 types are identical produce no diagnostic |
| `CmpEqual.IsPointerTo` | cmpequal/cmpequal.go:69-74 | isPointerTo(a, b) never holds between identical types, so a fix is offered only on a call that is reported |
| `CmpEqual.Fixes` | cmpequal/cmpequal.go:39-44 | a mismatched call gets exactly one fix when either argument type is a pointer to the other, and none otherwise |
| `CmpEqual.FixDereference` | cmpequal/cmpequal.go:76-85 | one "dereference pointer" fix with one edit over exactly the argument's [Pos, End); in a source whose text there is the argument's printed form, applying it inserts one `*` before the argument and changes nothing else |
| `CmpEqual.TypeNameAsWritten` | cmpequal/cmpequal.go:55-63 | typeName as written fails (nil package) exactly when the type under its pointers is a predeclared named type |
| `CmpEqual.TypeName` | cmpequal/cmpequal.go:55-63 | the corrected typeName returns what the code returns wherever the code returns, and renders pointers to a predeclared named type as stars and the bare name that fmt.Sprint prints |
| `GoTypes.NamedTypeStringsDiffer` | sametype/sametype.go:43-46 | `%v` of a type (fmt.Sprint, also cmpequal/cmpequal.go:62) qualifies named types by package path, so same-named types of different packages print differently |
| `CmpEqual.PointerRelationAsymmetric` | cmpequal/cmpequal.go:69-74 | isPointerTo(a, b) and isPointerTo(b, a) never both hold |
| `CmpEqual.FixDereferencesThePointer` | cmpequal/cmpequal.go:69-84 | when argument k is the pointer, the only fix is "dereference pointer" with one edit over exactly [Pos, End) of argument k, replacement `*` + its text; the pointer's element type is identical to the other argument's type (fix soundness) |
| `CmpEqual.FixLeavesOtherArgument` | cmpequal/cmpequal.go:76-84 | if the argument spans do not overlap, the fix's edit does not touch the other argument |
| `CmpEqual.TypeNameRendering` | cmpequal/cmpequal.go:55-61 | typeName(Named) is package name + "." + name; typeName(Pointer(t)) is "*" + typeName(t). These are the two defining equations, one step each; `TypeNameOfPointers` is the inductive statement |
| `CmpEqual.TypeNameOfPointers` | cmpequal/cmpequal.go:59-60 | k levels of pointer are written as k stars before the innermost type's name |
| `CmpEqualScenarios.PointerAndValueScenario` | cmpequal/testdata/src/a/a.go:13-23 | in the whole test file, `cmp.Equal(got, want)` with `*a.X` and `a.X` gives one diagnostic over the call, naming `*a.X` and `a.X`, with one fix rewriting `got` as `*got`; the calls `NewX()` and `t.Error(...)` give nothing |
| `CmpEqualScenarios.UnrelatedTypesScenario` | cmpequal/cmpequal.go:38-46 | cmp.Equal of an int and a string gives one diagnostic with no fixes |
| `CmpEqualScenarios.ErrorArgumentScenario` | cmpequal/cmpequal.go:55-58 | cmp.Equal of an `error` and a `*a.MyErr` is reported; typeName as written has no result for `error`, and the corrected one names it `error` |
| `SameType.FindEnclosing` | sametype/sametype.go:63-69 | the loop over the stack returns the first FuncDecl from the root, or nothing |
| `SameType.MaybeAddFact` | sametype/sametype.go:48-79 | the visitor returns false on every push and true on every pop; on a push it exports and reports exactly `ExportsAt` and `ReportsAt` |
| `SameType.WithStack` | sametype/sametype.go:80 | the walk of a tree exports `WalkExports` and reports `WalkReports`; it descends only where the visitor allows |
| `SameType.ExportPass` | sametype/sametype.go:80 | the export pass over all files adds `PackageExports` to the store and appends `PackageReports` |
| `SameType.CheckForFact` | sametype/sametype.go:28-47 | for one call, reports exactly when the callee is resolved, carries the fact and the first two argument types differ |
| `SameType.CheckPass` | sametype/sametype.go:81-83 | the Preorder walk appends `CheckAll` of the package's calls against the current store |
| `SameType.Run` | sametype/sametype.go:26-85 | the store grows by this package's exports; the diagnostics are the export pass's, then the check pass's against the store after exporting |
| `SameType.AnalyzePackage` | sametype/sametype.go:26-85 | one package analysed from the facts of earlier packages yields those facts plus its own, and `PackageDiagnostics` against them |
| `SameType.Analyze` | sametype/sametype.go:35-38 | with one store shared in dependency order, package k's check pass sees the facts of packages 0..k, and the final store holds all exports |
| `SameType.FirstFuncDeclNone` | sametype/sametype.go:63-71 | no enclosing declaration is found if and only if the stack holds no FuncDecl |
| `SameType.FirstFuncDeclAt` | sametype/sametype.go:63-69 | the enclosing declaration is the one at the first FuncDecl position from the root |
| `SameType.FirstFuncDeclPush` | sametype/sametype.go:63-69 | pushing a node that is not a FuncDecl, such as the call itself, does not change the enclosing declaration |
| `SameType.MarkerOutsideFunction` | sametype/sametype.go:59-71 | a marker with no FuncDecl on its stack exports nothing and reports nothing |
| `SameType.EnclosingFunctionGetsFact` | sametype/sametype.go:63-77 | a marker exports the fact for the first FuncDecl from the root, and exports nothing else |
| `SameType.BadArityStillExports` | sametype/sametype.go:72-77 | a group count other than 2 gives the arity diagnostic at the marker's Pos, and the fact is still exported; a count of 2 gives no diagnostic |
| `SameType.ExportWalkStopsAtCalls` | sametype/sametype.go:48-79 | a call node contributes only the visitor's effect on itself, never its children's; a non-marker call contributes nothing, even when its arguments contain markers |
| `SameType.DeclFreeExportsNothing` | sametype/sametype.go:63-71 | a subtree with no FuncDecl, under a stack with no FuncDecl, exports and reports nothing |
| `SameType.NoMarkersExportNothing` | sametype/sametype.go:53-61 | only marker calls export or report: a subtree without markers contributes nothing |
| `SameType.CheckAllSound` | sametype/sametype.go:28-47 | every check-pass diagnostic sits at the Pos of a call whose resolved callee carries the fact and whose first two argument types differ |
| `SameType.CheckAllComplete` | sametype/sametype.go:40-46 | every such call is reported (with the soundness lemma: reported if and only if) |
| `SameType.NoFactNoDiagnostic` | sametype/sametype.go:35-38 | calls of functions without the fact never produce a check-pass diagnostic |
| `SameType.SamePackageFactVisible` | sametype/sametype.go:80-83 | a fact exported anywhere in a package reaches every mismatched call to that function in the package, whatever the order in the text |
| `SameTypeScenarios.MycmpExports` | sametype/testdata/src/mycmp/equal.go:8-9 | `func Equal(a, b interface{})` has one field group, so its marker is reported with the arity message, and Equal still gets the fact |
| `SameTypeScenarios.MycmpDiagnostics` | sametype/testdata/src/mycmp/equal.go:8-11 | mycmp's only diagnostic is that arity report; its calls of the marker and of reflect.DeepEqual are not checked |
| `SameTypeScenarios.ADiagnostics` | sametype/testdata/src/a/a.go:13 | given Equal's fact, `Equal(x, &y)` with int x and y is reported once, at the call, with `CallMessage("Equal", int, *int)` |
| `SameTypeScenarios.CrossPackageScenario` | sametype/testdata/src/a/a.go:13 | analysing mycmp and then a, with one store, exports Equal's fact from mycmp and reports the call in a, at its Pos, with `CallMessage("Equal", int, *int)` |
| `SameTypeScenarios.AArgumentTypesPrint` | sametype/testdata/src/a/a.go:11-13 | the call's two argument types print as `int` and `*int`, which is what the expected message names |
| `SameTypeScenarios.MarkerInsideCalledClosureScenario` | sametype/sametype.go:48-79 | a marker inside a closure that is itself called (`defer func(){ annotate.SameType() }()`, where the closure is the function of the deferred call) is among the package's calls but exports nothing, because the export walk stops at the deferred call |
| `SameTypeScenarios.MethodFactScenario` | sametype/sametype.go:30-38 | a marker in the method `(T).Eq` gives the fact to that method only, so a mismatched call of the package-level function `Eq` of the same package is not reported |
| `SameTypeScenarios.FactBeforeDeclarationScenario` | sametype/sametype.go:80-83 | a call that comes before the annotated declaration in the text is still reported |
| `SameTypeScenarios.MisuseStillConstrainsCallers` | sametype/sametype.go:72-77 | a marker in `func H(a, b, c interface{})` (one group) is reported, H still gets the fact, and a mismatched call of H is reported too |
| `SameTypeScenarios.MisuseAllowsShortCall` | sametype/sametype.go:72-77 | a marker in `func F()` is reported and F gets the fact, so the call `F()` carries the fact with no arguments, which breaks the check pass's precondition |

## Behaviour of the code worth knowing

The model follows the code in each of these points.

- A marker in a function without two parameter groups is reported, and the
  function still gets the fact: no `return` follows the report
  (sametype/sametype.go:72-77). See `BadArityStillExports` and
  `MisuseStillConstrainsCallers`.
- The arity test `len(enclosingFunc.Type.Params.List)` counts parameter field
  groups, not parameters. So `func Equal(a, b interface{})`, the checker's own
  test function, is reported as misannotated (`MycmpExports`). `analysistest`
  checks only package a, so that report is not part of the test.
- The test depends on both points together. If a `return` followed the arity
  report, Equal would get no fact, and the call in package a would not be
  reported.
- The messages are the code's: "SameType annotation can only be added to
  funcs with two arguments", and "Calls to %v must have arguments of the same
  type; is called with %v and %v". The cmpequal message keeps its line breaks
  and colour escapes.
- The callee and the marker are recognised by comparing `FullName()` with
  string literals (cmpequal/cmpequal.go:32, sametype/sametype.go:59). The model
  names those literals `EqualName` and `MarkerName`.
- Argument types are compared as they are. Neither checker has a case for an
  argument whose type is unknown.

## Left out

- go/analysis plumbing is not modelled: the `Analyzer` values, `pass.ResultOf`,
  and how the inspector builds its event list. Pre-order is the `Calls` function.
- `WithStack`'s pop call for a call node is never issued, because the push
  always returns false. `MaybeAddFact` still models the pop case.
- `typeutil.Callee` is not modelled: each call carries its resolved `*types.Func`
  (or None) as data, and `TypesInfo.Defs` of a declaration's name is the
  declaration's `sym`. Object identity is a `Symbol`: package path, name of
  the receiver's base type (empty for a package-level function) and name. So
  a method `(T).Equal` and a function `Equal` of one package are different
  objects (`MethodFactScenario`). Functions local to a block or to a generic
  instantiation, which Go also tells apart, are not distinguished further.
- `types.Identical` is modelled as structural equality on `Type`, and named
  types are identified by package and name. Struct, func, chan and interface
  types are `Literal(text)`.
- Printing is not modelled. `format.Node` of `*e` is `"*"` + the argument's
  printed text, which each argument carries as data. `fmt.Sprint` of a type is
  `TypeString`, a simplified `types.TypeString`.
- Fact serialization between packages is not modelled. The store is a set of
  symbols, because `SameType` is the only fact type and it has no payload.
- The shared store makes the facts of every earlier package visible, not only
  those of transitive imports. This is harmless, because a resolved callee
  always comes from the package itself or from its transitive dependencies.
- Parallel package scheduling in the driver is not modelled. Packages run one
  after another in dependency order.
- cmd/check/main.go (the `singlechecker` driver) and the `analysistest`
  harness are not part of this model.
- A call with fewer than two arguments panics in the code (`call.Args[0]`,
  `call.Args[1]`). The model makes this a precondition: `WellFormed` for
  cmpequal, and `ArgsPresent` / `PackageArgsPresent` for sametype.
  `MisuseAllowsShortCall` shows that the code can reach that panic: the
  marker in `func F()` is reported, F still gets the fact, and the call `F()`
  carries the fact with no arguments, so the check pass would index
  `call.Args[0]` of an empty list (sametype/sametype.go:40). The model does not
  state what the panic does to the rest of the analysis.
- Diagnostic fields that the code never sets are not modelled: Category, URL,
  Related.
- `CrossPackageScenario` does not prove that the message equals the
  assembled literal string. It states the message as
  `CallMessage("Equal", int, *int)`, and `AArgumentTypesPrint` proves that
  the two types print as `int` and `*int`.

## Findings

| source | as written | input that shows it | evidently intended | confidence | as-written member | corrected member |
|---|---|---|---|---|---|---|
| cmpequal/cmpequal.go:58 | `typeName` reads `t.Obj().Pkg().Name()`, and `Pkg()` is nil for predeclared named types such as `error`, so the call dereferences nil | `cmp.Equal(err, target)` with `err error` and `target *a.MyErr`: the types differ, so `typeName(error)` runs | a predeclared named type is written by its bare name (`error`), which is what `fmt.Sprint` prints | high; not executed | `CmpEqualScenarios.ErrorArgumentScenario` | `CmpEqual.TypeName` |

The rest of the model uses the corrected `CmpEqual.TypeName`.
`CmpEqual.TypeNameAsWritten` is the code as written: it has no result exactly
when the type under its pointers is a predeclared named type.
