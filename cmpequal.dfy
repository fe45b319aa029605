/** The cmpequal checker: calls of go-cmp's cmp.Equal whose first two
    arguments have different types are reported, with a "dereference
    pointer" fix when one argument is a pointer to the other's type. */
module CmpEqual {
  import opened Wrappers
  import opened GoTypes
  import opened GoAst
  import opened Analysis

  /** The one callee the checker looks at, by *types.Func FullName(). */
  const EqualName: string := "github.com/google/go-cmp/cmp.Equal"

  /** The message of the fix built by fixDereference. */
  const FixMessage: string := "dereference pointer"

  /** isPointerTo: `a` is a pointer type whose element type is `b`.  It
      never holds between identical types, so a fix is only ever offered for
      a call that is reported. */
  predicate IsPointerTo(a: Type, b: Type): (r: bool)
    ensures r ==> !Identical(a, b)
  {
    if a.Pointer? then
      assert PointerDepth(a) == PointerDepth(a.elem) + 1;
      Identical(a.elem, b)
    else false
  }

  /** typeName exactly as written: the package name is read through
      Obj().Pkg(), which is nil for the predeclared named types (`error`);
      None stands for the nil dereference that then panics.  It panics
      exactly when the type below its pointers is a predeclared named type,
      which has no package. */
  function TypeNameAsWritten(t: Type): (r: Option<string>)
    ensures r.None? <==> Base(t).Named? && Base(t).pkg.None?
  {
    match t
    case Named(pkg, name) => if pkg.None? then None else Some(pkg.value.name + "." + name)
    case Pointer(elem) =>
      var inner := TypeNameAsWritten(elem);
      if inner.None? then None else Some("*" + inner.value)
    case _ => Some(TypeString(t))
  }

  /** typeName as intended: a named type is written with the NAME of its
      package, a pointer as `*` and its element, anything else as fmt.Sprint
      prints it; a predeclared named type is written as its bare name, which
      is what fmt.Sprint prints for it.  Wherever typeName as written
      returns, this returns the same string. */
  function TypeName(t: Type): (r: string)
    ensures TypeNameAsWritten(t).Some? ==> r == TypeNameAsWritten(t).value
    ensures Base(t).Named? && Base(t).pkg.None? ==> r == Stars(PointerDepth(t)) + TypeString(Base(t))
  {
    match t
    case Named(pkg, name) => if pkg.Some? then pkg.value.name + "." + name else name
    case Pointer(elem) => "*" + TypeName(elem)
    case _ => TypeString(t)
  }

  /** The message passed to reportWithFixes (a Sprintf with two %s). */
  function Message(name0: string, name1: string): string
  {
    "\n    cmp.Equal's arguments must have the same type\n"
    + "        but it's called with \U{1B}[31m" + name0 + "\U{1B}[0m and \U{1B}[31m" + name1 + "\U{1B}[0m values"
  }

  /** fixDereference: one fix with one edit over the argument.  In a source
      whose text over the argument's span is the argument's printed form,
      applying it inserts a single `*` before the argument and changes
      nothing else. */
  function FixDereference(arg: Arg): (r: seq<SuggestedFix>)
    ensures |r| == 1 && r[0].message == FixMessage && |r[0].textEdits| == 1
    ensures var e := r[0].textEdits[0];
      && e.pos == arg.span.pos && e.end == arg.span.end
      && forall src: string | arg.span.pos <= arg.span.end <= |src| && src[arg.span.pos..arg.span.end] == arg.text ::
           ApplyEdit(src, e) == src[..arg.span.pos] + "*" + src[arg.span.pos..]
  {
    var e := TextEdit(arg.span.pos, arg.span.end, "*" + arg.text);
    DereferenceInsertsStar(arg, e);
    [SuggestedFix(FixMessage, [e])]
  }

  /** The edit of fixDereference inserts a star before the argument. */
  lemma DereferenceInsertsStar(arg: Arg, e: TextEdit)
    requires e == TextEdit(arg.span.pos, arg.span.end, "*" + arg.text)
    ensures forall src: string | arg.span.pos <= arg.span.end <= |src| && src[arg.span.pos..arg.span.end] == arg.text ::
              ApplyEdit(src, e) == src[..arg.span.pos] + "*" + src[arg.span.pos..]
  {
    forall src: string | arg.span.pos <= arg.span.end <= |src| && src[arg.span.pos..arg.span.end] == arg.text
      ensures ApplyEdit(src, e) == src[..arg.span.pos] + "*" + src[arg.span.pos..]
    {
      assert src[arg.span.pos..] == src[arg.span.pos..arg.span.end] + src[arg.span.end..];
    }
  }

  /** The callee filter: a statically resolved *types.Func named cmp.Equal. */
  predicate TargetsEqual(site: CallSite)
  {
    site.callee.Some? && site.callee.value.fullName == EqualName
  }

  /** What the checker demands of a call it looks at: the two arguments it
      indexes exist.  Type-checked code can still break this with a call such
      as `cmp.Equal(pair())`, whose single argument is a two-valued call; the
      code then indexes out of range, and this precondition excludes it. */
  predicate WellFormed(site: CallSite)
  {
    TargetsEqual(site) ==> |site.args| >= 2
  }

  /** A call the checker reports. */
  predicate Flagged(site: CallSite)
    requires WellFormed(site)
  {
    TargetsEqual(site) && !Identical(site.args[0].typ, site.args[1].typ)
  }

  /** The fixes chosen for a mismatched call: one fix when either type is
      a pointer to the other, and none otherwise. */
  function Fixes(site: CallSite): (r: seq<SuggestedFix>)
    requires |site.args| >= 2
    ensures |r| == if IsPointerTo(site.args[0].typ, site.args[1].typ) || IsPointerTo(site.args[1].typ, site.args[0].typ) then 1 else 0
  {
    var t0, t1 := site.args[0].typ, site.args[1].typ;
    if IsPointerTo(t0, t1) then FixDereference(site.args[0])
    else if IsPointerTo(t1, t0) then FixDereference(site.args[1])
    else []
  }

  /** The diagnostic reported for a mismatched call. */
  function DiagnosticFor(site: CallSite): Diagnostic
    requires |site.args| >= 2
  {
    Diagnostic(site.span.pos, site.span.end,
               Message(TypeName(site.args[0].typ), TypeName(site.args[1].typ)), Fixes(site))
  }

  /** What inspectNode reports for one call. */
  function Inspect(site: CallSite): seq<Diagnostic>
    requires WellFormed(site)
  {
    if Flagged(site) then [DiagnosticFor(site)] else []
  }

  /** What the whole Preorder walk reports for a sequence of calls. */
  function Expected(calls: seq<CallSite>): seq<Diagnostic>
    requires forall c | c in calls :: WellFormed(c)
  {
    if calls == [] then []
    else Expected(calls[..|calls| - 1]) + Inspect(calls[|calls| - 1])
  }

  /** The flagged calls, in order: an independent reference for Expected. */
  function FlaggedCalls(calls: seq<CallSite>): (r: seq<CallSite>)
    requires forall c | c in calls :: WellFormed(c)
    ensures forall c | c in r :: c in calls && |c.args| >= 2
  {
    if calls == [] then []
    else (if Flagged(calls[0]) then [calls[0]] else []) + FlaggedCalls(calls[1..])
  }

  /** reportWithFixes: one diagnostic spanning the whole node. */
  method ReportWithFixes(pass: Pass, node: Span, fixes: seq<SuggestedFix>, name0: string, name1: string)
    modifies pass`diagnostics
    ensures pass.diagnostics == old(pass.diagnostics) + [Diagnostic(node.pos, node.end, Message(name0, name1), fixes)]
  {
    pass.Report(Diagnostic(node.pos, node.end, Message(name0, name1), fixes));
  }

  /** The inspectNode closure of run. */
  method InspectNode(pass: Pass, call: CallSite)
    requires WellFormed(call)
    modifies pass`diagnostics
    ensures pass.diagnostics == old(pass.diagnostics) + Inspect(call)
  {
    if call.callee.None? {
      return; // not a function call
    }
    var fn := call.callee.value;
    if fn.fullName != EqualName {
      return; // not a call to Equal
    }
    var typ0 := call.args[0].typ;
    var typ1 := call.args[1].typ;
    if !Identical(typ0, typ1) {
      var fixes: seq<SuggestedFix> := [];
      if IsPointerTo(typ0, typ1) {
        fixes := FixDereference(call.args[0]);
      } else if IsPointerTo(typ1, typ0) {
        fixes := FixDereference(call.args[1]);
      }
      ReportWithFixes(pass, call.span, fixes, TypeName(typ0), TypeName(typ1));
    }
  }

  /** run: the Preorder walk over every call of the package's files. */
  method Run(pass: Pass)
    requires forall c | c in CallsIn(pass.files) :: WellFormed(c)
    modifies pass`diagnostics
    ensures pass.diagnostics == old(pass.diagnostics) + Expected(CallsIn(pass.files))
  {
    var calls := CallsIn(pass.files);
    for i := 0 to |calls|
      invariant pass.diagnostics == old(pass.diagnostics) + Expected(calls[..i])
    {
      ExpectedStep(calls, i);
      InspectNode(pass, calls[i]);
    }
    assert calls[..|calls|] == calls;
  }

  /** One more call of the walk adds that call's diagnostics. */
  lemma ExpectedStep(calls: seq<CallSite>, i: nat)
    requires i < |calls| && forall c | c in calls :: WellFormed(c)
    ensures WellFormed(calls[i]) && forall c | c in calls[..i + 1] :: WellFormed(c)
    ensures Expected(calls[..i + 1]) == Expected(calls[..i]) + Inspect(calls[i])
  {
    assert calls[..i + 1][..i] == calls[..i];
  }

  // ---------------------------------------------------------------------
  // Properties of the walk

  /** Splitting the calls splits the diagnostics: the walk reports in the
      pre-order of the calls. */
  lemma {:induction false} ExpectedAppend(a: seq<CallSite>, b: seq<CallSite>)
    requires forall c | c in a :: WellFormed(c)
    requires forall c | c in b :: WellFormed(c)
    ensures Expected(a + b) == Expected(a) + Expected(b)
  {
    if b == [] {
      assert a + b == a;
    } else {
      var b' := b[..|b| - 1];
      assert (a + b)[..|a + b| - 1] == a + b';
      ExpectedAppend(a, b');
    }
  }

  /** Expected reports exactly the flagged calls, one diagnostic each, in
      the order of the calls. */
  lemma {:induction false} ExpectedIsFlaggedInOrder(calls: seq<CallSite>)
    requires forall c | c in calls :: WellFormed(c)
    ensures |Expected(calls)| == |FlaggedCalls(calls)|
    ensures forall i | 0 <= i < |Expected(calls)| :: Expected(calls)[i] == DiagnosticFor(FlaggedCalls(calls)[i])
  {
    if calls != [] {
      var rest := calls[1..];
      assert calls == [calls[0]] + rest;
      ExpectedIsFlaggedInOrder(rest);
      ExpectedAppend([calls[0]], rest);
      assert Expected([calls[0]]) == Inspect(calls[0]) by {
        assert [calls[0]][..0] == [];
      }
    }
  }

  /** Every diagnostic comes from a call of cmp.Equal whose argument types
      differ, and spans that whole call: calls of anything else and calls
      with identical argument types are never reported. */
  lemma {:induction false} ExpectedSound(calls: seq<CallSite>, d: Diagnostic)
    requires forall c | c in calls :: WellFormed(c)
    requires d in Expected(calls)
    ensures exists c | c in calls :: TargetsEqual(c) && !Identical(c.args[0].typ, c.args[1].typ)
                                     && d == DiagnosticFor(c) && d.pos == c.span.pos && d.end == c.span.end
  {
    var last := calls[|calls| - 1];
    var init := calls[..|calls| - 1];
    assert forall c | c in init :: c in calls;
    if d in Expected(init) {
      ExpectedSound(init, d);
    } else {
      assert d in Inspect(last);
    }
  }

  /** Every call of cmp.Equal with argument types that differ is reported. */
  lemma {:induction false} ExpectedComplete(calls: seq<CallSite>, c: CallSite)
    requires forall c | c in calls :: WellFormed(c)
    requires c in calls && TargetsEqual(c) && |c.args| >= 2 && !Identical(c.args[0].typ, c.args[1].typ)
    ensures DiagnosticFor(c) in Expected(calls)
  {
    var init := calls[..|calls| - 1];
    if c != calls[|calls| - 1] {
      assert c in init;
      assert forall c | c in init :: c in calls;
      ExpectedComplete(init, c);
    }
  }

  /** A package in which every call of cmp.Equal has identical argument
      types gets no diagnostic. */
  lemma {:induction false} NoDiagnosticForIdenticalTypes(calls: seq<CallSite>)
    requires forall c | c in calls :: WellFormed(c)
    requires forall c | c in calls && TargetsEqual(c) :: |c.args| >= 2 && Identical(c.args[0].typ, c.args[1].typ)
    ensures Expected(calls) == []
  {
    if calls != [] {
      NoDiagnosticForIdenticalTypes(calls[..|calls| - 1]);
    }
  }

  // ---------------------------------------------------------------------
  // Properties of the fix

  /** isPointerTo never holds both ways, so at most one argument is the
      target of a fix. */
  lemma PointerRelationAsymmetric(a: Type, b: Type)
    ensures !(IsPointerTo(a, b) && IsPointerTo(b, a))
  {
    if IsPointerTo(a, b) {
      assert PointerDepth(a) == PointerDepth(b) + 1;
    }
  }

  /** The number of pointer levels above the innermost type. */
  function PointerDepth(t: Type): nat
  {
    if t.Pointer? then 1 + PointerDepth(t.elem) else 0
  }

  /** When argument k is a pointer to the other argument's type the fix
      dereferences argument k and no other: its single edit covers exactly
      the span of argument k, and the element type of argument k, which the
      dereferenced expression has, is identical to the other argument's. */
  lemma FixDereferencesThePointer(site: CallSite, k: nat)
    requires |site.args| >= 2 && k < 2
    requires IsPointerTo(site.args[k].typ, site.args[1 - k].typ)
    ensures !IsPointerTo(site.args[1 - k].typ, site.args[k].typ)
    ensures Fixes(site) == [SuggestedFix("dereference pointer",
                              [TextEdit(site.args[k].span.pos, site.args[k].span.end, "*" + site.args[k].text)])]
    ensures site.args[k].typ.Pointer? && Identical(site.args[k].typ.elem, site.args[1 - k].typ)
  {
    PointerRelationAsymmetric(site.args[0].typ, site.args[1].typ);
  }

  /** The edit of a fix leaves the other argument untouched: it lies within
      the dereferenced argument, which does not overlap the other one. */
  lemma FixLeavesOtherArgument(site: CallSite, k: nat)
    requires |site.args| >= 2 && k < 2
    requires site.args[0].span.end <= site.args[1].span.pos
    requires IsPointerTo(site.args[k].typ, site.args[1 - k].typ)
    ensures forall e | e in Fixes(site)[0].textEdits ::
              e.end <= site.args[1 - k].span.pos || site.args[1 - k].span.end <= e.pos
  {
    FixDereferencesThePointer(site, k);
    var a := site.args[k];
    assert Fixes(site)[0].textEdits == [TextEdit(a.span.pos, a.span.end, "*" + a.text)];
  }

  // ---------------------------------------------------------------------
  // Properties of typeName

  /** The type k levels of pointer above t. */
  function Pointers(t: Type, k: nat): Type
  {
    if k == 0 then t else Pointer(Pointers(t, k - 1))
  }

  /** k stars. */
  function Stars(k: nat): string
  {
    if k == 0 then "" else "*" + Stars(k - 1)
  }

  /** The type below every pointer of t. */
  function Base(t: Type): Type
  {
    if t.Pointer? then Base(t.elem) else t
  }

  /** typeName of a named type is its package's name, a dot and its name;
      of a pointer, a star and the element's name. */
  lemma TypeNameRendering(t: Type, pkg: TypesPackage, name: string)
    ensures TypeName(Named(Some(pkg), name)) == pkg.name + "." + name
    ensures TypeName(Pointer(t)) == "*" + TypeName(t)
  {
  }

  /** typeName of a chain of k pointers is k stars before the name of the
      innermost type. */
  lemma {:induction false} TypeNameOfPointers(t: Type, k: nat)
    ensures TypeName(Pointers(t, k)) == Stars(k) + TypeName(t)
  {
    if k > 0 {
      TypeNameOfPointers(t, k - 1);
    }
  }
}
