/** The slice of golang.org/x/tools/go/analysis the checkers use: the
    diagnostic records and the pass through which a checker reports them and
    exports and imports object facts. */
module Analysis {
  import opened GoAst

  /** token.NoPos. */
  const NoPos: nat := 0

  /** analysis.TextEdit: replace the bytes in [pos, end) by newText. */
  datatype TextEdit = TextEdit(pos: nat, end: nat, newText: string)

  /** The source text after one edit: the bytes in [pos, end) become
      newText, all others stay. */
  function ApplyEdit(src: string, e: TextEdit): (r: string)
    requires e.pos <= e.end <= |src|
    ensures |r| == |src| - (e.end - e.pos) + |e.newText|
    ensures r[..e.pos] == src[..e.pos] && r[e.pos + |e.newText|..] == src[e.end..]
  {
    src[..e.pos] + e.newText + src[e.end..]
  }

  /** analysis.SuggestedFix. */
  datatype SuggestedFix = SuggestedFix(message: string, textEdits: seq<TextEdit>)

  /** analysis.Diagnostic. */
  datatype Diagnostic = Diagnostic(pos: nat, end: nat, message: string, suggestedFixes: seq<SuggestedFix>)

  /** An *analysis.Pass: the files of the package under analysis, the object
      facts visible to it (the only fact type here is SameType, so a fact is
      the symbol it is attached to) and the diagnostics reported so far. */
  class Pass {
    const files: seq<Node>
    var facts: set<Symbol>
    var diagnostics: seq<Diagnostic>

    constructor (files: seq<Node>, facts: set<Symbol>)
      ensures this.files == files && this.facts == facts && diagnostics == []
    {
      this.files := files;
      this.facts := facts;
      diagnostics := [];
    }

    /** pass.Report: appends one diagnostic. */
    method Report(d: Diagnostic)
      modifies this`diagnostics
      ensures diagnostics == old(diagnostics) + [d]
    {
      diagnostics := diagnostics + [d];
    }

    /** pass.Reportf: a diagnostic at one position, without an end and
        without fixes. */
    method Reportf(pos: nat, message: string)
      modifies this`diagnostics
      ensures diagnostics == old(diagnostics) + [Diagnostic(pos, NoPos, message, [])]
    {
      Report(Diagnostic(pos, NoPos, message, []));
    }

    /** pass.ExportObjectFact: attaches the fact to the object; exporting it
        a second time changes nothing. */
    method ExportObjectFact(obj: Symbol)
      modifies this`facts
      ensures facts == old(facts) + {obj}
    {
      facts := facts + {obj};
    }

    /** pass.ImportObjectFact: whether the object carries the fact, exported
        either earlier in this package or by a package analysed before. */
    method ImportObjectFact(obj: Symbol) returns (found: bool)
      ensures found <==> obj in facts
    {
      found := obj in facts;
    }
  }
}
