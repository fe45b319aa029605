/** The part of go/types that the two checkers look at.  Identity of types
    (types.Identical) is structural equality on this datatype. */
module GoTypes {
  import opened Wrappers

  /** A *types.Package: its import path and its declared name. */
  datatype TypesPackage = TypesPackage(path: string, name: string)

  /** A types.Type.  `Named` carries the package of its type name, which is
      None for the predeclared named types of the universe scope (`error`,
      `comparable`).  `Literal` stands for every other kind of type (struct,
      func, chan, interface, ...), identified by its type literal. */
  datatype Type =
    | Basic(name: string)
    | Named(pkg: Option<TypesPackage>, name: string)
    | Pointer(elem: Type)
    | Slice(elem: Type)
    | Map(key: Type, value: Type)
    | Literal(text: string)

  /** types.Identical. */
  predicate Identical(a: Type, b: Type)
  {
    a == b
  }

  /** What fmt.Sprint prints for a types.Type, that is types.TypeString with
      no qualifier: named types are qualified by the package path. */
  function TypeString(t: Type): string
  {
    match t
    case Basic(name) => name
    case Named(pkg, name) => if pkg.Some? then pkg.value.path + "." + name else name
    case Pointer(elem) => "*" + TypeString(elem)
    case Slice(elem) => "[]" + TypeString(elem)
    case Map(key, value) => "map[" + TypeString(key) + "]" + TypeString(value)
    case Literal(text) => text
  }

  /** Because %v qualifies a named type by its package PATH, two named types
      of the same name from packages with different paths print
      differently. */
  lemma NamedTypeStringsDiffer(p1: TypesPackage, p2: TypesPackage, name: string)
    requires p1.path != p2.path
    ensures TypeString(Named(Some(p1), name)) != TypeString(Named(Some(p2), name))
  {
    var s1, s2 := p1.path + "." + name, p2.path + "." + name;
    assert s1[..|p1.path|] == p1.path && |s1| == |p1.path| + 1 + |name|;
    assert s2[..|p2.path|] == p2.path && |s2| == |p2.path| + 1 + |name|;
  }
}
