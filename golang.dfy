/** The parts of Go's type checker (`go/types`) and syntax trees (`go/ast`,
    `dst`) that the core inspects, as small closed datatypes. */
module Go {
  import opened Results

  /** A declared type name. `pkg` is `None` for the universe scope (`error`).
      `load` tells apart the objects that two independent loads of the same
      package create: the type checker compares named types by object
      identity, so the same declaration loaded twice gives two different
      named types. */
  datatype TypeName = TypeName(pkg: Option<string>, name: string, load: nat)

  /** The shapes of `types.Type` the core distinguishes. Unnamed composite
      types other than pointers carry two independent texts: `repr`, what
      `types.TypeString` prints (parameter names, embedded interfaces in
      the order written), and `shape`, the key `types.Identical` compares,
      which leaves out what identity ignores. So `func(a int)` and
      `func(b int)` print differently but have the same shape, and two
      struct types can print alike yet differ in shape when their fields
      name types of different loads. */
  datatype Type =
    | Named(obj: TypeName, underlying: Type)
    | Interface(repr: string, shape: string)
    | Pointer(elem: Type)
    | Struct(repr: string, shape: string)
    | Basic(name: string)
    | Signature(repr: string, shape: string)
    | OtherType(repr: string, shape: string)

  /** `types.TypeString(t, nil)`: named types qualified by their full package
      path, pointers prefixed by `*`. */
  function TypeString(t: Type): string {
    match t
    case Named(obj, _) =>
      (match obj.pkg case Some(p) => p + "." case None => "") + obj.name
    case Interface(r, _) => r
    case Pointer(e) => "*" + TypeString(e)
    case Struct(r, _) => r
    case Basic(n) => n
    case Signature(r, _) => r
    case OtherType(r, _) => r
  }

  /** `types.Identical`: named types are identical when they are the same
      object, pointers when their element types are, basic types when they
      have the same name, and the other shapes when their identity keys
      agree, whatever they print. */
  predicate TypesIdentical(a: Type, b: Type) {
    match (a, b)
    case (Named(o1, _), Named(o2, _)) => o1 == o2
    case (Pointer(e1), Pointer(e2)) => TypesIdentical(e1, e2)
    case (Interface(_, s1), Interface(_, s2)) => s1 == s2
    case (Struct(_, s1), Struct(_, s2)) => s1 == s2
    case (Basic(n1), Basic(n2)) => n1 == n2
    case (Signature(_, s1), Signature(_, s2)) => s1 == s2
    case (OtherType(_, s1), OtherType(_, s2)) => s1 == s2
    case _ => false
  }

  /** The predeclared `error` interface. */
  const ErrorType: Type := Named(TypeName(None, "error", 0), Interface("interface{Error() string}", "interface{Error() string}"))

  /** `func()`, the type of a cleanup function. */
  const CleanupType: Type := Signature("func()", "func()")

  /** A package: its import path and its declared name. */
  datatype Package = Package(path: string, name: string)

  /** A function object (`*types.Func`): its package, name, and the types of
      its parameters and results. */
  datatype Func = Func(pkg: Package, name: string, params: seq<Type>, results: seq<Type>)

  /** `types.Func.String()`, the key the core files functions under. */
  function FuncString(fn: Func): string {
    "func " + fn.pkg.path + "." + fn.name
  }

  /** Expressions, as far as the core looks into them. An identifier carries
      the import path `dst` attaches to a qualified reference ("" for a plain
      identifier). */
  datatype Expr =
    | Ident(name: string, path: string)
    | Selector(x: Expr, sel: string)
    | Star(x: Expr)
    | Call(fun: Expr, args: seq<Expr>)
    | OtherExpr(repr: string)

  /** Statements of a function body. */
  datatype Stmt = ExprStmt(x: Expr) | EmptyStmt | ReturnStmt | OtherStmt

  /** The object an identifier or qualified identifier resolves to: its
      package path (`None` for the universe scope) and its name. */
  datatype Object = Object(pkg: Option<string>, name: string)

  /** The universe's `panic` built-in. */
  const PanicObject: Object := Object(None, "panic")

  /** An import spec: the optional explicit name and the quoted path
      literal. */
  datatype ImportSpec = ImportSpec(name: Option<string>, pathLit: string)

  /** A spec inside a general declaration. */
  datatype Spec = Import(spec: ImportSpec) | ValueSpec | TypeSpec

  /** Top-level declarations of a file: general declarations hold specs. */
  datatype Decl = GenDecl(specs: seq<Spec>) | FuncDecl(name: string)
}
