/** `comm.Bean`: a component that providers produce and require, identified
    by its type and owned by a package. */
module Beans {
  import opened Go
  import opened Results

  /** The coarse shape of a bean's type. */
  datatype BeanKind = BuildInKind | StructKind | InterfaceKind | PointerKind

  datatype Bean = Bean(pkg: string, typ: Type) {

    /** The package the bean belongs to. */
    function PkgPath(): string {
      pkg
    }

    /** The bean's type as text; the core keys beans by it. */
    function String(): string {
      TypeString(typ)
    }

    function Kind(): BeanKind {
      KindOf(typ)
    }

    /** Structurally identical types, or, failing that, the same type text
        (two loads of one package give distinct but equally named types). */
    predicate Identical(other: Bean) {
      TypesIdentical(typ, other.typ) || String() == other.String()
    }
  }

  /** The type a named type finally stands for. */
  function Resolved(t: Type): (r: Type)
    ensures !r.Named?
  {
    if t.Named? then Resolved(t.underlying) else t
  }

  /** `kindOf`: the kind of the type once named types are resolved:
      interfaces, pointers and structs have their own kinds, every other
      shape is built-in. */
  function KindOf(t: Type): (k: BeanKind)
    ensures k == InterfaceKind <==> Resolved(t).Interface?
    ensures k == PointerKind <==> Resolved(t).Pointer?
    ensures k == StructKind <==> Resolved(t).Struct?
  {
    match t
    case Named(_, u) => KindOf(u)
    case Interface(_, _) => InterfaceKind
    case Pointer(_) => PointerKind
    case Struct(_, _) => StructKind
    case _ => BuildInKind
  }

  /** A named type has the kind of the type it names. */
  lemma KindOfNamed(obj: TypeName, u: Type)
    ensures KindOf(Named(obj, u)) == KindOf(u)
  {
  }

  /** `error` is an interface. */
  lemma ErrorIsInterface()
    ensures KindOf(ErrorType) == InterfaceKind
  {
  }

  /** Structural identity is reflexive. */
  lemma {:induction false} TypesIdenticalReflexive(t: Type)
    ensures TypesIdentical(t, t)
  {
    if t.Pointer? { TypesIdenticalReflexive(t.elem); }
  }

  /** Structural identity is symmetric. */
  lemma {:induction false} TypesIdenticalSymmetric(a: Type, b: Type)
    requires TypesIdentical(a, b)
    ensures TypesIdentical(b, a)
  {
    if a.Pointer? && b.Pointer? { TypesIdenticalSymmetric(a.elem, b.elem); }
  }

  /** The types whose printed text is an identity key: named types (one
      object prints one package path and name), basic types, and pointers
      to such types. */
  predicate TextKeyed(t: Type) {
    match t
    case Named(_, _) => true
    case Basic(_) => true
    case Pointer(e) => TextKeyed(e)
    case _ => false
  }

  /** Structurally identical types have the same text when that text is an
      identity key; for other shapes it need not be (`InterfaceParamNames`). */
  lemma {:induction false} TypesIdenticalSameString(a: Type, b: Type)
    ensures TypesIdentical(a, b) && TextKeyed(a) ==> TypeString(a) == TypeString(b)
  {
    if a.Pointer? && b.Pointer? { TypesIdenticalSameString(a.elem, b.elem); }
  }

  /** Equal texts always make beans `Identical` (the string fallback); the
      converse holds for beans whose type text is an identity key. */
  lemma IdenticalIsSameString(a: Bean, b: Bean)
    ensures a.String() == b.String() ==> a.Identical(b)
    ensures TextKeyed(a.typ) ==> (a.Identical(b) <==> a.String() == b.String())
  {
    TypesIdenticalSameString(a.typ, b.typ);
  }

  /** Identity ignores parameter names, which the text prints: two interface
      beans that differ only in a method's parameter name are `Identical`
      yet have different texts, so a map keyed by the text tells them
      apart. */
  lemma InterfaceParamNames(pkg: string)
    ensures var t1 := Interface("interface{Do(text string) error}", "interface{Do(string) error}");
      var t2 := Interface("interface{Do(s string) error}", "interface{Do(string) error}");
      Bean(pkg, t1).Identical(Bean(pkg, t2)) && Bean(pkg, t1).String() != Bean(pkg, t2).String()
  {
  }

  /** `Identical` is reflexive and symmetric. */
  lemma IdenticalReflexiveSymmetric(a: Bean, b: Bean)
    ensures a.Identical(a)
    ensures a.Identical(b) ==> b.Identical(a)
  {
    if TypesIdentical(a.typ, b.typ) { TypesIdenticalSymmetric(a.typ, b.typ); }
  }

  /** Two independent loads of one package give named types that are not
      structurally identical, yet the beans built on them are identical. */
  lemma TwoLoadsIdentical(pkg: string, path: string, name: string, u: Type, load1: nat, load2: nat)
    requires load1 != load2
    ensures !TypesIdentical(Named(TypeName(Some(path), name, load1), u), Named(TypeName(Some(path), name, load2), u))
    ensures Bean(pkg, Named(TypeName(Some(path), name, load1), u)).Identical(Bean(pkg, Named(TypeName(Some(path), name, load2), u)))
  {
  }
}
