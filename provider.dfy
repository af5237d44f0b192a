/** `comm.Provider`: a constructor function, the beans it requires (one per
    parameter) and the bean it provides (its first result). */
module Providers {
  import opened Go
  import opened Results
  import opened Panics
  import opened Beans

  datatype Provider = Provider(fn: Func) {

    function Name(): string {
      fn.name
    }

    /** The key providers are filed under. */
    function String(): string {
      FuncString(fn)
    }

    /** The path of the package that declares the function. */
    function Package(): string {
      fn.pkg.path
    }

    /** One bean per parameter, in parameter order; panics on the first
        parameter whose type cannot be classified. */
    function Require(): (r: Result<seq<Bean>, Panic>)
      ensures r.Ok? <==> forall i :: 0 <= i < |fn.params| ==> FromVar(fn.pkg.path, fn.params[i]).Ok?
      ensures r.Ok? ==> |r.value| == |fn.params|
      ensures r.Ok? ==> forall i :: 0 <= i < |fn.params| ==> r.value[i] == FromVar(fn.pkg.path, fn.params[i]).value
      ensures r.Err? ==>
        exists i :: 0 <= i < |fn.params| && FromVar(fn.pkg.path, fn.params[i]).Err? &&
          (forall j :: 0 <= j < i ==> FromVar(fn.pkg.path, fn.params[j]).Ok?) && r.error == UnsupportedType(fn.params[i])
    {
      BeansOf(fn.pkg.path, fn.params)
    }

    /** The bean of the first result; panics when there is no result or its
        type cannot be classified. */
    function Provide(): (r: Result<Bean, Panic>)
      ensures fn.results == [] ==> r == Err(NoResults)
      ensures fn.results != [] ==> r == FromVar(fn.pkg.path, fn.results[0])
    {
      if fn.results == [] then Err(NoResults) else FromVar(fn.pkg.path, fn.results[0])
    }
  }

  /** The type left once every pointer layer is stripped. */
  function StripPointers(t: Type): (r: Type)
    ensures !r.Pointer?
  {
    if t.Pointer? then StripPointers(t.elem) else t
  }

  /** `deref`: the package owning what a pointer points to, through any
      number of pointer layers: a named type's package ("" for the universe),
      or else the current package. */
  function Deref(currentPkg: string, t: Type): (path: string)
    ensures StripPointers(t).Named? ==> path == StripPointers(t).obj.pkg.GetOr("")
    ensures !StripPointers(t).Named? ==> path == currentPkg
  {
    match t
    case Pointer(e) => Deref(currentPkg, e)
    case Named(obj, _) => obj.pkg.GetOr("")
    case _ => currentPkg
  }

  /** `fromVar`: the bean for a parameter or result type of a function in
      `fnPkg`. A named type belongs to its own package ("" for `error`); an
      unnamed interface or struct to the function's package; a pointer to
      whatever `Deref` finds; any other type panics. */
  function FromVar(fnPkg: string, t: Type): (r: Result<Bean, Panic>)
    ensures r.Ok? <==> t.Named? || t.Interface? || t.Pointer? || t.Struct?
    ensures r.Ok? ==> r.value.typ == t
    ensures r.Err? ==> r.error == UnsupportedType(t)
  {
    match t
    case Named(obj, _) => Ok(Bean(obj.pkg.GetOr(""), t))
    case Interface(_, _) => Ok(Bean(fnPkg, t))
    case Pointer(_) => Ok(Bean(Deref(fnPkg, t), t))
    case Struct(_, _) => Ok(Bean(fnPkg, t))
    case _ => Err(UnsupportedType(t))
  }

  /** The package a bean is owned by, stated independently of the type
      switch: the package of the named type under any pointers, or else the
      function's own package. */
  lemma {:induction false} OwnerOfBean(fnPkg: string, t: Type)
    requires FromVar(fnPkg, t).Ok?
    ensures var base := StripPointers(t);
      FromVar(fnPkg, t).value.pkg == if base.Named? then base.obj.pkg.GetOr("") else fnPkg
  {
  }

  /** The beans of a list of types, stopping at the first one `FromVar`
      rejects. */
  function BeansOf(fnPkg: string, ts: seq<Type>): (r: Result<seq<Bean>, Panic>)
    ensures r.Ok? <==> forall i :: 0 <= i < |ts| ==> FromVar(fnPkg, ts[i]).Ok?
    ensures r.Ok? ==> |r.value| == |ts|
    ensures r.Ok? ==> forall i :: 0 <= i < |ts| ==> r.value[i] == FromVar(fnPkg, ts[i]).value
    ensures r.Err? ==>
      exists i :: 0 <= i < |ts| && FromVar(fnPkg, ts[i]).Err? &&
        (forall j :: 0 <= j < i ==> FromVar(fnPkg, ts[j]).Ok?) && r.error == UnsupportedType(ts[i])
  {
    if ts == [] then Ok([])
    else
      match FromVar(fnPkg, ts[0])
      case Err(e) => Err(e)
      case Ok(b) =>
        match BeansOf(fnPkg, ts[1..])
        case Err(e) =>
          assert
            exists i :: 1 <= i < |ts| && FromVar(fnPkg, ts[i]).Err? &&
              (forall j :: 0 <= j < i ==> FromVar(fnPkg, ts[j]).Ok?) && e == UnsupportedType(ts[i]) by {
            var i :| 0 <= i < |ts[1..]| && FromVar(fnPkg, ts[1..][i]).Err? &&
                     (forall j :: 0 <= j < i ==> FromVar(fnPkg, ts[1..][j]).Ok?) && e == UnsupportedType(ts[1..][i]);
            assert forall j :: 1 <= j < i + 1 ==> ts[j] == ts[1..][j - 1];
          }
          Err(e)
        case Ok(bs) => Ok([b] + bs)
  }

  /** The function `Handle(foo param.Foo, impl *param.FooImpl, bar Bar)
      error` of package `example/param/bar`: its three beans and the bean of
      its `error` result. */
  lemma HandleBeans()
    ensures var param := "github.com/hauntedness/autowire/example/param";
      var bar := param + "/bar";
      var foo := Named(TypeName(Some(param), "Foo", 1), Interface("interface{Do(text string) error}", "interface{Do(string) error}"));
      var fooImpl := Named(TypeName(Some(param), "FooImpl", 1), Struct("struct{}", "struct{}"));
      var barT := Named(TypeName(Some(bar), "Bar", 1), Struct("struct{}", "struct{}"));
      var handle := Provider(Func(Package(bar, "bar"), "Handle", [foo, Pointer(fooImpl), barT], [ErrorType]));
      var beans := handle.Require();
      && beans.Ok? && |beans.value| == 3
      && beans.value[0].Kind() == InterfaceKind
      && beans.value[0].PkgPath() == param
      && beans.value[0].String() == param + ".Foo"
      && beans.value[1].Kind() == PointerKind
      && beans.value[1].PkgPath() == param
      && beans.value[1].String() == "*" + param + ".FooImpl"
      && beans.value[2].Kind() == StructKind
      && beans.value[2].PkgPath() == bar
      && beans.value[2].String() == bar + ".Bar"
      && handle.Provide().Ok?
      && handle.Provide().value.Kind() == InterfaceKind
      && handle.Provide().value.PkgPath() == ""
      && handle.Provide().value.String() == "error"
  {
  }
}
