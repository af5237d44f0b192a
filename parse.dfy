/** The checks borrowed from wire's parser: the shape of a provider's
    results, the recognition of an injector template, the wire import path,
    the package cache and `ProvidedType`. */
module Parse {
  import opened Go
  import opened Results
  import opened Panics
  import opened Strings

  /** What a provider or injector returns: the provided type, and whether a
      cleanup function and an error follow it. */
  datatype OutputSignature = OutputSignature(out: Type, cleanup: bool, err: bool)

  /** Why a result list is rejected; the texts are those of the offending
      types. */
  datatype OutputError =
    | NoReturnValues
    | TooManyReturnValues
    | SecondNotErrorOrCleanup(second: string)
    | SecondNotCleanup(second: string)
    | ThirdNotError(third: string)

  /** `funcOutput`: one result; or a result and an `error` or a `func()`; or
      a result, a `func()` and an `error`. */
  function FuncOutput(results: seq<Type>): (r: Result<OutputSignature, OutputError>)
    ensures |results| == 0 ==> r == Err(NoReturnValues)
    ensures |results| > 3 ==> r == Err(TooManyReturnValues)
    ensures |results| == 1 ==> r == Ok(OutputSignature(results[0], false, false))
    ensures |results| == 2 ==>
      (r.Ok? <==> TypesIdentical(results[1], ErrorType) || TypesIdentical(results[1], CleanupType))
    ensures |results| == 2 && r.Ok? ==>
      r.value.err == TypesIdentical(results[1], ErrorType) && r.value.cleanup == !r.value.err
    ensures |results| == 3 ==>
      (r.Ok? <==> TypesIdentical(results[1], CleanupType) && TypesIdentical(results[2], ErrorType))
    ensures |results| == 3 && r.Ok? ==> r.value.cleanup && r.value.err
    ensures |results| == 2 && r.Err? ==> r.error == SecondNotErrorOrCleanup(TypeString(results[1]))
    ensures |results| == 3 && !TypesIdentical(results[1], CleanupType) ==>
      r == Err(SecondNotCleanup(TypeString(results[1])))
    ensures |results| == 3 && TypesIdentical(results[1], CleanupType) && !TypesIdentical(results[2], ErrorType) ==>
      r == Err(ThirdNotError(TypeString(results[2])))
    ensures r.Ok? ==> r.value.out == results[0]
  {
    if |results| == 0 then Err(NoReturnValues)
    else if |results| == 1 then Ok(OutputSignature(results[0], false, false))
    else if |results| == 2 then
      if TypesIdentical(results[1], ErrorType) then Ok(OutputSignature(results[0], false, true))
      else if TypesIdentical(results[1], CleanupType) then Ok(OutputSignature(results[0], true, false))
      else Err(SecondNotErrorOrCleanup(TypeString(results[1])))
    else if |results| == 3 then
      if !TypesIdentical(results[1], CleanupType) then Err(SecondNotCleanup(TypeString(results[1])))
      else if !TypesIdentical(results[2], ErrorType) then Err(ThirdNotError(TypeString(results[2])))
      else Ok(OutputSignature(results[0], true, true))
    else Err(TooManyReturnValues)
  }

  /** An accepted result list ends in the error when it reports one, and
      in a cleanup function otherwise when it reports one; `error` and
      `func()` are never confused. */
  lemma AcceptedShapes(results: seq<Type>)
    requires FuncOutput(results).Ok?
    ensures 1 <= |results| <= 3
    ensures FuncOutput(results).value.err ==> TypesIdentical(results[|results| - 1], ErrorType)
    ensures FuncOutput(results).value.cleanup ==> TypesIdentical(results[1], CleanupType)
    ensures !TypesIdentical(ErrorType, CleanupType)
  {
  }

  const WirePath: string := "github.com/google/wire"
  const VendorPart: string := "vendor/"

  /** `isWireImport`: the path, with everything through its last `vendor/`
      cut off when that starts the path or follows a `/`, is wire's own. */
  function IsWireImport(path: string): (r: bool)
    ensures r ==> |path| >= |WirePath| && path[|path| - |WirePath|..] == WirePath
  {
    var i := LastIndex(path, VendorPart);
    var rest := if i != -1 && (i == 0 || path[i - 1] == '/') then path[i + |VendorPart|..] else path;
    rest == WirePath
  }

  /** Without any `vendor/` in it, a path is wire's exactly when it is
      wire's path itself. */
  lemma UnvendoredWireImport(path: string)
    requires forall j :: !OccursAt(path, VendorPart, j)
    ensures IsWireImport(path) <==> path == WirePath
  {
    assert LastIndex(path, VendorPart) == -1;
  }

  /** No `vendor/` occurs in a text without a `v`. */
  lemma NoVendorWithoutV(s: string)
    requires 'v' !in s
    ensures forall j :: !OccursAt(s, VendorPart, j)
  {
    forall j
      ensures !OccursAt(s, VendorPart, j)
    {
      if 0 <= j && j + |VendorPart| <= |s| {
        assert s[j..j + |VendorPart|][0] == s[j];
      }
    }
  }

  /** Wire's own path is recognised. */
  lemma WirePathIsWireImport()
    ensures IsWireImport(WirePath)
  {
    assert 'v' !in WirePath;
    NoVendorWithoutV(WirePath);
    UnvendoredWireImport(WirePath);
  }

  /** Proof helper: `vendor/` holds its `v` only in front. */
  lemma OnlyFirstIsV()
    ensures forall m :: 0 < m < |VendorPart| ==> VendorPart[m] != 'v'
  {
  }

  /** Proof helper: a text cannot occur where a different character
      stands than its first. */
  lemma NotOccursAt(s: string, sub: string, j: int)
    requires |sub| > 0 && 0 <= j < |s| && s[j] != sub[0]
    ensures !OccursAt(s, sub, j)
  {
    if j + |sub| <= |s| {
      assert s[j..j + |sub|][0] == s[j];
    }
  }

  /** After the `vendor/` that follows `prefix`, none occurs again when the
      remainder holds none. */
  lemma NoLaterVendor(prefix: string, rest: string)
    requires forall j :: !OccursAt(rest, VendorPart, j)
    ensures forall j :: |prefix| < j ==> !OccursAt(prefix + VendorPart + rest, VendorPart, j)
  {
    var s := prefix + VendorPart + rest;
    var n := |prefix|;
    var m := n + |VendorPart|;
    forall j | n < j
      ensures !OccursAt(s, VendorPart, j)
    {
      if j < m {
        assert s[j] == VendorPart[j - n];
        OnlyFirstIsV();
        NotOccursAt(s, VendorPart, j);
      } else if j + |VendorPart| <= |s| {
        assert s[j..j + |VendorPart|] == rest[j - m..j - m + |VendorPart|];
        assert !OccursAt(rest, VendorPart, j - m);
      }
    }
  }

  /** A path vendored under a directory, whose remainder holds no further
      `vendor/`, is wire's exactly when the remainder is wire's path. */
  lemma VendoredImport(prefix: string, rest: string)
    requires prefix == [] || prefix[|prefix| - 1] == '/'
    requires forall j :: !OccursAt(rest, VendorPart, j)
    ensures IsWireImport(prefix + VendorPart + rest) <==> rest == WirePath
  {
    var s := prefix + VendorPart + rest;
    var n := |prefix|;
    assert s[n..n + |VendorPart|] == VendorPart;
    assert OccursAt(s, VendorPart, n);
    NoLaterVendor(prefix, rest);
    LastIndexIs(s, VendorPart, n);
    var i := LastIndex(s, VendorPart);
    assert s[i + |VendorPart|..] == rest;
  }

  /** Wire vendored under any directory is recognised. */
  lemma VendoredWireImport(prefix: string)
    requires prefix == [] || prefix[|prefix| - 1] == '/'
    ensures IsWireImport(prefix + VendorPart + WirePath)
  {
    assert 'v' !in WirePath;
    NoVendorWithoutV(WirePath);
    VendoredImport(prefix, WirePath);
  }

  /** The reason `findInjectorBuild` rejects a template. */
  datatype TemplateError = NotOnlyBuild

  /** The `wire.Build` call a call expression is, directly or as the only
      argument of `panic`; `resolve` gives the object a function expression
      refers to. */
  function BuildCall(call: Expr, resolve: Expr -> Option<Object>): Option<Expr>
    requires call.Call?
  {
    var inner :=
      if resolve(call.fun) == Some(PanicObject) then
        if |call.args| == 1 && call.args[0].Call? then Some(call.args[0]) else None
      else Some(call);
    if inner.None? then None
    else
      var obj := resolve(inner.value.fun);
      if obj.Some? && obj.value.pkg.Some? && IsWireImport(obj.value.pkg.value) && obj.value.name == "Build"
      then inner else None
  }

  /** The build call a statement carries, if any. */
  function StmtBuildCall(s: Stmt, resolve: Expr -> Option<Object>): Option<Expr> {
    if s.ExprStmt? && s.x.Call? then BuildCall(s.x, resolve) else None
  }

  /** The build call of the last statement in `stmts` that carries one. */
  function LastBuildCall(stmts: seq<Stmt>, resolve: Expr -> Option<Object>): Option<Expr> {
    if stmts == [] then None
    else
      var last := StmtBuildCall(stmts[|stmts| - 1], resolve);
      if last.Some? then last else LastBuildCall(stmts[..|stmts| - 1], resolve)
  }

  /** A `return` comes before any expression statement. */
  ghost predicate EarlyReturn(stmts: seq<Stmt>) {
    exists j :: 0 <= j < |stmts| && stmts[j].ReturnStmt? && forall i :: 0 <= i < j ==> !stmts[i].ExprStmt?
  }

  /** The template holds a statement other than one expression statement,
      empty statements and returns. */
  ghost predicate Cluttered(stmts: seq<Stmt>) {
    || (exists i, j :: 0 <= i < j < |stmts| && stmts[i].ExprStmt? && stmts[j].ExprStmt?)
    || (exists i :: 0 <= i < |stmts| && stmts[i].OtherStmt?)
  }

  /** `findInjectorBuild`: the `wire.Build` call of an injector template.
      A function without a body, one that returns before any expression
      statement, and one without a build call are no template; a template
      holding more than its build call and returns is an error. */
  method FindInjectorBuild(body: Option<seq<Stmt>>, resolve: Expr -> Option<Object>)
    returns (r: Result<Option<Expr>, TemplateError>)
    ensures body.None? ==> r == Ok(None)
    ensures body.Some? && EarlyReturn(body.value) ==> r == Ok(None)
    ensures body.Some? && !EarlyReturn(body.value) && LastBuildCall(body.value, resolve).None? ==> r == Ok(None)
    ensures body.Some? && !EarlyReturn(body.value) && LastBuildCall(body.value, resolve).Some? ==>
      r == if Cluttered(body.value) then Err(NotOnlyBuild) else Ok(LastBuildCall(body.value, resolve))
  {
    if body.None? {
      return Ok(None);
    }
    var stmts := body.value;
    var numStatements := 0;
    var invalid := false;
    var build: Option<Expr> := None;
    var k := 0;
    while k < |stmts|
      invariant 0 <= k <= |stmts|
      invariant Scan(stmts[..k], resolve) == ScanState(numStatements > 0, false, build, invalid)
    {
      assert stmts[..k + 1] == stmts[..k] + [stmts[k]];
      ScanSnoc(stmts[..k], stmts[k], resolve);
      var s := stmts[k];
      match s {
        case ExprStmt(x) =>
          numStatements := numStatements + 1;
          if numStatements > 1 {
            invalid := true;
          }
          if x.Call? {
            var call := BuildCall(x, resolve);
            if call.Some? {
              build := call;
            }
          }
        case EmptyStmt =>
        case ReturnStmt =>
          if numStatements == 0 {
            ScanMeans(stmts[..k + 1], resolve);
            EarlyReturnExtends(stmts[..k + 1], stmts);
            return Ok(None);
          }
        case OtherStmt =>
          invalid := true;
      }
      k := k + 1;
    }
    assert stmts[..k] == stmts;
    ScanMeans(stmts, resolve);
    if build.None? {
      return Ok(None);
    }
    if invalid {
      return Err(NotOnlyBuild);
    }
    return Ok(build);
  }

  /** An early return in a prefix is an early return of the whole list. */
  lemma EarlyReturnExtends(prefix: seq<Stmt>, stmts: seq<Stmt>)
    requires EarlyReturn(prefix) && prefix <= stmts
    ensures EarlyReturn(stmts)
  {
    var j :| 0 <= j < |prefix| && prefix[j].ReturnStmt? && forall i :: 0 <= i < j ==> !prefix[i].ExprStmt?;
    assert stmts[j].ReturnStmt? && forall i :: 0 <= i < j ==> !stmts[i].ExprStmt?;
  }

  /** No statement of the list is an expression statement. */
  ghost predicate NoExprStmt(stmts: seq<Stmt>) {
    forall i :: 0 <= i < |stmts| ==> !stmts[i].ExprStmt?
  }

  /** What the scan of a template has seen: whether an expression
      statement came yet, whether a `return` came before any, the last build
      call, and whether the template is cluttered. */
  datatype ScanState = ScanState(sawExpr: bool, early: bool, build: Option<Expr>, cluttered: bool)

  /** What the scan knows after one more statement. */
  function Next(st: ScanState, last: Stmt, resolve: Expr -> Option<Object>): ScanState {
    var call := StmtBuildCall(last, resolve);
    ScanState(st.sawExpr || last.ExprStmt?,
              st.early || (last.ReturnStmt? && !st.sawExpr),
              if call.Some? then call else st.build,
              st.cluttered || last.OtherStmt? || (last.ExprStmt? && st.sawExpr))
  }

  /** The scan of `FindInjectorBuild` over `stmts`, one statement at a
      time. */
  ghost function Scan(stmts: seq<Stmt>, resolve: Expr -> Option<Object>): ScanState {
    if stmts == [] then ScanState(false, false, None, false)
    else Next(Scan(stmts[..|stmts| - 1], resolve), stmts[|stmts| - 1], resolve)
  }

  /** Scanning one more statement. */
  lemma ScanSnoc(prefix: seq<Stmt>, last: Stmt, resolve: Expr -> Option<Object>)
    ensures Scan(prefix + [last], resolve) == Next(Scan(prefix, resolve), last, resolve)
  {
    assert (prefix + [last])[..|prefix|] == prefix;
  }

  /** The scan computes exactly the properties a template is judged by. */
  lemma {:induction false} ScanMeans(stmts: seq<Stmt>, resolve: Expr -> Option<Object>)
    ensures Scan(stmts, resolve).sawExpr <==> !NoExprStmt(stmts)
    ensures Scan(stmts, resolve).early <==> EarlyReturn(stmts)
    ensures Scan(stmts, resolve).build == LastBuildCall(stmts, resolve)
    ensures Scan(stmts, resolve).cluttered <==> Cluttered(stmts)
  {
    if stmts != [] {
      var prefix := stmts[..|stmts| - 1];
      var last := stmts[|stmts| - 1];
      assert stmts == prefix + [last];
      ScanMeans(prefix, resolve);
      NoExprStmtStep(prefix, last);
      EarlyReturnStep(prefix, last);
      LastBuildCallStep(prefix, last, resolve);
      ClutteredStep(prefix, last);
    }
  }

  /** One more statement keeps a list free of expression statements
      exactly when it is not one. */
  lemma NoExprStmtStep(prefix: seq<Stmt>, last: Stmt)
    ensures NoExprStmt(prefix + [last]) <==> NoExprStmt(prefix) && !last.ExprStmt?
  {
    var stmts := prefix + [last];
    if NoExprStmt(stmts) {
      forall i | 0 <= i < |prefix| ensures !prefix[i].ExprStmt? {
        assert stmts[i] == prefix[i];
      }
      assert stmts[|prefix|] == last;
    }
  }

  /** One more statement makes an early return exactly when it is a
      `return` and no expression statement came before it. */
  lemma EarlyReturnStep(prefix: seq<Stmt>, last: Stmt)
    ensures EarlyReturn(prefix + [last]) <==> EarlyReturn(prefix) || (last.ReturnStmt? && NoExprStmt(prefix))
  {
    var stmts := prefix + [last];
    var n := |prefix|;
    if EarlyReturn(stmts) {
      var j :| 0 <= j < |stmts| && stmts[j].ReturnStmt? && forall i :: 0 <= i < j ==> !stmts[i].ExprStmt?;
      if j < n {
        forall i | 0 <= i < j ensures !prefix[i].ExprStmt? {
          assert stmts[i] == prefix[i];
        }
        assert prefix[j] == stmts[j];
      } else {
        forall i | 0 <= i < n ensures !prefix[i].ExprStmt? {
          assert stmts[i] == prefix[i];
        }
      }
    }
    if EarlyReturn(prefix) {
      var j :| 0 <= j < |prefix| && prefix[j].ReturnStmt? && forall i :: 0 <= i < j ==> !prefix[i].ExprStmt?;
      assert stmts[j].ReturnStmt? && forall i :: 0 <= i < j ==> !stmts[i].ExprStmt?;
    }
    if last.ReturnStmt? && NoExprStmt(prefix) {
      assert stmts[n].ReturnStmt? && forall i :: 0 <= i < n ==> !stmts[i].ExprStmt?;
    }
  }

  /** The last build call after one more statement: that statement's, when
      it carries one. */
  lemma LastBuildCallStep(prefix: seq<Stmt>, last: Stmt, resolve: Expr -> Option<Object>)
    ensures LastBuildCall(prefix + [last], resolve) ==
      if StmtBuildCall(last, resolve).Some? then StmtBuildCall(last, resolve) else LastBuildCall(prefix, resolve)
  {
    assert (prefix + [last])[..|prefix|] == prefix;
  }

  /** One more statement clutters the list when it is a statement of
      another kind, or a second expression statement. */
  lemma ClutteredStep(prefix: seq<Stmt>, last: Stmt)
    ensures Cluttered(prefix + [last]) <==>
      Cluttered(prefix) || last.OtherStmt? || (last.ExprStmt? && !NoExprStmt(prefix))
  {
    var stmts := prefix + [last];
    var n := |prefix|;
    if Cluttered(stmts) {
      if exists i :: 0 <= i < |stmts| && stmts[i].OtherStmt? {
        var i :| 0 <= i < |stmts| && stmts[i].OtherStmt?;
        if i < n {
          assert prefix[i].OtherStmt?;
        }
      } else {
        var i, j :| 0 <= i < j < |stmts| && stmts[i].ExprStmt? && stmts[j].ExprStmt?;
        if j < n {
          assert prefix[i].ExprStmt? && prefix[j].ExprStmt?;
        } else {
          assert prefix[i].ExprStmt?;
        }
      }
    }
    if last.ExprStmt? && !NoExprStmt(prefix) {
      var i :| 0 <= i < |prefix| && prefix[i].ExprStmt?;
      assert stmts[i].ExprStmt? && stmts[n].ExprStmt?;
    }
    if last.OtherStmt? {
      assert stmts[n].OtherStmt?;
    }
    if Cluttered(prefix) {
      if exists i :: 0 <= i < |prefix| && prefix[i].OtherStmt? {
        var i :| 0 <= i < |prefix| && prefix[i].OtherStmt?;
        assert stmts[i].OtherStmt?;
      } else {
        var i, j :| 0 <= i < j < |prefix| && prefix[i].ExprStmt? && prefix[j].ExprStmt?;
        assert stmts[i].ExprStmt? && stmts[j].ExprStmt?;
      }
    }
  }

  /** The template `panic(wire.Build(NewEvent, msg.NewMessage))` is
      recognised, the `panic` being seen through. */
  lemma PanicWrappedBuild(resolve: Expr -> Option<Object>)
    requires resolve(Ident("panic", "")) == Some(PanicObject)
    requires resolve(Selector(Ident("wire", ""), "Build")) == Some(Object(Some(WirePath), "Build"))
    ensures var build := Call(Selector(Ident("wire", ""), "Build"),
                              [Ident("NewEvent", ""), Selector(Ident("msg", ""), "NewMessage")]);
      var body := [ExprStmt(Call(Ident("panic", ""), [build]))];
      !EarlyReturn(body) && !Cluttered(body) && LastBuildCall(body, resolve) == Some(build)
  {
    var build := Call(Selector(Ident("wire", ""), "Build"),
                      [Ident("NewEvent", ""), Selector(Ident("msg", ""), "NewMessage")]);
    var body := [ExprStmt(Call(Ident("panic", ""), [build]))];
    WirePathIsWireImport();
    assert BuildCall(Call(Ident("panic", ""), [build]), resolve) == Some(build);
    assert body[..0] == [];
  }

  /** A loaded package: its path and the packages it imports, by index in
      the load's graph. */
  datatype PkgNode = PkgNode(path: string, imports: seq<nat>)

  /** The graph is closed and, as the loader guarantees, holds one package
      per path. */
  ghost predicate WellFormed(graph: map<nat, PkgNode>) {
    && (forall id, i :: id in graph && 0 <= i < |graph[id].imports| ==> graph[id].imports[i] in graph)
    && (forall a, b :: a in graph && b in graph && graph[a].path == graph[b].path ==> a == b)
  }

  /** The packages reachable from `roots` in at most `k` import steps. */
  ghost function Reach(graph: map<nat, PkgNode>, roots: seq<nat>, k: nat): set<nat>
    decreases k
  {
    if k == 0 then set i | 0 <= i < |roots| :: roots[i]
    else
      var prev := Reach(graph, roots, k - 1);
      prev + set id, imp | id in prev && id in graph && imp in graph[id].imports :: imp
  }

  /** The paths of every package of the graph. */
  ghost function AllPaths(graph: map<nat, PkgNode>): set<string> {
    set id | id in graph :: graph[id].path
  }

  /** `newObjectCache`: a depth-first walk from the given packages through
      their imports, filing each package under its path. Panics when given
      no package. */
  method NewObjectCache(graph: map<nat, PkgNode>, roots: seq<nat>) returns (r: Result<map<string, nat>, Panic>)
    requires WellFormed(graph)
    requires forall i :: 0 <= i < |roots| ==> roots[i] in graph
    ensures roots == [] <==> r == Err(NoPackages)
    ensures r.Ok? ==> FiledSound(graph, roots, r.value)
    ensures r.Ok? ==> CoversReach(graph, roots, r.value)
  {
    if |roots| == 0 {
      return Err(NoPackages);
    }
    var packages: map<string, nat> := map[];
    var stk := roots;
    assert forall i :: 0 <= i < |stk| ==> stk[i] in Reach(graph, roots, 0);
    while |stk| > 0
      invariant Walking(graph, roots, packages, stk)
      decreases |AllPaths(graph) - packages.Keys|, |stk|
    {
      var p := stk[|stk| - 1];
      if graph[p].path in packages {
        PopFiled(graph, roots, packages, stk);
        stk := stk[..|stk| - 1];
        continue;
      }
      PopNew(graph, roots, packages, stk);
      FewerUnvisited(AllPaths(graph), packages.Keys, graph[p].path);
      packages := packages[graph[p].path := p];
      stk := stk[..|stk| - 1];
      stk := stk + graph[p].imports;
    }
    assert stk == [];
    WalkDone(graph, roots, packages);
    return Ok(packages);
  }

  /** Every package on the stack is reachable. */
  ghost predicate StackedReachable(graph: map<nat, PkgNode>, roots: seq<nat>, stk: seq<nat>) {
    forall i :: 0 <= i < |stk| ==> stk[i] in graph && exists k :: stk[i] in Reach(graph, roots, k)
  }

  /** Every filed package is reachable and filed under its own path. */
  ghost predicate FiledSound(graph: map<nat, PkgNode>, roots: seq<nat>, packages: map<string, nat>) {
    forall p :: p in packages ==>
      packages[p] in graph && graph[packages[p]].path == p && exists k :: packages[p] in Reach(graph, roots, k)
  }

  /** The path of every reachable package is filed. */
  ghost predicate CoversReach(graph: map<nat, PkgNode>, roots: seq<nat>, packages: map<string, nat>) {
    forall k, id :: id in Reach(graph, roots, k) ==> id in graph && graph[id].path in packages
  }

  /** Every filed package is in the graph. */
  ghost predicate FiledInGraph(graph: map<nat, PkgNode>, packages: map<string, nat>) {
    forall p :: p in packages ==> packages[p] in graph
  }

  /** Every import of a filed package is filed or stacked. */
  ghost predicate ImportsCovered(graph: map<nat, PkgNode>, packages: map<string, nat>, stk: seq<nat>)
    requires WellFormed(graph) && FiledInGraph(graph, packages)
  {
    forall p, i :: p in packages && 0 <= i < |graph[packages[p]].imports| ==>
      graph[graph[packages[p]].imports[i]].path in packages || graph[packages[p]].imports[i] in stk
  }

  /** The invariant of the walk of `NewObjectCache`: what is stacked and
      filed is reachable, filed packages are filed under their path, and
      every root and every import of a filed package is filed or stacked. */
  ghost predicate Walking(graph: map<nat, PkgNode>, roots: seq<nat>, packages: map<string, nat>, stk: seq<nat>) {
    && WellFormed(graph)
    && StackedReachable(graph, roots, stk)
    && FiledSound(graph, roots, packages)
    && (forall i :: 0 <= i < |roots| ==> roots[i] in graph && (graph[roots[i]].path in packages || roots[i] in stk))
    && ImportsCovered(graph, packages, stk)
    && packages.Keys <= AllPaths(graph)
  }

  /** Popping a package whose path is filed keeps the walk's invariant. */
  lemma PopFiled(graph: map<nat, PkgNode>, roots: seq<nat>, packages: map<string, nat>, stk: seq<nat>)
    requires Walking(graph, roots, packages, stk) && |stk| > 0
    requires graph[stk[|stk| - 1]].path in packages
    ensures Walking(graph, roots, packages, stk[..|stk| - 1])
  {
    var top := stk[|stk| - 1];
    var rest := stk[..|stk| - 1];
    forall x | x in stk && x != top
      ensures x in rest
    {
      var i :| 0 <= i < |stk| && stk[i] == x;
      assert rest[i] == x;
    }
    assert packages[graph[top].path] == top;
  }

  /** Popping a package whose path is not filed, filing it and stacking its
      imports keeps the walk's invariant. */
  lemma PopNew(graph: map<nat, PkgNode>, roots: seq<nat>, packages: map<string, nat>, stk: seq<nat>)
    requires Walking(graph, roots, packages, stk) && |stk| > 0
    requires graph[stk[|stk| - 1]].path !in packages
    ensures var top := stk[|stk| - 1];
      Walking(graph, roots, packages[graph[top].path := top], stk[..|stk| - 1] + graph[top].imports)
  {
    var top := stk[|stk| - 1];
    var rest := stk[..|stk| - 1];
    var stk' := rest + graph[top].imports;
    var packages' := packages[graph[top].path := top];
    StackStillCovers(stk, graph[top].imports);
    PushedReachable(graph, roots, stk);
    assert FiledSound(graph, roots, packages') by {
      assert stk[|stk| - 1] == top;
    }
    PushedCovered(graph, roots, packages, stk);
  }

  /** Proof helper: replacing the top of a stack by a list keeps everything
      else on it. */
  lemma StackStillCovers(stk: seq<nat>, pushed: seq<nat>)
    requires |stk| > 0
    ensures forall x :: x in stk && x != stk[|stk| - 1] ==> x in stk[..|stk| - 1] + pushed
    ensures forall i :: 0 <= i < |pushed| ==> pushed[i] in stk[..|stk| - 1] + pushed
  {
    var rest := stk[..|stk| - 1];
    forall x | x in stk && x != stk[|stk| - 1]
      ensures x in rest + pushed
    {
      var i :| 0 <= i < |stk| && stk[i] == x;
      assert (rest + pushed)[i] == x;
    }
    forall i | 0 <= i < |pushed|
      ensures pushed[i] in rest + pushed
    {
      assert (rest + pushed)[|rest| + i] == pushed[i];
    }
  }

  /** Stacking the imports of a reachable package keeps the stack
      reachable. */
  lemma PushedReachable(graph: map<nat, PkgNode>, roots: seq<nat>, stk: seq<nat>)
    requires WellFormed(graph) && StackedReachable(graph, roots, stk) && |stk| > 0
    ensures var top := stk[|stk| - 1];
      StackedReachable(graph, roots, stk[..|stk| - 1] + graph[top].imports)
  {
    var top := stk[|stk| - 1];
    var rest := stk[..|stk| - 1];
    var stk' := rest + graph[top].imports;
    var k :| top in Reach(graph, roots, k);
    ReachStep(graph, roots, k, top);
    forall i | 0 <= i < |stk'|
      ensures stk'[i] in graph && exists k :: stk'[i] in Reach(graph, roots, k)
    {
      if i < |rest| {
        assert stk'[i] == stk[i];
      } else {
        assert stk'[i] == graph[top].imports[i - |rest|];
      }
    }
  }

  /** Filing the top of the stack and stacking its imports keeps every
      import of a filed package filed or stacked. */
  lemma PushedCovered(graph: map<nat, PkgNode>, roots: seq<nat>, packages: map<string, nat>, stk: seq<nat>)
    requires Walking(graph, roots, packages, stk) && |stk| > 0
    requires graph[stk[|stk| - 1]].path !in packages
    ensures var top := stk[|stk| - 1];
      && FiledInGraph(graph, packages[graph[top].path := top])
      && ImportsCovered(graph, packages[graph[top].path := top], stk[..|stk| - 1] + graph[top].imports)
      && (forall i :: 0 <= i < |roots| ==>
            graph[roots[i]].path in packages[graph[top].path := top] || roots[i] in stk[..|stk| - 1] + graph[top].imports)
  {
    var top := stk[|stk| - 1];
    var stk' := stk[..|stk| - 1] + graph[top].imports;
    var packages' := packages[graph[top].path := top];
    StackStillCovers(stk, graph[top].imports);
    forall p, i | p in packages' && 0 <= i < |graph[packages'[p]].imports|
      ensures graph[graph[packages'[p]].imports[i]].path in packages' || graph[packages'[p]].imports[i] in stk'
    {
      if p != graph[top].path {
        var imp := graph[packages[p]].imports[i];
        assert graph[imp].path in packages || imp in stk;
      }
    }
  }

  /** When the stack is empty, the walk has filed every reachable
      package. */
  lemma WalkDone(graph: map<nat, PkgNode>, roots: seq<nat>, packages: map<string, nat>)
    requires Walking(graph, roots, packages, [])
    ensures CoversReach(graph, roots, packages)
  {
    forall k, id | id in Reach(graph, roots, k)
      ensures id in graph && graph[id].path in packages
    {
      ClosedContainsReach(graph, roots, packages, k);
    }
  }

  /** The imports of a package reachable in `k` steps are reachable in
      `k + 1`. */
  lemma ReachStep(graph: map<nat, PkgNode>, roots: seq<nat>, k: nat, p: nat)
    requires p in Reach(graph, roots, k) && p in graph
    ensures forall i :: 0 <= i < |graph[p].imports| ==> graph[p].imports[i] in Reach(graph, roots, k + 1)
  {
    forall i | 0 <= i < |graph[p].imports|
      ensures graph[p].imports[i] in Reach(graph, roots, k + 1)
    {
      var imp := graph[p].imports[i];
      assert imp in graph[p].imports;
    }
  }

  /** Proof helper for termination: filing one more path leaves fewer
      paths unfiled. */
  lemma FewerUnvisited(all: set<string>, visited: set<string>, p: string)
    requires p in all && p !in visited
    ensures |all - (visited + {p})| < |all - visited|
  {
    var rest := all - (visited + {p});
    assert all - visited == rest + {p};
    assert p !in rest;
  }

  /** A set of paths that holds the roots' paths and, with every package,
      its imports' paths, holds the path of every reachable package. */
  lemma {:induction false} ClosedContainsReach(graph: map<nat, PkgNode>, roots: seq<nat>, packages: map<string, nat>, k: nat)
    requires forall i :: 0 <= i < |roots| ==> roots[i] in graph && graph[roots[i]].path in packages
    requires forall p :: p in packages ==> packages[p] in graph && graph[packages[p]].path == p
    requires WellFormed(graph)
    requires forall p, i :: p in packages && 0 <= i < |graph[packages[p]].imports| ==>
      graph[graph[packages[p]].imports[i]].path in packages
    ensures forall id :: id in Reach(graph, roots, k) ==> id in graph && graph[id].path in packages
    decreases k
  {
    if k > 0 {
      ClosedContainsReach(graph, roots, packages, k - 1);
      forall id | id in Reach(graph, roots, k)
        ensures id in graph && graph[id].path in packages
      {
        var prev := Reach(graph, roots, k - 1);
        if id !in prev {
          var parent, i :| parent in prev && parent in graph && 0 <= i < |graph[parent].imports| && graph[parent].imports[i] == id;
          var q := graph[parent].path;
          assert packages[q] == parent;
        }
      }
    }
  }

  /** A type provided by a provider function, a value, an injector argument
      or a struct field; each source is held by reference, and the zero
      value holds none. */
  datatype ProvidedType = ProvidedType(t: Option<Type>, p: Option<nat>, v: Option<nat>, a: Option<nat>, f: Option<nat>) {

    predicate IsNil() {
      p.None? && v.None? && a.None? && f.None?
    }

    function Type(): Option<Go.Type> {
      t
    }

    predicate IsProvider() {
      p.Some?
    }

    predicate IsValue() {
      v.Some?
    }

    predicate IsArg() {
      a.Some?
    }

    predicate IsField() {
      f.Some?
    }

    /** The provider held; panics when there is none. */
    function Provider(): (r: Result<nat, Panic>)
      ensures r.Ok? <==> IsProvider()
      ensures r.Err? ==> r.error == WrongSource("Provider")
      ensures r.Ok? ==> r.value == p.value
    {
      if p.None? then Err(WrongSource("Provider")) else Ok(p.value)
    }

    /** The value held; panics when there is none. */
    function Value(): (r: Result<nat, Panic>)
      ensures r.Ok? <==> IsValue()
      ensures r.Err? ==> r.error == WrongSource("Value")
      ensures r.Ok? ==> r.value == v.value
    {
      if v.None? then Err(WrongSource("Value")) else Ok(v.value)
    }

    /** The injector argument held; panics when there is none. */
    function Arg(): (r: Result<nat, Panic>)
      ensures r.Ok? <==> IsArg()
      ensures r.Err? ==> r.error == WrongSource("Arg")
      ensures r.Ok? ==> r.value == a.value
    {
      if a.None? then Err(WrongSource("Arg")) else Ok(a.value)
    }

    /** The field held; panics when there is none. */
    function Field(): (r: Result<nat, Panic>)
      ensures r.Ok? <==> IsField()
      ensures r.Err? ==> r.error == WrongSource("Field")
      ensures r.Ok? ==> r.value == f.value
    {
      if f.None? then Err(WrongSource("Field")) else Ok(f.value)
    }
  }

  /** `IsNil` holds exactly when no accessor can succeed; the zero value is
      nil. */
  lemma NilHasNoSource(pt: ProvidedType)
    ensures pt.IsNil() <==> pt.Provider().Err? && pt.Value().Err? && pt.Arg().Err? && pt.Field().Err?
    ensures ProvidedType(None, None, None, None, None).IsNil()
  {
  }
}
