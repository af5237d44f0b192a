/** `DIContext` and `doInject`: the registry of loaded packages, providers
    and injectors, and the bounded loop that completes every injector with
    the providers of the beans it still misses. Loading a package is a
    lookup from its path to the providers it declares. */
module Process {
  import opened Go
  import opened Results
  import opened Panics
  import opened Beans
  import opened Providers
  import opened Injectors
  import Files

  /** `objRef`: a declared object, by package path and name. */
  datatype ObjRef = ObjRef(importPath: string, name: string)

  /** The most rounds `doInject` gives one injector. */
  const MaxRounds: nat := 100

  /** `loadPackage` followed by `loadProviderAndInjector` in `LoadProvider`
      mode, which registers providers and no injector: the providers the
      package at a path declares, filed by reference, or `None` when the
      package cannot be loaded. */
  type Loader = string -> Option<map<ObjRef, Provider>>

  /** A package declares objects of its own path only. */
  ghost predicate Confined(loader: Loader) {
    forall path, r :: loader(path).Some? && r in loader(path).value ==> r.importPath == path
  }

  /** A provider produces `bean` when the bean of its result is `Identical`
      to it. */
  predicate Produces(p: Provider, bean: Bean) {
    p.Provide().Ok? && p.Provide().value.Identical(bean)
  }

  /** The keys `AddProvider` files the providers of `registry` under that
      are filed under `seen` and produce `bean`. */
  ghost function MatchKeys(registry: map<ObjRef, Provider>, seen: set<ObjRef>, bean: Bean): set<FuncId> {
    set r | r in seen && r in registry && Produces(registry[r], bean) :: registry[r].String()
  }

  /** `after` keeps every key of `before`, and each entry it adds or
      replaces is, under its own key, a provider of one of `beans`. */
  ghost predicate NewFrom(before: map<FuncId, Provider>, after: map<FuncId, Provider>, beans: set<Bean>) {
    && before.Keys <= after.Keys
    && forall k :: k in after && (k !in before || after[k] != before[k]) ==>
         after[k].String() == k && exists b :: b in beans && Produces(after[k], b)
  }

  lemma NewFromNothing(m: map<FuncId, Provider>, beans: set<Bean>)
    ensures NewFrom(m, m, beans)
  {
  }

  /** Two steps that each add providers of `beans` add providers of
      `beans`. */
  lemma NewFromTrans(a: map<FuncId, Provider>, b: map<FuncId, Provider>, c: map<FuncId, Provider>,
                     beans: set<Bean>, beans': set<Bean>)
    requires NewFrom(a, b, beans) && NewFrom(b, c, beans') && beans' <= beans
    ensures NewFrom(a, c, beans)
  {
    forall k | k in c && (k !in a || c[k] != a[k])
      ensures c[k].String() == k && exists x :: x in beans && Produces(c[k], x)
    {
      if k in b && c[k] == b[k] {
        assert k !in a || b[k] != a[k];
      }
    }
  }

  /** The state of the scan of `AddMatching` once the providers filed
      under `seen` are visited: each of them provides, and those that
      produce `bean` are filed in `after`. */
  ghost predicate Scanned(before: map<FuncId, Provider>, after: map<FuncId, Provider>,
                          registry: map<ObjRef, Provider>, seen: set<ObjRef>, bean: Bean) {
    && after.Keys == before.Keys + MatchKeys(registry, seen, bean)
    && NewFrom(before, after, {bean})
    && forall r :: r in seen && r in registry ==> registry[r].Provide().Ok?
  }

  /** Visiting one more provider of the registry adds its key when it
      produces the bean. */
  lemma MatchKeysStep(registry: map<ObjRef, Provider>, seen: set<ObjRef>, r: ObjRef, bean: Bean)
    requires r in registry
    ensures Produces(registry[r], bean) ==>
      MatchKeys(registry, seen + {r}, bean) == MatchKeys(registry, seen, bean) + {registry[r].String()}
    ensures !Produces(registry[r], bean) ==> MatchKeys(registry, seen + {r}, bean) == MatchKeys(registry, seen, bean)
  {
  }

  /** Filing one provider of `bean` under its key keeps `NewFrom`. */
  lemma NewFromFiled(before: map<FuncId, Provider>, after: map<FuncId, Provider>, after': map<FuncId, Provider>,
                     p: Provider, bean: Bean)
    requires NewFrom(before, after, {bean}) && Produces(p, bean)
    requires after'.Keys == after.Keys + {p.String()} && after'[p.String()] == p
    requires forall k :: k in after && k != p.String() ==> after'[k] == after[k]
    ensures NewFrom(before, after', {bean})
  {
    forall k | k in after' && (k !in before || after'[k] != before[k])
      ensures after'[k].String() == k && exists b :: b in {bean} && Produces(after'[k], b)
    {
      if k != p.String() {
        assert after'[k] == after[k];
      } else {
        assert bean in {bean};
      }
    }
  }

  /** Visiting one more provider of the registry keeps `Scanned`. */
  lemma ScanStep(before: map<FuncId, Provider>, after: map<FuncId, Provider>, after': map<FuncId, Provider>,
                 registry: map<ObjRef, Provider>, seen: set<ObjRef>, r: ObjRef, bean: Bean)
    requires r in registry && registry[r].Provide().Ok?
    requires Scanned(before, after, registry, seen, bean)
    requires Produces(registry[r], bean) ==>
      && after'.Keys == after.Keys + {registry[r].String()}
      && after'[registry[r].String()] == registry[r]
      && forall k :: k in after && k != registry[r].String() ==> after'[k] == after[k]
    requires !Produces(registry[r], bean) ==> after' == after
    ensures Scanned(before, after', registry, seen + {r}, bean)
  {
    MatchKeysStep(registry, seen, r, bean);
    if Produces(registry[r], bean) {
      NewFromFiled(before, after, after', registry[r], bean);
    }
  }

  /** The package of `path` is in `pkgs` and the registry `reg` holds what
      loading it put there, starting from `pkgs0` and `reg0`: unchanged if
      the package was loaded before, else with its providers filed over. */
  ghost predicate LoadedFor(path: string, loader: Loader, pkgs0: set<string>, reg0: map<ObjRef, Provider>,
                            pkgs: set<string>, reg: map<ObjRef, Provider>) {
    if path in pkgs0 then
      pkgs == pkgs0 && reg == reg0
    else
      loader(path).Some? && pkgs == pkgs0 + {path} && reg == reg0 + loader(path).value
  }

  /** The packages of the beans filed under `done`. */
  ghost function BeanPaths(required: map<string, Bean>, done: set<string>): set<string> {
    set s | s in done && s in required :: required[s].PkgPath()
  }

  /** The beans of a requirement. */
  ghost function BeansIn(required: map<string, Bean>): set<Bean> {
    set s | s in required :: required[s]
  }

  /** `reg` keeps every reference of `reg0`, and differs from it only
      under the packages in `moved`. */
  ghost predicate Displaced(reg0: map<ObjRef, Provider>, reg: map<ObjRef, Provider>, moved: set<string>) {
    && (forall r :: r in reg0 ==> r in reg)
    && forall r :: r in reg ==> r.importPath in moved || (r in reg0 && reg[r] == reg0[r])
  }

  /** Every provider of `reg` producing a bean filed under `done` is filed
      in `ip`, unless its package was loaded in `moved` and is not the
      bean's own. */
  ghost predicate Covered(required: map<string, Bean>, done: set<string>, moved: set<string>,
                          reg: map<ObjRef, Provider>, ip: map<FuncId, Provider>) {
    forall s, r ::
      && s in done && s in required && r in reg && Produces(reg[r], required[s])
      && (r.importPath !in moved || r.importPath == required[s].PkgPath())
      ==> reg[r].String() in ip
  }

  /** The state of one round of `doInject` once the beans filed under
      `done` are served, from packages `pkgs0`, registry `reg0` and
      injector providers `ip0`. */
  ghost predicate RoundSoFar(required: map<string, Bean>, done: set<string>, pkgs0: set<string>,
                             reg0: map<ObjRef, Provider>, ip0: map<FuncId, Provider>,
                             pkgs: set<string>, reg: map<ObjRef, Provider>, ip: map<FuncId, Provider>) {
    && done <= required.Keys
    && pkgs == pkgs0 + BeanPaths(required, done)
    && Displaced(reg0, reg, pkgs - pkgs0)
    && NewFrom(ip0, ip, BeansIn(required))
    && Covered(required, done, pkgs - pkgs0, reg, ip)
  }

  lemma RoundStart(required: map<string, Bean>, pkgs: set<string>, reg: map<ObjRef, Provider>,
                   ip: map<FuncId, Provider>)
    ensures RoundSoFar(required, {}, pkgs, reg, ip, pkgs, reg, ip)
  {
    assert BeanPaths(required, {}) == {};
  }

  /** Loading the package of one more bean moves only references of that
      package. */
  lemma DisplacedStep(reg0: map<ObjRef, Provider>, reg: map<ObjRef, Provider>, reg': map<ObjRef, Provider>,
                      pkgs0: set<string>, pkgs: set<string>, pkgs': set<string>, path: string, loader: Loader)
    requires Confined(loader) && pkgs0 <= pkgs
    requires Displaced(reg0, reg, pkgs - pkgs0)
    requires LoadedFor(path, loader, pkgs, reg, pkgs', reg')
    ensures Displaced(reg0, reg', pkgs' - pkgs0)
  {
    if path !in pkgs {
      forall r | r in reg'
        ensures r.importPath in pkgs' - pkgs0 || (r in reg0 && reg'[r] == reg0[r])
      {
        if r in loader(path).value {
          assert r.importPath == path;
        } else {
          assert reg'[r] == reg[r];
        }
      }
    }
  }

  /** The beans served before keep their providers once the package of
      one more bean is loaded and its providers are added. */
  lemma CoveredStep(required: map<string, Bean>, done: set<string>, s: string, pkgs0: set<string>,
                    pkgs: set<string>, reg: map<ObjRef, Provider>, ip: map<FuncId, Provider>,
                    pkgs': set<string>, reg': map<ObjRef, Provider>, ip': map<FuncId, Provider>, loader: Loader)
    requires Confined(loader) && pkgs0 <= pkgs && s in required
    requires pkgs == pkgs0 + BeanPaths(required, done)
    requires Covered(required, done, pkgs - pkgs0, reg, ip)
    requires LoadedFor(required[s].PkgPath(), loader, pkgs, reg, pkgs', reg')
    requires MatchKeys(reg', reg'.Keys, required[s]) <= ip'.Keys && ip.Keys <= ip'.Keys
    ensures Covered(required, done + {s}, pkgs' - pkgs0, reg', ip')
  {
    var path := required[s].PkgPath();
    forall t, r |
      && t in done + {s} && t in required && r in reg' && Produces(reg'[r], required[t])
      && (r.importPath !in pkgs' - pkgs0 || r.importPath == required[t].PkgPath())
      ensures reg'[r].String() in ip'
    {
      if t == s {
        assert reg'[r].String() in MatchKeys(reg', reg'.Keys, required[s]);
      } else {
        assert required[t].PkgPath() in BeanPaths(required, done);
        if path !in pkgs && r in loader(path).value {
          assert false;
        }
        assert reg'[r] == reg[r];
      }
    }
  }

  /** One more bean served keeps `RoundSoFar`. */
  lemma RoundStep(required: map<string, Bean>, done: set<string>, s: string, pkgs0: set<string>,
                  reg0: map<ObjRef, Provider>, ip0: map<FuncId, Provider>,
                  pkgs: set<string>, reg: map<ObjRef, Provider>, ip: map<FuncId, Provider>,
                  pkgs': set<string>, reg': map<ObjRef, Provider>, ip': map<FuncId, Provider>, loader: Loader)
    requires Confined(loader) && s in required && s !in done
    requires RoundSoFar(required, done, pkgs0, reg0, ip0, pkgs, reg, ip)
    requires LoadedFor(required[s].PkgPath(), loader, pkgs, reg, pkgs', reg')
    requires ip'.Keys == ip.Keys + MatchKeys(reg', reg'.Keys, required[s])
    requires NewFrom(ip, ip', {required[s]})
    ensures RoundSoFar(required, done + {s}, pkgs0, reg0, ip0, pkgs', reg', ip')
  {
    assert BeanPaths(required, done + {s}) == BeanPaths(required, done) + {required[s].PkgPath()};
    DisplacedStep(reg0, reg, reg', pkgs0, pkgs, pkgs', required[s].PkgPath(), loader);
    NewFromTrans(ip0, ip, ip', BeansIn(required), {required[s]});
    CoveredStep(required, done, s, pkgs0, pkgs, reg, ip, pkgs', reg', ip', loader);
  }

  /** A round that stops on a panic still only adds providers of the
      beans, and loads only their packages. */
  lemma RoundFailed(required: map<string, Bean>, done: set<string>, s: string, pkgs0: set<string>,
                    reg0: map<ObjRef, Provider>, ip0: map<FuncId, Provider>,
                    pkgs: set<string>, reg: map<ObjRef, Provider>, ip: map<FuncId, Provider>,
                    pkgs': set<string>, ip': map<FuncId, Provider>)
    requires s in required
    requires RoundSoFar(required, done, pkgs0, reg0, ip0, pkgs, reg, ip)
    requires pkgs' == pkgs || pkgs' == pkgs + {required[s].PkgPath()}
    requires NewFrom(ip, ip', {required[s]})
    ensures pkgs0 <= pkgs' <= pkgs0 + BeanPaths(required, required.Keys)
    ensures NewFrom(ip0, ip', BeansIn(required))
  {
    NewFromTrans(ip0, ip, ip', BeansIn(required), {required[s]});
  }

  /** Proof helper: an empty difference means inclusion. */
  lemma NothingLeft<T>(a: set<T>, b: set<T>)
    requires a - b == {}
    ensures a <= b
  {
    forall x | x in a ensures x in b {
      assert x !in a - b;
    }
  }

  /** What `Require` returning an empty map says: the injector's result is
      produced and every bean its providers need is provided. */
  ghost predicate Satisfied(inj: Injector)
    reads inj`providers
  {
    var target := Provider(inj.fn).Provide();
    && target.Ok?
    && Classifiable(inj.providers)
    && ProducesIdentical(inj.providers, inj.providers.Keys, target.value)
    && NeededBy(inj.providers, inj.providers.Keys) <= OwnedBy(inj.providers, inj.providers.Keys)
  }

  /** What `InjectOne` promises of an injector that used `n` rounds. */
  ghost predicate Served(inj: Injector, n: nat)
    reads inj`providers
  {
    1 <= n <= MaxRounds && (n < MaxRounds ==> Satisfied(inj))
  }

  class DIContext {
    /** The paths of the packages loaded so far; the packages themselves
        are left to the loader. */
    var pkgs: set<string>
    var objects: map<ObjRef, Object>
    var files: map<ObjRef, Files.WireFile>
    var injectors: map<ObjRef, Injector>
    var providers: map<ObjRef, Provider>
    /** Every load of a package, in order. */
    ghost var loaded: seq<string>

    /** No package is loaded twice, and every loaded package is known. */
    ghost predicate Valid()
      reads this`pkgs, this`loaded
    {
      && (forall i, j :: 0 <= i < j < |loaded| ==> loaded[i] != loaded[j])
      && forall i :: 0 <= i < |loaded| ==> loaded[i] in pkgs
    }

    /** `NewDIContext`: all five maps start empty. */
    constructor ()
      ensures Valid()
      ensures pkgs == {} && objects == map[] && files == map[] && injectors == map[] && providers == map[]
      ensures loaded == []
    {
      pkgs := {};
      objects := map[];
      files := map[];
      injectors := map[];
      providers := map[];
      loaded := [];
    }

    /** Loads the package at `path`, not loaded before, and registers its
        providers over those filed under the same reference. Panics when
        the package cannot be loaded. */
    method LoadPackage(path: string, loader: Loader) returns (o: Outcome<Panic>)
      requires Valid() && path !in pkgs
      modifies this`pkgs, this`providers, this`loaded
      ensures Valid()
      ensures o.Fail? <==> loader(path).None?
      ensures o.Fail? ==> o.error == PackageNotFound(path) && pkgs == old(pkgs) && providers == old(providers)
      ensures o.Pass? ==> LoadedFor(path, loader, old(pkgs), old(providers), pkgs, providers)
      ensures o.Pass? ==> loaded == old(loaded) + [path]
    {
      var found := loader(path);
      if found.None? {
        return Fail(PackageNotFound(path));
      }
      pkgs := pkgs + {path};
      providers := providers + found.value;
      loaded := loaded + [path];
      return Pass;
    }

    /** The scan over the registry for one missing bean: every registered
        provider whose result is `Identical` to the bean is added to the
        injector. Panics on the first provider without a usable result. */
    method AddMatching(inj: Injector, bean: Bean) returns (o: Outcome<Panic>)
      requires inj.Valid()
      modifies inj`providers
      ensures inj.Valid()
      ensures o.Pass? <==> forall r :: r in providers ==> providers[r].Provide().Ok?
      ensures o.Fail? ==> exists r :: r in providers && providers[r].Provide() == Err(o.error)
      ensures o.Pass? ==> inj.providers.Keys == old(inj.providers).Keys + MatchKeys(providers, providers.Keys, bean)
      ensures NewFrom(old(inj.providers), inj.providers, {bean})
    {
      var todo := providers.Keys;
      ghost var before := inj.providers;
      assert MatchKeys(providers, {}, bean) == {};
      NewFromNothing(before, {bean});
      while todo != {}
        invariant todo <= providers.Keys
        invariant inj.Valid()
        invariant Scanned(before, inj.providers, providers, providers.Keys - todo, bean)
        decreases |todo|
      {
        var r :| r in todo;
        var p := providers[r];
        var b := p.Provide();
        if b.Err? {
          return Fail(b.error);
        }
        ghost var after := inj.providers;
        if b.value.Identical(bean) {
          inj.AddProvider([p]);
          assert (set q | q in [p] :: q.String()) == {p.String()};
        }
        ScanStep(before, after, inj.providers, providers, providers.Keys - todo, r, bean);
        TakeOne(providers.Keys, todo, r);
        todo := todo - {r};
      }
      VisitedAll(providers.Keys);
      return Pass;
    }

    /** One missing bean of a round: its package is loaded unless it was
        before, then the registry is scanned for its providers. */
    method Supply(inj: Injector, bean: Bean, loader: Loader) returns (o: Outcome<Panic>)
      requires Valid() && inj.Valid()
      modifies this`pkgs, this`providers, this`loaded, inj`providers
      ensures Valid() && inj.Valid()
      ensures o.Pass? ==> LoadedFor(bean.PkgPath(), loader, old(pkgs), old(providers), pkgs, providers)
      ensures o.Pass? ==> inj.providers.Keys == old(inj.providers).Keys + MatchKeys(providers, providers.Keys, bean)
      ensures o.Pass? ==> forall r :: r in providers ==> providers[r].Provide().Ok?
      ensures o.Fail? ==> pkgs == old(pkgs) || pkgs == old(pkgs) + {bean.PkgPath()}
      ensures o.Fail? ==>
        || (bean.PkgPath() !in old(pkgs) && loader(bean.PkgPath()).None? && o.error == PackageNotFound(bean.PkgPath()))
        || exists r :: r in providers && providers[r].Provide() == Err(o.error)
      ensures NewFrom(old(inj.providers), inj.providers, {bean})
    {
      var path := bean.PkgPath();
      if path !in pkgs {
        o := LoadPackage(path, loader);
        if o.Fail? {
          NewFromNothing(inj.providers, {bean});
          return;
        }
      }
      o := AddMatching(inj, bean);
    }

    /** One round of `doInject` for an injector: every missing bean is
        supplied, in no fixed order; a panic ends the round. */
    method Round(inj: Injector, required: map<string, Bean>, loader: Loader) returns (o: Outcome<Panic>)
      requires Valid() && inj.Valid() && Confined(loader)
      modifies this`pkgs, this`providers, this`loaded, inj`providers
      ensures Valid() && inj.Valid()
      ensures old(pkgs) <= pkgs <= old(pkgs) + BeanPaths(required, required.Keys)
      ensures NewFrom(old(inj.providers), inj.providers, BeansIn(required))
      ensures o.Pass? ==> RoundSoFar(required, required.Keys, old(pkgs), old(providers), old(inj.providers),
                                     pkgs, providers, inj.providers)
      ensures o.Fail? ==>
        || (exists s :: s in required && o.error == PackageNotFound(required[s].PkgPath()))
        || exists r :: r in providers && providers[r].Provide() == Err(o.error)
    {
      var todo := required.Keys;
      RoundStart(required, pkgs, providers, inj.providers);
      o := Pass;
      while todo != {}
        invariant todo <= required.Keys
        invariant Valid() && inj.Valid()
        invariant RoundSoFar(required, required.Keys - todo, old(pkgs), old(providers), old(inj.providers),
                             pkgs, providers, inj.providers)
        invariant o == Pass
        decreases |todo|
      {
        var s :| s in todo;
        ghost var pkgs1, reg1, ip1 := pkgs, providers, inj.providers;
        o := Supply(inj, required[s], loader);
        if o.Fail? {
          assert o.error == PackageNotFound(required[s].PkgPath()) ||
                 exists r :: r in providers && providers[r].Provide() == Err(o.error);
          RoundFailed(required, required.Keys - todo, s, old(pkgs), old(providers), old(inj.providers),
                      pkgs1, reg1, ip1, pkgs, inj.providers);
          return;
        }
        RoundStep(required, required.Keys - todo, s, old(pkgs), old(providers), old(inj.providers),
                  pkgs1, reg1, ip1, pkgs, providers, inj.providers, loader);
        TakeOne(required.Keys, todo, s);
        todo := todo - {s};
      }
      VisitedAll(required.Keys);
    }

    /** `doInject` for one injector: up to `MaxRounds` rounds, each asking
        `Require` for the missing beans, stopping as soon as none is
        missing. `rounds` counts the calls of `Require`; `warned` tells
        whether the warning guarded by `i == 100` inside the loop was
        logged, which it never is. */
    method InjectOne(inj: Injector, loader: Loader) returns (o: Outcome<Panic>, rounds: nat, warned: bool)
      requires Valid() && inj.Valid() && Confined(loader)
      modifies this`pkgs, this`providers, this`loaded, inj`providers
      ensures Valid() && inj.Valid()
      ensures old(pkgs) <= pkgs && old(inj.providers).Keys <= inj.providers.Keys
      ensures 1 <= rounds <= MaxRounds && !warned
      ensures o.Pass? && rounds < MaxRounds ==> Satisfied(inj)
    {
      rounds, warned := 0, false;
      var i := 0;
      while i < MaxRounds
        invariant 0 <= i <= MaxRounds && rounds == i && !warned
        invariant Valid() && inj.Valid()
        invariant old(pkgs) <= pkgs && old(inj.providers).Keys <= inj.providers.Keys
      {
        var m := inj.Require();
        rounds := rounds + 1;
        if m.Err? {
          return Fail(m.error), rounds, warned;
        }
        if |m.value| == 0 {
          assert m.value.Keys == {};
          NothingLeft(NeededBy(inj.providers, inj.providers.Keys), OwnedBy(inj.providers, inj.providers.Keys));
          return Pass, rounds, warned;
        }
        o := Round(inj, m.value, loader);
        if o.Fail? {
          return;
        }
        if i == MaxRounds {
          warned := true;
        }
        i := i + 1;
      }
      return Pass, rounds, warned;
    }

    /** `doInject`: every injector, in no fixed order, gets its rounds; a
        panic ends the whole run. `rounds` records how many each injector
        used; those that did not use all of them end up satisfied. */
    method DoInject(loader: Loader) returns (o: Outcome<Panic>, ghost rounds: map<ObjRef, nat>)
      requires Valid() && Confined(loader) && Files.Distinct(injectors)
      requires forall k :: k in injectors ==> injectors[k].Valid()
      modifies this`pkgs, this`providers, this`loaded, injectors.Values`providers
      ensures Valid() && old(pkgs) <= pkgs
      ensures forall k :: k in injectors ==> injectors[k].Valid()
      ensures forall k :: k in injectors ==> old(injectors[k].providers).Keys <= injectors[k].providers.Keys
      ensures o.Pass? ==> forall k :: k in injectors ==>
        k in rounds && 1 <= rounds[k] <= MaxRounds && (rounds[k] < MaxRounds ==> Satisfied(injectors[k]))
    {
      var todo := injectors.Keys;
      rounds := map[];
      o := Pass;
      while todo != {}
        invariant todo <= injectors.Keys
        invariant Valid() && old(pkgs) <= pkgs
        invariant forall k :: k in injectors ==> injectors[k].Valid()
        invariant forall k :: k in injectors ==> old(injectors[k].providers).Keys <= injectors[k].providers.Keys
        invariant forall k :: k in injectors && k !in todo ==> k in rounds && Served(injectors[k], rounds[k])
        decreases |todo|
      {
        var k :| k in todo;
        var n, warned;
        o, n, warned := InjectOne(injectors[k], loader);
        if o.Fail? {
          return;
        }
        rounds := rounds[k := n];
        todo := todo - {k};
      }
    }
  }
}
