/** `comm.Injector`: an injector function, the providers named in its
    `wire.Build` call (`origin`) and the providers known for it so far
    (`providers`, which only grows). */
module Injectors {
  import opened Go
  import opened Results
  import opened Panics
  import opened Beans
  import opened Providers

  /** `types.Func.String()` of a provider. */
  type FuncId = string

  /** The providers filed under `keys` have classifiable parameters and
      results. */
  ghost predicate ClassifiableOn(ps: map<FuncId, Provider>, keys: set<FuncId>) {
    forall k :: k in keys && k in ps ==> ps[k].Require().Ok? && ps[k].Provide().Ok?
  }

  /** Every provider's parameters and result can be classified. */
  ghost predicate Classifiable(ps: map<FuncId, Provider>) {
    ClassifiableOn(ps, ps.Keys)
  }

  /** The texts of a list of beans. */
  ghost function Texts(bs: seq<Bean>): set<string> {
    set b | b in bs :: b.String()
  }

  /** The texts of the beans a provider requires. */
  ghost function InputsOf(p: Provider): set<string>
    requires p.Require().Ok?
  {
    Texts(p.Require().value)
  }

  /** The texts of the beans the providers filed under `keys` require. */
  ghost function NeededBy(ps: map<FuncId, Provider>, keys: set<FuncId>): set<string>
    requires keys <= ps.Keys && ClassifiableOn(ps, keys)
  {
    set k, s | k in keys && s in InputsOf(ps[k]) :: s
  }

  /** The texts of the beans the providers filed under `keys` provide. */
  ghost function OwnedBy(ps: map<FuncId, Provider>, keys: set<FuncId>): set<string>
    requires keys <= ps.Keys && ClassifiableOn(ps, keys)
  {
    set k | k in keys :: ps[k].Provide().value.String()
  }

  /** `b` is a bean some provider filed under `keys` requires. */
  ghost predicate InputOfSome(ps: map<FuncId, Provider>, keys: set<FuncId>, b: Bean)
    requires keys <= ps.Keys
  {
    exists k :: k in keys && ps[k].Require().Ok? && b in ps[k].Require().value
  }

  /** Some provider filed under `keys` provides a bean identical to `b`. */
  ghost predicate ProducesIdentical(ps: map<FuncId, Provider>, keys: set<FuncId>, b: Bean)
    requires keys <= ps.Keys && ClassifiableOn(ps, keys)
  {
    exists k :: k in keys && ps[k].Provide().value.Identical(b)
  }

  lemma TextsAppend(bs: seq<Bean>, b: Bean)
    ensures Texts(bs + [b]) == Texts(bs) + {b.String()}
  {
    assert forall x :: x in bs + [b] <==> x in bs || x == b;
  }

  /** Adding one classifiable provider to `keys` keeps them classifiable. */
  lemma AddOneClassifiable(ps: map<FuncId, Provider>, keys: set<FuncId>, k: FuncId)
    requires ClassifiableOn(ps, keys)
    requires k in ps && ps[k].Require().Ok? && ps[k].Provide().Ok?
    ensures ClassifiableOn(ps, keys + {k})
  {
  }

  /** Adding one provider to `keys` adds exactly its inputs. */
  lemma AddOneNeeded(ps: map<FuncId, Provider>, keys: set<FuncId>, k: FuncId)
    requires keys <= ps.Keys && ClassifiableOn(ps, keys + {k})
    requires k in ps
    ensures NeededBy(ps, keys + {k}) == NeededBy(ps, keys) + InputsOf(ps[k])
  {
    var n := NeededBy(ps, keys + {k});
    forall s | s in n ensures s in NeededBy(ps, keys) + InputsOf(ps[k]) {
      var k' :| k' in keys + {k} && s in InputsOf(ps[k']);
      if k' != k {
        assert s in NeededBy(ps, keys);
      }
    }
  }

  /** Adding one provider to `keys` adds exactly its output. */
  lemma AddOneOwned(ps: map<FuncId, Provider>, keys: set<FuncId>, k: FuncId)
    requires keys <= ps.Keys && ClassifiableOn(ps, keys + {k})
    requires k in ps
    ensures OwnedBy(ps, keys + {k}) == OwnedBy(ps, keys) + {ps[k].Provide().value.String()}
  {
  }

  /** Adding one provider to `keys` adds its output to those `bean` may be
      identical to. */
  lemma AddOneProduces(ps: map<FuncId, Provider>, keys: set<FuncId>, k: FuncId)
    requires keys <= ps.Keys && ClassifiableOn(ps, keys + {k})
    requires k in ps
    ensures forall b :: ProducesIdentical(ps, keys + {k}, b) <==>
      ProducesIdentical(ps, keys, b) || ps[k].Provide().value.Identical(b)
  {
  }

  /** `m` once each value of `list` is filed in turn under its key, a later
      value replacing one filed under the same key. */
  ghost function Filed<K, V>(m: map<K, V>, list: seq<V>, key: V -> K): map<K, V> {
    if list == [] then m
    else Filed(m, list[..|list| - 1], key)[key(list[|list| - 1]) := list[|list| - 1]]
  }

  /** Filing adds exactly the keys of the values filed. */
  lemma {:induction false} FiledKeys<K, V>(m: map<K, V>, list: seq<V>, key: V -> K)
    ensures Filed(m, list, key).Keys == m.Keys + set v | v in list :: key(v)
  {
    if list != [] {
      var init, last := list[..|list| - 1], list[|list| - 1];
      FiledKeys(m, init, key);
      assert list == init + [last];
      assert (set v | v in list :: key(v)) == (set v | v in init :: key(v)) + {key(last)};
    }
  }

  /** A key no filed value has keeps its value. */
  lemma {:induction false} FiledKeeps<K, V>(m: map<K, V>, list: seq<V>, key: V -> K)
    ensures forall k :: k in m && (forall v :: v in list ==> key(v) != k) ==>
      k in Filed(m, list, key) && Filed(m, list, key)[k] == m[k]
  {
    if list != [] {
      var init, last := list[..|list| - 1], list[|list| - 1];
      FiledKeeps(m, init, key);
      FiledKeys(m, init, key);
      assert forall v :: v in init ==> v in list;
      assert last in list;
    }
  }

  /** The key a provider is filed under. */
  function KeyOf(p: Provider): FuncId {
    p.String()
  }

  /** `Filed` for providers under their keys: every key of `list` is added,
      keys of `m` no value of `list` has keep their provider, and the last
      provider of each key is the one filed. */
  lemma FiledProviders(m: map<FuncId, Provider>, list: seq<Provider>)
    ensures Filed(m, list, KeyOf).Keys == m.Keys + set p | p in list :: p.String()
    ensures forall k :: k in m && (forall p :: p in list ==> p.String() != k) ==>
      k in Filed(m, list, KeyOf) && Filed(m, list, KeyOf)[k] == m[k]
    ensures forall i :: 0 <= i < |list| && (forall j :: i < j < |list| ==> list[j].String() != list[i].String()) ==>
      list[i].String() in Filed(m, list, KeyOf) && Filed(m, list, KeyOf)[list[i].String()] == list[i]
  {
    FiledKeys(m, list, KeyOf);
    FiledKeeps(m, list, KeyOf);
    FiledLastWins(m, list, KeyOf);
  }

  /** A value no later value shares a key with is the one filed under its
      key. */
  lemma {:induction false} FiledLastWins<K, V>(m: map<K, V>, list: seq<V>, key: V -> K)
    ensures forall i :: 0 <= i < |list| && (forall j :: i < j < |list| ==> key(list[j]) != key(list[i])) ==>
      key(list[i]) in Filed(m, list, key) && Filed(m, list, key)[key(list[i])] == list[i]
  {
    if list != [] {
      var n := |list| - 1;
      var init := list[..n];
      FiledLastWins(m, init, key);
      FiledKeys(m, init, key);
      forall i | 0 <= i < |list| && (forall j :: i < j < |list| ==> key(list[j]) != key(list[i]))
        ensures key(list[i]) in Filed(m, list, key) && Filed(m, list, key)[key(list[i])] == list[i]
      {
        if i < n {
          assert key(list[n]) != key(list[i]);
          assert init[i] == list[i];
          assert forall j :: i < j < n ==> init[j] == list[j];
          assert key(init[i]) in Filed(m, init, key);
        }
      }
    }
  }

  class Injector {
    const fn: Func
    const origin: map<FuncId, Provider>
    var providers: map<FuncId, Provider>
    const auto: bool
    /** The arguments of the injector's `wire.Build` call. */
    var buildArgs: seq<Expr>

    /** The providers named in the build call stay known. */
    ghost predicate Valid()
      reads this
    {
      origin.Keys <= providers.Keys
    }

    /** The key the injector is filed under. */
    function String(): string {
      FuncString(fn)
    }

    /** The path of the injector's package. */
    function Package(): string {
      fn.pkg.path
    }

    /** `NewInjector`: `providers` starts as a copy of `origin`. */
    constructor (fn: Func, origin: map<FuncId, Provider>, buildArgs: seq<Expr>, auto: bool)
      ensures Valid()
      ensures this.fn == fn && this.origin == origin && this.auto == auto
      ensures this.buildArgs == buildArgs
      ensures providers == origin
    {
      var copy: map<FuncId, Provider> := map[];
      var todo := origin.Keys;
      while todo != {}
        invariant todo <= origin.Keys
        invariant copy.Keys == origin.Keys - todo
        invariant forall k :: k in copy ==> copy[k] == origin[k]
        decreases |todo|
      {
        var k :| k in todo;
        copy := copy[k := origin[k]];
        todo := todo - {k};
      }
      this.fn := fn;
      this.origin := origin;
      this.providers := copy;
      this.auto := auto;
      this.buildArgs := buildArgs;
    }

    /** Files each provider under its key, replacing one already filed there;
        nothing is removed. */
    method AddProvider(list: seq<Provider>)
      requires Valid()
      modifies this`providers
      ensures Valid()
      ensures providers.Keys == old(providers).Keys + set p | p in list :: p.String()
      ensures forall k :: k in old(providers) && (forall p :: p in list ==> p.String() != k) ==> providers[k] == old(providers)[k]
      ensures forall i :: 0 <= i < |list| && (forall j :: i < j < |list| ==> list[j].String() != list[i].String()) ==> providers[list[i].String()] == list[i]
    {
      var i := 0;
      while i < |list|
        invariant 0 <= i <= |list|
        invariant origin.Keys <= providers.Keys
        invariant providers == Filed(old(providers), list[..i], KeyOf)
      {
        assert list[..i + 1][..i] == list[..i];
        providers := providers[list[i].String() := list[i]];
        i := i + 1;
      }
      assert list[..i] == list;
      FiledProviders(old(providers), list);
    }

    /** The texts of the beans still missing: those some provider requires
        and no provider provides, each with one of the beans of that text.
        Panics when a type cannot be classified, and when no provider
        produces the injector's own result. */
    method Require() returns (r: Result<map<string, Bean>, Panic>)
      ensures Provider(fn).Provide().Err? ==> r == Err(Provider(fn).Provide().error)
      ensures Provider(fn).Provide().Ok? && !Classifiable(providers) ==>
        r.Err? && (r.error.UnsupportedType? || r.error.NoResults?)
      ensures Provider(fn).Provide().Ok? && Classifiable(providers) ==>
        (r.Err? <==> !ProducesIdentical(providers, providers.Keys, Provider(fn).Provide().value))
      ensures Provider(fn).Provide().Ok? && Classifiable(providers) && r.Err? ==>
        r.error == MissingProvider(Provider(fn).Provide().value.String())
      ensures r.Ok? ==> Classifiable(providers)
      ensures r.Ok? ==> r.value.Keys == NeededBy(providers, providers.Keys) - OwnedBy(providers, providers.Keys)
      ensures r.Ok? ==> forall s :: s in r.value ==>
        r.value[s].String() == s && InputOfSome(providers, providers.Keys, r.value[s])
    {
      var target := Provider(fn).Provide();
      if target.Err? {
        return Err(target.error);
      }
      var g := Gather(providers, target.value);
      if g.Err? {
        return Err(g.error);
      }
      var (required, owned, found) := g.value;
      if !found {
        return Err(MissingProvider(target.value.String()));
      }
      required := DropOwned(required, owned);
      return Ok(required);
    }
  }

  /** What `Gather` knows once it has visited the providers filed under
      `done`. */
  ghost predicate Gathered(ps: map<FuncId, Provider>, done: set<FuncId>, bean: Bean,
                           required: map<string, Bean>, owned: set<string>, found: bool)
  {
    && done <= ps.Keys
    && ClassifiableOn(ps, done)
    && (forall s :: s in required ==> required[s].String() == s && InputOfSome(ps, done, required[s]))
    && required.Keys == NeededBy(ps, done)
    && owned == OwnedBy(ps, done)
    && (found <==> ProducesIdentical(ps, done, bean))
  }

  lemma GatheredNothing(ps: map<FuncId, Provider>, bean: Bean)
    ensures Gathered(ps, {}, bean, map[], {}, false)
  {
    assert NeededBy(ps, {}) == {};
  }

  /** The loop of `Injector.Require` over the providers: the beans they
      require, filed by text; the texts of the beans they provide; and
      whether one of them provides a bean identical to `bean`. Panics on the
      first type that cannot be classified. */
  method Gather(ps: map<FuncId, Provider>, bean: Bean)
    returns (r: Result<(map<string, Bean>, set<string>, bool), Panic>)
    ensures r.Err? <==> !Classifiable(ps)
    ensures r.Err? ==> r.error.UnsupportedType? || r.error.NoResults?
    ensures r.Ok? ==> Gathered(ps, ps.Keys, bean, r.value.0, r.value.1, r.value.2)
  {
    var found := false;
    var required: map<string, Bean> := map[];
    var owned: set<string> := {};
    var todo := ps.Keys;
    GatheredNothing(ps, bean);
    assert ps.Keys - todo == {};
    while todo != {}
      invariant todo <= ps.Keys
      invariant Gathered(ps, ps.Keys - todo, bean, required, owned, found)
      decreases |todo|
    {
      var k :| k in todo;
      var step := Visit(ps, ps.Keys - todo, k, bean, required, owned, found);
      if step.Err? {
        assert !ClassifiableOn(ps, {k});
        return Err(step.error);
      }
      required, owned, found := step.value.0, step.value.1, step.value.2;
      TakeOne(ps.Keys, todo, k);
      todo := todo - {k};
    }
    VisitedAll(ps.Keys);
    return Ok((required, owned, found));
  }

  /** Proof helper for loops over map keys: taking `k` out of the keys
      left to visit adds it to the visited ones. */
  lemma TakeOne<K>(all: set<K>, todo: set<K>, k: K)
    requires k in todo && todo <= all
    ensures all - (todo - {k}) == (all - todo) + {k}
  {
  }

  /** Proof helper for loops over map keys: nothing left to visit means
      every key was visited. A lemma, so that the solver proves the set
      identity apart from the loop's context. */
  lemma VisitedAll<K>(all: set<K>)
    ensures all - {} == all
  {
  }

  /** One turn of the loop of `Gather`: the provider filed under `k`. */
  method Visit(ps: map<FuncId, Provider>, ghost done: set<FuncId>, k: FuncId, bean: Bean,
               required: map<string, Bean>, owned: set<string>, found: bool)
    returns (r: Result<(map<string, Bean>, set<string>, bool), Panic>)
    requires Gathered(ps, done, bean, required, owned, found)
    requires k in ps
    ensures r.Err? <==> !(ps[k].Require().Ok? && ps[k].Provide().Ok?)
    ensures r.Err? ==> r.error.UnsupportedType? || r.error.NoResults?
    ensures r.Ok? ==> Gathered(ps, done + {k}, bean, r.value.0, r.value.1, r.value.2)
  {
    var p := ps[k];
    var reqs := p.Require();
    if reqs.Err? {
      return Err(reqs.error);
    }
    var required' := RecordInputs(required, reqs.value);
    forall s | s in required'
      ensures required'[s].String() == s && InputOfSome(ps, done + {k}, required'[s])
    {
      if required'[s] !in reqs.value {
        assert InputOfSome(ps, done, required[s]);
      }
    }
    var out := p.Provide();
    if out.Err? {
      return Err(out.error);
    }
    AddOneClassifiable(ps, done, k);
    AddOneNeeded(ps, done, k);
    AddOneOwned(ps, done, k);
    AddOneProduces(ps, done, k);
    var found' := found || out.value.Identical(bean);
    return Ok((required', owned + {out.value.String()}, found'));
  }

  /** Files each bean under its text, a later bean replacing an earlier
      one of the same text. */
  method RecordInputs(required: map<string, Bean>, bs: seq<Bean>) returns (m: map<string, Bean>)
    ensures m.Keys == required.Keys + Texts(bs)
    ensures forall s :: s in m ==> (m[s] in bs && m[s].String() == s) || (s in required && m[s] == required[s])
  {
    m := required;
    var j := 0;
    while j < |bs|
      invariant 0 <= j <= |bs|
      invariant m.Keys == required.Keys + Texts(bs[..j])
      invariant forall s :: s in m ==> (m[s] in bs[..j] && m[s].String() == s) || (s in required && m[s] == required[s])
    {
      TextsAppend(bs[..j], bs[j]);
      assert bs[..j + 1] == bs[..j] + [bs[j]];
      m := m[bs[j].String() := bs[j]];
      j := j + 1;
    }
    assert bs[..j] == bs;
  }

  /** Removes the entries whose text is owned. */
  method DropOwned(required: map<string, Bean>, owned: set<string>) returns (m: map<string, Bean>)
    ensures m.Keys == required.Keys - owned
    ensures forall s :: s in m ==> m[s] == required[s]
  {
    m := required;
    var remaining := required.Keys;
    while remaining != {}
      invariant remaining <= required.Keys
      invariant forall s :: s in m <==> s in required && (s in remaining || s !in owned)
      invariant forall s :: s in m ==> m[s] == required[s]
      decreases |remaining|
    {
      var s :| s in remaining;
      if s in owned {
        m := m - {s};
      }
      remaining := remaining - {s};
    }
  }

  /** A closed injector has no dangling requirement: every bean some
      provider requires is provided by some provider. */
  lemma ClosedMeansNoDangling(ps: map<FuncId, Provider>, k: FuncId, b: Bean)
    requires Classifiable(ps)
    requires NeededBy(ps, ps.Keys) - OwnedBy(ps, ps.Keys) == {}
    requires k in ps && b in ps[k].Require().value
    ensures exists k' :: k' in ps && ps[k'].Provide().value.String() == b.String()
  {
    assert b.String() in InputsOf(ps[k]);
    assert b.String() in NeededBy(ps, ps.Keys);
    assert b.String() !in NeededBy(ps, ps.Keys) - OwnedBy(ps, ps.Keys);
  }

  /** The requirement calculation keys beans by text, not by identity: a
      required bean that some provider produces an identical bean for stays
      missing when no provider's output prints the same text
      (`Beans.InterfaceParamNames` shows such a pair). */
  lemma IdenticalStillMissing(ps: map<FuncId, Provider>, k: FuncId, k': FuncId, b: Bean)
    requires Classifiable(ps)
    requires k in ps && b in ps[k].Require().value
    requires k' in ps && ps[k'].Provide().value.Identical(b)
    requires forall j :: j in ps ==> ps[j].Provide().value.String() != b.String()
    ensures ProducesIdentical(ps, ps.Keys, b)
    ensures b.String() in NeededBy(ps, ps.Keys) - OwnedBy(ps, ps.Keys)
  {
    assert b.String() in InputsOf(ps[k]);
  }
}
