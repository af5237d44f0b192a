/** `DefaultProcessConfigurer`: which functions count as providers and
    injectors, and which of several candidate providers to elect. */
module Config {
  import opened Go
  import opened Results
  import opened Panics
  import opened Providers
  import opened Injectors
  import Strings
  import Beans

  /** Every candidate's parameters can be classified. */
  ghost predicate AllRequire(ps: seq<Provider>) {
    forall i :: 0 <= i < |ps| ==> ps[i].Require().Ok?
  }

  /** Every candidate in the map has classifiable parameters. */
  ghost predicate AllClassify<K>(providers: map<K, Provider>) {
    forall k :: k in providers ==> providers[k].Require().Ok?
  }

  datatype DefaultProcessConfigurer = DefaultProcessConfigurer(willRewriteSource: bool) {

    /** Every function may be an injector. */
    predicate InjectorPredicate(fn: Func) {
      true
    }

    /** Only functions named `New...` are providers. */
    function ProviderPredicate(fn: Func): (r: bool)
      ensures r <==> |fn.name| >= 3 && fn.name[0] == 'N' && fn.name[1] == 'e' && fn.name[2] == 'w'
    {
      Strings.HasPrefix(fn.name, "New")
    }

    function WillRewriteSource(): bool {
      willRewriteSource
    }

    /** The provider to use among `providers`: one from the injector's own
        package when there is one, else any of the others. Ordering a list
        of two or more candidates computes each one's requirements, which
        panics on a type that cannot be classified. */
    method ProviderElect(inj: Injector, bean: Beans.Bean, providers: map<string, Provider>)
      returns (r: Result<Provider, Panic>)
      ensures providers == map[] ==> r == Err(NoProviderGiven)
      ensures r.Ok? ==> r.value in providers.Values
      ensures r.Ok? && (exists k :: k in providers && providers[k].Package() == inj.Package()) ==>
        r.value.Package() == inj.Package()
      ensures r.Err? && providers != map[] ==> r.error.UnsupportedType?
      ensures providers != map[] && AllClassify(providers) ==> r.Ok?
    {
      var first, second := Partition(inj.Package(), providers);
      if |first| > 0 {
        assert first[0] in first;
        r := PickFirst(first);
        return;
      }
      if |second| > 0 {
        assert forall k :: k in providers ==> providers[k].Package() != inj.Package();
        r := PickFirst(second);
        return;
      }
      assert providers == map[];
      return Err(NoProviderGiven);
    }
  }

  /** The loop of `ProviderElect`: the candidates of package `pkg`, and
      the others met before the first candidate of `pkg` (all of them when
      `pkg` has none). */
  method Partition<K>(pkg: string, providers: map<K, Provider>)
    returns (first: seq<Provider>, second: seq<Provider>)
    ensures forall i :: 0 <= i < |first| ==> first[i] in providers.Values && first[i].Package() == pkg
    ensures forall i :: 0 <= i < |second| ==> second[i] in providers.Values && second[i].Package() != pkg
    ensures forall k :: k in providers && providers[k].Package() == pkg ==> providers[k] in first
    ensures first == [] ==> forall k :: k in providers ==> providers[k] in second
    ensures AllClassify(providers) ==> AllRequire(first) && AllRequire(second)
  {
    first := [];
    second := [];
    var todo := providers.Keys;
    while todo != {}
      invariant todo <= providers.Keys
      invariant forall i :: 0 <= i < |first| ==> first[i] in providers.Values && first[i].Package() == pkg
      invariant forall i :: 0 <= i < |second| ==> second[i] in providers.Values && second[i].Package() != pkg
      invariant forall k :: k in providers && k !in todo && providers[k].Package() == pkg ==> providers[k] in first
      invariant first == [] ==> forall k :: k in providers && k !in todo ==> providers[k] in second
      invariant AllClassify(providers) ==> AllRequire(first) && AllRequire(second)
      decreases |todo|
    {
      var k :| k in todo;
      var p := providers[k];
      if p.Package() == pkg {
        first := first + [p];
      } else if |first| == 0 {
        second := second + [p];
      }
      todo := todo - {k};
    }
  }

  /** The head of `ps` once ordered: some element of it, or the panic of a
      candidate whose requirements cannot be computed when there is anything
      to order. */
  method PickFirst(ps: seq<Provider>) returns (r: Result<Provider, Panic>)
    requires |ps| > 0
    ensures r.Ok? ==> r.value in ps
    ensures r.Err? ==> |ps| >= 2 && r.error.UnsupportedType?
    ensures r.Err? <==> |ps| >= 2 && !AllRequire(ps)
  {
    if |ps| >= 2 {
      var i := 0;
      while i < |ps|
        invariant 0 <= i <= |ps|
        invariant forall j :: 0 <= j < i ==> ps[j].Require().Ok?
      {
        var req := ps[i].Require();
        if req.Err? {
          return Err(req.error);
        }
        i := i + 1;
      }
    }
    assert ps[0] in ps;
    var p :| p in ps;
    return Ok(p);
  }

  /** The predicates of the default configurer. */
  lemma DefaultPredicates(c: DefaultProcessConfigurer, fn: Func)
    ensures c.InjectorPredicate(fn)
    ensures c.WillRewriteSource() == c.willRewriteSource
    ensures c.ProviderPredicate(fn) <==> Strings.HasPrefix(fn.name, "New")
  {
  }
}
