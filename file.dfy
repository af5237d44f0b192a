/** `comm.WireFile`: a file holding injectors, and the rewriting of its
    imports and build calls once the injectors are complete. Import paths
    are bound to local aliases in a bijection (`BiMap`). */
module Files {
  import opened Go
  import opened Results
  import opened Panics
  import opened Strings
  import opened BiDirectionMaps
  import opened Providers
  import opened Injectors

  /** The number of numeric suffixes `renamed` tries. */
  const Retries: nat := 255

  /** A byte of the lowered second-to-last segment at index `i`: lower-case
      letters stay, digits stay except at the start, anything else becomes
      `_`. */
  function SanitizedChar(i: nat, c: char): char {
    if 'a' <= c <= 'z' then c
    else if i > 0 && '0' <= c <= '9' then c
    else '_'
  }

  /** The segment with every byte sanitized. */
  function Sanitized(s: string): (r: string)
    ensures |r| == |s|
    ensures forall i :: 0 <= i < |s| ==> r[i] == SanitizedChar(i, s[i])
  {
    seq(|s|, i requires 0 <= i < |s| => SanitizedChar(i, s[i]))
  }

  /** A sanitized segment is fit to start an identifier: lower-case letters
      and underscores throughout, digits only after the first byte. */
  lemma SanitizedIsIdentifier(s: string)
    ensures forall i :: 0 <= i < |Sanitized(s)| ==>
      var c := Sanitized(s)[i];
      'a' <= c <= 'z' || c == '_' || (i > 0 && '0' <= c <= '9')
  {
  }

  /** The sanitize loop of `renamed`, in place. */
  method SanitizeInPlace(a: array<char>)
    modifies a
    ensures a[..] == Sanitized(old(a[..]))
  {
    var i := 0;
    while i < a.Length
      invariant 0 <= i <= a.Length
      invariant forall j :: 0 <= j < i ==> a[j] == SanitizedChar(j, old(a[j]))
      invariant forall j :: i <= j < a.Length ==> a[j] == old(a[j])
    {
      if 'a' <= a[i] <= 'z' {
      } else if i > 0 && '0' <= a[i] <= '9' {
      } else {
        a[i] := '_';
      }
      i := i + 1;
    }
  }

  /** The prefix that tells two packages of the same name apart: the
      second-to-last segment of the path, lowered and sanitized, or nothing
      for a one-segment path. */
  function DisambiguationPrefix(path: string): string {
    var words := Split(path, '/');
    if |words| > 1 then Sanitized(ToLower(words[|words| - 2])) else ""
  }

  /** The numbers `1`, `2`, ..., `k` written one after the other: suffixes
      accumulate from one retry to the next. */
  function Suffix(k: nat): string {
    if k == 0 then "" else Suffix(k - 1) + Itoa(k)
  }

  /** The alias tried at retry `k` (retry 0 is the bare base). */
  function Candidate(base: string, k: nat): string {
    base + Suffix(k)
  }

  /** Later suffixes are longer, so no two candidates for one base are
      equal. */
  lemma {:induction false} SuffixGrows(j: nat, k: nat)
    requires j < k
    ensures |Suffix(j)| < |Suffix(k)|
  {
    if j < k - 1 {
      SuffixGrows(j, k - 1);
    }
  }

  /** Every candidate up to `Retries` is already an alias in `rMap`. */
  ghost predicate Exhausted(rMap: map<string, string>, base: string) {
    forall k :: 0 <= k <= Retries ==> Candidate(base, k) in rMap
  }

  /** `alias` is candidate `k`, it is free, and every earlier candidate is
      taken. */
  ghost predicate FirstFree(rMap: map<string, string>, base: string, k: nat, alias: string) {
    && k <= Retries
    && alias == Candidate(base, k)
    && alias !in rMap
    && forall j :: 0 <= j < k ==> Candidate(base, j) in rMap
  }

  /** Each retry appends the next number to the previous candidate. */
  lemma CandidateStep(base: string, k: nat)
    ensures Candidate(base, k + 1) == Candidate(base, k) + Itoa(k + 1)
  {
    assert Suffix(k + 1) == Suffix(k) + Itoa(k + 1);
  }

  /** The lowered and sanitized second-to-last segment, computed as
      `renamed` does. */
  method PrefixOf(path: string) returns (prefix: string)
    ensures prefix == DisambiguationPrefix(path)
  {
    var words := Split(path, '/');
    if |words| > 1 {
      var lowered := ToLower(words[|words| - 2]);
      var secondLast := new char[|lowered|](i requires 0 <= i < |lowered| => lowered[i]);
      assert secondLast[..] == lowered;
      SanitizeInPlace(secondLast);
      prefix := secondLast[..];
    } else {
      prefix := "";
    }
  }

  /** Candidates `0..i` are all taken. */
  ghost predicate TakenThrough(rMap: map<string, string>, base: string, i: nat) {
    forall j :: 0 <= j <= i ==> Candidate(base, j) in rMap
  }

  /** The retry loop of `renamed`: the first free candidate, if any. */
  method FirstFreeCandidate(bm: BiMap<string, string>, base: string) returns (r: Option<string>)
    ensures r.None? <==> Exhausted(bm.rMap, base)
    ensures r.Some? ==> exists k :: FirstFree(bm.rMap, base, k, r.value)
  {
    var newAlias := base;
    assert newAlias == Candidate(base, 0);
    if bm.GetByR(newAlias).None? {
      assert FirstFree(bm.rMap, base, 0, newAlias);
      return Some(newAlias);
    }
    var i := 0;
    while i < Retries
      invariant 0 <= i <= Retries
      invariant newAlias == Candidate(base, i)
      invariant TakenThrough(bm.rMap, base, i)
    {
      CandidateStep(base, i);
      newAlias := newAlias + Itoa(i + 1);
      if bm.GetByR(newAlias).None? {
        assert FirstFree(bm.rMap, base, i + 1, newAlias);
        return Some(newAlias);
      }
      i := i + 1;
    }
    assert i == Retries;
    assert Exhausted(bm.rMap, base);
    return None;
  }

  /** `renamed`: the alias for `path` given the aliases already in `bm`.
      A bound path keeps its alias; an unbound path gets the preferred name
      when it is free, else the first free candidate built on the
      disambiguation prefix and the name. Panics when every candidate is
      taken. Never changes the table. */
  method Renamed(bm: BiMap<string, string>, path: string, name: string) returns (r: Result<string, Panic>)
    ensures path in bm.lMap ==> r == Ok(bm.lMap[path])
    ensures path !in bm.lMap && name !in bm.rMap ==> r == Ok(name)
    ensures path !in bm.lMap && name in bm.rMap && r.Ok? ==>
      exists k :: FirstFree(bm.rMap, DisambiguationPrefix(path) + name, k, r.value)
    ensures r.Ok? && path !in bm.lMap ==> r.value !in bm.rMap
    ensures r.Err? <==> (path !in bm.lMap && name in bm.rMap && Exhausted(bm.rMap, DisambiguationPrefix(path) + name))
    ensures r.Err? ==> r.error == AliasExhausted(path)
  {
    var pkgAlias := bm.GetByL(path);
    if pkgAlias.Some? {
      return Ok(pkgAlias.value);
    }
    if bm.GetByR(name).None? {
      return Ok(name);
    }
    var prefix := PrefixOf(path);
    var free := FirstFreeCandidate(bm, prefix + name);
    if free.Some? {
      return Ok(free.value);
    }
    return Err(AliasExhausted(path));
  }

  /** The first `n` candidates as a set. */
  ghost function CandidateSet(base: string, n: nat): set<string> {
    if n == 0 then {} else CandidateSet(base, n - 1) + {Candidate(base, n - 1)}
  }

  /** Everything in the set is one of the first `n` candidates. */
  lemma {:induction false} CandidateSetMembers(base: string, n: nat)
    ensures forall s :: s in CandidateSet(base, n) ==> exists k :: 0 <= k < n && s == Candidate(base, k)
  {
    if n > 0 {
      CandidateSetMembers(base, n - 1);
    }
  }

  /** The first `n` candidates are pairwise distinct: the set has `n`
      members. */
  lemma {:induction false} CandidateSetCard(base: string, n: nat)
    ensures |CandidateSet(base, n)| == n
  {
    if n > 0 {
      var prev := CandidateSet(base, n - 1);
      var last := Candidate(base, n - 1);
      CandidateSetCard(base, n - 1);
      CandidateSetMembers(base, n - 1);
      assert last !in prev by {
        forall s | s in prev ensures s != last {
          var k :| 0 <= k < n - 1 && s == Candidate(base, k);
          SuffixGrows(k, n - 1);
        }
      }
      assert CandidateSet(base, n) == prev + {last};
    }
  }

  /** A table holding the first `n` candidates holds at least `n`
      aliases. */
  lemma TakenCandidatesCard(rMap: map<string, string>, base: string, n: nat)
    requires forall k :: 0 <= k < n ==> Candidate(base, k) in rMap
    ensures |rMap| >= n
  {
    CandidateSetCard(base, n);
    CandidateSetMembers(base, n);
    assert CandidateSet(base, n) <= rMap.Keys;
    SubsetCard(CandidateSet(base, n), rMap.Keys);
  }

  /** `renamed` can only run out of candidates when the table already holds
      more than `Retries` aliases. */
  lemma NoExhaustionInSmallTables(rMap: map<string, string>, base: string)
    requires Exhausted(rMap, base)
    ensures |rMap| > Retries
  {
    TakenCandidatesCard(rMap, base, Retries + 1);
  }

  /** Proof helper: a subset is no larger than its superset. */
  lemma {:induction false} SubsetCard<T>(a: set<T>, b: set<T>)
    requires a <= b
    ensures |a| <= |b|
    decreases |b|
  {
    if b != {} {
      var x :| x in b;
      SubsetCard(a - {x}, b - {x});
    }
  }

  /** `takeImport`: binds the package's path to the alias `renamed` picks
      for it; a path already bound keeps its alias. */
  method TakeImport(bm: BiMap<string, string>, pkg: Package) returns (o: Outcome<Panic>)
    requires bm.Valid()
    modifies bm
    ensures bm.Valid()
    ensures o.Fail? <==> (pkg.path !in old(bm.lMap) && pkg.name in old(bm.rMap)
                          && Exhausted(old(bm.rMap), DisambiguationPrefix(pkg.path) + pkg.name))
    ensures o.Fail? ==> o.error == AliasExhausted(pkg.path) && bm.lMap == old(bm.lMap) && bm.rMap == old(bm.rMap)
    ensures o.Pass? ==> pkg.path in bm.lMap
    ensures o.Pass? && pkg.path in old(bm.lMap) ==> bm.lMap == old(bm.lMap) && bm.rMap == old(bm.rMap)
    ensures o.Pass? && pkg.path !in old(bm.lMap) ==>
      bm.lMap[pkg.path] !in old(bm.rMap)
      && bm.lMap == old(bm.lMap)[pkg.path := bm.lMap[pkg.path]]
      && bm.rMap == old(bm.rMap)[bm.lMap[pkg.path] := pkg.path]
  {
    var alias := Renamed(bm, pkg.path, pkg.name);
    if alias.Err? {
      return Fail(alias.error);
    }
    var _ := bm.Put(pkg.path, alias.value);
    return Pass;
  }

  /** What `Refactor` relies on of `takeImport`: the package's path is
      bound unless no alias is left, and no other binding changes. */
  method ImportPackage(bm: BiMap<string, string>, pkg: Package) returns (o: Outcome<Panic>)
    requires bm.Valid()
    modifies bm
    ensures bm.Valid()
    ensures Extends(old(bm.lMap), bm.lMap, {pkg.path})
    ensures o.Pass? ==> pkg.path in bm.lMap
    ensures o.Fail? ==> o.error == AliasExhausted(pkg.path)
  {
    o := TakeImport(bm, pkg);
  }

  /** The path an import spec names: its literal without the quotes. */
  function ImportPath(spec: ImportSpec): string {
    Trim(spec.pathLit, '"')
  }

  /** The name an import binds: the explicit one, or else the last segment
      of the path. */
  function ImportAlias(spec: ImportSpec): string {
    if spec.name.Some? then spec.name.value else LastSegment(ImportPath(spec))
  }

  /** A path-to-alias table and its inverse, as a value. */
  datatype Aliases<K, V> = Aliases(l: map<K, V>, r: map<V, K>)

  /** `Put` on a table value: binds unless the path or the alias is
      taken. */
  function PutAlias<K, V>(a: Aliases<K, V>, path: K, alias: V): Aliases<K, V> {
    if path in a.l || alias in a.r then a else Aliases(a.l[path := alias], a.r[alias := path])
  }

  /** The table built by putting the first `n` (path, alias) pairs in
      order. */
  function PutAll<K, V>(pairs: seq<(K, V)>, n: nat): Aliases<K, V>
    requires n <= |pairs|
    decreases n
  {
    if n == 0 then Aliases(map[], map[])
    else PutAlias(PutAll(pairs, n - 1), pairs[n - 1].0, pairs[n - 1].1)
  }

  /** The binding an import spec asks for. */
  function Binding(spec: ImportSpec): (string, string) {
    (ImportPath(spec), ImportAlias(spec))
  }

  /** The bindings of a file's imports, in order. */
  function ImportBindings(specs: seq<ImportSpec>): (pairs: seq<(string, string)>)
    ensures |pairs| == |specs|
    ensures forall i :: 0 <= i < |specs| ==> pairs[i] == Binding(specs[i])
  {
    seq(|specs|, i requires 0 <= i < |specs| => Binding(specs[i]))
  }

  /** The table `collectImports` builds from a file's imports. */
  function Collected(specs: seq<ImportSpec>): Aliases<string, string> {
    PutAll(ImportBindings(specs), |specs|)
  }

  /** Pairs appended later do not affect the table of an earlier prefix. */
  lemma {:induction false} PutAllAppend<K, V>(pairs: seq<(K, V)>, extra: seq<(K, V)>, n: nat)
    requires n <= |pairs|
    ensures PutAll(pairs + extra, n) == PutAll(pairs, n)
  {
    if n > 0 {
      PutAllAppend(pairs, extra, n - 1);
      assert (pairs + extra)[n - 1] == pairs[n - 1];
    }
  }

  /** The table is a bijection. */
  lemma {:induction false} PutAllInverse<K, V>(pairs: seq<(K, V)>, n: nat)
    requires n <= |pairs|
    ensures Inverse(PutAll(pairs, n).l, PutAll(pairs, n).r)
  {
    if n > 0 {
      PutAllInverse(pairs, n - 1);
    }
  }

  /** Every binding in the table is one of the pairs. */
  lemma {:induction false} PutAllSound<K, V>(pairs: seq<(K, V)>, n: nat)
    requires n <= |pairs|
    ensures forall p :: p in PutAll(pairs, n).l ==> exists i :: 0 <= i < n && pairs[i] == (p, PutAll(pairs, n).l[p])
  {
    if n > 0 {
      PutAllSound(pairs, n - 1);
    }
  }

  /** Every pair is recorded, unless an earlier pair already claimed its
      path or its alias. */
  lemma {:induction false} PutAllComplete<K, V>(pairs: seq<(K, V)>, n: nat)
    requires n <= |pairs|
    ensures forall i :: 0 <= i < n ==> pairs[i].0 in PutAll(pairs, n).l || pairs[i].1 in PutAll(pairs, n).r
  {
    if n > 0 {
      PutAllComplete(pairs, n - 1);
      var a, b := PutAll(pairs, n - 1), PutAll(pairs, n);
      assert a.l.Keys <= b.l.Keys && a.r.Keys <= b.r.Keys;
    }
  }

  /** `collectImports` keeps a bijection between paths and aliases; every
      binding it keeps is one an import asks for, and every import is kept
      unless an earlier import already took its path or its alias. */
  lemma CollectedSoundComplete(specs: seq<ImportSpec>)
    ensures Inverse(Collected(specs).l, Collected(specs).r)
    ensures forall p :: p in Collected(specs).l ==>
      exists i :: 0 <= i < |specs| && ImportPath(specs[i]) == p && ImportAlias(specs[i]) == Collected(specs).l[p]
    ensures forall i :: 0 <= i < |specs| ==>
      ImportPath(specs[i]) in Collected(specs).l || ImportAlias(specs[i]) in Collected(specs).r
  {
    var pairs := ImportBindings(specs);
    PutAllInverse(pairs, |specs|);
    PutAllSound(pairs, |specs|);
    PutAllComplete(pairs, |specs|);
  }

  /** An import path neither starts nor ends with a quote. */
  predicate Unquoted(path: string) {
    path == [] || (path[0] != '"' && path[|path| - 1] != '"')
  }

  /** The import spec `organizeImports` writes for a binding: an explicit
      name only when the alias differs from the path's last segment. */
  function SpecFor(path: string, alias: string): ImportSpec {
    ImportSpec(if LastSegment(path) != alias then Some(alias) else None, Quote(path))
  }

  /** Reading a written spec back gives the binding it was written for. */
  lemma SpecForRoundTrip(path: string, alias: string)
    requires Unquoted(path)
    ensures ImportPath(SpecFor(path, alias)) == path
    ensures ImportAlias(SpecFor(path, alias)) == alias
  {
    TrimQuote(path);
  }

  /** The specs for a list of paths, each with its alias in `aliases`. */
  function SpecsFor(paths: seq<string>, aliases: map<string, string>): (specs: seq<ImportSpec>)
    requires forall p :: p in paths ==> p in aliases
    ensures |specs| == |paths|
    ensures forall i :: 0 <= i < |paths| ==> specs[i] == SpecFor(paths[i], aliases[paths[i]])
  {
    seq(|paths|, i requires 0 <= i < |paths| => SpecFor(paths[i], aliases[paths[i]]))
  }

  /** Import specs as the specs of a general declaration. */
  function AsSpecs(specs: seq<ImportSpec>): (r: seq<Spec>)
    ensures |r| == |specs|
    ensures forall i :: 0 <= i < |specs| ==> r[i] == Import(specs[i])
  {
    seq(|specs|, i requires 0 <= i < |specs| => Import(specs[i]))
  }

  /** `table` agrees with `aliases` wherever it binds a path. */
  ghost predicate Within<K, V>(table: map<K, V>, aliases: map<K, V>) {
    forall p :: p in table ==> p in aliases && aliases[p] == table[p]
  }

  lemma WithinTransitive<K, V>(a: map<K, V>, b: map<K, V>, c: map<K, V>)
    requires Within(a, b) && Within(b, c)
    ensures Within(a, c)
  {
  }

  /** Tables built from sequences that agree on the first `n` pairs are
      equal. */
  lemma {:induction false} PutAllPrefix<K, V>(a: seq<(K, V)>, b: seq<(K, V)>, n: nat)
    requires n <= |a| && n <= |b|
    requires forall i :: 0 <= i < n ==> a[i] == b[i]
    ensures PutAll(a, n) == PutAll(b, n)
  {
    if n > 0 {
      PutAllPrefix(a, b, n - 1);
    }
  }

  /** A table that agrees with a bijection leaves free the alias the
      bijection gives a path the table does not bind. */
  lemma AliasFree<K, V>(a: Aliases<K, V>, aliases: map<K, V>, inverse: map<V, K>, p: K)
    requires Inverse(aliases, inverse) && Inverse(a.l, a.r)
    requires Within(a.l, aliases)
    requires p in aliases && p !in a.l
    ensures aliases[p] !in a.r
  {
    forall y | y in a.r ensures y != aliases[p] {
      var q := a.r[y];
      assert aliases[q] == y && q != p;
      assert inverse[y] == q && inverse[aliases[p]] == p;
    }
  }

  /** The pairs from `k` on bind distinct paths, none bound by the first
      `k`, each to its alias in `aliases`. */
  ghost predicate NewBindingsFrom<K, V>(all: seq<(K, V)>, k: nat, aliases: map<K, V>)
    requires k <= |all|
  {
    && (forall i :: k <= i < |all| ==> all[i].0 in aliases && all[i].1 == aliases[all[i].0] && all[i].0 !in PutAll(all, k).l)
    && (forall i, j :: k <= i < j < |all| ==> all[i].0 != all[j].0)
  }

  /** Putting new bindings of a bijective table after a prefix whose own
      bindings agree with it binds exactly the new paths on top of the old
      ones, each to its alias in the table. */
  lemma {:induction false} PutNewBindings<K, V>(all: seq<(K, V)>, k: nat, n: nat,
                                                aliases: map<K, V>, inverse: map<V, K>)
    requires k <= n <= |all|
    requires Inverse(aliases, inverse)
    requires Within(PutAll(all, k).l, aliases)
    requires NewBindingsFrom(all, k, aliases)
    ensures Within(PutAll(all, n).l, aliases)
    ensures forall p :: p in PutAll(all, n).l <==> p in PutAll(all, k).l || exists i :: k <= i < n && all[i].0 == p
    decreases n
  {
    if n > k {
      PutNewBindings(all, k, n - 1, aliases, inverse);
      var a := PutAll(all, n - 1);
      var p := all[n - 1].0;
      PutAllInverse(all, n - 1);
      assert p !in a.l by {
        assert forall i :: k <= i < n - 1 ==> all[i].0 != p;
      }
      AliasFree(a, aliases, inverse, p);
      assert PutAll(all, n).l == a.l[p := aliases[p]];
    }
  }

  /** `all` continues its first `k` pairs with the bindings of `paths`,
      distinct and new, in a bijection that the first `k` agree with. Putting
      them all binds exactly the new paths on top of the old ones. */
  lemma AppendedBindings<K, V>(all: seq<(K, V)>, k: nat, paths: seq<K>, aliases: map<K, V>, inverse: map<V, K>)
    requires |all| == k + |paths|
    requires Inverse(aliases, inverse)
    requires Within(PutAll(all, k).l, aliases)
    requires forall i, j :: 0 <= i < j < |paths| ==> paths[i] != paths[j]
    requires forall i :: 0 <= i < |paths| ==>
      paths[i] in aliases && all[k + i] == (paths[i], aliases[paths[i]]) && paths[i] !in PutAll(all, k).l
    ensures Within(PutAll(all, |all|).l, aliases)
    ensures forall p :: p in PutAll(all, |all|).l <==> p in PutAll(all, k).l || p in paths
  {
    assert NewBindingsFrom(all, k, aliases) by {
      forall i | k <= i < |all| ensures all[i].0 in aliases && all[i].1 == aliases[all[i].0] && all[i].0 !in PutAll(all, k).l {
        assert all[i] == (paths[i - k], aliases[paths[i - k]]);
      }
      forall i, j | k <= i < j < |all| ensures all[i].0 != all[j].0 {
        assert all[i].0 == paths[i - k] && all[j].0 == paths[j - k];
      }
    }
    PutNewBindings(all, k, |all|, aliases, inverse);
    forall p ensures (exists i :: k <= i < |all| && all[i].0 == p) <==> p in paths {
      if p in paths {
        var j :| 0 <= j < |paths| && paths[j] == p;
        assert all[k + j].0 == p;
      }
      if exists i :: k <= i < |all| && all[i].0 == p {
        var i :| k <= i < |all| && all[i].0 == p;
        assert all[i] == (paths[i - k], aliases[paths[i - k]]);
      }
    }
  }

  /** The bindings of two lists of specs, one after the other. */
  lemma ImportBindingsAppend(a: seq<ImportSpec>, b: seq<ImportSpec>)
    ensures ImportBindings(a + b) == ImportBindings(a) + ImportBindings(b)
  {
    assert forall i :: 0 <= i < |a| + |b| ==> (a + b)[i] == if i < |a| then a[i] else b[i - |a|];
  }

  /** The (path, alias) pairs of `paths` in `aliases`, in order. */
  function PairsOf<K, V>(paths: seq<K>, aliases: map<K, V>): (pairs: seq<(K, V)>)
    requires forall p :: p in paths ==> p in aliases
    ensures |pairs| == |paths|
    ensures forall i :: 0 <= i < |paths| ==> pairs[i] == (paths[i], aliases[paths[i]])
  {
    seq(|paths|, i requires 0 <= i < |paths| => (paths[i], aliases[paths[i]]))
  }

  /** The specs written for unquoted paths read back as their bindings. */
  lemma SpecsForBindings(paths: seq<string>, aliases: map<string, string>)
    requires forall p :: p in paths ==> p in aliases && Unquoted(p)
    ensures ImportBindings(SpecsFor(paths, aliases)) == PairsOf(paths, aliases)
  {
    forall i | 0 <= i < |paths|
      ensures ImportBindings(SpecsFor(paths, aliases))[i] == (paths[i], aliases[paths[i]])
    {
      SpecForRoundTrip(paths[i], aliases[paths[i]]);
    }
  }

  /** Where the pairs of `paths` sit once appended. */
  lemma PairsAfter<K, V>(pre: seq<(K, V)>, paths: seq<K>, aliases: map<K, V>, all: seq<(K, V)>)
    requires forall p :: p in paths ==> p in aliases
    requires all == pre + PairsOf(paths, aliases)
    ensures forall i :: 0 <= i < |paths| ==> all[|pre| + i] == (paths[i], aliases[paths[i]])
  {
  }

  /** Putting the pairs of new, distinct paths of a bijection after pairs
      whose table agrees with it binds exactly the new paths on top of the
      old ones. */
  lemma PutAllAppended<K, V>(pre: seq<(K, V)>, paths: seq<K>, aliases: map<K, V>, inverse: map<V, K>, all: seq<(K, V)>)
    requires Inverse(aliases, inverse)
    requires Within(PutAll(pre, |pre|).l, aliases)
    requires forall i, j :: 0 <= i < j < |paths| ==> paths[i] != paths[j]
    requires forall p :: p in paths ==> p in aliases && p !in PutAll(pre, |pre|).l
    requires all == pre + PairsOf(paths, aliases)
    ensures Within(PutAll(all, |all|).l, aliases)
    ensures forall p :: p in PutAll(all, |all|).l <==> p in PutAll(pre, |pre|).l || p in paths
  {
    assert PutAll(all, |pre|) == PutAll(pre, |pre|) by {
      PutAllPrefix(all, pre, |pre|);
    }
    PairsAfter(pre, paths, aliases, all);
    AppendedBindings(all, |pre|, paths, aliases, inverse);
  }

  /** Appending the specs `organizeImports` writes for new bindings of a
      bijective table to imports whose own bindings agree with it:
      collecting the imports again keeps agreeing with the table and binds
      the old paths and exactly the new ones. */
  lemma AppendedSpecsCollected(specs: seq<ImportSpec>, aliases: map<string, string>,
                               inverse: map<string, string>, paths: seq<string>)
    requires Inverse(aliases, inverse)
    requires Within(Collected(specs).l, aliases)
    requires forall i, j :: 0 <= i < j < |paths| ==> paths[i] != paths[j]
    requires forall p :: p in paths ==> p in aliases && p !in Collected(specs).l && Unquoted(p)
    ensures Within(Collected(specs + SpecsFor(paths, aliases)).l, aliases)
    ensures forall p :: p in Collected(specs + SpecsFor(paths, aliases)).l <==> p in Collected(specs).l || p in paths
  {
    ImportBindingsAppend(specs, SpecsFor(paths, aliases));
    SpecsForBindings(paths, aliases);
    PutAllAppended(ImportBindings(specs), paths, aliases, inverse, ImportBindings(specs + SpecsFor(paths, aliases)));
  }

  /** The paths not already bound in `table`, in order. */
  function Unbound<K, V>(paths: seq<K>, table: map<K, V>): seq<K> {
    if paths == [] then []
    else
      var last := paths[|paths| - 1];
      Unbound(paths[..|paths| - 1], table) + if last in table then [] else [last]
  }

  /** `Unbound` keeps exactly the paths `table` does not bind. */
  lemma {:induction false} UnboundMembers<K(!new), V>(paths: seq<K>, table: map<K, V>)
    ensures forall p :: p in Unbound(paths, table) <==> p in paths && p !in table
  {
    if paths != [] {
      var init, last := paths[..|paths| - 1], paths[|paths| - 1];
      UnboundMembers(init, table);
      assert paths == init + [last];
    }
  }

  /** The unbound paths of a prefix of `paths`, one path at a time. */
  lemma UnboundStep<K, V>(paths: seq<K>, n: nat, table: map<K, V>)
    requires n <= |paths|
    ensures n == 0 ==> Unbound(paths[..n], table) == []
    ensures n > 0 ==> Unbound(paths[..n], table) == Unbound(paths[..n - 1], table) + if paths[n - 1] in table then [] else [paths[n - 1]]
  {
    if n > 0 {
      assert paths[..n][..n - 1] == paths[..n - 1];
    }
  }

  /** One more path gives one more spec. */
  lemma SpecsForSnoc(paths: seq<string>, x: string, aliases: map<string, string>)
    requires forall p :: p in paths ==> p in aliases
    requires x in aliases
    ensures SpecsFor(paths + [x], aliases) == SpecsFor(paths, aliases) + [SpecFor(x, aliases[x])]
  {
  }

  /** Dropping bound paths keeps a sorted list sorted. */
  lemma {:induction false} UnboundAscending(paths: seq<string>, table: map<string, string>)
    requires StrictlyAscending(paths)
    ensures StrictlyAscending(Unbound(paths, table))
  {
    if paths != [] {
      var init, last := paths[..|paths| - 1], paths[|paths| - 1];
      UnboundAscending(init, table);
      UnboundMembers(init, table);
      forall p | p in init ensures Less(p, last) {
        var i :| 0 <= i < |init| && init[i] == p;
      }
    }
  }

  /** Proof helper: strictly ascending lists repeat nothing. */
  lemma AscendingDistinct(paths: seq<string>)
    requires StrictlyAscending(paths)
    ensures forall i, j :: 0 <= i < j < |paths| ==> paths[i] != paths[j]
  {
    forall i, j | 0 <= i < j < |paths| ensures paths[i] != paths[j] {
      LessIrreflexive(paths[i]);
    }
  }

  /** Where the scan for the import declaration stops: at a general
      declaration whose first spec is an import, or at one with no specs,
      where indexing the first spec panics. */
  predicate EndsScan(d: Decl) {
    d.GenDecl? && (d.specs == [] || d.specs[0].Import?)
  }

  /** `i` is the first place the scan stops. */
  predicate FirstStop(decls: seq<Decl>, i: int) {
    0 <= i < |decls| && EndsScan(decls[i]) && forall j :: 0 <= j < i ==> !EndsScan(decls[j])
  }

  /** The scan of `organizeImports` for the import declaration: the first
      general declaration that starts with an import spec; panics at a
      general declaration without specs met first. */
  method FindImportDecl(decls: seq<Decl>) returns (r: Result<Option<nat>, Panic>)
    ensures r.Ok? && r.value.None? <==> forall j :: 0 <= j < |decls| ==> !EndsScan(decls[j])
    ensures r.Ok? && r.value.Some? ==> FirstStop(decls, r.value.value) && decls[r.value.value].specs != []
    ensures r.Err? <==> exists i :: FirstStop(decls, i) && decls[i].specs == []
    ensures r.Err? ==> r.error == EmptyGenDecl
  {
    var i := 0;
    while i < |decls|
      invariant 0 <= i <= |decls|
      invariant forall j :: 0 <= j < i ==> !EndsScan(decls[j])
    {
      var d := decls[i];
      if d.GenDecl? {
        if d.specs == [] {
          assert FirstStop(decls, i);
          return Err(EmptyGenDecl);
        }
        if d.specs[0].Import? {
          FirstStopUnique(decls, i);
          return Ok(Some(i));
        }
      }
      i := i + 1;
    }
    return Ok(None);
  }

  /** Only one place is the first stop. */
  lemma FirstStopUnique(decls: seq<Decl>, i: int)
    requires FirstStop(decls, i)
    ensures forall j :: FirstStop(decls, j) ==> j == i
  {
  }

  /** The argument `Refactor` adds for a provider: its function's name,
      qualified by its package path. */
  function IdentFor(p: Provider): (e: Expr)
    ensures e.Ident? && e.name == p.Name() && e.path == p.Package()
  {
    Ident(p.fn.name, p.fn.pkg.path)
  }

  /** The injector is to be completed: it lets autowire fill it and holds
      more providers than its build call names. */
  ghost predicate Refactorable(inj: Injector)
    reads inj`providers
  {
    inj.auto && |inj.origin| < |inj.providers|
  }

  /** Keys of the providers added to the injector after parsing. */
  ghost function Added(inj: Injector): set<FuncId>
    reads inj`providers
  {
    inj.providers.Keys - inj.origin.Keys
  }

  /** Packages of the added providers. */
  ghost function AddedPaths(inj: Injector): set<string>
    reads inj`providers
  {
    PathsOf(inj.providers, inj.origin.Keys)
  }

  /** Packages of the providers not in `parsed`. */
  ghost function PathsOf<K>(providers: map<K, Provider>, parsed: set<K>): set<string> {
    set k | k in providers.Keys - parsed :: providers[k].Package()
  }

  /** `args` continues `before` with the argument `ident` gives each key of
      `keys`, one argument per key. */
  ghost predicate ArgsOf<K(!new), E(!new)>(keys: set<K>, ident: map<K, E>, before: seq<E>, args: seq<E>)
    requires keys <= ident.Keys
  {
    && before <= args
    && |args| - |before| == |keys|
    && (forall e :: e in args[|before|..] <==> exists k :: k in keys && e == ident[k])
  }

  /** No keys, no new arguments. */
  lemma ArgsOfNone<K(!new), E(!new)>(ident: map<K, E>, before: seq<E>)
    ensures ArgsOf({}, ident, before, before)
  {
    assert before[|before|..] == [];
  }

  /** One more key contributes its argument at the end. */
  lemma ArgsOfStep<K(!new), E(!new)>(keys: set<K>, k: K, ident: map<K, E>, before: seq<E>, args: seq<E>)
    requires keys <= ident.Keys && k in ident && k !in keys
    requires ArgsOf(keys, ident, before, args)
    ensures ArgsOf(keys + {k}, ident, before, args + [ident[k]])
  {
    var args' := args + [ident[k]];
    assert args'[|before|..] == args[|before|..] + [ident[k]];
  }

  /** Taking `k` out of `todo` adds it to the visited keys outside
      `parsed` exactly when it is not parsed. */
  lemma VisitStep<K>(all: set<K>, todo: set<K>, parsed: set<K>, k: K)
    requires k in todo
    ensures k !in (all - todo) - parsed
    ensures k in parsed ==> (all - (todo - {k})) - parsed == (all - todo) - parsed
    ensures k !in parsed && k in all ==> (all - (todo - {k})) - parsed == ((all - todo) - parsed) + {k}
  {
  }

  /** The argument each provider would add. */
  ghost function IdentsOf<K>(providers: map<K, Provider>): (ident: map<K, Expr>)
    ensures ident.Keys == providers.Keys
  {
    map k | k in providers :: IdentFor(providers[k])
  }

  /** `args` adds to `before` one argument per added provider of the
      injector among `keys`: the provider's function. */
  ghost predicate ArgsFor(inj: Injector, keys: set<FuncId>, before: seq<Expr>, args: seq<Expr>)
    reads inj`providers
    requires keys <= inj.providers.Keys
  {
    ArgsOf(keys - inj.origin.Keys, IdentsOf(inj.providers), before, args)
  }

  /** The new table keeps every binding of the old one and binds nothing
      but the old paths and `paths`. */
  ghost predicate Extends(old_: map<string, string>, new_: map<string, string>, paths: set<string>) {
    Within(old_, new_) && new_.Keys <= old_.Keys + paths
  }

  /** What the loop of `RefactorInjector` keeps while `todo` is left to
      visit: the table grew by packages of added providers only, and every
      visited added provider has its package bound and its argument added. */
  ghost predicate SoFar<K(!new)>(providers: map<K, Provider>, parsed: set<K>, todo: set<K>, before: seq<Expr>,
                                 args: seq<Expr>, oldTable: map<string, string>, table: map<string, string>)
  {
    && Extends(oldTable, table, PathsOf(providers, parsed))
    && (forall k :: k in (providers.Keys - todo) - parsed ==> providers[k].Package() in table)
    && ArgsOf((providers.Keys - todo) - parsed, IdentsOf(providers), before, args)
  }

  /** Visiting a parsed provider changes nothing. */
  lemma SoFarParsed<K(!new)>(providers: map<K, Provider>, parsed: set<K>, todo: set<K>, k: K, before: seq<Expr>,
                             args: seq<Expr>, oldTable: map<string, string>, table: map<string, string>)
    requires k in todo && k in parsed
    requires SoFar(providers, parsed, todo, before, args, oldTable, table)
    ensures SoFar(providers, parsed, todo - {k}, before, args, oldTable, table)
  {
    VisitStep(providers.Keys, todo, parsed, k);
  }

  /** Visiting an added provider whose package got bound, and adding its
      argument. */
  lemma SoFarAdded<K(!new)>(providers: map<K, Provider>, parsed: set<K>, todo: set<K>, k: K, before: seq<Expr>,
                            args: seq<Expr>, oldTable: map<string, string>, table: map<string, string>,
                            table': map<string, string>)
    requires k in todo && k in providers && k !in parsed
    requires SoFar(providers, parsed, todo, before, args, oldTable, table)
    requires Extends(table, table', {providers[k].Package()}) && providers[k].Package() in table'
    ensures SoFar(providers, parsed, todo - {k}, before, args + [IdentFor(providers[k])], oldTable, table')
  {
    VisitStep(providers.Keys, todo, parsed, k);
    ArgsOfStep((providers.Keys - todo) - parsed, k, IdentsOf(providers), before, args);
    assert providers[k].Package() in PathsOf(providers, parsed);
  }

  /** A failed import of an added provider's package still grows the table
      by added packages only. */
  lemma SoFarFailed<K(!new)>(providers: map<K, Provider>, parsed: set<K>, todo: set<K>, k: K, before: seq<Expr>,
                             args: seq<Expr>, oldTable: map<string, string>, table: map<string, string>,
                             table': map<string, string>)
    requires k in providers && k !in parsed
    requires SoFar(providers, parsed, todo, before, args, oldTable, table)
    requires Extends(table, table', {providers[k].Package()})
    ensures Extends(oldTable, table', PathsOf(providers, parsed))
  {
    assert providers[k].Package() in PathsOf(providers, parsed);
  }

  /** `SoFar` for the injector's own providers and build call. */
  ghost predicate RefactoredSoFar(inj: Injector, todo: set<FuncId>, before: seq<Expr>,
                                   oldTable: map<string, string>, table: map<string, string>)
    reads inj`providers, inj`buildArgs
  {
    SoFar(inj.providers, inj.origin.Keys, todo, before, inj.buildArgs, oldTable, table)
  }

  /** One pass of the inner loop of `Refactor`: a provider the build call
      does not name gets its package imported and, once bound, its function
      added to the build call; a provider it names is skipped. */
  method RefactorProvider(inj: Injector, current: BiMap<string, string>, k: FuncId) returns (o: Outcome<Panic>)
    requires k in inj.providers && current.Valid()
    modifies inj`buildArgs, current
    ensures current.Valid()
    ensures k in inj.origin ==> o.Pass? && inj.buildArgs == old(inj.buildArgs) && current.lMap == old(current.lMap)
    ensures k !in inj.origin ==> Extends(old(current.lMap), current.lMap, {inj.providers[k].Package()})
    ensures k !in inj.origin && o.Pass? ==>
      inj.providers[k].Package() in current.lMap && inj.buildArgs == old(inj.buildArgs) + [IdentFor(inj.providers[k])]
    ensures o.Fail? ==> k !in inj.origin && inj.buildArgs == old(inj.buildArgs) && o.error == AliasExhausted(inj.providers[k].Package())
  {
    if k in inj.origin {
      return Pass;
    }
    var p := inj.providers[k];
    o := ImportPackage(current, p.fn.pkg);
    if o.Pass? {
      inj.buildArgs := inj.buildArgs + [IdentFor(p)];
    }
  }

  /** One injector of `Refactor`: for each provider it gained, the provider's
      package is imported into `current` and the function is added to the
      build call. Panics when no alias is left for a package. */
  method RefactorInjector(inj: Injector, current: BiMap<string, string>) returns (o: Outcome<Panic>)
    requires current.Valid()
    modifies inj`buildArgs, current
    ensures current.Valid()
    ensures Extends(old(current.lMap), current.lMap, AddedPaths(inj))
    ensures !Refactorable(inj) ==> o.Pass? && inj.buildArgs == old(inj.buildArgs) && current.lMap == old(current.lMap)
    ensures o.Pass? && Refactorable(inj) ==>
      AddedPaths(inj) <= current.lMap.Keys && ArgsFor(inj, inj.providers.Keys, old(inj.buildArgs), inj.buildArgs)
    ensures o.Fail? ==> exists k :: k in Added(inj) && o.error == AliasExhausted(inj.providers[k].Package())
  {
    if !(inj.auto && |inj.origin| < |inj.providers|) {
      assert Within(current.lMap, current.lMap);
      return Pass;
    }
    var todo := inj.providers.Keys;
    ghost var before := inj.buildArgs;
    ghost var oldTable := current.lMap;
    assert RefactoredSoFar(inj, todo, before, oldTable, current.lMap) by {
      assert Within(oldTable, oldTable);
      assert (inj.providers.Keys - todo) - inj.origin.Keys == {};
      ArgsOfNone(IdentsOf(inj.providers), before);
    }
    while todo != {}
      invariant todo <= inj.providers.Keys
      invariant current.Valid()
      invariant RefactoredSoFar(inj, todo, before, oldTable, current.lMap)
      decreases |todo|
    {
      var k :| k in todo;
      ghost var args, table := inj.buildArgs, current.lMap;
      o := RefactorProvider(inj, current, k);
      if k in inj.origin {
        SoFarParsed(inj.providers, inj.origin.Keys, todo, k, before, args, oldTable, table);
      } else if o.Pass? {
        SoFarAdded(inj.providers, inj.origin.Keys, todo, k, before, args, oldTable, table, current.lMap);
      } else {
        SoFarFailed(inj.providers, inj.origin.Keys, todo, k, before, args, oldTable, table, current.lMap);
        return;
      }
      todo := todo - {k};
    }
    VisitedAll(inj.providers.Keys);
    forall q | q in AddedPaths(inj) ensures q in current.lMap {
      var k :| k in Added(inj) && q == inj.providers[k].Package();
    }
    return Pass;
  }

  /** The loop of `collectImports`: puts every pair into two new tables. */
  method PutPairs(pairs: seq<(string, string)>) returns (origin: BiMap<string, string>, current: BiMap<string, string>)
    ensures fresh(origin) && fresh(current) && origin != current
    ensures origin.Valid() && current.Valid()
    ensures origin.lMap == current.lMap == PutAll(pairs, |pairs|).l
    ensures origin.rMap == current.rMap == PutAll(pairs, |pairs|).r
  {
    origin := new BiMap();
    current := new BiMap();
    var i := 0;
    while i < |pairs|
      invariant 0 <= i <= |pairs|
      invariant fresh(origin) && fresh(current) && origin != current
      invariant origin.Valid() && current.Valid()
      invariant origin.lMap == current.lMap == PutAll(pairs, i).l
      invariant origin.rMap == current.rMap == PutAll(pairs, i).r
    {
      var _ := origin.Put(pairs[i].0, pairs[i].1);
      var _ := current.Put(pairs[i].0, pairs[i].1);
      i := i + 1;
    }
  }

  /** What the append loop of `organizeImports` has done once the specs for
      `paths` are appended: each spec added to the import declaration at
      `at` and to the import list; nothing at all when there is no import
      declaration. */
  ghost predicate AppendedSoFar(decls0: seq<Decl>, imports0: seq<ImportSpec>, at: Option<nat>,
                                decls: seq<Decl>, imports: seq<ImportSpec>,
                                paths: seq<string>, aliases: map<string, string>)
  {
    && (forall p :: p in paths ==> p in aliases)
    && (at.None? ==> paths == [] && decls == decls0 && imports == imports0)
    && (at.Some? ==>
          && at.value < |decls0| && decls0[at.value].GenDecl?
          && decls == decls0[at.value := GenDecl(decls0[at.value].specs + AsSpecs(SpecsFor(paths, aliases)))]
          && imports == imports0 + SpecsFor(paths, aliases))
  }

  /** Nothing appended yet. */
  lemma AppendedNothing(decls0: seq<Decl>, imports0: seq<ImportSpec>, at: Option<nat>, aliases: map<string, string>)
    requires at.Some? ==> at.value < |decls0| && decls0[at.value].GenDecl?
    ensures AppendedSoFar(decls0, imports0, at, decls0, imports0, [], aliases)
  {
    if at.Some? {
      var d := at.value;
      assert AsSpecs(SpecsFor([], aliases)) == [];
      assert decls0[d].specs + [] == decls0[d].specs;
      assert decls0[d := GenDecl(decls0[d].specs)] == decls0;
    }
  }

  /** Appending the spec for one more path. */
  lemma AppendedStep(decls0: seq<Decl>, imports0: seq<ImportSpec>, at: Option<nat>,
                     decls: seq<Decl>, imports: seq<ImportSpec>,
                     paths: seq<string>, x: string, aliases: map<string, string>)
    requires at.Some? && x in aliases
    requires AppendedSoFar(decls0, imports0, at, decls, imports, paths, aliases)
    ensures decls[at.value].GenDecl?
    ensures AppendedSoFar(decls0, imports0, at, decls[at.value := GenDecl(decls[at.value].specs + [Import(SpecFor(x, aliases[x]))])],
                          imports + [SpecFor(x, aliases[x])], paths + [x], aliases)
  {
    var d := at.value;
    var specs := SpecsFor(paths, aliases);
    var spec := SpecFor(x, aliases[x]);
    var base := decls0[d].specs;
    SpecsForSnoc(paths, x, aliases);
    assert forall p :: p in paths + [x] ==> p in aliases;
    assert AsSpecs(specs + [spec]) == AsSpecs(specs) + [Import(spec)];
    assert decls[d].specs == base + AsSpecs(specs);
    assert decls[d].specs + [Import(spec)] == base + AsSpecs(specs + [spec]);
    assert decls[d := GenDecl(decls[d].specs + [Import(spec)])] == decls0[d := GenDecl(base + AsSpecs(specs + [spec]))];
    assert imports + [spec] == imports0 + (specs + [spec]);
  }

  /** What a successful `organizeImports` leaves: the specs for `added`
      appended to the import list, and to the first import declaration when
      there is something to add. */
  ghost predicate Organized(decls0: seq<Decl>, imports0: seq<ImportSpec>, decls: seq<Decl>, imports: seq<ImportSpec>,
                            added: seq<string>, aliases: map<string, string>)
  {
    && (forall p :: p in added ==> p in aliases)
    && imports == imports0 + SpecsFor(added, aliases)
    && (added == [] ==> decls == decls0)
    && (added != [] ==> exists i :: (FirstStop(decls0, i) &&
          decls == decls0[i := GenDecl(decls0[i].specs + AsSpecs(SpecsFor(added, aliases)))]))
  }

  /** The append loop, run over every unbound path with the first import
      declaration as its target, organizes the imports. */
  lemma AppendedOrganized(decls0: seq<Decl>, imports0: seq<ImportSpec>, at: Option<nat>,
                          decls: seq<Decl>, imports: seq<ImportSpec>,
                          added: seq<string>, aliases: map<string, string>)
    requires AppendedSoFar(decls0, imports0, at, decls, imports, added, aliases)
    requires at.Some? ==> FirstStop(decls0, at.value)
    ensures Organized(decls0, imports0, decls, imports, added, aliases)
  {
    if at.Some? && added == [] {
      var d := at.value;
      assert AsSpecs(SpecsFor([], aliases)) == [];
      assert decls0[d].specs + [] == decls0[d].specs;
      assert decls0[d := GenDecl(decls0[d].specs)] == decls0;
    }
  }

  /** The packages of the providers added to any of `injs`. */
  ghost function AllAdded<K>(injs: map<K, Injector>): set<string>
    reads injs.Values`providers
  {
    set k, p | k in injs && p in AddedPaths(injs[k]) :: p
  }

  /** Every binding of `table` is one of `base` or binds the package of a
      provider added to one of `injs`. */
  ghost predicate BoundFrom<K>(base: map<string, string>, table: map<string, string>, injs: map<K, Injector>)
    reads injs.Values`providers
  {
    && Within(base, table)
    && forall p :: p in table ==> p in base || exists k :: k in injs && p in AddedPaths(injs[k])
  }

  /** What `Refactor` makes of one injector: a refactorable one gains one
      build argument per added provider, whose packages `table` binds; any
      other keeps its build call. */
  ghost predicate Refactored(inj: Injector, before: seq<Expr>, table: map<string, string>)
    reads inj`providers, inj`buildArgs
  {
    if Refactorable(inj) then
      ArgsFor(inj, inj.providers.Keys, before, inj.buildArgs) && AddedPaths(inj) <= table.Keys
    else
      inj.buildArgs == before
  }

  /** No injector is filed twice. */
  ghost predicate Distinct<K>(injs: map<K, Injector>) {
    forall j, k :: j in injs && k in injs && j != k ==> injs[j] != injs[k]
  }

  /** The state of the loop of `Refactor` while the injectors filed under
      `todo` are still to be visited, `before` holding every build call as
      it was. */
  ghost predicate AllRefactoredSoFar<K>(injs: map<K, Injector>, todo: set<K>, before: map<K, seq<Expr>>,
                                     table0: map<string, string>, table: map<string, string>)
    reads injs.Values`providers, injs.Values`buildArgs
  {
    && injs.Keys == before.Keys
    && BoundFrom(table0, table, injs)
    && (forall k :: k in injs && k !in todo ==> Refactored(injs[k], before[k], table))
    && (forall k :: k in injs && k in todo ==> injs[k].buildArgs == before[k])
  }

  /** The paths of all providers of an injector can be written as import
      paths. */
  ghost predicate ProviderPathsUnquoted(inj: Injector)
    reads inj`providers
  {
    forall f :: f in inj.providers ==> Unquoted(inj.providers[f].Package())
  }

  /** A refactored injector stays refactored as the table grows. */
  lemma RefactoredGrows(inj: Injector, before: seq<Expr>, table: map<string, string>, table': map<string, string>)
    requires Refactored(inj, before, table) && Within(table, table')
    ensures Refactored(inj, before, table')
  {
  }

  /** One pass of the loop of `Refactor`: the injector filed under `k`. */
  method RefactorNext<K>(injs: map<K, Injector>, k: K, current: BiMap<string, string>, ghost todo: set<K>,
                         ghost before: map<K, seq<Expr>>, ghost table0: map<string, string>)
      returns (o: Outcome<Panic>)
    requires Distinct(injs) && current.Valid()
    requires k in injs && k in todo
    requires AllRefactoredSoFar(injs, todo, before, table0, current.lMap)
    modifies {injs[k]}`buildArgs, current
    ensures current.Valid()
    ensures o.Pass? ==> AllRefactoredSoFar(injs, todo - {k}, before, table0, current.lMap)
    ensures o.Fail? ==> BoundFrom(table0, current.lMap, injs)
    ensures o.Fail? ==> exists f :: f in Added(injs[k]) && o.error == AliasExhausted(injs[k].providers[f].Package())
  {
    var inj := injs[k];
    ghost var table := current.lMap;
    label L:
    o := RefactorInjector(inj, current);
    forall p | p in current.lMap
      ensures p in table0 || exists j :: j in injs && p in AddedPaths(injs[j])
    {
      if p !in table {
        assert p in AddedPaths(injs[k]);
      }
    }
    if o.Pass? {
      forall j | j in injs && j !in todo - {k}
        ensures Refactored(injs[j], before[j], current.lMap)
      {
        if j != k {
          assert injs[j] != inj;
          assert old@L(Refactored(injs[j], before[j], table));
          RefactoredGrows(injs[j], before[j], table, current.lMap);
        }
      }
    }
  }

  /** Injectors filed under their own keys are distinct objects. */
  lemma KeyedDistinct(injs: map<string, Injector>)
    requires forall k :: k in injs ==> injs[k].String() == k
    ensures Distinct(injs)
  {
    forall j, k | j in injs && k in injs && j != k
      ensures injs[j] != injs[k]
    {
      assert injs[j].String() == j;
    }
  }

  /** A path bound beyond `base` is an added provider's package, so it can
      be written as an import path. */
  lemma BoundUnquoted<K>(base: map<string, string>, table: map<string, string>, injs: map<K, Injector>, p: string)
    requires BoundFrom(base, table, injs)
    requires forall k :: k in injs ==> ProviderPathsUnquoted(injs[k])
    requires p in table && p !in base
    ensures Unquoted(p)
  {
    var k :| k in injs && p in AddedPaths(injs[k]);
    var f :| f in Added(injs[k]) && p == injs[k].providers[f].Package();
  }

  /** After `organizeImports` appends the specs of the paths `current`
      binds beyond `origin`, collecting the imports again gives a table that
      holds all of `current` and binds nothing more. */
  lemma OrganizedCollected(specs: seq<ImportSpec>, origin: map<string, string>, current: map<string, string>,
                           inverse: map<string, string>, added: seq<string>)
    requires Inverse(current, inverse) && Collected(specs).l == origin
    requires Within(origin, current)
    requires forall p :: p in current && p !in origin ==> Unquoted(p)
    requires StrictlyAscending(added)
    requires forall p :: p in added <==> p in current && p !in origin
    ensures Within(current, Collected(specs + SpecsFor(added, current)).l)
    ensures Collected(specs + SpecsFor(added, current)).l.Keys <= current.Keys
  {
    AscendingDistinct(added);
    AppendedSpecsCollected(specs, current, inverse, added);
    var t := Collected(specs + SpecsFor(added, current)).l;
    assert Within(current, t) by {
      forall p | p in current
        ensures p in t && t[p] == current[p]
      {
      }
    }
  }

  /** The loop of `Refactor` over the injectors, in no fixed order; a
      panic ends it. */
  method RefactorAll<K>(injs: map<K, Injector>, current: BiMap<string, string>) returns (o: Outcome<Panic>)
    requires Distinct(injs) && current.Valid()
    modifies injs.Values`buildArgs, current
    ensures current.Valid()
    ensures BoundFrom(old(current.lMap), current.lMap, injs)
    ensures o.Pass? ==> forall k :: k in injs ==> Refactored(injs[k], old(injs[k].buildArgs), current.lMap)
    ensures o.Fail? ==> exists k, f :: k in injs && f in Added(injs[k]) && o.error == AliasExhausted(injs[k].providers[f].Package())
  {
    var todo := injs.Keys;
    ghost var table0 := current.lMap;
    ghost var before := map k | k in injs :: injs[k].buildArgs;
    assert Within(table0, table0);
    while todo != {}
      invariant todo <= injs.Keys
      invariant current.Valid()
      invariant AllRefactoredSoFar(injs, todo, before, table0, current.lMap)
      decreases |todo|
    {
      var k :| k in todo;
      o := RefactorNext(injs, k, current, todo, before, table0);
      if o.Fail? {
        assert k in injs;
        return;
      }
      todo := todo - {k};
    }
    return Pass;
  }

  class WireFile {
    const pkg: string
    /** The file's top-level declarations. */
    var decls: seq<Decl>
    /** The file's import specs. */
    var imports: seq<ImportSpec>
    var injectors: map<string, Injector>

    /** Each injector is filed under its own key. */
    ghost predicate Valid()
      reads this
    {
      forall k :: k in injectors ==> injectors[k].String() == k
    }

    /** `NewFile`: a parsed file of package `pkg`, with no injectors. */
    constructor (decls: seq<Decl>, imports: seq<ImportSpec>, pkg: string)
      ensures Valid()
      ensures this.decls == decls && this.imports == imports && this.pkg == pkg
      ensures injectors == map[]
    {
      this.pkg := pkg;
      this.decls := decls;
      this.imports := imports;
      injectors := map[];
    }

    /** Files each injector under its key, replacing one filed there. */
    method AddInjector(list: seq<Injector>)
      requires Valid()
      modifies this`injectors
      ensures Valid()
      ensures injectors.Keys == old(injectors).Keys + set inj | inj in list :: inj.String()
      ensures forall k :: k in old(injectors) && (forall inj :: inj in list ==> inj.String() != k) ==> injectors[k] == old(injectors)[k]
    {
      ghost var key := (inj: Injector) => inj.String();
      var i := 0;
      while i < |list|
        invariant 0 <= i <= |list|
        invariant Valid()
        invariant injectors == Filed(old(injectors), list[..i], key)
      {
        assert list[..i + 1][..i] == list[..i];
        injectors := injectors[list[i].String() := list[i]];
        i := i + 1;
      }
      assert list[..i] == list;
      FiledKeys(old(injectors), list, key);
      FiledKeeps(old(injectors), list, key);
    }

    /** One pass of the append loop of `organizeImports`: the spec for
        `path` goes to the import declaration at `at` and to the import
        list. */
    method AppendSpec(path: string, alias: string, at: nat, ghost decls0: seq<Decl>, ghost imports0: seq<ImportSpec>,
                      ghost done: seq<string>, ghost aliases: map<string, string>)
      modifies this`decls, this`imports
      requires path in aliases && aliases[path] == alias
      requires AppendedSoFar(decls0, imports0, Some(at), decls, imports, done, aliases)
      ensures AppendedSoFar(decls0, imports0, Some(at), decls, imports, done + [path], aliases)
    {
      AppendedStep(decls0, imports0, Some(at), decls, imports, done, path, aliases);
      var spec := SpecFor(path, alias);
      decls := decls[at := GenDecl(decls[at].specs + [Import(spec)])];
      imports := imports + [spec];
    }

    /** The append loop of `organizeImports`: for each path of `keys` in
        order that `origin` does not bind, the spec for it with its alias in
        `current` goes to the import declaration at `at` and to the import
        list. Dereferencing the missing declaration panics at the first such
        path when there is none. */
    method AppendImports(keys: seq<string>, origin: map<string, string>, current: map<string, string>, at: Option<nat>)
        returns (o: Outcome<Panic>)
      modifies this`decls, this`imports
      requires forall p :: p in keys ==> p in current
      requires at.Some? ==> at.value < |decls| && decls[at.value].GenDecl?
      ensures o.Fail? <==> at.None? && Unbound(keys, origin) != []
      ensures o.Fail? ==> o.error == NoImportDecl && decls == old(decls) && imports == old(imports)
      ensures o.Pass? ==> AppendedSoFar(old(decls), old(imports), at, decls, imports, Unbound(keys, origin), current)
    {
      ghost var decls0, imports0 := decls, imports;
      var i := 0;
      UnboundStep(keys, 0, origin);
      AppendedNothing(decls0, imports0, at, current);
      while i < |keys|
        invariant 0 <= i <= |keys|
        invariant AppendedSoFar(decls0, imports0, at, decls, imports, Unbound(keys[..i], origin), current)
      {
        var path := keys[i];
        var alias := current[path];
        ghost var done := Unbound(keys[..i], origin);
        UnboundStep(keys, i + 1, origin);
        if path !in origin {
          assert Unbound(keys[..i + 1], origin) == done + [path];
          if at.None? {
            UnboundMembers(keys, origin);
            assert path in keys;
            return Fail(NoImportDecl);
          }
          AppendSpec(path, alias, at.value, decls0, imports0, done, current);
        } else {
          assert Unbound(keys[..i + 1], origin) == done;
        }
        i := i + 1;
      }
      assert keys[..i] == keys;
      return Pass;
    }

    /** `organizeImports`: appends an import spec for every binding of
        `current` that `origin` lacks, in ascending order of path, to both
        the import declaration and the file's import list. Panics, changing
        nothing, when the scan meets a general declaration without specs,
        or when there is something to add but no import declaration. */
    method OrganizeImports(origin: BiMap<string, string>, current: BiMap<string, string>)
        returns (o: Outcome<Panic>, ghost added: seq<string>)
      modifies this`decls, this`imports
      ensures StrictlyAscending(added)
      ensures forall p :: p in added <==> p in current.lMap && p !in origin.lMap
      ensures o == Fail(EmptyGenDecl) <==> exists i :: FirstStop(old(decls), i) && old(decls)[i].specs == []
      ensures o == Fail(NoImportDecl) <==>
        (added != [] && forall j :: 0 <= j < |old(decls)| ==> !EndsScan(old(decls)[j]))
      ensures o.Fail? ==> (o.error == EmptyGenDecl || o.error == NoImportDecl) && decls == old(decls) && imports == old(imports)
      ensures o.Pass? ==> Organized(old(decls), old(imports), decls, imports, added, current.lMap)
    {
      var found := FindImportDecl(decls);
      var keys := SortedKeys(current.lMap.Keys);
      added := Unbound(keys, origin.lMap);
      UnboundAscending(keys, origin.lMap);
      UnboundMembers(keys, origin.lMap);
      if found.Err? {
        return Fail(found.error), added;
      }
      ghost var decls0, imports0 := decls, imports;
      var appended := AppendImports(keys, origin.lMap, current.lMap, found.value);
      if appended.Fail? {
        return appended, added;
      }
      AppendedOrganized(decls0, imports0, found.value, decls, imports, added, current.lMap);
      return Pass, added;
    }

    /** `Refactor`: for every injector autowire completes, imports the
        packages of the providers it gained and adds those functions to its
        build call; then, even after a panic in that loop, organizes the
        imports. A panic of `organizeImports` is the one reported, otherwise
        the loop's. */
    method Refactor() returns (o: Outcome<Panic>)
      requires Valid()
      requires forall k :: k in injectors ==> ProviderPathsUnquoted(injectors[k])
      modifies this`decls, this`imports, injectors.Values`buildArgs
      ensures o == Fail(EmptyGenDecl) <==> exists i :: FirstStop(old(decls), i) && old(decls)[i].specs == []
      ensures o == Fail(NoImportDecl) ==> forall j :: 0 <= j < |old(decls)| ==> !EndsScan(old(decls)[j])
      ensures o.Fail? ==>
        || o.error == EmptyGenDecl
        || o.error == NoImportDecl
        || exists k, f :: k in injectors && f in Added(injectors[k]) && o.error == AliasExhausted(injectors[k].providers[f].Package())
      ensures o.Fail? && !o.error.AliasExhausted? ==> decls == old(decls) && imports == old(imports)
      ensures o.Pass? || o.error.AliasExhausted? ==>
        && old(imports) <= imports
        && Within(Collected(old(imports)).l, Collected(imports).l)
        && Collected(imports).l.Keys <= Collected(old(imports)).l.Keys + AllAdded(injectors)
      ensures o.Pass? ==> forall k :: k in injectors ==>
        Refactored(injectors[k], old(injectors[k].buildArgs), Collected(imports).l)
    {
      ghost var before := map k | k in injectors :: injectors[k].buildArgs;
      var origin, current, looped := Rewrite();
      o := Conclude(origin, current, looped, before);
    }

    /** The first half of `Refactor`: collect the imports, then run the loop
        over the injectors against a copy of the table. */
    method Rewrite() returns (origin: BiMap<string, string>, current: BiMap<string, string>, looped: Outcome<Panic>)
      requires Valid()
      requires forall k :: k in injectors ==> ProviderPathsUnquoted(injectors[k])
      modifies injectors.Values`buildArgs
      ensures fresh(origin) && fresh(current) && current.Valid()
      ensures origin.lMap == Collected(imports).l && Within(origin.lMap, current.lMap)
      ensures forall p :: p in current.lMap && p !in origin.lMap ==> Unquoted(p)
      ensures current.lMap.Keys <= origin.lMap.Keys + AllAdded(injectors)
      ensures looped.Pass? ==> forall k :: k in injectors ==>
        Refactored(injectors[k], old(injectors[k].buildArgs), current.lMap)
      ensures looped.Fail? ==>
        exists k, f :: k in injectors && f in Added(injectors[k]) && looped.error == AliasExhausted(injectors[k].providers[f].Package())
    {
      var injs := injectors;
      origin, current := CollectImports();
      KeyedDistinct(injs);
      looped := RefactorAll(injs, current);
      forall p | p in current.lMap && p !in origin.lMap
        ensures Unquoted(p) && p in AllAdded(injs)
      {
        BoundUnquoted(origin.lMap, current.lMap, injs, p);
      }
    }

    /** The end of `Refactor`: the deferred `organizeImports`, whose panic
        replaces the outcome `looped` of the loop; without one, the loop's
        outcome stands and the refactored injectors keep their bindings. */
    method Conclude(origin: BiMap<string, string>, current: BiMap<string, string>, looped: Outcome<Panic>,
                    ghost before: map<string, seq<Expr>>) returns (o: Outcome<Panic>)
      requires current.Valid() && Collected(imports).l == origin.lMap
      requires Within(origin.lMap, current.lMap)
      requires forall p :: p in current.lMap && p !in origin.lMap ==> Unquoted(p)
      requires current.lMap.Keys <= origin.lMap.Keys + AllAdded(injectors)
      requires looped.Fail? ==>
        exists k, f :: k in injectors && f in Added(injectors[k]) && looped.error == AliasExhausted(injectors[k].providers[f].Package())
      requires injectors.Keys <= before.Keys
      requires looped.Pass? ==> forall k :: k in injectors ==> Refactored(injectors[k], before[k], current.lMap)
      modifies this`decls, this`imports
      ensures o == Fail(EmptyGenDecl) <==> exists i :: FirstStop(old(decls), i) && old(decls)[i].specs == []
      ensures o == Fail(NoImportDecl) ==> forall j :: 0 <= j < |old(decls)| ==> !EndsScan(old(decls)[j])
      ensures o.Fail? ==>
        || o.error == EmptyGenDecl
        || o.error == NoImportDecl
        || exists k, f :: k in injectors && f in Added(injectors[k]) && o.error == AliasExhausted(injectors[k].providers[f].Package())
      ensures o.Fail? && !o.error.AliasExhausted? ==> decls == old(decls) && imports == old(imports)
      ensures o.Pass? || o.error.AliasExhausted? ==>
        && old(imports) <= imports
        && Within(Collected(old(imports)).l, Collected(imports).l)
        && Collected(imports).l.Keys <= Collected(old(imports)).l.Keys + AllAdded(injectors)
      ensures o.Pass? ==> forall k :: k in injectors ==> Refactored(injectors[k], before[k], Collected(imports).l)
    {
      ghost var base, extra := origin.lMap, AllAdded(injectors);
      label Looped:
      o := Organize(origin, current);
      if o.Fail? {
        return;
      }
      assert AllAdded(injectors) == extra;
      WithinTransitive(base, current.lMap, Collected(imports).l);
      if looped.Fail? {
        return looped;
      }
      forall k | k in injectors
        ensures Refactored(injectors[k], before[k], Collected(imports).l)
      {
        assert old@Looped(Refactored(injectors[k], before[k], current.lMap));
        RefactoredGrows(injectors[k], before[k], current.lMap, Collected(imports).l);
      }
    }

    /** The deferred `organizeImports` of `Refactor`, seen from there: on
        success the imports only grow, and collecting them again gives a
        table that holds all of `current` and binds nothing more. */
    method Organize(origin: BiMap<string, string>, current: BiMap<string, string>) returns (o: Outcome<Panic>)
      requires current.Valid() && Collected(imports).l == origin.lMap
      requires Within(origin.lMap, current.lMap)
      requires forall p :: p in current.lMap && p !in origin.lMap ==> Unquoted(p)
      modifies this`decls, this`imports
      ensures o == Fail(EmptyGenDecl) <==> exists i :: FirstStop(old(decls), i) && old(decls)[i].specs == []
      ensures o == Fail(NoImportDecl) ==> forall j :: 0 <= j < |old(decls)| ==> !EndsScan(old(decls)[j])
      ensures o.Fail? ==> (o.error == EmptyGenDecl || o.error == NoImportDecl) && decls == old(decls) && imports == old(imports)
      ensures o.Pass? ==> old(imports) <= imports
      ensures o.Pass? ==> Within(current.lMap, Collected(imports).l) && Collected(imports).l.Keys <= current.lMap.Keys
    {
      ghost var imports0 := imports;
      ghost var added;
      o, added := OrganizeImports(origin, current);
      if o.Pass? {
        OrganizedCollected(imports0, origin.lMap, current.lMap, current.rMap, added);
      }
    }

    /** `collectImports`: two separate tables, each holding the imports'
        bindings as `Collected` puts them. */
    method CollectImports() returns (origin: BiMap<string, string>, current: BiMap<string, string>)
      ensures fresh(origin) && fresh(current) && origin != current
      ensures origin.Valid() && current.Valid()
      ensures origin.lMap == current.lMap == Collected(imports).l
      ensures origin.rMap == current.rMap == Collected(imports).r
    {
      origin, current := PutPairs(ImportBindings(imports));
    }
  }
}
