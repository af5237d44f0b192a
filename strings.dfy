/** The pieces of Go's `strings`, `strconv` and `cmp` packages that the core
    relies on, over strings modelled as `seq<char>`. */
module Strings {

  /** `strings.Join(parts, string(sep))`. */
  function Join(parts: seq<string>, sep: char): string
    requires |parts| >= 1
  {
    if |parts| == 1 then parts[0] else parts[0] + [sep] + Join(parts[1..], sep)
  }

  /** `strings.Split(s, string(sep))`: the pieces between separators; an empty
      string gives one empty piece. */
  function Split(s: string, sep: char): (parts: seq<string>)
    ensures |parts| >= 1
  {
    if |s| == 0 then [""]
    else
      var rest := Split(s[1..], sep);
      if s[0] == sep then [""] + rest else [[s[0]] + rest[0]] + rest[1..]
  }

  /** No piece of a split holds the separator, and joining the pieces again
      gives the string back. */
  lemma {:induction false} SplitJoin(s: string, sep: char)
    ensures forall i :: 0 <= i < |Split(s, sep)| ==> sep !in Split(s, sep)[i]
    ensures Join(Split(s, sep), sep) == s
  {
    if |s| > 0 {
      var rest := Split(s[1..], sep);
      SplitJoin(s[1..], sep);
      var parts := Split(s, sep);
      assert s == [s[0]] + s[1..];
      if s[0] == sep {
        assert parts[1..] == rest;
      } else {
        assert parts[1..] == rest[1..];
        assert |rest| > 1 ==> Join(rest, sep) == rest[0] + [sep] + Join(rest[1..], sep);
      }
    }
  }

  /** The last `/`-separated segment of an import path. */
  function LastSegment(path: string): string {
    var words := Split(path, '/');
    words[|words| - 1]
  }

  /** `unicode.ToLower` restricted to ASCII letters. */
  function Lower(c: char): (r: char)
    ensures 'A' <= c <= 'Z' ==> 'a' <= r <= 'z' && r as int - c as int == 32
    ensures !('A' <= c <= 'Z') ==> r == c
  {
    if 'A' <= c <= 'Z' then (c as int + 32) as char else c
  }

  /** `strings.ToLower` restricted to ASCII letters. */
  function ToLower(s: string): (r: string)
    ensures |r| == |s|
    ensures forall i :: 0 <= i < |s| ==> r[i] == Lower(s[i])
  {
    seq(|s|, i requires 0 <= i < |s| => Lower(s[i]))
  }

  /** `strings.HasPrefix`. */
  predicate HasPrefix(s: string, prefix: string) {
    |prefix| <= |s| && s[..|prefix|] == prefix
  }

  /** Removes every leading `c`. */
  function TrimLeft(s: string, c: char): string {
    if |s| > 0 && s[0] == c then TrimLeft(s[1..], c) else s
  }

  /** `TrimLeft` leaves a suffix that does not start with `c`, having
      dropped only `c`s. */
  lemma {:induction false} TrimLeftSuffix(s: string, c: char)
    ensures var r := TrimLeft(s, c);
      && |r| <= |s| && r == s[|s| - |r|..]
      && (r != [] ==> r[0] != c)
      && (forall i :: 0 <= i < |s| - |r| ==> s[i] == c)
  {
    if |s| > 0 && s[0] == c {
      TrimLeftSuffix(s[1..], c);
    }
  }

  /** Removes every trailing `c`. */
  function TrimRight(s: string, c: char): string {
    if |s| > 0 && s[|s| - 1] == c then TrimRight(s[..|s| - 1], c) else s
  }

  /** `TrimRight` leaves a prefix that does not end with `c`, having
      dropped only `c`s. */
  lemma {:induction false} TrimRightPrefix(s: string, c: char)
    ensures var r := TrimRight(s, c);
      && |r| <= |s| && r == s[..|r|]
      && (r != [] ==> r[|r| - 1] != c)
      && (forall i :: |r| <= i < |s| ==> s[i] == c)
  {
    if |s| > 0 && s[|s| - 1] == c {
      TrimRightPrefix(s[..|s| - 1], c);
    }
  }

  /** `strings.Trim(s, string(c))`: removes `c` from both ends. */
  function Trim(s: string, c: char): string {
    TrimRight(TrimLeft(s, c), c)
  }

  /** `strconv.Quote` for a string needing no escapes. */
  function Quote(s: string): string {
    ['"'] + s + ['"']
  }

  /** Trimming the quotes off a quoted path gives the path back, as long as
      the path itself neither starts nor ends with a quote. */
  lemma TrimQuote(s: string)
    requires s == [] || (s[0] != '"' && s[|s| - 1] != '"')
    ensures Trim(Quote(s), '"') == s
  {
    var q := Quote(s);
    if s == [] {
      assert q == ['"', '"'];
      assert TrimLeft(q, '"') == TrimLeft(['"'], '"') == TrimLeft([], '"') == [];
    } else {
      assert q[1..] == s + ['"'];
      assert TrimLeft(q, '"') == TrimLeft(q[1..], '"') == s + ['"'];
      assert TrimRight(s + ['"'], '"') == TrimRight((s + ['"'])[..|s|], '"');
      assert (s + ['"'])[..|s|] == s;
    }
  }

  /** The decimal digit for `d`. */
  function Digit(d: nat): char
    requires d < 10
  {
    ('0' as int + d) as char
  }

  /** `strconv.Itoa` on a non-negative number: its decimal digits, the first
      one non-zero unless the number is zero. */
  function Itoa(n: nat): (r: string)
    ensures |r| >= 1
    ensures forall i :: 0 <= i < |r| ==> '0' <= r[i] <= '9'
    ensures n > 0 ==> r[0] != '0'
    decreases n
  {
    if n < 10 then [Digit(n)] else Itoa(n / 10) + [Digit(n % 10)]
  }

  /** Reads back the decimal digits written by `Itoa`. */
  function DecimalValue(s: string): nat
    requires forall i :: 0 <= i < |s| ==> '0' <= s[i] <= '9'
  {
    if s == [] then 0
    else DecimalValue(s[..|s| - 1]) * 10 + (s[|s| - 1] as int - '0' as int)
  }

  /** `Itoa` loses nothing: reading its digits gives the number back. */
  lemma {:induction false} ItoaRoundTrip(n: nat)
    ensures DecimalValue(Itoa(n)) == n
    decreases n
  {
    if n >= 10 {
      ItoaRoundTrip(n / 10);
      var s := Itoa(n);
      assert s[..|s| - 1] == Itoa(n / 10);
    }
  }

  /** `sub` occurs in `s` starting at index `j`. */
  predicate OccursAt(s: string, sub: string, j: int) {
    0 <= j && j + |sub| <= |s| && s[j..j + |sub|] == sub
  }

  /** Dropping the last character keeps every occurrence that ends before
      it. */
  lemma OccursInPrefix(s: string, sub: string, j: int)
    requires |s| > 0 && 0 <= j && j + |sub| < |s|
    ensures OccursAt(s, sub, j) == OccursAt(s[..|s| - 1], sub, j)
  {
    assert s[j..j + |sub|] == s[..|s| - 1][j..j + |sub|];
  }

  /** `strings.LastIndex(s, sub)`: the start of the last occurrence of a
      non-empty `sub` in `s`, or -1 when there is none. */
  function LastIndex(s: string, sub: string): (r: int)
    requires |sub| > 0
    ensures r >= -1
    ensures r >= 0 ==> OccursAt(s, sub, r)
    ensures forall j :: r < j ==> !OccursAt(s, sub, j)
  {
    if |s| < |sub| then -1
    else if s[|s| - |sub|..] == sub then |s| - |sub|
    else
      var r := LastIndex(s[..|s| - 1], sub);
      assert forall j :: r < j ==> !OccursAt(s, sub, j) by {
        forall j | r < j
          ensures !OccursAt(s, sub, j)
        {
          if 0 <= j && j + |sub| < |s| {
            OccursInPrefix(s, sub, j);
          }
        }
      }
      if r >= 0 then OccursInPrefix(s, sub, r); r else r
  }

  /** The last occurrence is the one no later occurrence follows. */
  lemma LastIndexIs(s: string, sub: string, n: int)
    requires |sub| > 0 && OccursAt(s, sub, n)
    requires forall j :: n < j ==> !OccursAt(s, sub, j)
    ensures LastIndex(s, sub) == n
  {
  }

  /** `cmp.Compare(a, b) < 0` on strings: byte-wise lexicographic order. */
  predicate Less(a: string, b: string) {
    if a == [] then b != []
    else if b == [] then false
    else if a[0] == b[0] then Less(a[1..], b[1..])
    else a[0] < b[0]
  }

  lemma {:induction false} LessIrreflexive(a: string)
    ensures !Less(a, a)
  {
    if a != [] { LessIrreflexive(a[1..]); }
  }

  lemma {:induction false} LessTransitive(a: string, b: string, c: string)
    requires Less(a, b) && Less(b, c)
    ensures Less(a, c)
  {
    if a != [] && b != [] && c != [] && a[0] == b[0] && b[0] == c[0] {
      LessTransitive(a[1..], b[1..], c[1..]);
    }
  }

  lemma {:induction false} LessTotal(a: string, b: string)
    requires a != b
    ensures Less(a, b) || Less(b, a)
  {
    if a != [] && b != [] && a[0] == b[0] {
      assert a == [a[0]] + a[1..] && b == [b[0]] + b[1..];
      LessTotal(a[1..], b[1..]);
    }
  }

  /** Strictly ascending: what sorting distinct keys with `cmp.Compare`
      produces. */
  predicate StrictlyAscending(s: seq<string>) {
    forall i, j :: 0 <= i < j < |s| ==> Less(s[i], s[j])
  }

  /** Proof helper for sorting: every finite non-empty set of strings has
      a least element. */
  lemma {:induction false} LeastExists(s: set<string>)
    requires s != {}
    ensures exists m :: m in s && forall x :: x in s && x != m ==> Less(m, x)
    decreases |s|
  {
    var y :| y in s;
    var r := s - {y};
    if |r| == 0 {
      assert forall x :: x in s ==> x == y;
    } else {
      LeastExists(r);
      var m :| m in r && forall x :: x in r && x != m ==> Less(m, x);
      if Less(y, m) {
        forall x | x in s && x != y
          ensures Less(y, x)
        {
          if x != m {
            assert x in r;
            LessTransitive(y, m, x);
          }
        }
      } else {
        LessTotal(y, m);
        forall x | x in s && x != m
          ensures Less(m, x)
        {
          if x != y {
            assert x in r;
          }
        }
      }
    }
  }

  /** The keys of a Go map, sorted ascending (`slices.SortFunc` with
      `cmp.Compare`): every key exactly once, in strictly ascending order. */
  method SortedKeys(keys: set<string>) returns (sorted: seq<string>)
    ensures StrictlyAscending(sorted)
    ensures |sorted| == |keys|
    ensures forall x :: x in sorted <==> x in keys
  {
    sorted := [];
    var rest := keys;
    while rest != {}
      invariant StrictlyAscending(sorted)
      invariant forall x :: x in sorted ==> x !in rest
      invariant forall x :: x in keys <==> x in sorted || x in rest
      invariant forall i, y :: 0 <= i < |sorted| && y in rest ==> Less(sorted[i], y)
      invariant |sorted| + |rest| == |keys|
      decreases |rest|
    {
      LeastExists(rest);
      var m :| m in rest && forall x :: x in rest && x != m ==> Less(m, x);
      sorted := sorted + [m];
      rest := rest - {m};
    }
  }
}
