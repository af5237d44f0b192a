/** `util.BiDirectionMap`: a left-to-right map and its inverse, kept a
    bijection by refusing any insertion that would reuse a key on either
    side. */
module BiDirectionMaps {
  import opened Results

  /** Why `MustPut` panicked: the left key was already mapped (to the value
      given), or the right key was (from the value given). */
  datatype Collision<L, R> = LeftTaken(mappedTo: R) | RightTaken(mappedFrom: L)

  /** `r` maps every value of `l` back to its key, and nothing else. */
  ghost predicate Inverse<L, R>(l: map<L, R>, r: map<R, L>) {
    && (forall x :: x in l ==> l[x] in r && r[l[x]] == x)
    && (forall y :: y in r ==> r[y] in l && l[r[y]] == y)
  }

  class BiMap<L(==), R(==)> {
    var lMap: map<L, R>
    var rMap: map<R, L>

    /** The two maps are inverse to each other. */
    ghost predicate Valid()
      reads this
    {
      Inverse(lMap, rMap)
    }

    /** `NewBiDirectionMap`: empty in both directions. */
    constructor ()
      ensures Valid()
      ensures lMap == map[] && rMap == map[]
    {
      lMap := map[];
      rMap := map[];
    }

    /** Stores `l <-> r` unless `l` is already a left key or `r` already a
        right key, and reports whether it did. */
    method Put(l: L, r: R) returns (ok: bool)
      requires Valid()
      modifies this
      ensures Valid()
      ensures ok <==> l !in old(lMap) && r !in old(rMap)
      ensures lMap == if ok then old(lMap)[l := r] else old(lMap)
      ensures rMap == if ok then old(rMap)[r := l] else old(rMap)
    {
      if l in lMap {
        return false;
      }
      if r in rMap {
        return false;
      }
      lMap := lMap[l := r];
      rMap := rMap[r := l];
      return true;
    }

    /** Like a successful `Put`, but panics on a collision on either side,
        reporting what the colliding key is already mapped to. */
    method MustPut(l: L, r: R) returns (o: Outcome<Collision<L, R>>)
      requires Valid()
      modifies this
      ensures Valid()
      ensures l in old(lMap) ==> o == Fail(LeftTaken(old(lMap)[l]))
      ensures l !in old(lMap) && r in old(rMap) ==> o == Fail(RightTaken(old(rMap)[r]))
      ensures o.Pass? <==> l !in old(lMap) && r !in old(rMap)
      ensures lMap == if o.Pass? then old(lMap)[l := r] else old(lMap)
      ensures rMap == if o.Pass? then old(rMap)[r := l] else old(rMap)
    {
      if l in lMap {
        return Fail(LeftTaken(lMap[l]));
      }
      if r in rMap {
        return Fail(RightTaken(rMap[r]));
      }
      lMap := lMap[l := r];
      rMap := rMap[r := l];
      return Pass;
    }

    /** The right value stored for `key`, if any. */
    function GetByL(key: L): Option<R>
      reads this
    {
      if key in lMap then Some(lMap[key]) else None
    }

    /** The left value stored for `r`, if any. */
    function GetByR(r: R): Option<L>
      reads this
    {
      if r in rMap then Some(rMap[r]) else None
    }

    /** `LMap`: the left-to-right map. */
    function LMap(): map<L, R>
      reads this
    {
      lMap
    }
  }

  /** Looking a pair up from either side finds the other side: the two
      getters are inverse to each other on a valid map. */
  lemma LookupRoundTrip<L, R>(bm: BiMap<L, R>, l: L, r: R)
    requires bm.Valid()
    ensures bm.GetByL(l) == Some(r) <==> bm.GetByR(r) == Some(l)
  {
  }

  /** No alias is shared: two different left keys never map to the same
      right value. */
  lemma {:induction false} Injective<L, R>(bm: BiMap<L, R>, l1: L, l2: L)
    requires bm.Valid()
    requires l1 in bm.lMap && l2 in bm.lMap && l1 != l2
    ensures bm.lMap[l1] != bm.lMap[l2]
  {
  }
}
