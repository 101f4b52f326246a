/**
 * Turning a map into a sequence of its values, as `Array.from(m.values())` does.
 * The order of the sequence is left unspecified.
 */
module Listing {

  /** `vs` holds one entry per key of `m`, and exactly the values of `m`. */
  ghost predicate Lists<K, V(!new)>(vs: seq<V>, m: map<K, V>)
  {
    |vs| == |m| && forall v :: v in vs <==> v in m.Values
  }

  /** `ks` enumerates the keys of `m` once each, and `vs[i]` is the value under `ks[i]`. */
  ghost predicate ListsByKeys<K(!new), V>(vs: seq<V>, ks: seq<K>, m: map<K, V>)
  {
    && |ks| == |vs| == |m|
    && (forall i, j :: 0 <= i < j < |ks| ==> ks[i] != ks[j])
    && (forall k :: k in m <==> k in ks)
    && (forall i :: 0 <= i < |ks| ==> ks[i] in m && vs[i] == m[ks[i]])
  }

  /** The values of `m`, one per key, in some order; `ks` is the order of the keys. */
  method ListValues<K(!new), V(!new)>(m: map<K, V>) returns (vs: seq<V>, ghost ks: seq<K>)
    ensures ListsByKeys(vs, ks, m)
    ensures Lists(vs, m)
  {
    vs, ks := [], [];
    var rest := m.Keys;
    ghost var done: set<K> := {};
    while rest != {}
      invariant rest !! done && rest + done == m.Keys
      invariant |ks| == |vs| == |done|
      invariant forall i, j :: 0 <= i < j < |ks| ==> ks[i] != ks[j]
      invariant forall k :: k in done <==> k in ks
      invariant forall i :: 0 <= i < |ks| ==> ks[i] in m && vs[i] == m[ks[i]]
      decreases |rest|
    {
      var k :| k in rest;
      vs, ks := vs + [m[k]], ks + [k];
      rest := rest - {k};
      done := done + {k};
    }
    assert done == m.Keys;
    KeyListingLists(vs, ks, m);
  }

  /** A listing by keys lists exactly the values of the map. */
  lemma KeyListingLists<K(!new), V(!new)>(vs: seq<V>, ks: seq<K>, m: map<K, V>)
    requires ListsByKeys(vs, ks, m)
    ensures Lists(vs, m)
  {
    forall v | v in m.Values
      ensures v in vs
    {
      var k :| k in m && m[k] == v;
      var i :| 0 <= i < |ks| && ks[i] == k;
      assert vs[i] == v;
    }
  }

  /** The elements of a sequence, as a set. */
  ghost function Elements<T>(s: seq<T>): set<T>
  {
    set x | x in s
  }

  /** A sequence has at least as many entries as distinct elements. */
  lemma {:induction false} ElementsBound<T>(s: seq<T>)
    ensures |Elements(s)| <= |s|
  {
    if s != [] {
      ElementsBound(s[1..]);
      assert Elements(s) == Elements(s[1..]) + {s[0]};
    }
  }
}
