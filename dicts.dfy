/**
 * Python dictionaries built from an ordered list of (key, value) pairs: a later pair
 * for the same key overwrites an earlier one, and a dict literal has distinct keys.
 */
module Dicts {
  import opened Wrappers

  /** No key occurs twice in the list of pairs. */
  predicate KeysDistinct<K(==), V>(s: seq<(K, V)>) {
    forall i, j :: 0 <= i < j < |s| ==> s[i].0 != s[j].0
  }

  /** The keys of the pairs, in order. */
  function KeysOf<K, V>(s: seq<(K, V)>): (ks: seq<K>)
    ensures |ks| == |s| && forall i :: 0 <= i < |s| ==> ks[i] == s[i].0
  {
    seq(|s|, i requires 0 <= i < |s| => s[i].0)
  }

  /** No element occurs twice. */
  predicate Distinct<T(==)>(s: seq<T>) {
    forall i, j :: 0 <= i < j < |s| ==> s[i] != s[j]
  }

  /** The dictionary obtained by inserting the pairs in order. */
  function DictOf<K(==), V>(s: seq<(K, V)>): (d: map<K, V>)
    ensures d.Keys == set i | 0 <= i < |s| :: s[i].0
  {
    if s == [] then map[]
    else
      var d' := DictOf(s[..|s| - 1]);
      assert forall i :: 0 <= i < |s| - 1 ==> s[..|s| - 1][i] == s[i];
      d'[s[|s| - 1].0 := s[|s| - 1].1]
  }

  /** Every stored value comes from a pair with that key. */
  lemma {:induction false} DictOfValues<K, V>(s: seq<(K, V)>)
    ensures forall k :: k in DictOf(s) ==> exists i :: 0 <= i < |s| && s[i].0 == k && s[i].1 == DictOf(s)[k]
  {
    if s != [] {
      var s' := s[..|s| - 1];
      DictOfValues(s');
      forall k | k in DictOf(s)
        ensures exists i :: 0 <= i < |s| && s[i].0 == k && s[i].1 == DictOf(s)[k]
      {
        if k == s[|s| - 1].0 {
          assert s[|s| - 1].1 == DictOf(s)[k];
        } else {
          var i :| 0 <= i < |s'| && s'[i].0 == k && s'[i].1 == DictOf(s')[k];
          assert s[i] == s'[i];
        }
      }
    }
  }

  /** With distinct keys, every pair survives: the dict maps each key to its own value. */
  lemma {:induction false} DictOfExact<K, V>(s: seq<(K, V)>)
    requires KeysDistinct(s)
    ensures forall i :: 0 <= i < |s| ==> s[i].0 in DictOf(s) && DictOf(s)[s[i].0] == s[i].1
  {
    if s != [] {
      var s' := s[..|s| - 1];
      assert KeysDistinct(s') by {
        forall i, j | 0 <= i < j < |s'| ensures s'[i].0 != s'[j].0 {
          assert s'[i] == s[i] && s'[j] == s[j];
        }
      }
      DictOfExact(s');
      forall i | 0 <= i < |s|
        ensures s[i].0 in DictOf(s) && DictOf(s)[s[i].0] == s[i].1
      {
        if i < |s| - 1 {
          assert s'[i] == s[i];
          assert s[i].0 != s[|s| - 1].0;
        }
      }
    }
  }

  /** With distinct keys, the dict has one entry per pair. */
  lemma {:induction false} DictOfSize<K, V>(s: seq<(K, V)>)
    requires KeysDistinct(s)
    ensures |DictOf(s)| == |s|
  {
    if s != [] {
      var s' := s[..|s| - 1];
      assert KeysDistinct(s') by {
        forall i, j | 0 <= i < j < |s'| ensures s'[i].0 != s'[j].0 {
          assert s'[i] == s[i] && s'[j] == s[j];
        }
      }
      DictOfSize(s');
      var last := s[|s| - 1].0;
      assert last !in DictOf(s');
      assert DictOf(s).Keys == DictOf(s').Keys + {last};
    }
  }

  /** One pair of a distinct-key sequence, as found in its dict. */
  lemma DictOfAt<K, V>(s: seq<(K, V)>, i: int)
    requires KeysDistinct(s) && 0 <= i < |s|
    ensures s[i].0 in DictOf(s) && DictOf(s)[s[i].0] == s[i].1
  {
    DictOfExact(s);
  }

  /** One key of a dict, traced back to the pair it came from. */
  lemma DictOfFrom<K, V>(s: seq<(K, V)>, k: K) returns (i: int)
    requires k in DictOf(s)
    ensures 0 <= i < |s| && s[i].0 == k && s[i].1 == DictOf(s)[k]
  {
    DictOfValues(s);
    i :| 0 <= i < |s| && s[i].0 == k && s[i].1 == DictOf(s)[k];
  }

  /**
   * Inserts the pairs one by one into a table keyed by their first component, failing on
   * the first key already present (a primary-key violation).
   */
  method InsertRows<K, V>(s: seq<(K, V)>) returns (r: Option<map<K, V>>)
    ensures r.Some? <==> KeysDistinct(s)
    ensures r.Some? ==> r.value == DictOf(s)
  {
    var d: map<K, V> := map[];
    for i := 0 to |s|
      invariant KeysDistinct(s[..i])
      invariant d == DictOf(s[..i])
    {
      if s[i].0 in d {
        assert s[..i + 1][i].0 == s[i].0;
        return None;
      }
      assert s[..i + 1][..i] == s[..i];
      d := d[s[i].0 := s[i].1];
    }
    assert s[..|s|] == s;
    return Some(d);
  }

  /** Writing a key twice leaves the second value. */
  lemma UpdateTwice<K, V>(m: map<K, V>, k: K, a: V, b: V)
    ensures m[k := a][k := b] == m[k := b]
  {
  }
}
