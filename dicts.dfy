/**
 * Python dictionaries as ordered sequences of (key, value) pairs, in
 * insertion order, which is also the order the statement builders list
 * columns in. The pure functions give `d.get(k)`, `del d[k]`, `d[k] = v`,
 * `dict(pairs)` and `dict(zip(keys, values))`; the class `Dict` is the
 * mutable dictionary a handler changes in place.
 */
module Dicts {
  import opened Wrappers
  import opened Json

  /** `list(d.keys())` */
  function Keys<K, V>(d: seq<(K, V)>): seq<K>
  {
    seq(|d|, i requires 0 <= i < |d| => d[i].0)
  }

  /** `list(d.values())` */
  function Values<K, V>(d: seq<(K, V)>): seq<V>
  {
    seq(|d|, i requires 0 <= i < |d| => d[i].1)
  }

  predicate Distinct<K(==)>(s: seq<K>)
  {
    forall i, j :: 0 <= i < j < |s| ==> s[i] != s[j]
  }

  /** The invariant of every Python dictionary: no key twice. */
  predicate DistinctKeys<K(==), V>(d: seq<(K, V)>)
  {
    Distinct(Keys(d))
  }

  lemma KeysCons<K, V>(d: seq<(K, V)>)
    requires |d| > 0
    ensures Keys(d) == [d[0].0] + Keys(d[1..])
  {
    assert Keys(d)[1..] == Keys(d[1..]);
  }

  /** `d.get(k)`: the value of the first pair with key `k`. */
  function Get<K(==), V>(d: seq<(K, V)>, k: K): (r: Option<V>)
    ensures r.Some? <==> k in Keys(d)
    ensures r.Some? ==> d[IndexOf(d, k)] == (k, r.value)
    decreases |d|
  {
    if |d| == 0 then None
    else
      KeysCons(d);
      if d[0].0 == k then Some(d[0].1) else Get(d[1..], k)
  }

  /** Position of the first pair with key `k`. */
  function IndexOf<K(==), V>(d: seq<(K, V)>, k: K): (i: nat)
    requires k in Keys(d)
    ensures i < |d| && d[i].0 == k
    ensures forall j :: 0 <= j < i ==> d[j].0 != k
    decreases |d|
  {
    KeysCons(d);
    if d[0].0 == k then 0 else IndexOf(d[1..], k) + 1
  }

  /** `del d[k]`: drops the pair with key `k`; a dictionary without `k` is left as it is. */
  function Remove<K(==), V>(d: seq<(K, V)>, k: K): seq<(K, V)>
    decreases |d|
  {
    if |d| == 0 then []
    else if d[0].0 == k then d[1..]
    else [d[0]] + Remove(d[1..], k)
  }

  /** `d[k] = v`: a present key keeps its position and takes the new value; a new key goes last. */
  function Put<K(==), V>(d: seq<(K, V)>, k: K, v: V): seq<(K, V)>
    decreases |d|
  {
    if |d| == 0 then [(k, v)]
    else if d[0].0 == k then [(k, v)] + d[1..]
    else [d[0]] + Put(d[1..], k, v)
  }

  /**
   * `dict(pairs)`: the pairs are assigned in order, so a repeated key keeps
   * its first position and its last value (`FromPairsOrder`, `FromPairsGet`).
   */
  function FromPairs<K(==), V>(ps: seq<(K, V)>): seq<(K, V)>
    decreases |ps|
  {
    if |ps| == 0 then []
    else Put(FromPairs(ps[..|ps| - 1]), ps[|ps| - 1].0, ps[|ps| - 1].1)
  }

  /** `zip(ks, vs)`: pairs by position, as long as the shorter of the two. */
  function Zip<K, V>(ks: seq<K>, vs: seq<V>): seq<(K, V)>
  {
    var n := if |ks| <= |vs| then |ks| else |vs|;
    seq(n, i requires 0 <= i < n => (ks[i], vs[i]))
  }

  /** `dict(zip(columns, row))`, the record a handler builds from a fetched row. */
  function Record<K(==), V>(columns: seq<K>, row: seq<V>): seq<(K, V)>
  {
    FromPairs(Zip(columns, row))
  }

  // ----- del d[k] -----

  lemma {:induction false} RemoveKeys<K, V>(d: seq<(K, V)>, k: K)
    requires DistinctKeys(d)
    ensures DistinctKeys(Remove(d, k))
    ensures forall x :: x in Keys(Remove(d, k)) <==> x in Keys(d) && x != k
    decreases |d|
  {
    if |d| > 0 {
      KeysCons(d);
      assert DistinctKeys(d[1..]) by {
        forall i, j | 0 <= i < j < |d[1..]| ensures Keys(d[1..])[i] != Keys(d[1..])[j] {
          assert Keys(d)[i + 1] != Keys(d)[j + 1];
        }
      }
      if d[0].0 != k {
        RemoveKeys(d[1..], k);
        var r := Remove(d[1..], k);
        KeysCons([d[0]] + r);
        assert ([d[0]] + r)[1..] == r;
        assert d[0].0 !in Keys(d[1..]) by {
          forall i | 0 <= i < |d[1..]| ensures Keys(d[1..])[i] != d[0].0 {
            assert Keys(d)[i + 1] != Keys(d)[0];
          }
        }
        DistinctCons(d[0].0, Keys(r));
      } else {
        assert d[0].0 !in Keys(d[1..]) by {
          forall i | 0 <= i < |d[1..]| ensures Keys(d[1..])[i] != d[0].0 {
            assert Keys(d)[i + 1] != Keys(d)[0];
          }
        }
      }
    }
  }

  lemma DistinctCons<K>(x: K, s: seq<K>)
    requires x !in s && Distinct(s)
    ensures Distinct([x] + s)
  {
    forall i, j | 0 <= i < j < |[x] + s| ensures ([x] + s)[i] != ([x] + s)[j] {
      if i > 0 {
        assert ([x] + s)[i] == s[i - 1];
      }
      assert ([x] + s)[j] == s[j - 1];
    }
  }

  lemma {:induction false} RemoveGet<K, V>(d: seq<(K, V)>, k: K, x: K)
    requires DistinctKeys(d)
    ensures Get(Remove(d, k), x) == if x == k then None else Get(d, x)
    decreases |d|
  {
    RemoveKeys(d, k);
    if |d| > 0 && d[0].0 != k && x != k {
      KeysCons(d);
      assert DistinctKeys(d[1..]) by {
        forall i, j | 0 <= i < j < |d[1..]| ensures Keys(d[1..])[i] != Keys(d[1..])[j] {
          assert Keys(d)[i + 1] != Keys(d)[j + 1];
        }
      }
      RemoveGet(d[1..], k, x);
      assert ([d[0]] + Remove(d[1..], k))[1..] == Remove(d[1..], k);
    }
  }

  /** Without `k`, `del` changes nothing; with it, exactly its pair goes and the rest keep their order. */
  lemma {:induction false} RemoveOrder<K, V>(d: seq<(K, V)>, k: K)
    ensures k !in Keys(d) ==> Remove(d, k) == d
    ensures k in Keys(d) ==> Remove(d, k) == d[..IndexOf(d, k)] + d[IndexOf(d, k) + 1..]
    decreases |d|
  {
    if |d| > 0 {
      KeysCons(d);
      RemoveOrder(d[1..], k);
      if d[0].0 != k {
        if k in Keys(d) {
          var i := IndexOf(d[1..], k);
          assert IndexOf(d, k) == i + 1;
          assert d[..i + 1] == [d[0]] + d[1..][..i];
          assert d[i + 2..] == d[1..][i + 1..];
        } else {
          assert d == [d[0]] + d[1..];
        }
      }
    }
  }

  // ----- d[k] = v -----

  lemma {:induction false} PutKeys<K, V>(d: seq<(K, V)>, k: K, v: V)
    ensures Keys(Put(d, k, v)) == if k in Keys(d) then Keys(d) else Keys(d) + [k]
    decreases |d|
  {
    if |d| > 0 {
      KeysCons(d);
      if d[0].0 == k {
        KeysCons(Put(d, k, v));
        assert Put(d, k, v)[1..] == d[1..];
      } else {
        PutKeys(d[1..], k, v);
        var r := Put(d[1..], k, v);
        KeysCons([d[0]] + r);
        assert ([d[0]] + r)[1..] == r;
      }
    }
  }

  lemma {:induction false} PutGet<K, V>(d: seq<(K, V)>, k: K, v: V, x: K)
    ensures Get(Put(d, k, v), x) == if x == k then Some(v) else Get(d, x)
    decreases |d|
  {
    if |d| > 0 && d[0].0 != k {
      PutGet(d[1..], k, v, x);
      assert ([d[0]] + Put(d[1..], k, v))[1..] == Put(d[1..], k, v);
    } else if |d| > 0 {
      assert ([(k, v)] + d[1..])[1..] == d[1..];
    } else {
      assert [(k, v)][1..] == [];
    }
  }

  lemma PutDistinct<K, V>(d: seq<(K, V)>, k: K, v: V)
    requires DistinctKeys(d)
    ensures DistinctKeys(Put(d, k, v))
  {
    PutKeys(d, k, v);
    if k !in Keys(d) {
      var ks := Keys(d) + [k];
      forall i, j | 0 <= i < j < |ks| ensures ks[i] != ks[j] {
        if j == |ks| - 1 {
          assert ks[i] == Keys(d)[i];
        } else {
          assert ks[i] == Keys(d)[i] && ks[j] == Keys(d)[j];
        }
      }
    }
  }

  /** Assigning a key the dictionary does not hold appends the pair. */
  lemma {:induction false} PutAbsent<K, V>(d: seq<(K, V)>, k: K, v: V)
    requires k !in Keys(d)
    ensures Put(d, k, v) == d + [(k, v)]
    decreases |d|
  {
    if |d| > 0 {
      KeysCons(d);
      PutAbsent(d[1..], k, v);
      assert d == [d[0]] + d[1..];
    }
  }

  /** Assigning a key the dictionary holds replaces its pair where it stands. */
  lemma {:induction false} PutPresent<K, V>(d: seq<(K, V)>, k: K, v: V)
    requires k in Keys(d)
    ensures Put(d, k, v) == d[IndexOf(d, k) := (k, v)]
    decreases |d|
  {
    KeysCons(d);
    if d[0].0 != k {
      PutPresent(d[1..], k, v);
      assert IndexOf(d, k) == IndexOf(d[1..], k) + 1;
    }
  }

  // ----- dict(pairs) and dict(zip(...)) -----

  lemma {:induction false} FromPairsKeys<K, V>(ps: seq<(K, V)>)
    ensures DistinctKeys(FromPairs(ps))
    ensures forall x :: x in Keys(FromPairs(ps)) <==> x in Keys(ps)
    decreases |ps|
  {
    if |ps| > 0 {
      var init := ps[..|ps| - 1];
      var last := ps[|ps| - 1];
      FromPairsKeys(init);
      PutDistinct(FromPairs(init), last.0, last.1);
      PutKeys(FromPairs(init), last.0, last.1);
      assert Keys(ps) == Keys(init) + [last.0];
    }
  }

  /** The value of the last pair with key `k`. */
  function LastValue<K(==), V>(ps: seq<(K, V)>, k: K): Option<V>
    decreases |ps|
  {
    if |ps| == 0 then None
    else if ps[|ps| - 1].0 == k then Some(ps[|ps| - 1].1)
    else LastValue(ps[..|ps| - 1], k)
  }

  /** In `dict(pairs)` every key holds the value of its last pair. */
  lemma {:induction false} FromPairsGet<K, V>(ps: seq<(K, V)>, k: K)
    ensures Get(FromPairs(ps), k) == LastValue(ps, k)
    decreases |ps|
  {
    if |ps| > 0 {
      var init := ps[..|ps| - 1];
      var last := ps[|ps| - 1];
      FromPairsGet(init, k);
      PutGet(FromPairs(init), last.0, last.1, k);
    }
  }

  /** A further pair moves nothing: its key goes last only when it is new. */
  lemma FromPairsOrder<K, V>(ps: seq<(K, V)>, k: K, v: V)
    ensures Keys(FromPairs(ps + [(k, v)])) ==
      if k in Keys(ps) then Keys(FromPairs(ps)) else Keys(FromPairs(ps)) + [k]
  {
    var qs := ps + [(k, v)];
    assert qs[..|qs| - 1] == ps;
    FromPairsKeys(ps);
    PutKeys(FromPairs(ps), k, v);
  }

  /** When no key repeats, `dict(pairs)` holds exactly the pairs, in order. */
  lemma {:induction false} FromPairsOfDistinct<K, V>(ps: seq<(K, V)>)
    requires DistinctKeys(ps)
    ensures FromPairs(ps) == ps
    decreases |ps|
  {
    if |ps| > 0 {
      var init := ps[..|ps| - 1];
      var last := ps[|ps| - 1];
      assert Keys(ps) == Keys(init) + [last.0];
      assert DistinctKeys(init) by {
        forall i, j | 0 <= i < j < |init| ensures Keys(init)[i] != Keys(init)[j] {
          assert Keys(ps)[i] != Keys(ps)[j];
        }
      }
      assert last.0 !in Keys(init) by {
        forall i | 0 <= i < |init| ensures Keys(init)[i] != last.0 {
          assert Keys(ps)[i] != Keys(ps)[|ps| - 1];
        }
      }
      FromPairsOfDistinct(init);
      PutAbsent(init, last.0, last.1);
      assert init + [last] == ps;
    }
  }

  /**
   * `dict(zip(columns, row))` over distinct column names pairs the i-th
   * column with the i-th value and stops at the shorter of the two: extra
   * values are dropped, extra columns get no entry.
   */
  lemma RecordOfDistinctColumns<K, V>(columns: seq<K>, row: seq<V>)
    requires Distinct(columns)
    ensures |Record(columns, row)| == if |columns| <= |row| then |columns| else |row|
    ensures forall i :: 0 <= i < |Record(columns, row)| ==> Record(columns, row)[i] == (columns[i], row[i])
  {
    var z := Zip(columns, row);
    assert DistinctKeys(z) by {
      forall i, j | 0 <= i < j < |z| ensures Keys(z)[i] != Keys(z)[j] {
        assert Keys(z)[i] == columns[i] && Keys(z)[j] == columns[j];
      }
    }
    FromPairsOfDistinct(z);
  }

  /**
   * The dictionary a handler changes in place. Its only state is the
   * ordered pairs; the methods mirror `in`, `d.get`, `del` and item
   * assignment.
   */
  class Dict {
    var items: seq<(string, Value)>

    ghost predicate Valid()
      reads this
    {
      DistinctKeys(items)
    }

    /** The dictionary decoded from a JSON object's members, or built from a row. */
    constructor FromMembers(members: seq<(string, Value)>)
      ensures Valid()
      ensures items == FromPairs(members)
    {
      FromPairsKeys(members);
      items := FromPairs(members);
    }

    /** `k in d` */
    function Contains(k: string): (b: bool)
      reads this
      ensures b <==> k in Keys(items)
    {
      Get(items, k).Some?
    }

    /** `d.get(k)`: the value of the pair with key `k`, if there is one. */
    function Lookup(k: string): (r: Option<Value>)
      reads this
      ensures r.Some? <==> k in Keys(items)
      ensures r.Some? ==> items[IndexOf(items, k)] == (k, r.value)
    {
      Get(items, k)
    }

    /** `del d[k]`; `found` is false where Python raises `KeyError` and nothing changes. */
    method Delete(k: string) returns (found: bool)
      requires Valid()
      modifies this
      ensures Valid()
      ensures found <==> k in Keys(old(items))
      ensures items == Remove(old(items), k)
      ensures !found ==> items == old(items)
    {
      found := Contains(k);
      RemoveKeys(items, k);
      RemoveOrder(items, k);
      items := Remove(items, k);
    }

    /** `d[k] = v` */
    method Assign(k: string, v: Value)
      requires Valid()
      modifies this
      ensures Valid()
      ensures items == Put(old(items), k, v)
    {
      PutDistinct(items, k, v);
      items := Put(items, k, v);
    }
  }
}
