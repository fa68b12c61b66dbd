/** Python's insertion-ordered `dict`: an association list with distinct string keys. Assigning
    an existing key replaces its value in place; a new key goes at the end; `del`
    removes the entry and keeps the order of the others. */
module Dicts {
  import opened Values

  type Dict<V> = seq<(string, V)>

  /** `list(d.keys())`. */
  function Keys<V>(d: Dict<V>): (ks: seq<string>)
    ensures |ks| == |d| && forall i :: 0 <= i < |d| ==> ks[i] == d[i].0
  {
    if d == [] then [] else [d[0].0] + Keys(d[1..])
  }

  /** The keys of two dictionaries laid end to end. */
  lemma KeysAppend<V>(a: Dict<V>, b: Dict<V>)
    ensures Keys(a + b) == Keys(a) + Keys(b)
  {
    assert forall i :: 0 <= i < |a + b| ==> Keys(a + b)[i] == (Keys(a) + Keys(b))[i];
  }

  predicate Distinct<T(==)>(s: seq<T>) {
    forall i, j :: 0 <= i < j < |s| ==> s[i] != s[j]
  }

  predicate WellFormed<V>(d: Dict<V>) {
    Distinct(Keys(d))
  }

  /** `d.get(k)`. */
  function Lookup<V>(d: Dict<V>, k: string): (r: Option<V>)
    ensures r.None? <==> k !in Keys(d)
    ensures r.Some? ==> (k, r.value) in d
  {
    if d == [] then None
    else if d[0].0 == k then Some(d[0].1)
    else Lookup(d[1..], k)
  }

  /** `d[k] = v`. */
  function Put<V>(d: Dict<V>, k: string, v: V): Dict<V> {
    if d == [] then [(k, v)]
    else if d[0].0 == k then [(k, v)] + d[1..]
    else [d[0]] + Put(d[1..], k, v)
  }

  /** `del d[k]`. */
  function Remove<V>(d: Dict<V>, k: string): Dict<V> {
    if d == [] then []
    else if d[0].0 == k then d[1..]
    else [d[0]] + Remove(d[1..], k)
  }

  /** The sequence with every occurrence of `x` taken out, the rest in order. */
  function Without(s: seq<string>, x: string): seq<string> {
    if s == [] then [] else (if s[0] == x then [] else [s[0]]) + Without(s[1..], x)
  }

  /** After `d[k] = v`, `k` maps to `v` and every other key keeps its value. */
  lemma {:induction false} LookupPut<V>(d: Dict<V>, k: string, v: V, k': string)
    ensures Lookup(Put(d, k, v), k') == if k' == k then Some(v) else Lookup(d, k')
  {
    if d != [] && d[0].0 != k {
      LookupPut(d[1..], k, v, k');
    }
  }

  /** `d[k] = v` keeps the key order, appending `k` when it is new. */
  lemma {:induction false} KeysPut<V>(d: Dict<V>, k: string, v: V)
    ensures Keys(Put(d, k, v)) == if k in Keys(d) then Keys(d) else Keys(d) + [k]
  {
    if d != [] && d[0].0 != k {
      KeysPut(d[1..], k, v);
      assert Keys(d) == [d[0].0] + Keys(d[1..]);
    }
  }

  /** `del d[k]` forgets `k`, keeps every other key's value and the order of the rest. */
  lemma {:induction false} RemoveSpec<V>(d: Dict<V>, k: string, k': string)
    requires WellFormed(d)
    ensures Lookup(Remove(d, k), k') == if k' == k then None else Lookup(d, k')
    ensures Keys(Remove(d, k)) == Without(Keys(d), k)
    ensures WellFormed(Remove(d, k))
  {
    if d != [] {
      assert Keys(d) == [d[0].0] + Keys(d[1..]);
      assert WellFormed(d[1..]) by { DistinctTail(Keys(d)); }
      if d[0].0 == k {
        WithoutAbsent(Keys(d[1..]), k);
      } else {
        RemoveSpec(d[1..], k, k');
        WithoutSubset(Keys(d[1..]), k);
        assert Keys(Remove(d, k)) == [d[0].0] + Keys(Remove(d[1..], k));
        assert d[0].0 !in Keys(Remove(d[1..], k));
        DistinctCons(d[0].0, Keys(Remove(d[1..], k)));
      }
    }
  }

  lemma DistinctTail<T>(s: seq<T>)
    requires s != [] && Distinct(s)
    ensures Distinct(s[1..]) && s[0] !in s[1..]
  {
  }

  lemma DistinctSnoc<T>(s: seq<T>, x: T)
    requires Distinct(s) && x !in s
    ensures Distinct(s + [x])
  {
    var t := s + [x];
    forall i, j | 0 <= i < j < |t| ensures t[i] != t[j] {
      assert t[i] == s[i];
    }
  }

  lemma DistinctCons<T>(x: T, s: seq<T>)
    requires Distinct(s) && x !in s
    ensures Distinct([x] + s)
  {
    var t := [x] + s;
    forall i, j | 0 <= i < j < |t| ensures t[i] != t[j] {
      if i == 0 {
        assert t[j] == s[j - 1];
      } else {
        assert t[i] == s[i - 1] && t[j] == s[j - 1];
      }
    }
  }

  lemma {:induction false} WithoutAbsent(s: seq<string>, x: string)
    requires x !in s
    ensures Without(s, x) == s
  {
    if s != [] {
      WithoutAbsent(s[1..], x);
    }
  }

  lemma {:induction false} WithoutSubset(s: seq<string>, x: string)
    ensures forall y :: y in Without(s, x) ==> y in s
  {
    if s != [] {
      WithoutSubset(s[1..], x);
    }
  }

  lemma {:induction false} PutKeepsWellFormed<V>(d: Dict<V>, k: string, v: V)
    requires WellFormed(d)
    ensures WellFormed(Put(d, k, v))
  {
    KeysPut(d, k, v);
  }

  /** `del d[k]` keeps exactly the entries of the other keys. */
  lemma {:induction false} RemoveEntries<V>(d: Dict<V>, k: string)
    requires WellFormed(d)
    ensures forall e :: e in Remove(d, k) <==> e in d && e.0 != k
  {
    if d != [] {
      assert Keys(d) == [d[0].0] + Keys(d[1..]);
      DistinctTail(Keys(d));
      RemoveEntries(d[1..], k);
      if d[0].0 == k {
        forall e | e in d[1..] ensures e.0 != k {
          var i :| 0 <= i < |d[1..]| && d[1..][i] == e;
          assert Keys(d[1..])[i] == e.0;
        }
      }
    }
  }

  /** Assigning a key that is not yet present appends it: the new key maps to its value
      and every other key keeps its own. */
  lemma {:induction false} LookupAppend<V>(d: Dict<V>, k: string, v: V, k': string)
    requires k !in Keys(d)
    ensures Lookup(d + [(k, v)], k') == if k' == k then Some(v) else Lookup(d, k')
    ensures Keys(d + [(k, v)]) == Keys(d) + [k]
  {
    if d != [] {
      assert (d + [(k, v)])[1..] == d[1..] + [(k, v)];
      assert Keys(d) == [d[0].0] + Keys(d[1..]);
      LookupAppend(d[1..], k, v, k');
    }
  }

  /** Appending a new key keeps the keys distinct. */
  lemma AppendWellFormed<V>(d: Dict<V>, k: string, v: V)
    requires WellFormed(d) && k !in Keys(d)
    ensures WellFormed(d + [(k, v)])
  {
    LookupAppend(d, k, v, k);
    DistinctSnoc(Keys(d), k);
  }

  /** Cutting one entry out keeps the keys distinct. */
  lemma CutWellFormed<V>(d: Dict<V>, p: int)
    requires WellFormed(d) && 0 <= p < |d|
    ensures WellFormed(d[..p] + d[p + 1..])
  {
    var e := d[..p] + d[p + 1..];
    forall i, j | 0 <= i < j < |e| ensures Keys(e)[i] != Keys(e)[j] {
      var i' := if i < p then i else i + 1;
      var j' := if j < p then j else j + 1;
      assert e[i] == d[i'] && e[j] == d[j'];
      assert Keys(d)[i'] != Keys(d)[j'];
    }
  }

  /** In a well-formed dictionary the value found for an entry's key is that entry's value. */
  lemma {:induction false} LookupAt<V>(d: Dict<V>, i: int)
    requires WellFormed(d) && 0 <= i < |d|
    ensures Lookup(d, d[i].0) == Some(d[i].1)
  {
    if i > 0 {
      assert Keys(d)[0] != Keys(d)[i];
      assert Keys(d) == [d[0].0] + Keys(d[1..]);
      DistinctTail(Keys(d));
      LookupAt(d[1..], i - 1);
    }
  }

  /** A key of `d` sits at some position. */
  lemma KeyIndex<V>(d: Dict<V>, k: string) returns (p: int)
    requires k in Keys(d)
    ensures 0 <= p < |d| && d[p].0 == k
  {
    p :| 0 <= p < |Keys(d)| && Keys(d)[p] == k;
  }

  /** In a well-formed dictionary, `del d[k]` cuts out the one entry for `k`. */
  lemma RemoveAt<V>(d: Dict<V>, p: int)
    requires WellFormed(d) && 0 <= p < |d|
    ensures Remove(d, d[p].0) == d[..p] + d[p + 1..]
  {
    forall i | 0 <= i < p ensures d[i].0 != d[p].0 {
      assert Keys(d)[i] != Keys(d)[p];
    }
    RemoveFirst(d, p);
  }

  /** `del d[k]` cuts out the first entry for `k`. */
  lemma {:induction false} RemoveFirst<V>(d: Dict<V>, p: int)
    requires 0 <= p < |d| && forall i :: 0 <= i < p ==> d[i].0 != d[p].0
    ensures Remove(d, d[p].0) == d[..p] + d[p + 1..]
  {
    if p > 0 {
      var t := d[1..];
      RemoveFirst(t, p - 1);
      assert t[..p - 1] + t[p..] == d[1..p] + d[p + 1..];
      assert d[..p] == [d[0]] + d[1..p];
    }
  }

  /** Where `k` sits in `d`, or -1. */
  function IndexOf<V>(d: Dict<V>, k: string): (p: int)
    ensures -1 <= p < |d|
    ensures p == -1 <==> k !in Keys(d)
    ensures p >= 0 ==> d[p].0 == k
  {
    if d == [] then -1
    else if d[0].0 == k then 0
    else
      var p := IndexOf(d[1..], k);
      if p == -1 then -1 else p + 1
  }

  /** The key-level part of `RemoveSpec`. */
  lemma RemoveKeys<V>(d: Dict<V>, k: string)
    requires WellFormed(d)
    ensures Keys(Remove(d, k)) == Without(Keys(d), k)
    ensures WellFormed(Remove(d, k))
  {
    RemoveSpec(d, k, k);
  }

  /** Every entry of `d` after `d[k] = v` is `(k, v)` or an entry of `d`. */
  lemma {:induction false} PutEntries<V>(d: Dict<V>, k: string, v: V)
    ensures forall e :: e in Put(d, k, v) ==> e in d || e == (k, v)
  {
    if d != [] && d[0].0 != k {
      PutEntries(d[1..], k, v);
    }
  }

  /** Setting a new key appends it. */
  lemma {:induction false} PutAbsent<V>(d: Dict<V>, k: string, v: V)
    requires k !in Keys(d)
    ensures Put(d, k, v) == d + [(k, v)]
  {
    if d != [] {
      assert Keys(d) == [d[0].0] + Keys(d[1..]);
      PutAbsent(d[1..], k, v);
      assert [d[0]] + (d[1..] + [(k, v)]) == d + [(k, v)];
    }
  }

  /** A second `d[k] = w` overwrites the first. */
  lemma {:induction false} PutPut<V>(d: Dict<V>, k: string, v: V, w: V)
    ensures Put(Put(d, k, v), k, w) == Put(d, k, w)
  {
    if d != [] && d[0].0 != k {
      PutPut(d[1..], k, v, w);
    }
  }

  /** Sets the keys of the first `n` entries of `src` in turn, each to the value `f`
      computes from the dictionary so far and the entry. */
  function Update<V, W>(d: Dict<V>, src: Dict<W>, n: nat, f: (Dict<V>, string, W) -> V): Dict<V>
    requires n <= |src|
  {
    if n == 0 then d
    else
      var before := Update(d, src, n - 1, f);
      Put(before, src[n - 1].0, f(before, src[n - 1].0, src[n - 1].1))
  }

  /** `Update` keeps the keys of `d` in place and adds those of `src`'s first `n` entries. */
  lemma {:induction false} UpdateKeys<V, W>(d: Dict<V>, src: Dict<W>, n: nat, f: (Dict<V>, string, W) -> V)
    requires n <= |src|
    ensures Keys(d) <= Keys(Update(d, src, n, f))
    ensures forall k :: k in Keys(Update(d, src, n, f)) <==> k in Keys(d) || exists j :: 0 <= j < n && src[j].0 == k
  {
    if n > 0 {
      var before := Update(d, src, n - 1, f);
      UpdateKeys(d, src, n - 1, f);
      KeysPut(before, src[n - 1].0, f(before, src[n - 1].0, src[n - 1].1));
    }
  }

  /** `Update` leaves the keys it does not set alone. */
  lemma {:induction false} UpdateUntouched<V, W>(d: Dict<V>, src: Dict<W>, n: nat, f: (Dict<V>, string, W) -> V, k: string)
    requires n <= |src|
    requires forall j :: 0 <= j < n ==> src[j].0 != k
    ensures Lookup(Update(d, src, n, f), k) == Lookup(d, k)
  {
    if n > 0 {
      UpdateOther(d, src, n, f, k);
      UpdateUntouched(d, src, n - 1, f, k);
    }
  }

  /** The last step of `Update` leaves the other keys alone. */
  lemma UpdateOther<V, W>(d: Dict<V>, src: Dict<W>, n: nat, f: (Dict<V>, string, W) -> V, k: string)
    requires 0 < n <= |src| && src[n - 1].0 != k
    ensures Lookup(Update(d, src, n, f), k) == Lookup(Update(d, src, n - 1, f), k)
  {
    var before := Update(d, src, n - 1, f);
    LookupPut(before, src[n - 1].0, f(before, src[n - 1].0, src[n - 1].1), k);
  }

  /** Every key `Update` sets holds a value `f` computed, so one with any property all
      of `f`'s values have. */
  lemma {:induction false} UpdateSets<V, W>(d: Dict<V>, src: Dict<W>, n: nat, f: (Dict<V>, string, W) -> V,
                                           j: int, p: V -> bool)
    requires 0 <= j < n <= |src|
    requires forall b, k, w :: p(f(b, k, w))
    ensures Lookup(Update(d, src, n, f), src[j].0).Some?
    ensures p(Lookup(Update(d, src, n, f), src[j].0).value)
  {
    var before := Update(d, src, n - 1, f);
    LookupPut(before, src[n - 1].0, f(before, src[n - 1].0, src[n - 1].1), src[j].0);
    if src[j].0 != src[n - 1].0 {
      UpdateSets(d, src, n - 1, f, j, p);
    }
  }

  /** A property of dictionaries that every step of `Update` keeps holds of its result. */
  lemma {:induction false} UpdateKeeps<V, W>(d: Dict<V>, src: Dict<W>, n: nat, f: (Dict<V>, string, W) -> V,
                                            inv: Dict<V> -> bool)
    requires n <= |src|
    requires inv(d)
    requires forall b, k, w :: inv(b) ==> inv(Put(b, k, f(b, k, w)))
    ensures inv(Update(d, src, n, f))
  {
    if n > 0 {
      UpdateKeeps(d, src, n - 1, f, inv);
    }
  }
}
