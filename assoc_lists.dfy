/** Python dicts as association lists: a key keeps the position of its first
    insertion, and assigning to a key that is already present replaces its
    value where it stands. */
module AssocLists {
  import opened Wrappers

  type AList<V> = seq<(string, V)>

  function Keys<V>(al: AList<V>): seq<string> {
    seq(|al|, i requires 0 <= i < |al| => al[i].0)
  }

  /** `list(d.values())` */
  function Values<V>(al: AList<V>): seq<V> {
    seq(|al|, i requires 0 <= i < |al| => al[i].1)
  }

  lemma {:induction false} KeysAppend<V>(a: AList<V>, b: AList<V>)
    ensures Keys(a + b) == Keys(a) + Keys(b)
  {
  }

  predicate UniqueKeys<V>(al: AList<V>) {
    forall i, j :: 0 <= i < j < |al| ==> al[i].0 != al[j].0
  }

  predicate Distinct(ks: seq<string>) {
    forall i, j :: 0 <= i < j < |ks| ==> ks[i] != ks[j]
  }

  /** `d.get(k)` */
  function Lookup<V>(al: AList<V>, k: string): (r: Option<V>)
    ensures r.None? <==> k !in Keys(al)
    ensures r.Some? ==> (k, r.value) in al
  {
    if al == [] then None
    else if al[0].0 == k then
      assert Keys(al)[0] == k && al[0] in al;
      Some(al[0].1)
    else
      KeysAppend([al[0]], al[1..]);
      assert al == [al[0]] + al[1..];
      Lookup(al[1..], k)
  }

  /** With unique keys, each entry is what its key looks up. */
  lemma {:induction false} LookupAt<V>(al: AList<V>, i: nat)
    requires UniqueKeys(al) && i < |al|
    ensures Lookup(al, al[i].0) == Some(al[i].1)
  {
    if i > 0 {
      assert al[0].0 != al[i].0;
      assert al[1..][i - 1] == al[i];
      LookupAt(al[1..], i - 1);
    }
  }

  /** An entry in front keeps the keys unique exactly when its key is new. */
  lemma {:induction false} UniqueCons<V>(p: (string, V), rest: AList<V>)
    ensures UniqueKeys([p] + rest) <==> p.0 !in Keys(rest) && UniqueKeys(rest)
  {
    var al := [p] + rest;
    if UniqueKeys(al) {
      forall i | 0 <= i < |rest| ensures rest[i].0 != p.0 {
        assert al[0] == p && al[i + 1] == rest[i];
      }
      forall i, j | 0 <= i < j < |rest| ensures rest[i].0 != rest[j].0 {
        assert al[i + 1] == rest[i] && al[j + 1] == rest[j];
      }
    }
    if p.0 !in Keys(rest) && UniqueKeys(rest) {
      forall i, j | 0 <= i < j < |al| ensures al[i].0 != al[j].0 {
        assert al[j] == rest[j - 1] && Keys(rest)[j - 1] == rest[j - 1].0;
        if i > 0 {
          assert al[i] == rest[i - 1];
        }
      }
    }
  }

  /** `d[k] = v` */
  function Put<V>(al: AList<V>, k: string, v: V): (r: AList<V>)
    ensures Keys(r) == if k in Keys(al) then Keys(al) else Keys(al) + [k]
    ensures forall p :: p in r ==> p == (k, v) || p in al
  {
    if al == [] then [(k, v)]
    else if al[0].0 == k then
      var r := [(k, v)] + al[1..];
      assert Keys(r) == Keys(al);
      assert Keys(al)[0] == k;
      assert al == [al[0]] + al[1..];
      r
    else
      var rest := Put(al[1..], k, v);
      var r := [al[0]] + rest;
      KeysAppend([al[0]], al[1..]);
      assert al == [al[0]] + al[1..];
      KeysAppend([al[0]], rest);
      r
  }

  /** After `d[k] = v`, `k` holds `v` and every other key what it held. */
  lemma {:induction false} LookupPut<V>(al: AList<V>, k: string, v: V, k': string)
    ensures Lookup(Put(al, k, v), k') == if k' == k then Some(v) else Lookup(al, k')
  {
    if al != [] {
      var r := Put(al, k, v);
      if al[0].0 == k {
        assert r == [(k, v)] + al[1..];
        assert r[1..] == al[1..];
      } else {
        var rest := Put(al[1..], k, v);
        assert r == [al[0]] + rest;
        assert r[1..] == rest;
        LookupPut(al[1..], k, v, k');
      }
    }
  }

  /** Assigning a key keeps the keys unique. */
  lemma {:induction false} PutUnique<V>(al: AList<V>, k: string, v: V)
    ensures UniqueKeys(al) ==> UniqueKeys(Put(al, k, v))
  {
    if UniqueKeys(al) && al != [] {
      var r := Put(al, k, v);
      assert al == [al[0]] + al[1..];
      UniqueCons(al[0], al[1..]);
      if al[0].0 == k {
        assert r == [(k, v)] + al[1..];
        UniqueCons((k, v), al[1..]);
      } else {
        var rest := Put(al[1..], k, v);
        assert r == [al[0]] + rest;
        PutUnique(al[1..], k, v);
        UniqueCons(al[0], rest);
      }
    }
  }

  /** A key that is not present is appended at the end. */
  lemma {:induction false} PutFresh<V>(al: AList<V>, k: string, v: V)
    requires k !in Keys(al)
    ensures Put(al, k, v) == al + [(k, v)]
  {
    if al != [] {
      var tail := al[1..];
      assert Keys(al)[0] == al[0].0;
      assert k !in Keys(tail) by {
        assert forall i :: 0 <= i < |tail| ==> Keys(tail)[i] == Keys(al)[i + 1];
      }
      PutFresh(tail, k, v);
      assert [al[0]] + (tail + [(k, v)]) == al + [(k, v)];
    }
  }

  /** The keys of `base` followed by those of `ks` not seen before, in order
      of first occurrence. */
  function AppendNew(base: seq<string>, ks: seq<string>): (r: seq<string>)
    ensures forall x :: x in r <==> x in base || x in ks
  {
    if ks == [] then base
    else
      var b := AppendNew(base, ks[..|ks| - 1]);
      var x := ks[|ks| - 1];
      assert forall y :: y in ks <==> y in ks[..|ks| - 1] || y == x by {
        assert ks == ks[..|ks| - 1] + [x];
      }
      if x in b then b else b + [x]
  }

  /** The keys already there keep their places. */
  lemma {:induction false} AppendNewPrefix(base: seq<string>, ks: seq<string>)
    ensures |base| <= |AppendNew(base, ks)| && AppendNew(base, ks)[..|base|] == base
  {
    if ks != [] {
      AppendNewPrefix(base, ks[..|ks| - 1]);
    }
  }

  /** No key is added twice. */
  lemma {:induction false} AppendNewDistinct(base: seq<string>, ks: seq<string>)
    requires Distinct(base)
    ensures Distinct(AppendNew(base, ks))
  {
    if ks != [] {
      AppendNewDistinct(base, ks[..|ks| - 1]);
    }
  }

  /** Adding the keys of `xs` and then those of `ys` is adding those of
      `xs + ys`. */
  lemma {:induction false} AppendNewConcat(base: seq<string>, xs: seq<string>, ys: seq<string>)
    ensures AppendNew(AppendNew(base, xs), ys) == AppendNew(base, xs + ys)
  {
    var zs := xs + ys;
    if ys == [] {
      assert zs == xs;
    } else {
      var init := ys[..|ys| - 1];
      var x := ys[|ys| - 1];
      assert zs[..|zs| - 1] == xs + init && zs[|zs| - 1] == x;
      AppendNewConcat(base, xs, init);
      var b := AppendNew(base, xs + init);
      assert AppendNew(base, zs) == if x in b then b else b + [x];
    }
  }

  /** Removing repeated keys first changes nothing. */
  lemma {:induction false} AppendNewDedup(base: seq<string>, ks: seq<string>)
    ensures AppendNew(base, AppendNew([], ks)) == AppendNew(base, ks)
  {
    if ks != [] {
      var init := ks[..|ks| - 1];
      var x := ks[|ks| - 1];
      var d := AppendNew([], init);
      AppendNewDedup(base, init);
      if x !in d {
        var d' := d + [x];
        assert d'[..|d'| - 1] == d;
      }
    }
  }

  /** `d.update(es)`: assigns the entries of `es` one after the other. */
  function PutAll<V>(al: AList<V>, es: AList<V>): AList<V> {
    if es == [] then al else Put(PutAll(al, es[..|es| - 1]), es[|es| - 1].0, es[|es| - 1].1)
  }

  /** The keys after `d.update(es)`: the old ones in place, then the new
      ones of `es` in order of first occurrence. */
  lemma {:induction false} PutAllKeys<V>(al: AList<V>, es: AList<V>)
    ensures Keys(PutAll(al, es)) == AppendNew(Keys(al), Keys(es))
  {
    if es != [] {
      assert Keys(es)[..|es| - 1] == Keys(es[..|es| - 1]);
      PutAllKeys(al, es[..|es| - 1]);
    }
  }

  /** Every entry after `d.update(es)` was in `d` or in `es`. */
  lemma {:induction false} PutAllFrom<V>(al: AList<V>, es: AList<V>)
    ensures forall p :: p in PutAll(al, es) ==> p in al || p in es
  {
    if es != [] {
      var init := es[..|es| - 1];
      PutAllFrom(al, init);
      assert forall p :: p in init ==> p in es;
      assert es[|es| - 1] in es;
    }
  }

  /** `d.update(es)` keeps the keys unique. */
  lemma {:induction false} PutAllUnique<V>(al: AList<V>, es: AList<V>)
    requires UniqueKeys(al)
    ensures UniqueKeys(PutAll(al, es))
  {
    if es != [] {
      var init := es[..|es| - 1];
      PutAllUnique(al, init);
      PutUnique(PutAll(al, init), es[|es| - 1].0, es[|es| - 1].1);
    }
  }

  /** The value of the last entry of `es` with key `k`. */
  function LastValue<V>(es: AList<V>, k: string): (r: Option<V>)
    ensures r.None? <==> k !in Keys(es)
    ensures r.Some? ==> (k, r.value) in es
  {
    if es == [] then None
    else
      assert Keys(es) == Keys(es[..|es| - 1]) + [es[|es| - 1].0];
      if es[|es| - 1].0 == k then Some(es[|es| - 1].1) else LastValue(es[..|es| - 1], k)
  }

  /** After `d.update(es)` a key holds the last value `es` gave it, or its old
      value if `es` does not mention it. */
  lemma {:induction false} LookupPutAll<V>(al: AList<V>, es: AList<V>, k: string)
    ensures Lookup(PutAll(al, es), k) == if k in Keys(es) then LastValue(es, k) else Lookup(al, k)
  {
    if es != [] {
      var init := es[..|es| - 1];
      assert Keys(es) == Keys(init) + [es[|es| - 1].0];
      LookupPutAll(al, init, k);
      LookupPut(PutAll(al, init), es[|es| - 1].0, es[|es| - 1].1, k);
    }
  }

  /** Entries with keys that are new and distinct are appended as they are. */
  lemma {:induction false} PutAllFresh<V>(al: AList<V>, es: AList<V>)
    requires UniqueKeys(es)
    requires forall p :: p in es ==> p.0 !in Keys(al)
    ensures PutAll(al, es) == al + es
  {
    if es != [] {
      var init := es[..|es| - 1];
      var last := es[|es| - 1];
      assert al + es == al + init + [last] by {
        assert es == init + [last];
      }
      FreshSplit(al, es);
      PutAllFresh(al, init);
      PutFresh(al + init, last.0, last.1);
    }
  }

  /** The facts `PutAllFresh` needs about all but the last entry. */
  lemma {:induction false} FreshSplit<V>(al: AList<V>, es: AList<V>)
    requires es != [] && UniqueKeys(es)
    requires forall p :: p in es ==> p.0 !in Keys(al)
    ensures UniqueKeys(es[..|es| - 1])
    ensures forall p :: p in es[..|es| - 1] ==> p.0 !in Keys(al)
    ensures es[|es| - 1].0 !in Keys(al + es[..|es| - 1])
  {
    var init := es[..|es| - 1];
    var last := es[|es| - 1];
    assert forall p :: p in init ==> p in es;
    assert last in es;
    forall j | 0 <= j < |init| ensures init[j].0 != last.0 {
      assert init[j] == es[j];
    }
    KeysAppend(al, init);
  }

  /** Two association lists with unique keys, the same keys in the same order
      and the same lookups are equal. */
  lemma {:induction false} SameEntries<V>(a: AList<V>, b: AList<V>)
    requires UniqueKeys(a) && UniqueKeys(b)
    requires Keys(a) == Keys(b)
    requires forall k :: Lookup(a, k) == Lookup(b, k)
    ensures a == b
  {
    assert |a| == |Keys(a)| == |b|;
    forall i | 0 <= i < |a| ensures a[i] == b[i] {
      assert Keys(a)[i] == Keys(b)[i];
      LookupAt(a, i);
      LookupAt(b, i);
    }
  }

  /** Applying the same update twice is the same as applying it once. */
  lemma {:induction false} PutAllTwice<V>(al: AList<V>, es: AList<V>)
    requires UniqueKeys(al)
    ensures PutAll(PutAll(al, es), es) == PutAll(al, es)
  {
    var once := PutAll(al, es);
    var twice := PutAll(once, es);
    PutAllKeys(al, es);
    PutAllKeys(once, es);
    PutAllUnique(al, es);
    PutAllUnique(once, es);
    AppendNewAbsorbs(Keys(once), Keys(es));
    forall k ensures Lookup(twice, k) == Lookup(once, k) {
      LookupPutAll(once, es, k);
      LookupPutAll(al, es, k);
    }
    SameEntries(twice, once);
  }

  /** Appending keys that are all present already changes nothing. */
  lemma {:induction false} AppendNewAbsorbs(base: seq<string>, ks: seq<string>)
    requires forall x :: x in ks ==> x in base
    ensures AppendNew(base, ks) == base
  {
    if ks != [] {
      AppendNewAbsorbs(base, ks[..|ks| - 1]);
      assert ks[|ks| - 1] in ks;
    }
  }

  /** Assigning one entry and then a list is assigning the longer list. */
  lemma {:induction false} PutAllCons<V>(al: AList<V>, k: string, v: V, es: AList<V>)
    ensures PutAll(Put(al, k, v), es) == PutAll(al, [(k, v)] + es)
  {
    var ces := [(k, v)] + es;
    if es == [] {
      assert ces[..|ces| - 1] == [];
    } else {
      var init := es[..|es| - 1];
      assert ces[..|ces| - 1] == [(k, v)] + init;
      assert ces[|ces| - 1] == es[|es| - 1];
      PutAllCons(al, k, v, init);
    }
  }

  /** With unique keys, a key names at most one entry. */
  lemma {:induction false} UniqueEntry<V>(al: AList<V>, k: string, v: V, w: V)
    requires UniqueKeys(al)
    requires (k, v) in al && (k, w) in al
    ensures v == w
  {
    var i :| 0 <= i < |al| && al[i] == (k, v);
    var j :| 0 <= j < |al| && al[j] == (k, w);
    assert i == j;
  }

  /** With unique keys the last value of a key is its only value. */
  lemma {:induction false} LastValueLookup<V>(es: AList<V>, k: string)
    requires UniqueKeys(es)
    ensures LastValue(es, k) == Lookup(es, k)
  {
    var l, r := LastValue(es, k), Lookup(es, k);
    if l.Some? {
      UniqueEntry(es, k, l.value, r.value);
    }
  }
}
