/** The merge `fusionner_sections`: per supported section, the objects of
    the first file indexed by name, then those of the second assigned over
    them, so that on a name clash the second file's object wins. */
module Merge {
  import opened Wrappers
  import opened AssocLists
  import opened Config

  /** The objects of every supported section have a name; `obj['name']`
      raises an uncaught `KeyError` otherwise. */
  predicate Named(m: Sections) {
    forall s, o :: s in Supported && o in Objects(m, s) ==> HasName(o)
  }

  predicate AllHaveName(objs: seq<Obj>) {
    forall o :: o in objs ==> HasName(o)
  }

  /** `[(obj['name'], obj) for obj in objs]` */
  function Entries(objs: seq<Obj>): (es: AList<Obj>)
    requires AllHaveName(objs)
    ensures |es| == |objs|
  {
    if objs == [] then []
    else
      var init := objs[..|objs| - 1];
      var last := objs[|objs| - 1];
      assert forall o :: o in init ==> o in objs;
      Entries(init) + [(NameOf(last), last)]
  }

  /** Entry `j` is object `j` filed under its name: the entries keep the
      objects' order. */
  lemma {:induction false} EntriesAt(objs: seq<Obj>)
    requires AllHaveName(objs)
    ensures forall j :: 0 <= j < |objs| ==> HasName(objs[j]) && Entries(objs)[j] == (NameOf(objs[j]), objs[j])
  {
    if objs != [] {
      var init := objs[..|objs| - 1];
      assert forall o :: o in init ==> o in objs;
      var last := objs[|objs| - 1];
      var es := Entries(objs);
      assert es == Entries(init) + [(NameOf(last), last)];
      EntriesAt(init);
      forall j | 0 <= j < |objs| ensures HasName(objs[j]) && es[j] == (NameOf(objs[j]), objs[j]) {
        if j < |init| {
          assert objs[j] == init[j] && es[j] == Entries(init)[j];
        } else {
          assert objs[j] == last && es[j] == (NameOf(last), last);
        }
      }
    }
  }

  /** Each entry is an object of the list filed under its own name. */
  lemma {:induction false} EntriesNamed(objs: seq<Obj>)
    requires AllHaveName(objs)
    ensures forall p :: p in Entries(objs) ==> p.1 in objs && HasName(p.1) && NameOf(p.1) == p.0
  {
    if objs != [] {
      var init := objs[..|objs| - 1];
      assert forall o :: o in init ==> o in objs;
      EntriesNamed(init);
    }
  }

  /** The names of `objs`, in order. */
  function Names(objs: seq<Obj>): seq<string>
    requires AllHaveName(objs)
  {
    Keys(Entries(objs))
  }

  /** `{obj['name']: obj for obj in objs}` */
  function IndexByName(objs: seq<Obj>): AList<Obj>
    requires AllHaveName(objs)
  {
    PutAll([], Entries(objs))
  }

  /** Every entry is an object filed under its own name. */
  predicate KeyedByName(al: AList<Obj>) {
    forall p :: p in al ==> HasName(p.1) && NameOf(p.1) == p.0
  }

  /** `fusion[section]` once the section is done: empty, updated with the
      first file's index, then assigned each entry of the second's. */
  function SectionFusion(a: seq<Obj>, b: seq<Obj>): AList<Obj>
    requires AllHaveName(a) && AllHaveName(b)
  {
    PutAll(PutAll([], IndexByName(a)), IndexByName(b))
  }

  /** The index of a list holds each name once, under it an object of the
      list with that name, and its names in order of first occurrence. */
  lemma {:induction false} IndexFacts(objs: seq<Obj>)
    requires AllHaveName(objs)
    ensures UniqueKeys(IndexByName(objs)) && KeyedByName(IndexByName(objs))
    ensures forall p :: p in IndexByName(objs) ==> p.1 in objs
    ensures Keys(IndexByName(objs)) == AppendNew([], Names(objs))
  {
    assert UniqueKeys<Obj>([]);
    PutAllUnique([], Entries(objs));
    PutAllFrom([], Entries(objs));
    PutAllKeys([], Entries(objs));
    EntriesNamed(objs);
  }

  /** A merged section holds each name once, every object under its own
      name, and only objects of the two files. */
  lemma {:induction false} SectionFacts(a: seq<Obj>, b: seq<Obj>)
    requires AllHaveName(a) && AllHaveName(b)
    ensures UniqueKeys(SectionFusion(a, b)) && KeyedByName(SectionFusion(a, b))
    ensures forall p :: p in SectionFusion(a, b) ==> p.1 in a || p.1 in b
  {
    var ia, ib := IndexByName(a), IndexByName(b);
    IndexFacts(a);
    IndexFacts(b);
    PutAllUnique([], ia);
    PutAllUnique(PutAll([], ia), ib);
    PutAllFrom([], ia);
    PutAllFrom(PutAll([], ia), ib);
  }

  /** A warning names the object and the section it clashed in. */
  datatype Warning = Warning(name: string, section: string)

  /** The warnings of the loop that assigns the entries of `es` over `base`:
      one for each entry whose name is already present when it is assigned. */
  function Clashes(section: string, base: AList<Obj>, es: AList<Obj>): seq<Warning> {
    if es == [] then []
    else
      var init := es[..|es| - 1];
      var last := es[|es| - 1];
      Clashes(section, base, init) + (if last.0 in Keys(PutAll(base, init)) then [Warning(last.0, section)] else [])
  }

  function SectionWarnings(section: string, a: seq<Obj>, b: seq<Obj>): seq<Warning>
    requires AllHaveName(a) && AllHaveName(b)
  {
    Clashes(section, PutAll([], IndexByName(a)), IndexByName(b))
  }

  /** The warnings printed while merging `Supported[..n]`. */
  function Warnings(c1: Sections, c2: Sections, n: nat): seq<Warning>
    requires n <= |Supported|
    requires Named(c1) && Named(c2)
  {
    if n == 0 then []
    else
      var s := Supported[n - 1];
      Warnings(c1, c2, n - 1) + SectionWarnings(s, Objects(c1, s), Objects(c2, s))
  }

  /** `fusion[section]` for each supported section of the two files. */
  function Fused(c1: Sections, c2: Sections): string --> AList<Obj>
    requires Named(c1) && Named(c2)
  {
    s requires s in Supported => SectionFusion(Objects(c1, s), Objects(c2, s))
  }

  datatype Merged = Merged(objets: Sections, warnings: seq<Warning>)

  /** `fusionner_sections`, with the warnings it prints: every supported
      section, and only those, holds the list of its merged objects. */
  function Merge(c1: Sections, c2: Sections): (r: Merged)
    requires Named(c1) && Named(c2)
    ensures r.objets.Keys == set s | s in Supported
  {
    var objets := map s | s in Supported :: Values(Fused(c1, c2)(s));
    Merged(objets, Warnings(c1, c2, |Supported|))
  }

  /** Each supported section of the result is the list of the values of that
      section's merge. */
  lemma {:induction false} MergeAt(c1: Sections, c2: Sections, s: string)
    requires Named(c1) && Named(c2) && s in Supported
    ensures AllHaveName(Objects(c1, s)) && AllHaveName(Objects(c2, s))
    ensures Merge(c1, c2).objets[s] == Values(SectionFusion(Objects(c1, s), Objects(c2, s)))
  {
  }

  /** Assigning one more entry of `es`. */
  lemma {:induction false} PutAllSnoc(base: AList<Obj>, es: AList<Obj>, j: nat)
    requires j < |es|
    ensures PutAll(base, es[..j + 1]) == Put(PutAll(base, es[..j]), es[j].0, es[j].1)
  {
    assert es[..j + 1][..j] == es[..j];
  }

  lemma {:induction false} ClashesSnoc(section: string, base: AList<Obj>, es: AList<Obj>, j: nat)
    requires j < |es|
    ensures Clashes(section, base, es[..j + 1]) == Clashes(section, base, es[..j]) +
      (if es[j].0 in Keys(PutAll(base, es[..j])) then [Warning(es[j].0, section)] else [])
  {
    assert es[..j + 1][..j] == es[..j];
  }

  /** One pass of the section loop: `fusion[section]` built from the two
      indexes, and the warnings printed on the way. */
  method MergeSection(section: string, a: seq<Obj>, b: seq<Obj>) returns (current: AList<Obj>, warnings: seq<Warning>)
    requires AllHaveName(a) && AllHaveName(b)
    ensures current == SectionFusion(a, b)
    ensures warnings == SectionWarnings(section, a, b)
  {
    var conf1 := IndexByName(a);
    var conf2 := IndexByName(b);
    current := PutAll([], conf1);
    ghost var start := current;
    warnings := [];
    for j := 0 to |conf2|
      invariant current == PutAll(start, conf2[..j])
      invariant warnings == Clashes(section, start, conf2[..j])
    {
      var (name, obj) := conf2[j];
      PutAllSnoc(start, conf2, j);
      ClashesSnoc(section, start, conf2, j);
      if name in Keys(current) {
        // the warning printed for a name present in both files
        warnings := warnings + [Warning(name, section)];
      }
      current := Put(current, name, obj);
    }
    assert conf2[..|conf2|] == conf2;
  }

  /** The map that files `f(k)` under each of the first `n` keys `k` of
      `ks`, built by assigning the keys one after the other. */
  function Fill<V>(ks: seq<string>, n: nat, f: string --> V): map<string, V>
    requires n <= |ks|
    requires forall k :: k in ks ==> f.requires(k)
  {
    if n == 0 then map[] else Fill(ks, n - 1, f)[ks[n - 1] := f(ks[n - 1])]
  }

  /** Only keys of `ks` are filled. */
  lemma {:induction false} FillKeys<V>(ks: seq<string>, n: nat, f: string --> V, k: string)
    requires n <= |ks|
    requires forall k :: k in ks ==> f.requires(k)
    requires k in Fill(ks, n, f)
    ensures exists j :: 0 <= j < n && ks[j] == k
  {
    if ks[n - 1] != k {
      FillKeys(ks, n - 1, f, k);
    }
  }

  /** With distinct keys, each key holds its own value. */
  lemma {:induction false} FillAt<V>(ks: seq<string>, n: nat, f: string --> V, j: nat)
    requires n <= |ks|
    requires forall k :: k in ks ==> f.requires(k)
    requires Distinct(ks) && j < n
    ensures ks[j] in Fill(ks, n, f) && Fill(ks, n, f)[ks[j]] == f(ks[j])
  {
    if j < n - 1 {
      FillAt(ks, n - 1, f, j);
    }
  }

  /** Filling every key of a list of distinct keys, then listing the values
      of each entry, is filing the listed values of `f(k)` under each `k`. */
  lemma {:induction false} FillValues<V>(ks: seq<string>, f: string --> AList<V>)
    requires forall k :: k in ks ==> f.requires(k)
    requires Distinct(ks)
    ensures (map k | k in Fill(ks, |ks|, f) :: Values(Fill(ks, |ks|, f)[k])) == map k | k in ks :: Values(f(k))
  {
    var m := Fill(ks, |ks|, f);
    forall k | k in ks ensures k in m && m[k] == f(k) {
      var j :| 0 <= j < |ks| && ks[j] == k;
      FillAt(ks, |ks|, f, j);
    }
    forall k | k in m ensures k in ks {
      FillKeys(ks, |ks|, f, k);
    }
  }

  /** One more section merged: its index is filed under its header and its
      warnings follow those printed before. */
  lemma {:induction false} MergeStep(c1: Sections, c2: Sections, n: nat, current: AList<Obj>, ws: seq<Warning>)
    requires n < |Supported|
    requires Named(c1) && Named(c2)
    requires current == SectionFusion(Objects(c1, Supported[n]), Objects(c2, Supported[n]))
    requires ws == SectionWarnings(Supported[n], Objects(c1, Supported[n]), Objects(c2, Supported[n]))
    ensures Fill(Supported, n + 1, Fused(c1, c2)) == Fill(Supported, n, Fused(c1, c2))[Supported[n] := current]
    ensures Warnings(c1, c2, n + 1) == Warnings(c1, c2, n) + ws
  {
  }

  /** The body of the loop over the supported sections, for `Supported[n]`. */
  method FuseSection(c1: Sections, c2: Sections, n: nat) returns (current: AList<Obj>, ws: seq<Warning>)
    requires n < |Supported|
    requires Named(c1) && Named(c2)
    ensures Fill(Supported, n + 1, Fused(c1, c2)) == Fill(Supported, n, Fused(c1, c2))[Supported[n] := current]
    ensures Warnings(c1, c2, n + 1) == Warnings(c1, c2, n) + ws
  {
    var section := Supported[n];
    current, ws := MergeSection(section, Objects(c1, section), Objects(c2, section));
    MergeStep(c1, c2, n, current, ws);
  }

  /** The loop of `fusionner_sections` over the supported sections: each
      section's merge is filed under its header, its warnings are printed. */
  method FuseSections(c1: Sections, c2: Sections) returns (fusion: map<string, AList<Obj>>, warnings: seq<Warning>)
    requires Named(c1) && Named(c2)
    ensures fusion == Fill(Supported, |Supported|, Fused(c1, c2))
    ensures warnings == Warnings(c1, c2, |Supported|)
  {
    fusion := map[];
    warnings := [];
    for n := 0 to |Supported|
      invariant fusion == Fill(Supported, n, Fused(c1, c2))
      invariant warnings == Warnings(c1, c2, n)
    {
      var current, ws := FuseSection(c1, c2, n);
      warnings := warnings + ws;
      fusion := fusion[Supported[n] := current];
    }
  }

  /** `fusionner_sections` as the source runs it: the loop over the supported
      sections, then the conversion of each index to its list of objects. */
  method MergeSections(c1: Sections, c2: Sections) returns (merged: Sections, warnings: seq<Warning>)
    requires Named(c1) && Named(c2)
    ensures merged == Merge(c1, c2).objets
    ensures warnings == Merge(c1, c2).warnings
  {
    var fusion;
    fusion, warnings := FuseSections(c1, c2);
    merged := map s | s in fusion :: Values(fusion[s]);
    SupportedDistinct();
    FillValues(Supported, Fused(c1, c2));
  }

  /** The last object of `objs` named `n`, as an independent reference. */
  function LastNamed(objs: seq<Obj>, n: string): (r: Option<Obj>)
    requires AllHaveName(objs)
    ensures r.None? <==> forall o :: o in objs ==> NameOf(o) != n
    ensures r.Some? ==> r.value in objs && NameOf(r.value) == n
  {
    if objs == [] then None
    else
      var init := objs[..|objs| - 1];
      var last := objs[|objs| - 1];
      assert objs == init + [last];
      if NameOf(last) == n then Some(last) else LastNamed(init, n)
  }

  /** The object the merge keeps under the name `n`: the second file's last
      one if it has any, otherwise the first file's last one. */
  function Winner(a: seq<Obj>, b: seq<Obj>, n: string): (r: Option<Obj>)
    requires AllHaveName(a) && AllHaveName(b)
    ensures r.None? <==> forall o :: o in a + b ==> NameOf(o) != n
  {
    var inB := LastNamed(b, n);
    if inB.Some? then inB else LastNamed(a, n)
  }

  lemma {:induction false} EntriesLastNamed(objs: seq<Obj>, n: string)
    requires AllHaveName(objs)
    ensures LastValue(Entries(objs), n) == LastNamed(objs, n)
  {
    if objs != [] {
      var init := objs[..|objs| - 1];
      assert forall o :: o in init ==> o in objs;
      var es := Entries(objs);
      assert es[..|es| - 1] == Entries(init);
      EntriesLastNamed(init, n);
    }
  }

  /** Looking a name up in the index finds the last object of that name. */
  lemma {:induction false} IndexLookup(objs: seq<Obj>, n: string)
    requires AllHaveName(objs)
    ensures Lookup(IndexByName(objs), n) == LastNamed(objs, n)
  {
    LookupPutAll([], Entries(objs), n);
    EntriesLastNamed(objs, n);
  }

  /** Looking a name up in the merged section finds the winner. */
  lemma {:induction false} SectionLookup(a: seq<Obj>, b: seq<Obj>, n: string)
    requires AllHaveName(a) && AllHaveName(b)
    ensures Lookup(SectionFusion(a, b), n) == Winner(a, b, n)
  {
    var ia, ib := IndexByName(a), IndexByName(b);
    IndexFacts(a);
    IndexFacts(b);
    LookupPutAll(PutAll([], ia), ib, n);
    LookupPutAll([], ia, n);
    LastValueLookup(ib, n);
    LastValueLookup(ia, n);
    IndexLookup(a, n);
    IndexLookup(b, n);
  }

  /** Every object kept in a merged section is the winner for its name. */
  lemma {:induction false} SectionKeepsWinner(a: seq<Obj>, b: seq<Obj>, o: Obj)
    requires AllHaveName(a) && AllHaveName(b)
    requires o in Values(SectionFusion(a, b))
    ensures HasName(o) && Winner(a, b, NameOf(o)) == Some(o)
  {
    var f := SectionFusion(a, b);
    SectionFacts(a, b);
    var i :| 0 <= i < |f| && Values(f)[i] == o;
    assert f[i] in f;
    LookupAt(f, i);
    SectionLookup(a, b, f[i].0);
  }

  /** The winner for every name of either file is kept. */
  lemma {:induction false} SectionHasWinner(a: seq<Obj>, b: seq<Obj>, o: Obj)
    requires AllHaveName(a) && AllHaveName(b)
    requires HasName(o) && Winner(a, b, NameOf(o)) == Some(o)
    ensures o in Values(SectionFusion(a, b))
  {
    var f := SectionFusion(a, b);
    SectionLookup(a, b, NameOf(o));
    var i :| 0 <= i < |f| && f[i] == (NameOf(o), o);
    assert Values(f)[i] == o;
  }

  /** An object is in a merged section exactly when it is the winner for
      its name: the second file's object overrides the first's, and among
      objects of the same file the last one stays. */
  lemma {:induction false} MergeWinner(c1: Sections, c2: Sections, s: string, o: Obj)
    requires Named(c1) && Named(c2)
    requires s in Supported
    ensures o in Merge(c1, c2).objets[s] <==>
      HasName(o) && Winner(Objects(c1, s), Objects(c2, s), NameOf(o)) == Some(o)
  {
    MergeAt(c1, c2, s);
    var a, b := Objects(c1, s), Objects(c2, s);
    if o in Values(SectionFusion(a, b)) {
      SectionKeepsWinner(a, b, o);
    }
    if HasName(o) && Winner(a, b, NameOf(o)) == Some(o) {
      SectionHasWinner(a, b, o);
    }
  }

  /** Listing the values of a name-keyed index and indexing them again gives
      the index back. */
  lemma {:induction false} EntriesValues(f: AList<Obj>)
    requires KeyedByName(f)
    ensures AllHaveName(Values(f)) && Entries(Values(f)) == f
  {
    var vs := Values(f);
    assert AllHaveName(vs) by {
      forall o | o in vs ensures HasName(o) {
        var i :| 0 <= i < |vs| && vs[i] == o;
        assert f[i] in f;
      }
    }
    if f != [] {
      var init := f[..|f| - 1];
      var last := f[|f| - 1];
      assert forall p :: p in init ==> p in f;
      assert last in f;
      EntriesValues(init);
      assert vs[..|vs| - 1] == Values(init);
      assert f == init + [last];
    }
  }

  /** The names of a merged section: each name of either file once, in order
      of first appearance in the first file and then in the second. */
  lemma {:induction false} SectionNames(a: seq<Obj>, b: seq<Obj>)
    requires AllHaveName(a) && AllHaveName(b)
    ensures Keys(SectionFusion(a, b)) == AppendNew([], Names(a) + Names(b))
  {
    var ia, ib := IndexByName(a), IndexByName(b);
    IndexFacts(a);
    IndexFacts(b);
    assert Keys<Obj>([]) == [];
    PutAllKeys([], ia);
    PutAllKeys(PutAll([], ia), ib);
    AppendNewDedup([], Names(a));
    AppendNewDedup(AppendNew([], Names(a)), Names(b));
    AppendNewConcat([], Names(a), Names(b));
  }

  /** Every object of a merged section has a name, so the result can be
      merged again. */
  lemma {:induction false} MergeNamed(c1: Sections, c2: Sections)
    requires Named(c1) && Named(c2)
    ensures Named(Merge(c1, c2).objets)
  {
    var m := Merge(c1, c2).objets;
    forall s, o | s in Supported && o in Objects(m, s) ensures HasName(o) {
      MergeAt(c1, c2, s);
      SectionFacts(Objects(c1, s), Objects(c2, s));
      EntriesValues(SectionFusion(Objects(c1, s), Objects(c2, s)));
    }
  }

  /** The objects of a merged section, by name: each name of the section in
      either file exactly once, first those of the first file in their order,
      then the new ones of the second. */
  lemma {:induction false} MergeOrder(c1: Sections, c2: Sections, s: string)
    requires Named(c1) && Named(c2) && s in Supported
    ensures AllHaveName(Objects(c1, s)) && AllHaveName(Objects(c2, s))
    ensures AllHaveName(Merge(c1, c2).objets[s])
    ensures Names(Merge(c1, c2).objets[s]) == AppendNew([], Names(Objects(c1, s)) + Names(Objects(c2, s)))
  {
    var a, b := Objects(c1, s), Objects(c2, s);
    MergeAt(c1, c2, s);
    SectionFacts(a, b);
    EntriesValues(SectionFusion(a, b));
    SectionNames(a, b);
  }

  /** No two objects of a merged section share a name, and a name is in it
      exactly when one of the two files has it in that section. */
  lemma {:induction false} MergeNames(c1: Sections, c2: Sections, s: string, n: string)
    requires Named(c1) && Named(c2) && s in Supported
    ensures AllHaveName(Objects(c1, s)) && AllHaveName(Objects(c2, s))
    ensures AllHaveName(Merge(c1, c2).objets[s])
    ensures Distinct(Names(Merge(c1, c2).objets[s]))
    ensures n in Names(Merge(c1, c2).objets[s]) <==> n in Names(Objects(c1, s)) || n in Names(Objects(c2, s))
  {
    MergeOrder(c1, c2, s);
    assert Distinct([]);
    AppendNewDistinct([], Names(Objects(c1, s)) + Names(Objects(c2, s)));
  }

  /** Merging the result with the second file again changes no section:
      every object of the second file already won. */
  lemma {:induction false} SectionAgain(a: seq<Obj>, b: seq<Obj>)
    requires AllHaveName(a) && AllHaveName(b)
    ensures AllHaveName(Values(SectionFusion(a, b)))
    ensures SectionFusion(Values(SectionFusion(a, b)), b) == SectionFusion(a, b)
  {
    var f := SectionFusion(a, b);
    var ia, ib := IndexByName(a), IndexByName(b);
    SectionFacts(a, b);
    EntriesValues(f);
    assert Keys<Obj>([]) == [];
    PutAllFresh([], f);
    assert IndexByName(Values(f)) == f;
    IndexFacts(a);
    assert UniqueKeys<Obj>([]);
    PutAllUnique([], ia);
    PutAllTwice(PutAll([], ia), ib);
  }

  /** One section of merging the result with the second file again. */
  lemma {:induction false} MergeAgainAt(c1: Sections, c2: Sections, m: Sections, s: string)
    requires Named(c1) && Named(c2) && m == Merge(c1, c2).objets && Named(m) && s in Supported
    ensures Merge(m, c2).objets[s] == m[s]
  {
    MergeAt(c1, c2, s);
    MergeAt(m, c2, s);
    assert Objects(m, s) == m[s];
    SectionAgain(Objects(c1, s), Objects(c2, s));
  }

  lemma {:induction false} MergeAgain(c1: Sections, c2: Sections)
    requires Named(c1) && Named(c2)
    ensures Named(Merge(c1, c2).objets)
    ensures Merge(Merge(c1, c2).objets, c2).objets == Merge(c1, c2).objets
  {
    MergeNamed(c1, c2);
    var m := Merge(c1, c2).objets;
    var again := Merge(m, c2).objets;
    forall s | s in Supported ensures again[s] == m[s] {
      MergeAgainAt(c1, c2, m, s);
    }
    assert again.Keys == m.Keys;
  }

  /** With distinct names in `es`, an entry warns exactly when its name was
      in `base` before the loop. */
  lemma {:induction false} ClashesIff(section: string, base: AList<Obj>, es: AList<Obj>, w: Warning)
    requires UniqueKeys(es)
    ensures w in Clashes(section, base, es) <==> w.section == section && w.name in Keys(es) && w.name in Keys(base)
  {
    if es != [] {
      var init := es[..|es| - 1];
      var last := es[|es| - 1];
      assert es == init + [last];
      FreshSplit([], es);
      assert [] + init == init;
      ClashesIff(section, base, init, w);
      PutAllKeys(base, init);
      var clash := last.0 in Keys(PutAll(base, init));
      assert clash <==> last.0 in Keys(base);
      var extra := if clash then [Warning(last.0, section)] else [];
      assert Clashes(section, base, es) == Clashes(section, base, init) + extra;
      KeysAppend(init, [last]);
      assert Keys([last]) == [last.0];
    }
  }

  /** A section warns about exactly the names it has in both files. */
  lemma {:induction false} SectionWarningsIff(section: string, a: seq<Obj>, b: seq<Obj>, w: Warning)
    requires AllHaveName(a) && AllHaveName(b)
    ensures w in SectionWarnings(section, a, b) <==> w.section == section && w.name in Names(a) && w.name in Names(b)
  {
    IndexFacts(a);
    IndexFacts(b);
    assert Keys<Obj>([]) == [];
    PutAllKeys([], IndexByName(a));
    ClashesIff(section, PutAll([], IndexByName(a)), IndexByName(b), w);
  }

  /** The name of `w` is in its section in both files. */
  predicate Clash(c1: Sections, c2: Sections, w: Warning)
    requires Named(c1) && Named(c2)
  {
    w.section in Supported && w.name in Names(Objects(c1, w.section)) && w.name in Names(Objects(c2, w.section))
  }

  /** The warnings of the first `n` sections are those of their clashes. */
  lemma {:induction false} WarningsIff(c1: Sections, c2: Sections, n: nat, w: Warning)
    requires n <= |Supported|
    requires Named(c1) && Named(c2)
    ensures w in Warnings(c1, c2, n) <==> Clash(c1, c2, w) && Visited(n, w.section)
  {
    if n > 0 {
      var s := Supported[n - 1];
      var ws := SectionWarnings(s, Objects(c1, s), Objects(c2, s));
      WarningsIff(c1, c2, n - 1, w);
      SectionWarningsIff(s, Objects(c1, s), Objects(c2, s), w);
      assert w in Warnings(c1, c2, n) <==> w in Warnings(c1, c2, n - 1) || w in ws;
      if w.section == s {
        assert s in Supported;
        assert Visited(n, w.section);
      } else {
        assert w !in ws;
        assert Visited(n, w.section) == Visited(n - 1, w.section);
      }
    }
  }

  /** A warning is printed exactly for each name a supported section has in
      both files. */
  lemma {:induction false} MergeWarnings(c1: Sections, c2: Sections, w: Warning)
    requires Named(c1) && Named(c2)
    ensures w in Merge(c1, c2).warnings <==> Clash(c1, c2, w)
  {
    WarningsIff(c1, c2, |Supported|, w);
    VisitedAll(|Supported|, w.section);
    assert Supported[..|Supported|] == Supported;
  }

  /** No warning is printed twice. */
  predicate Unrepeated(ws: seq<Warning>) {
    forall i, j :: 0 <= i < j < |ws| ==> ws[i] != ws[j]
  }

  lemma {:induction false} UnrepeatedConcat(a: seq<Warning>, b: seq<Warning>)
    requires Unrepeated(a) && Unrepeated(b)
    requires forall w :: w in a ==> w !in b
    ensures Unrepeated(a + b)
  {
    forall i, j | 0 <= i < j < |a + b| ensures (a + b)[i] != (a + b)[j] {
      if j < |a| {
        assert (a + b)[i] == a[i] && (a + b)[j] == a[j];
      } else if i >= |a| {
        assert (a + b)[i] == b[i - |a|] && (a + b)[j] == b[j - |a|];
      } else {
        assert (a + b)[i] == a[i] && (a + b)[j] == b[j - |a|];
        assert a[i] in a;
      }
    }
  }

  /** With distinct names in `es`, each clash is reported once. */
  lemma {:induction false} ClashesUnrepeated(section: string, base: AList<Obj>, es: AList<Obj>)
    requires UniqueKeys(es)
    ensures Unrepeated(Clashes(section, base, es))
  {
    if es != [] {
      var init := es[..|es| - 1];
      var last := es[|es| - 1];
      FreshSplit([], es);
      assert [] + init == init;
      ClashesUnrepeated(section, base, init);
      var extra := if last.0 in Keys(PutAll(base, init)) then [Warning(last.0, section)] else [];
      forall w | w in Clashes(section, base, init) ensures w !in extra {
        ClashesIff(section, base, init, w);
      }
      UnrepeatedConcat(Clashes(section, base, init), extra);
    }
  }

  /** A section warns about each name it has in both files once. */
  lemma {:induction false} SectionWarningsUnrepeated(section: string, a: seq<Obj>, b: seq<Obj>)
    requires AllHaveName(a) && AllHaveName(b)
    ensures Unrepeated(SectionWarnings(section, a, b))
  {
    IndexFacts(b);
    ClashesUnrepeated(section, PutAll([], IndexByName(a)), IndexByName(b));
  }

  /** The first `n` sections print no warning twice. */
  lemma {:induction false} WarningsUnrepeated(c1: Sections, c2: Sections, n: nat)
    requires n <= |Supported|
    requires Named(c1) && Named(c2)
    ensures Unrepeated(Warnings(c1, c2, n))
  {
    if n > 0 {
      var s := Supported[n - 1];
      var ws := SectionWarnings(s, Objects(c1, s), Objects(c2, s));
      WarningsUnrepeated(c1, c2, n - 1);
      SectionWarningsUnrepeated(s, Objects(c1, s), Objects(c2, s));
      forall w | w in Warnings(c1, c2, n - 1) ensures w !in ws {
        WarningsIff(c1, c2, n - 1, w);
        VisitedAll(n - 1, w.section);
        SectionWarningsIff(s, Objects(c1, s), Objects(c2, s), w);
        SupportedDistinct();
        assert w.section != s;
      }
      UnrepeatedConcat(Warnings(c1, c2, n - 1), ws);
    }
  }

  /** The merge warns once for each name a supported section has in both
      files, and never twice for the same one. */
  lemma {:induction false} MergeWarningsOnce(c1: Sections, c2: Sections)
    requires Named(c1) && Named(c2)
    ensures Unrepeated(Merge(c1, c2).warnings)
  {
    WarningsUnrepeated(c1, c2, |Supported|);
  }

  /** Every object of a merged section comes from that section of one of
      the two files. */
  lemma {:induction false} MergeFrom(c1: Sections, c2: Sections, s: string, o: Obj)
    requires Named(c1) && Named(c2) && s in Supported
    requires o in Merge(c1, c2).objets[s]
    ensures o in Objects(c1, s) || o in Objects(c2, s)
  {
    var f := SectionFusion(Objects(c1, s), Objects(c2, s));
    MergeAt(c1, c2, s);
    SectionFacts(Objects(c1, s), Objects(c2, s));
    var vs := Values(f);
    assert o in vs;
    var i :| 0 <= i < |vs| && vs[i] == o;
    assert f[i].1 == o && f[i] in f;
  }
}
