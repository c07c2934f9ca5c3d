/** Reading back what the writer wrote: for objects shaped as the parser
    builds them, `lire_sections_fortigate` applied to the lines that
    `ecrire_sections_fortigate` produces returns those objects, section by
    section, in order.

    The proof follows the writer's output block by block: a section header,
    its `edit` blocks, then `end` and an empty line. */
module RoundTrip {
  import opened Wrappers
  import opened Text
  import opened AssocLists
  import opened Config
  import opened Parser
  import opened Writer

  /** `lines` holds `w` from `lines[i]` on. */
  predicate Holds(lines: seq<string>, i: nat, w: seq<string>) {
    i + |w| <= |lines| && lines[i..i + |w|] == w
  }

  /** A window of `lines` holding `a + b` holds `a`, then `b`. */
  lemma {:induction false} Window(lines: seq<string>, i: nat, a: seq<string>, b: seq<string>)
    requires Holds(lines, i, a + b)
    ensures Holds(lines, i, a) && Holds(lines, i + |a|, b)
  {
    assert lines[i..i + |a|] == lines[i..i + |a| + |b|][..|a|];
    assert lines[i + |a|..i + |a| + |b|] == lines[i..i + |a| + |b|][|a|..];
  }

  /** `    edit "<name>"` once stripped. */
  lemma {:induction false} StripEdit(name: string)
    ensures Strip(EditLine(name)) == "edit \"" + name + "\""
  {
    var x := "edit \"" + name + "\"";
    assert EditLine(name) == "    " + x + "";
    StripSurrounded("    ", x, "");
  }

  /** `        set <k> "<v>"` once stripped. */
  lemma {:induction false} StripSet(k: string, v: string)
    ensures Strip(SetLine(k, v)) == "set " + k + " \"" + v + "\""
  {
    var x := "set " + k + " \"" + v + "\"";
    assert SetLine(k, v) == "        " + x + "";
    StripSurrounded("        ", x, "");
  }

  /** A header, `end`, `next` and the empty line are their own stripped form. */
  lemma {:induction false} StripBare(l: string)
    requires l in Supported || l == EndLine || l == NextLine || l == ""
    ensures Strip(l) == if l == NextLine then "next" else l
  {
    if l == NextLine {
      assert l == "    " + "next" + "";
      StripSurrounded("    ", "next", "");
    } else if l != "" {
      assert l == "" + l + "";
      StripSurrounded("", l, "");
    }
  }

  /** The attribute loop reads a written `set` line back as the assignment
      it came from. */
  lemma {:induction false} ClassifySet(k: string, v: string)
    requires ValidKey(k) && k != "uuid" && EndsFree(v, '"')
    ensures ClassifyAttr(Strip(SetLine(k, v))) == Assign(k, v)
  {
    StripSet(k, v);
    var l := "set " + k + " \"" + v + "\"";
    var w := "\"" + v + "\"";
    assert l[..4] == "set ";
    assert l[4..] == k + " " + w;
    assert (k + " " + w)[|k|] == ' ';
    SplitOnceAtSpace(k, w);
    assert w == ['"'] + v + ['"'];
    StripCharWrapped(v, '"');
  }

  /** The parser reads a written `edit` line back as the name it came from. */
  lemma {:induction false} EditNameBack(name: string)
    requires EndsFree(name, '"')
    ensures StartsWith(Strip(EditLine(name)), "edit ")
    ensures EditName(Strip(EditLine(name))) == name
  {
    StripEdit(name);
    var l := "edit \"" + name + "\"";
    var w := "\"" + name + "\"";
    assert l[..5] == "edit ";
    assert l == "edit" + " " + w;
    SplitOnceAtSpace("edit", w);
    assert w == ['"'] + name + ['"'];
    StripCharWrapped(name, '"');
  }

  /** No line that starts other than `config` is a supported header. */
  lemma {:induction false} NotHeader(l: string)
    requires l != [] && l[0] != 'c'
    ensures l !in Supported
  {
    forall h | h in Supported ensures h[0] == 'c' {
      SupportedHeaders(h);
      assert h[..7][0] == h[0];
    }
  }

  /** An `edit` line is not a header. */
  lemma {:induction false} EditNotHeader(l: string)
    requires StartsWith(l, "edit ")
    ensures l !in Supported
  {
    assert l[0] == l[..5][0];
    NotHeader(l);
  }

  /** A line the outer loop steps over without effect when no section is
      active: not a supported header and not `end`. */
  predicate Passive(l: string) {
    Strip(l) !in Supported && Strip(l) != "end"
  }

  /** With no active section, passive lines change nothing. */
  lemma {:induction false} ScanSkip(lines: seq<string>, p: nat, q: nat, requested: seq<string>, active: Option<string>, objets: Sections)
    requires p <= q <= |lines|
    requires forall s :: s in requested ==> s in Supported && s in objets
    requires !Truthy(active)
    requires forall j :: p <= j < q ==> Passive(lines[j])
    ensures Scan(lines, p, requested, active, objets) == Scan(lines, q, requested, active, objets)
    decreases q - p
  {
    if p < q {
      assert Passive(lines[p]);
      assert StepAt(lines, p, requested, active, objets) == Advance(p + 1, active, objets);
      ScanSkip(lines, p + 1, q, requested, active, objets);
    }
  }

  /** An object as the parser builds it has a name, the first entry. */
  lemma {:induction false} ShapedName(o: Obj)
    requires Shaped(o)
    ensures HasName(o) && NameOf(o) == o[0].1
  {
    assert Keys(o)[0] == "name";
    LookupAt(o, 0);
  }

  /** Past the leading `name`, every entry of a shaped object gets a `set`
      line. */
  lemma {:induction false} AttrLinesSnoc(o: Obj, j: nat)
    requires Shaped(o) && 2 <= j <= |o|
    ensures AttrLines(o, j) == AttrLines(o, j - 1) + [SetLine(o[j - 1].0, o[j - 1].1)]
  {
    assert o[0].0 != o[j - 1].0;
  }

  /** The entry at `t` has a key none of the entries before it has, and
      the shape of a `set` line's key and value. */
  lemma {:induction false} ShapedEntry(o: Obj, t: nat, k: string, v: string)
    requires Shaped(o) && 1 <= t < |o| && o[t] == (k, v)
    ensures ValidKey(k) && k != "uuid" && EndsFree(v, '"')
    ensures Put(o[1..t], k, v) == o[1..t + 1]
  {
    assert o[t] in o;
    FreshAt(o, t, k);
    PutFresh(o[1..t], k, v);
    assert o[1..t] + [o[t]] == o[1..t + 1];
  }

  /** The key at `t` is none of the keys before it, past the name. */
  lemma {:induction false} FreshAt(o: Obj, t: nat, k: string)
    requires UniqueKeys(o) && 1 <= t < |o| && o[t].0 == k
    ensures k !in Keys(o[1..t])
  {
    var front := o[1..t];
    forall u | 0 <= u < |front| ensures Keys(front)[u] != k {
      assert front[u] == o[u + 1];
      assert o[u + 1].0 != o[t].0;
    }
  }

  /** `lines[x]` is the written `set` line of the entry `p`. */
  predicate SetAt(lines: seq<string>, x: nat, p: (string, string)) {
    x < |lines| && lines[x] == SetLine(p.0, p.1)
  }

  /** A written `set` line is read back as its assignment. */
  lemma {:induction false} SetLineReads(k: string, v: string)
    requires ValidKey(k) && k != "uuid" && EndsFree(v, '"')
    ensures Strip(SetLine(k, v)) != "next"
    ensures ClassifyAttr(Strip(SetLine(k, v))) == Assign(k, v)
  {
    StripSet(k, v);
    assert Strip(SetLine(k, v))[0] == 's';
    ClassifySet(k, v);
  }

  /** The lines from `i` on are the written `set` lines of `o[1..j]`. */
  predicate SetsAt(lines: seq<string>, i: nat, o: Obj, j: nat)
    requires 1 <= j <= |o|
  {
    j == 1 || (SetsAt(lines, i, o, j - 1) && SetAt(lines, i + j - 2, o[j - 1]))
  }

  lemma {:induction false} WindowSets(lines: seq<string>, i: nat, o: Obj, j: nat)
    requires Shaped(o) && 1 <= j <= |o|
    requires Holds(lines, i, AttrLines(o, j))
    ensures |AttrLines(o, j)| == j - 1 && SetsAt(lines, i, o, j)
  {
    if j > 1 {
      var m := i + j - 2;
      AttrLinesSnoc(o, j);
      Window(lines, i, AttrLines(o, j - 1), [SetLine(o[j - 1].0, o[j - 1].1)]);
      WindowSets(lines, i, o, j - 1);
      assert lines[m] == lines[m..m + 1][0];
    }
  }

  /** Each line `SetsAt` speaks of is read back as its entry. */
  lemma {:induction false} SetsAtIndex(lines: seq<string>, i: nat, o: Obj, j: nat, t: nat)
    requires 1 <= t < j <= |o| && SetsAt(lines, i, o, j)
    ensures SetAt(lines, i + t - 1, o[t])
    decreases j
  {
    if t < j - 1 {
      SetsAtIndex(lines, i, o, j - 1, t);
    }
  }

  /** The attribute loop goes past `lines[x]`, turning the entries gathered
      so far from `p` into `q`. */
  predicate StepsTo(lines: seq<string>, x: nat, p: Obj, q: Obj) {
    x < |lines| && Strip(lines[x]) != "next"
    && !ClassifyAttr(Strip(lines[x])).BadUnpack? && Absorb(p, ClassifyAttr(Strip(lines[x]))) == q
  }

  /** From `lines[i + k]` on, with the entries `ps[k]` gathered, a chain of
      lines the attribute loop goes past, ended by a `next` line, gathers the
      last entries of the chain. */
  lemma {:induction false} CollectChain(lines: seq<string>, i: nat, ps: seq<Obj>, k: nat, e: nat)
    requires k < |ps| && forall j :: k <= j < |ps| - 1 ==> StepsTo(lines, i + j, ps[j], ps[j + 1])
    requires e == i + |ps| - 1 && e < |lines| && Strip(lines[e]) == "next"
    ensures CollectAttrs(lines, i + k, ps[k]) == Collected(ps[|ps| - 1], e - i - k, false)
    decreases |ps| - k
  {
    if k + 1 < |ps| {
      assert StepsTo(lines, i + k, ps[k], ps[k + 1]);
      var a := ClassifyAttr(Strip(lines[i + k]));
      CollectStep(lines, i + k, ps[k], a, CollectAttrs(lines, i + k + 1, ps[k + 1]));
      CollectChain(lines, i, ps, k + 1, e);
    }
  }

  /** A line read as the assignment of `v` to `k` takes the attribute loop
      from `p` to `p` with `k` set to `v`. */
  lemma {:induction false} AssignStep(lines: seq<string>, x: nat, l: string, k: string, v: string, p: Obj, q: Obj)
    requires x < |lines| && lines[x] == l
    requires Strip(l) != "next" && ClassifyAttr(Strip(l)) == Assign(k, v) && Put(p, k, v) == q
    ensures StepsTo(lines, x, p, q)
  {
  }

  /** The written `set` line of `o[t]` adds that entry to `o[1..t]`. */
  lemma {:induction false} EntryReadAt(lines: seq<string>, i: nat, o: Obj, t: nat)
    requires Shaped(o) && 1 <= t < |o| && SetsAt(lines, i, o, |o|)
    ensures StepsTo(lines, i + t - 1, o[1..t], o[1..t + 1])
  {
    var k, v := o[t].0, o[t].1;
    SetsAtIndex(lines, i, o, |o|, t);
    ShapedEntry(o, t, k, v);
    SetLineReads(k, v);
    AssignStep(lines, i + t - 1, SetLine(k, v), k, v, o[1..t], o[1..t + 1]);
  }

  /** The entries of `o` past its name, gathered one more at a time. */
  function Prefixes(o: Obj): (ps: seq<Obj>)
    requires |o| >= 1
    ensures |ps| == |o| && forall k :: 0 <= k < |o| ==> ps[k] == o[1..k + 1]
  {
    seq(|o|, k requires 0 <= k < |o| => o[1..k + 1])
  }

  /** The written `set` lines of an object gather its entries one by one. */
  lemma {:induction false} EntriesReadAt(lines: seq<string>, i: nat, o: Obj)
    requires Shaped(o) && SetsAt(lines, i, o, |o|)
    ensures forall j :: 0 <= j < |o| - 1 ==> StepsTo(lines, i + j, Prefixes(o)[j], Prefixes(o)[j + 1])
  {
    forall j | 0 <= j < |o| - 1 ensures StepsTo(lines, i + j, Prefixes(o)[j], Prefixes(o)[j + 1]) {
      EntryReadAt(lines, i, o, j + 1);
    }
  }

  /** The `set` lines of an object, followed by its `next` line, collect the
      object's attributes and stop at the `next` without raising. */
  lemma {:induction false} CollectObject(lines: seq<string>, i: nat, o: Obj)
    requires Shaped(o) && SetsAt(lines, i, o, |o|)
    requires i + |o| - 1 < |lines| && Strip(lines[i + |o| - 1]) == "next"
    ensures CollectAttrs(lines, i, []) == Collected(o[1..], |o| - 1, false)
  {
    EntriesReadAt(lines, i, o);
    var ps := Prefixes(o);
    assert ps[0] == [] && ps[|o| - 1] == o[1..];
    CollectChain(lines, i, ps, 0, i + |o| - 1);
  }

  /** The entries after `name` keep the parser's shape and none is `name`. */
  lemma {:induction false} ShapedTail(o: Obj)
    requires Shaped(o)
    ensures EndsFree(o[0].1, '"') && WellKeyed(o[1..])
    ensures forall p :: p in o[1..] ==> p.0 != "name"
  {
    assert o[0] in o;
    forall p | p in o[1..] ensures p in o && p.0 != "name" {
      var t :| 0 <= t < |o[1..]| && o[1..][t] == p;
      assert o[t + 1] == p;
    }
  }

  /** `{'name': ...}` updated with the other entries of a shaped object is
      that object. */
  lemma {:induction false} RebuildObject(o: Obj)
    requires Shaped(o)
    ensures EndsFree(o[0].1, '"') && WellKeyed(o[1..])
    ensures NewObject(o[0].1, o[1..]) == o
  {
    ShapedTail(o);
    var base := [("name", o[0].1)];
    PutAllFresh(base, o[1..]);
    assert base + o[1..] == o;
  }

  /** The objects `xs` added at the end of the active section, if any. */
  function AddObjects(objets: Sections, active: Option<string>, xs: seq<Obj>): (r: Sections)
    ensures r.Keys == objets.Keys
  {
    if Truthy(active) && active.value in objets then objets[active.value := objets[active.value] + xs]
    else objets
  }

  lemma {:induction false} AddNothing(objets: Sections, active: Option<string>)
    ensures AddObjects(objets, active, []) == objets
  {
    if Truthy(active) && active.value in objets {
      assert objets[active.value] + [] == objets[active.value];
    }
  }

  /** What an object block `lines[q..q + |o| + 1]` written from `o` reads
      as: an `edit` line naming it, lines read back as its other entries,
      a `next` line; and none of them a header or `end`. */
  predicate ObjectAt(lines: seq<string>, q: nat, o: Obj)
    requires Shaped(o)
  {
    && q + |o| < |lines|
    && lines[q] == EditLine(o[0].1)
    && SetsAt(lines, q + 1, o, |o|)
    && lines[q + |o|] == NextLine
  }

  /** Where an object block sits in `lines`. */
  lemma {:induction false} ObjectWindow(lines: seq<string>, q: nat, o: Obj)
    requires Shaped(o) && HasName(o)
    requires Holds(lines, q, ObjectLines(o))
    ensures |ObjectLines(o)| == |o| + 1
    ensures ObjectAt(lines, q, o)
  {
    ShapedName(o);
    var attrs := AttrLines(o, |o|);
    var n := |attrs|;
    var w := lines[q..q + |ObjectLines(o)|];
    assert w == [EditLine(NameOf(o))] + attrs + [NextLine];
    assert lines[q] == w[0];
    forall t | 0 <= t < n ensures lines[q + 1 + t] == attrs[t] {
      assert lines[q + 1 + t] == w[1 + t];
    }
    assert lines[q + 1..q + 1 + n] == attrs;
    WindowSets(lines, q + 1, o, |o|);
    assert lines[q + 1 + n] == w[1 + n];
  }

  /** No line of an object block is a header or `end`. */
  lemma {:induction false} BlockPassive(lines: seq<string>, q: nat, o: Obj, j: nat)
    requires Shaped(o) && ObjectAt(lines, q, o) && q <= j <= q + |o|
    ensures Passive(lines[j])
  {
    if j == q {
      StripEdit(o[0].1);
    } else if j == q + |o| {
      StripBare(NextLine);
    } else {
      SetsAtIndex(lines, q + 1, o, |o|, j - q);
      var l := SetLine(o[j - q].0, o[j - q].1);
      StripSet(o[j - q].0, o[j - q].1);
      assert Strip(l)[0] == 's';
      NotHeader(Strip(l));
    }
  }

  /** The outer loop, on a written `edit` line inside an active section,
      reads the whole block and appends the object it describes. */
  lemma {:induction false} StepObject(lines: seq<string>, q: nat, n: nat, o: Obj, requested: seq<string>, active: Option<string>, objets: Sections)
    requires Shaped(o) && HasName(o) && NameOf(o) == o[0].1
    requires forall s :: s in requested ==> s in Supported && s in objets
    requires Truthy(active) && active.value in objets
    requires q < |lines| && Strip(lines[q]) == "edit \"" + o[0].1 + "\""
    requires CollectAttrs(lines, q + 1, []) == Collected(o[1..], n, false)
    ensures StepAt(lines, q, requested, active, objets) == Advance(q + n + 2, active, Append(objets, active.value, o))
  {
    var name := o[0].1;
    var ligne := Strip(lines[q]);
    ShapedTail(o);
    EditNameBack(name);
    StripEdit(name);
    assert ligne == Strip(EditLine(name));
    EditNotHeader(ligne);
    StepEditAppends(lines, q, requested, active, objets, CollectAttrs(lines, q + 1, []));
    RebuildObject(o);
  }

  /** The outer loop goes on from where one pass leaves it. */
  lemma {:induction false} ScanAdvance(lines: seq<string>, i: nat, requested: seq<string>, active: Option<string>, objets: Sections,
                    next: nat, active': Option<string>, objets': Sections)
    requires i < |lines|
    requires forall s :: s in requested ==> s in objets
    requires Truthy(active) ==> active.value in objets
    requires StepAt(lines, i, requested, active, objets) == Advance(next, active', objets')
    ensures Truthy(active') ==> active'.value in objets'
    ensures Scan(lines, i, requested, active, objets) == Scan(lines, next, requested, active', objets')
  {
  }

  /* The proof is in two layers. The lemmas named `...Readable` look at the
     written lines and conclude what single passes of the outer loop do
     (`StepAt`, or lines it steps over); the lemmas named `Scan...` chain
     those passes into runs of the loop and only pass the facts about the
     lines along. Keeping the two apart keeps each proof small, and so does
     naming every position and every state a `Scan...` lemma speaks of as a
     parameter. */

  /** The objects `xs` added at the end of the active section, one after
      the other, as one. */
  lemma {:induction false} AddObjectsSnoc(objets: Sections, active: Option<string>, xs: seq<Obj>, o: Obj)
    ensures AddObjects(AddObjects(objets, active, xs), active, [o]) == AddObjects(objets, active, xs + [o])
  {
    if Truthy(active) && active.value in objets {
      assert objets[active.value] + xs + [o] == objets[active.value] + (xs + [o]);
    }
  }

  /** The outer loop, over an object block `lines[q..e]` holding `o`, adds
      `o` at the end of the active section, if any: inside an active section
      one pass reads the whole block and appends `o`; outside one, every line
      of the block is stepped over. */
  lemma {:induction false} ObjectReadable(lines: seq<string>, q: nat, e: nat, o: Obj, requested: seq<string>, active: Option<string>,
                       objets: Sections, after: Sections)
    requires Shaped(o) && ObjectAt(lines, q, o) && e == q + |o| + 1
    requires forall s :: s in requested ==> s in Supported && s in objets
    requires Truthy(active) ==> active.value in objets
    requires after == AddObjects(objets, active, [o])
    ensures Scan(lines, q, requested, active, objets) == Scan(lines, e, requested, active, after)
  {
    if Truthy(active) {
      ObjectAppended(lines, q, e, o, requested, active, objets);
    } else {
      ObjectSkipped(lines, q, e, o, requested, active, objets);
    }
  }

  lemma {:induction false} ObjectAppended(lines: seq<string>, q: nat, e: nat, o: Obj, requested: seq<string>, active: Option<string>, objets: Sections)
    requires Shaped(o) && ObjectAt(lines, q, o) && e == q + |o| + 1
    requires forall s :: s in requested ==> s in Supported && s in objets
    requires Truthy(active) && active.value in objets
    ensures Scan(lines, q, requested, active, objets) == Scan(lines, e, requested, active, AddObjects(objets, active, [o]))
  {
    ShapedName(o);
    StripEdit(o[0].1);
    StripBare(NextLine);
    CollectObject(lines, q + 1, o);
    StepObject(lines, q, |o| - 1, o, requested, active, objets);
    ScanAdvance(lines, q, requested, active, objets, e, active, AddObjects(objets, active, [o]));
  }

  lemma {:induction false} ObjectSkipped(lines: seq<string>, q: nat, e: nat, o: Obj, requested: seq<string>, active: Option<string>, objets: Sections)
    requires Shaped(o) && ObjectAt(lines, q, o) && e == q + |o| + 1
    requires forall s :: s in requested ==> s in Supported && s in objets
    requires !Truthy(active)
    ensures Scan(lines, q, requested, active, objets) == Scan(lines, e, requested, active, AddObjects(objets, active, [o]))
  {
    forall j | q <= j < e ensures Passive(lines[j]) {
      BlockPassive(lines, q, o, j);
    }
    ScanSkip(lines, q, e, requested, active, objets);
  }

  /** How many lines the writer gives the objects `objs[..k]`. */
  function Span(objs: seq<Obj>, k: nat): nat
    requires k <= |objs|
  {
    if k == 0 then 0 else Span(objs, k - 1) + |objs[k - 1]| + 1
  }

  lemma {:induction false} AttrLinesLength(o: Obj, j: nat)
    requires Shaped(o) && 1 <= j <= |o|
    ensures |AttrLines(o, j)| == j - 1
  {
    if j > 1 {
      AttrLinesSnoc(o, j);
      AttrLinesLength(o, j - 1);
    }
  }

  /** The objects as the parser builds them take `Span` lines. */
  lemma {:induction false} SpanLines(objs: seq<Obj>, k: nat)
    requires k <= |objs| && forall x :: x in objs ==> Shaped(x)
    ensures ObjectsLines(objs, k).ok && |ObjectsLines(objs, k).lines| == Span(objs, k)
  {
    if k > 0 {
      var o := objs[k - 1];
      assert o in objs;
      ShapedName(o);
      SpanLines(objs, k - 1);
      AttrLinesLength(o, |o|);
    }
  }

  /** Every object of `objs[..k]`, where the writer put it, reads as
      `ObjectAt` says. */
  predicate ObjectsAt(lines: seq<string>, p: nat, objs: seq<Obj>, k: nat)
    requires k <= |objs| && forall x :: x in objs ==> Shaped(x)
  {
    k > 0 ==>
      && ObjectsAt(lines, p, objs, k - 1)
      && ObjectAt(lines, p + Span(objs, k - 1), objs[k - 1])
  }

  lemma {:induction false} ObjectsWindow(lines: seq<string>, p: nat, objs: seq<Obj>, k: nat)
    requires k <= |objs| && forall x :: x in objs ==> Shaped(x)
    requires Holds(lines, p, ObjectsLines(objs, k).lines)
    ensures ObjectsAt(lines, p, objs, k)
  {
    if k > 0 {
      var o := objs[k - 1];
      assert o in objs;
      ShapedName(o);
      var before := ObjectsLines(objs, k - 1).lines;
      SpanLines(objs, k - 1);
      assert ObjectsLines(objs, k).lines == before + ObjectLines(o);
      Window(lines, p, before, ObjectLines(o));
      ObjectsWindow(lines, p, objs, k - 1);
      ObjectWindow(lines, p + |before|, o);
    }
  }

  /** The read state `objets` has every requested section and the active
      one, as the outer loop keeps it. */
  predicate Fits(requested: seq<string>, active: Option<string>, objets: Sections) {
    && (forall s :: s in requested ==> s in objets)
    && (Truthy(active) ==> active.value in objets)
  }

  /** The outer loop goes from `lines[i]` with the state `r` to `lines[i']`
      with the state `r'`, the cursor staying on `active`. */
  predicate Linked(lines: seq<string>, requested: seq<string>, active: Option<string>, r: Sections, i: nat, r': Sections, i': nat) {
    && Fits(requested, active, r) && Fits(requested, active, r')
    && Scan(lines, i, requested, active, r) == Scan(lines, i', requested, active, r')
  }

  /** The `j`-th move of a chain through the positions `pos` and the states
      `sts`. */
  predicate LinkedAt(lines: seq<string>, requested: seq<string>, active: Option<string>,
                     pos: seq<nat>, sts: seq<Sections>, j: nat) {
    j + 1 < |pos| == |sts| && Linked(lines, requested, active, sts[j], pos[j], sts[j + 1], pos[j + 1])
  }

  /** How many of the first `k` moves of the chain through `pos` and `sts`
      fail to hold. */
  function Broken(lines: seq<string>, requested: seq<string>, active: Option<string>,
                  pos: seq<nat>, sts: seq<Sections>, k: nat): nat {
    if k == 0 then 0
    else Broken(lines, requested, active, pos, sts, k - 1) + if LinkedAt(lines, requested, active, pos, sts, k - 1) then 0 else 1
  }

  /** A chain of such moves, through the positions `pos` and the states
      `sts`, goes from the first to the `k`-th. */
  lemma {:induction false} ScanChain(lines: seq<string>, requested: seq<string>, active: Option<string>,
                                     pos: seq<nat>, sts: seq<Sections>, k: nat)
    requires |pos| == |sts| && k < |pos| && Fits(requested, active, sts[0])
    requires Broken(lines, requested, active, pos, sts, k) == 0
    ensures Linked(lines, requested, active, sts[0], pos[0], sts[k], pos[k])
  {
    if k > 0 {
      ScanChain(lines, requested, active, pos, sts, k - 1);
    }
  }

  /** Where the writer puts the blocks of the first `k` objects of `objs`,
      and where the last of them ends. */
  function Positions(p: nat, objs: seq<Obj>, k: nat): (pos: seq<nat>)
    requires k <= |objs|
    ensures |pos| == k + 1
  {
    if k == 0 then [p] else Positions(p, objs, k - 1) + [p + Span(objs, k)]
  }

  /** The read state before each of the first `k` objects of `objs` is
      added, and after the last of them. */
  function States(objets: Sections, active: Option<string>, objs: seq<Obj>, k: nat): (sts: seq<Sections>)
    requires k <= |objs|
    ensures |sts| == k + 1
  {
    if k == 0 then [objets] else States(objets, active, objs, k - 1) + [AddObjects(objets, active, objs[..k])]
  }

  /** The `j`-th position is the start of the block of `objs[j]`. */
  lemma {:induction false} PositionAt(p: nat, objs: seq<Obj>, k: nat, j: nat)
    requires j <= k <= |objs|
    ensures Positions(p, objs, k)[j] == p + Span(objs, j)
    decreases k
  {
    if j < k {
      PositionAt(p, objs, k - 1, j);
    }
  }

  /** The `j`-th state holds the first `j` objects. */
  lemma {:induction false} StateAt(objets: Sections, active: Option<string>, objs: seq<Obj>, k: nat, j: nat)
    requires j <= k <= |objs|
    ensures States(objets, active, objs, k)[j] == AddObjects(objets, active, objs[..j])
    decreases k
  {
    if j < k {
      StateAt(objets, active, objs, k - 1, j);
    } else if j == 0 {
      assert objs[..0] == [];
      AddNothing(objets, active);
    }
  }

  /** The block of each object is where `ObjectsAt` says. */
  lemma {:induction false} ObjectsAtIndex(lines: seq<string>, p: nat, objs: seq<Obj>, k: nat, j: nat)
    requires j < k <= |objs| && forall x :: x in objs ==> Shaped(x)
    requires ObjectsAt(lines, p, objs, k)
    ensures ObjectAt(lines, p + Span(objs, j), objs[j])
    decreases k
  {
    if j < k - 1 {
      ObjectsAtIndex(lines, p, objs, k - 1, j);
    }
  }

  /** The block of `objs[j]` takes the read from the state before it to the
      state after it. */
  lemma {:induction false} ObjectLinked(lines: seq<string>, p: nat, objs: seq<Obj>, j: nat, requested: seq<string>,
                     active: Option<string>, objets: Sections, pos: seq<nat>, sts: seq<Sections>)
    requires j < |objs| && forall x :: x in objs ==> Shaped(x)
    requires forall s :: s in requested ==> s in Supported && s in objets
    requires Truthy(active) ==> active.value in objets
    requires ObjectsAt(lines, p, objs, |objs|)
    requires pos == Positions(p, objs, |objs|) && sts == States(objets, active, objs, |objs|)
    ensures Linked(lines, requested, active, sts[j], pos[j], sts[j + 1], pos[j + 1])
  {
    ObjectsAtIndex(lines, p, objs, |objs|, j);
    PositionAt(p, objs, |objs|, j);
    PositionAt(p, objs, |objs|, j + 1);
    StateAt(objets, active, objs, |objs|, j);
    StateAt(objets, active, objs, |objs|, j + 1);
    ScanNextObject(lines, pos[j], pos[j + 1], objs, j + 1, requested, active, objets, sts[j], sts[j + 1]);
  }

  /** Each object block of `objs`, from `lines[p]` on, takes the read one
      step along its chain. */
  predicate ObjectsLinkedAt(lines: seq<string>, p: nat, objs: seq<Obj>, requested: seq<string>,
                            active: Option<string>, objets: Sections) {
    Broken(lines, requested, active, Positions(p, objs, |objs|), States(objets, active, objs, |objs|), |objs|) == 0
  }

  /** The blocks of the first `k` objects the writer lays out each take the
      read one step. */
  lemma {:induction false} ObjectsLinked(lines: seq<string>, p: nat, objs: seq<Obj>, k: nat, requested: seq<string>,
                                         active: Option<string>, objets: Sections)
    requires k <= |objs| && forall x :: x in objs ==> Shaped(x)
    requires forall s :: s in requested ==> s in Supported && s in objets
    requires Truthy(active) ==> active.value in objets
    requires ObjectsAt(lines, p, objs, |objs|)
    ensures Broken(lines, requested, active, Positions(p, objs, |objs|), States(objets, active, objs, |objs|), k) == 0
  {
    if k > 0 {
      ObjectsLinked(lines, p, objs, k - 1, requested, active, objets);
      ObjectLinked(lines, p, objs, k - 1, requested, active, objets, Positions(p, objs, |objs|), States(objets, active, objs, |objs|));
    }
  }

  /** The object blocks of `objs`, from `lines[p]` on, are read back, in
      order, into the active section. */
  lemma {:induction false} ScanObjects(lines: seq<string>, p: nat, objs: seq<Obj>, requested: seq<string>,
                    active: Option<string>, objets: Sections)
    requires forall s :: s in requested ==> s in Supported && s in objets
    requires Truthy(active) ==> active.value in objets
    requires ObjectsLinkedAt(lines, p, objs, requested, active, objets)
    ensures Scan(lines, p, requested, active, objets)
      == Scan(lines, p + Span(objs, |objs|), requested, active, AddObjects(objets, active, objs))
  {
    var pos, sts := Positions(p, objs, |objs|), States(objets, active, objs, |objs|);
    ChainEnds(p, objs, active, objets);
    ScanChain(lines, requested, active, pos, sts, |objs|);
  }

  /** The chain of the object blocks starts at `lines[p]` with the state
      `objets` and ends after the last block with every object added. */
  lemma {:induction false} ChainEnds(p: nat, objs: seq<Obj>, active: Option<string>, objets: Sections)
    ensures Positions(p, objs, |objs|)[0] == p && States(objets, active, objs, |objs|)[0] == objets
    ensures Positions(p, objs, |objs|)[|objs|] == p + Span(objs, |objs|)
    ensures States(objets, active, objs, |objs|)[|objs|] == AddObjects(objets, active, objs)
  {
    PositionAt(p, objs, |objs|, 0);
    PositionAt(p, objs, |objs|, |objs|);
    StateAt(objets, active, objs, |objs|, 0);
    StateAt(objets, active, objs, |objs|, |objs|);
    assert objs[..0] == [] && objs[..|objs|] == objs;
    AddNothing(objets, active);
  }

  /** The block of `objs[k - 1]`, after those of the objects before it. */
  lemma {:induction false} ScanNextObject(lines: seq<string>, mid: nat, e: nat, objs: seq<Obj>, k: nat, requested: seq<string>,
                       active: Option<string>, objets: Sections, between: Sections, objets': Sections)
    requires 0 < k <= |objs| && forall x :: x in objs ==> Shaped(x)
    requires forall s :: s in requested ==> s in Supported && s in objets
    requires Truthy(active) ==> active.value in objets
    requires ObjectAt(lines, mid, objs[k - 1]) && e == mid + |objs[k - 1]| + 1
    requires between == AddObjects(objets, active, objs[..k - 1])
    requires objets' == AddObjects(objets, active, objs[..k])
    ensures Scan(lines, mid, requested, active, between) == Scan(lines, e, requested, active, objets')
  {
    var o := objs[k - 1];
    assert objs[..k] == objs[..k - 1] + [o];
    AddObjectsSnoc(objets, active, objs[..k - 1], o);
    ObjectReadable(lines, mid, e, o, requested, active, between, objets');
  }

  /** How many lines the writer gives the sections `Supported[..n]` of `m`. */
  function SecSpan(m: Sections, n: nat): nat
    requires n <= |Supported|
  {
    if n == 0 then 0
    else
      var objs := Objects(m, Supported[n - 1]);
      SecSpan(m, n - 1) + if objs == [] then 0 else Span(objs, |objs|) + 3
  }

  /** The sections of objects as the parser builds them are all written,
      in `SecSpan` lines. */
  lemma {:induction false} SectionsSpan(m: Sections, n: nat)
    requires n <= |Supported| && AllShaped(m)
    ensures SectionsLines(m, n).ok && |SectionsLines(m, n).lines| == SecSpan(m, n)
  {
    if n > 0 {
      SectionsSpan(m, n - 1);
      var objs := Objects(m, Supported[n - 1]);
      if objs != [] {
        SpanLines(objs, |objs|);
      }
    }
  }

  /** What the read has built after the blocks of `Supported[..n]`. */
  function ReadBack(m: Sections, requested: seq<string>, n: nat): (r: Sections)
    requires n <= |Supported|
    ensures r.Keys == set s | s in requested
  {
    map s | s in requested :: if Visited(n, s) then Objects(m, s) else []
  }

  /** The cursor the header `h` sets: the section when it was requested,
      none otherwise. */
  function Cursor(requested: seq<string>, h: string): (r: Option<string>)
    ensures Truthy(r) <==> h != "" && h in requested
    ensures r.Some? ==> r.value == h
  {
    if h in requested then Some(h) else None
  }

  /** Where the writer puts the block of `Supported[n - 1]`: its header
      first, its objects after it, then its `end` line and the empty line. */
  function BlockStart(m: Sections, n: nat): nat
    requires 0 < n <= |Supported|
  {
    SecSpan(m, n - 1)
  }

  function BlockStop(m: Sections, n: nat): nat
    requires 0 < n <= |Supported|
  {
    BlockStart(m, n) + 1 + Span(Objects(m, Supported[n - 1]), |Objects(m, Supported[n - 1])|)
  }

  function BlockLast(m: Sections, n: nat): nat
    requires 0 < n <= |Supported|
  {
    BlockStop(m, n) + 1
  }

  /** What the block of `Supported[n - 1]` holds, if the writer wrote one:
      the header, the object blocks as `ObjectsAt` says, `end` and the
      empty line. */
  predicate SectionAt(lines: seq<string>, m: Sections, n: nat)
    requires 0 < n <= |Supported| && AllShaped(m)
  {
    var objs := Objects(m, Supported[n - 1]);
    objs != [] ==>
      && BlockLast(m, n) < |lines|
      && lines[BlockStart(m, n)] == Supported[n - 1]
      && ObjectsAt(lines, BlockStart(m, n) + 1, objs, |objs|)
      && lines[BlockStop(m, n)] == EndLine
      && lines[BlockLast(m, n)] == ""
  }

  predicate SectionsAt(lines: seq<string>, m: Sections, n: nat)
    requires n <= |Supported| && AllShaped(m)
  {
    n > 0 ==> SectionsAt(lines, m, n - 1) && SectionAt(lines, m, n)
  }

  /** What the outer loop does with the block of `Supported[n - 1]`, if the
      writer wrote one: from its header to past its empty line, it takes the
      read from the state before the block to that state with the section's
      objects added where the header set the cursor. */
  predicate ReadsSection(lines: seq<string>, m: Sections, requested: seq<string>, n: nat)
    requires 0 < n <= |Supported|
    requires forall s :: s in requested ==> s in Supported
  {
    var objs := Objects(m, Supported[n - 1]);
    var back := ReadBack(m, requested, n - 1);
    var done := AddObjects(back, Cursor(requested, Supported[n - 1]), objs);
    objs != [] ==>
      Scan(lines, BlockStart(m, n), requested, None, back) == Scan(lines, BlockLast(m, n) + 1, requested, None, done)
  }

  /** The blocks of `Supported[..n]` are all read as `ReadsSection` says. */
  predicate ReadsSections(lines: seq<string>, m: Sections, requested: seq<string>, n: nat)
    requires n <= |Supported|
    requires forall s :: s in requested ==> s in Supported
  {
    n > 0 ==> ReadsSections(lines, m, requested, n - 1) && ReadsSection(lines, m, requested, n)
  }

  /** One pass on a header line outside any section sets the cursor. */
  lemma {:induction false} HeaderStep(lines: seq<string>, i: nat, requested: seq<string>, h: string, objets: Sections)
    requires h in Supported && i < |lines| && lines[i] == h
    requires forall s :: s in requested ==> s in Supported && s in objets
    ensures Scan(lines, i, requested, None, objets) == Scan(lines, i + 1, requested, Cursor(requested, h), objets)
  {
    StripBare(lines[i]);
    NotHeader(EndLine);
    if lines[i] in requested {
      StepHeader(lines, i, requested, None, objets);
    } else {
      StepOther(lines, i, requested, None, objets);
    }
    ScanAdvance(lines, i, requested, None, objets, i + 1, Cursor(requested, h), objets);
  }

  /** One pass on an `end` line closes the section. */
  lemma {:induction false} EndStep(lines: seq<string>, i: nat, requested: seq<string>, active: Option<string>, objets: Sections)
    requires i < |lines| && lines[i] == EndLine
    requires forall s :: s in requested ==> s in Supported && s in objets
    requires Truthy(active) ==> active.value in objets
    ensures Scan(lines, i, requested, active, objets) == Scan(lines, i + 1, requested, None, objets)
  {
    StripBare(lines[i]);
    NotHeader(EndLine);
    StepOther(lines, i, requested, active, objets);
    ScanAdvance(lines, i, requested, active, objets, i + 1, None, objets);
  }

  /** One pass on the empty line after a section changes nothing. */
  lemma {:induction false} BlankStep(lines: seq<string>, i: nat, requested: seq<string>, objets: Sections)
    requires i < |lines| && lines[i] == ""
    requires forall s :: s in requested ==> s in Supported && s in objets
    ensures Scan(lines, i, requested, None, objets) == Scan(lines, i + 1, requested, None, objets)
  {
    StripBare(lines[i]);
    assert "" !in Supported by {
      forall h | h in Supported ensures h != "" {
        SupportedHeaders(h);
      }
    }
    StepOther(lines, i, requested, None, objets);
    ScanAdvance(lines, i, requested, None, objets, i + 1, None, objets);
  }

  /** A window holding a header, a body, `end` and an empty line. */
  lemma {:induction false} BlockWindow(lines: seq<string>, before: seq<string>, s: string, body: seq<string>, a: nat, e: nat, f: nat)
    requires Holds(lines, 0, before + [s] + body + [EndLine, ""])
    requires a == |before| && e == a + 1 + |body| && f == e + 1
    ensures f < |lines|
    ensures lines[a] == s && Holds(lines, a + 1, body)
    ensures lines[e] == EndLine && lines[f] == ""
  {
    var tail := [EndLine, ""];
    assert before + [s] + body + tail == before + ([s] + (body + tail));
    Window(lines, 0, before, [s] + (body + tail));
    Window(lines, a, [s], body + tail);
    Window(lines, a + 1, body, tail);
    assert lines[a] == lines[a..a + 1][0];
    assert lines[e] == lines[e..e + 2][0];
    assert lines[f] == lines[e..e + 2][1];
  }

  /** The lines of the sections `Supported[..n]`, when the last one has
      objects. */
  lemma {:induction false} SectionsSnoc(m: Sections, n: nat)
    requires 0 < n <= |Supported| && AllShaped(m) && Objects(m, Supported[n - 1]) != []
    ensures var objs := Objects(m, Supported[n - 1]);
      SectionsLines(m, n).lines
        == SectionsLines(m, n - 1).lines + [Supported[n - 1]] + ObjectsLines(objs, |objs|).lines + [EndLine, ""]
    ensures BlockStart(m, n) == |SectionsLines(m, n - 1).lines|
    ensures BlockStop(m, n) == BlockStart(m, n) + 1 + |ObjectsLines(Objects(m, Supported[n - 1]), |Objects(m, Supported[n - 1])|).lines|
  {
    var objs := Objects(m, Supported[n - 1]);
    SectionsSpan(m, n - 1);
    SpanLines(objs, |objs|);
  }

  /** Where the lines of the block of `Supported[n - 1]` sit. */
  lemma {:induction false} BlockAt(lines: seq<string>, m: Sections, n: nat)
    requires 0 < n <= |Supported| && AllShaped(m) && Objects(m, Supported[n - 1]) != []
    requires Holds(lines, 0, SectionsLines(m, n).lines)
    ensures var objs := Objects(m, Supported[n - 1]);
      && BlockLast(m, n) < |lines|
      && lines[BlockStart(m, n)] == Supported[n - 1]
      && Holds(lines, BlockStart(m, n) + 1, ObjectsLines(objs, |objs|).lines)
      && lines[BlockStop(m, n)] == EndLine
      && lines[BlockLast(m, n)] == ""
  {
    var objs := Objects(m, Supported[n - 1]);
    SectionsSnoc(m, n);
    BlockWindow(lines, SectionsLines(m, n - 1).lines, Supported[n - 1], ObjectsLines(objs, |objs|).lines,
      BlockStart(m, n), BlockStop(m, n), BlockLast(m, n));
  }

  lemma {:induction false} SectionWindow(lines: seq<string>, m: Sections, n: nat)
    requires 0 < n <= |Supported| && AllShaped(m)
    requires Holds(lines, 0, SectionsLines(m, n).lines)
    ensures SectionAt(lines, m, n)
  {
    var objs := Objects(m, Supported[n - 1]);
    if objs != [] {
      assert forall x :: x in objs ==> Shaped(x);
      BlockAt(lines, m, n);
      ObjectsWindow(lines, BlockStart(m, n) + 1, objs, |objs|);
    }
  }

  /** The header `h` sets the cursor and the objects after it are added
      where it points. */
  lemma {:induction false} HeadReadable(lines: seq<string>, requested: seq<string>, h: string, objs: seq<Obj>,
                     start: nat, stop: nat, back: Sections, done: Sections)
    requires h in Supported
    requires forall s :: s in requested ==> s in Supported && s in back
    requires start < |lines| && lines[start] == h
    requires ObjectsLinkedAt(lines, start + 1, objs, requested, Cursor(requested, h), back)
    requires stop == start + 1 + Span(objs, |objs|) && done == AddObjects(back, Cursor(requested, h), objs)
    ensures Scan(lines, start, requested, None, back) == Scan(lines, stop, requested, Cursor(requested, h), done)
  {
    HeaderStep(lines, start, requested, h, back);
    ScanObjects(lines, start + 1, objs, requested, Cursor(requested, h), back);
  }

  /** `end` closes the section and the empty line after it changes nothing. */
  lemma {:induction false} TailReadable(lines: seq<string>, requested: seq<string>, stop: nat, active: Option<string>, done: Sections)
    requires stop + 1 < |lines| && lines[stop] == EndLine && lines[stop + 1] == ""
    requires forall s :: s in requested ==> s in Supported && s in done
    requires Truthy(active) ==> active.value in done
    ensures Scan(lines, stop, requested, active, done) == Scan(lines, stop + 2, requested, None, done)
  {
    EndStep(lines, stop, requested, active, done);
    BlankStep(lines, stop + 1, requested, done);
  }

  /** A block written for the header `h` and the objects `objs`, from
      `lines[start]` to `lines[last]`, is read in four moves: the header sets
      the cursor, the objects are added where it points, `end` closes the
      section and the empty line changes nothing. */
  lemma {:induction false} BlockReadable(lines: seq<string>, requested: seq<string>, h: string, objs: seq<Obj>,
                      start: nat, stop: nat, last: nat, back: Sections)
    requires h in Supported
    requires forall s :: s in requested ==> s in Supported && s in back
    requires start < stop < last < |lines|
    requires lines[start] == h
    requires ObjectsLinkedAt(lines, start + 1, objs, requested, Cursor(requested, h), back)
    requires stop == start + 1 + Span(objs, |objs|) && lines[stop] == EndLine
    requires last == stop + 1 && lines[last] == ""
    ensures Scan(lines, start, requested, None, back)
      == Scan(lines, last + 1, requested, None, AddObjects(back, Cursor(requested, h), objs))
  {
    var active := Cursor(requested, h);
    var done := AddObjects(back, active, objs);
    HeadReadable(lines, requested, h, objs, start, stop, back, done);
    TailReadable(lines, requested, stop, Cursor(requested, h), done);
  }

  /** The same, for a block as the writer lays it out. */
  lemma {:induction false} BlockLaidOut(lines: seq<string>, requested: seq<string>, h: string, objs: seq<Obj>,
                                        start: nat, stop: nat, last: nat, back: Sections)
    requires h in Supported && forall x :: x in objs ==> Shaped(x)
    requires forall s :: s in requested ==> s in Supported && s in back
    requires start < stop < last < |lines|
    requires lines[start] == h && ObjectsAt(lines, start + 1, objs, |objs|)
    requires stop == start + 1 + Span(objs, |objs|) && lines[stop] == EndLine
    requires last == stop + 1 && lines[last] == ""
    ensures Scan(lines, start, requested, None, back)
      == Scan(lines, last + 1, requested, None, AddObjects(back, Cursor(requested, h), objs))
  {
    ObjectsLinked(lines, start + 1, objs, |objs|, requested, Cursor(requested, h), back);
    BlockReadable(lines, requested, h, objs, start, stop, last, back);
  }

  /** The block of `Supported[n - 1]` is read as `ReadsSection` says. */
  lemma {:induction false} SectionReadable(lines: seq<string>, m: Sections, requested: seq<string>, n: nat)
    requires 0 < n <= |Supported| && AllShaped(m)
    requires forall s :: s in requested ==> s in Supported
    requires SectionAt(lines, m, n)
    ensures ReadsSection(lines, m, requested, n)
  {
    var h := Supported[n - 1];
    var objs := Objects(m, h);
    if objs != [] {
      assert forall x :: x in objs ==> Shaped(x);
      BlockLaidOut(lines, requested, h, objs, BlockStart(m, n), BlockStop(m, n), BlockLast(m, n),
                   ReadBack(m, requested, n - 1));
    }
  }

  /** The state after the block of `Supported[n - 1]` differs from the one
      before it by that section's objects, when it was requested. */
  lemma {:induction false} ReadBackStep(m: Sections, requested: seq<string>, n: nat)
    requires 0 < n <= |Supported|
    requires forall s :: s in requested ==> s in Supported
    ensures ReadBack(m, requested, n)
      == AddObjects(ReadBack(m, requested, n - 1), Cursor(requested, Supported[n - 1]), Objects(m, Supported[n - 1]))
  {
    var s := Supported[n - 1];
    SupportedDistinct();
    VisitedAll(n - 1, s);
    if s in requested {
      ReadBackAdds(m, requested, n, s);
    } else {
      ReadBackKeeps(m, requested, n, s);
    }
  }

  /** Two read states with the same sections and the same objects in each. */
  lemma {:induction false} SameSections(x: Sections, y: Sections)
    requires x.Keys == y.Keys && forall t :: t in x ==> x[t] == y[t]
    ensures x == y
  {
  }

  lemma {:induction false} ReadBackAdds(m: Sections, requested: seq<string>, n: nat, s: string)
    requires 0 < n <= |Supported| && s == Supported[n - 1] && s in requested && !Visited(n - 1, s)
    ensures var before := ReadBack(m, requested, n - 1);
      ReadBack(m, requested, n) == before[s := before[s] + Objects(m, s)]
  {
    var before := ReadBack(m, requested, n - 1);
    var after := ReadBack(m, requested, n);
    var expected := before[s := before[s] + Objects(m, s)];
    forall t | t in requested ensures after[t] == expected[t] {
      assert Visited(n, t) <==> t == s || Visited(n - 1, t);
      if t == s {
        assert after[t] == [] + Objects(m, s);
      }
    }
    SameSections(after, expected);
  }

  lemma {:induction false} ReadBackKeeps(m: Sections, requested: seq<string>, n: nat, s: string)
    requires 0 < n <= |Supported| && s == Supported[n - 1] && s !in requested
    ensures ReadBack(m, requested, n) == ReadBack(m, requested, n - 1)
  {
    var before := ReadBack(m, requested, n - 1);
    var after := ReadBack(m, requested, n);
    forall t | t in requested ensures after[t] == before[t] {
      assert Visited(n, t) <==> t == s || Visited(n - 1, t);
    }
    SameSections(after, before);
  }

  /** The block of one section, from `lines[a]` to `lines[b]`, is read back
      into the requested sections. */
  lemma {:induction false} ScanSection(lines: seq<string>, m: Sections, requested: seq<string>, n: nat, a: nat, b: nat,
                    objets: Sections, objets': Sections)
    requires 0 < n <= |Supported| && AllShaped(m)
    requires forall s :: s in requested ==> s in Supported
    requires ReadsSection(lines, m, requested, n)
    requires a == SecSpan(m, n - 1) && b == SecSpan(m, n)
    requires objets == ReadBack(m, requested, n - 1) && objets' == ReadBack(m, requested, n)
    ensures Scan(lines, a, requested, None, objets) == Scan(lines, b, requested, None, objets')
  {
    var h := Supported[n - 1];
    var objs := Objects(m, h);
    ReadBackStep(m, requested, n);
    BlockSpan(m, n);
    ScanSpan(lines, requested, objs, Cursor(requested, h), a, b, BlockLast(m, n) + 1, objets, objets');
  }

  /** Where the block of `Supported[n - 1]` starts and where the next one
      starts. */
  lemma {:induction false} BlockSpan(m: Sections, n: nat)
    requires 0 < n <= |Supported|
    ensures BlockStart(m, n) == SecSpan(m, n - 1)
    ensures SecSpan(m, n) == if Objects(m, Supported[n - 1]) == [] then SecSpan(m, n - 1) else BlockLast(m, n) + 1
  {
  }

  /** A section without objects has no block and changes nothing; one with
      objects is read over its block. */
  lemma {:induction false} ScanSpan(lines: seq<string>, requested: seq<string>, objs: seq<Obj>, active: Option<string>,
                 a: nat, b: nat, after: nat, back: Sections, done: Sections)
    requires forall s :: s in requested ==> s in back
    requires done == AddObjects(back, active, objs)
    requires objs == [] ==> b == a
    requires objs != [] ==> b == after && Scan(lines, a, requested, None, back) == Scan(lines, after, requested, None, done)
    ensures Scan(lines, a, requested, None, back) == Scan(lines, b, requested, None, done)
  {
    if objs == [] {
      AddNothing(back, active);
    }
  }

  lemma {:induction false} SectionsWindow(lines: seq<string>, m: Sections, n: nat)
    requires n <= |Supported| && AllShaped(m)
    requires Holds(lines, 0, SectionsLines(m, n).lines)
    ensures SectionsAt(lines, m, n)
  {
    if n > 0 {
      var w := SectionsLines(m, n).lines;
      var before := SectionsLines(m, n - 1).lines;
      SectionsSpan(m, n - 1);
      assert w[..|before|] == before;
      assert lines[0..|before|] == before by {
        assert lines[0..|before|] == lines[0..|w|][..|before|];
      }
      SectionsWindow(lines, m, n - 1);
      SectionWindow(lines, m, n);
    }
  }

  lemma {:induction false} SectionsReadable(lines: seq<string>, m: Sections, requested: seq<string>, n: nat)
    requires n <= |Supported| && AllShaped(m)
    requires forall s :: s in requested ==> s in Supported
    requires SectionsAt(lines, m, n)
    ensures ReadsSections(lines, m, requested, n)
  {
    if n > 0 {
      SectionsReadable(lines, m, requested, n - 1);
      SectionReadable(lines, m, requested, n);
    }
  }

  /** The blocks of the sections `Supported[..n]`, up to `lines[b]`, are
      read back into the requested ones. */
  lemma {:induction false} ScanSections(lines: seq<string>, m: Sections, requested: seq<string>, n: nat, b: nat, objets: Sections)
    requires n <= |Supported| && AllShaped(m)
    requires forall s :: s in requested ==> s in Supported
    requires ReadsSections(lines, m, requested, n)
    requires b == SecSpan(m, n) && objets == ReadBack(m, requested, n)
    ensures Scan(lines, 0, requested, None, EmptyFor(requested)) == Scan(lines, b, requested, None, objets)
  {
    if n == 0 {
      assert objets == EmptyFor(requested);
    } else {
      var a := SecSpan(m, n - 1);
      var before := ReadBack(m, requested, n - 1);
      ScanSections(lines, m, requested, n - 1, a, before);
      ScanSection(lines, m, requested, n, a, b, before, objets);
    }
  }

  /** Once every section has been visited, the read has built exactly the
      requested sections of `m`. */
  lemma {:induction false} ReadBackAll(m: Sections, requested: seq<string>)
    requires forall s :: s in requested ==> s in Supported
    ensures ReadBack(m, requested, |Supported|) == map s | s in requested :: Objects(m, s)
  {
    forall s | s in requested ensures Visited(|Supported|, s) {
      VisitedAll(|Supported|, s);
      assert Supported[..|Supported|] == Supported;
    }
  }

  /** Lines holding the blocks of every section of `m`, and nothing else,
      are read back into the requested sections of `m`. */
  lemma {:induction false} ReadAll(lines: seq<string>, m: Sections, requested: seq<string>)
    requires AllShaped(m)
    requires forall s :: s in requested ==> s in Supported
    requires SectionsAt(lines, m, |Supported|) && |lines| == SecSpan(m, |Supported|)
    ensures Scan(lines, 0, requested, None, EmptyFor(requested))
      == ScanResult(map s | s in requested :: Objects(m, s), false)
  {
    var all := ReadBack(m, requested, |Supported|);
    SectionsReadable(lines, m, requested, |Supported|);
    ScanSections(lines, m, requested, |Supported|, |lines|, all);
    ReadBackAll(m, requested);
  }

  /** Reading back the whole output of a write returns, for every requested
      section, exactly the objects written for it, in order, and the read
      completes. */
  lemma {:induction false} ParseRender(m: Sections, requested: seq<string>)
    requires AllShaped(m)
    requires forall s :: s in requested ==> s in Supported
    ensures Render(m).ok
    ensures Parse(Some(Render(m).lines), requested)
      == ParseResult(map s | s in requested :: Objects(m, s), Complete)
  {
    var lines := Render(m).lines;
    SectionsSpan(m, |Supported|);
    assert lines[0..|lines|] == lines;
    SectionsWindow(lines, m, |Supported|);
    ReadAll(lines, m, requested);
  }
}
