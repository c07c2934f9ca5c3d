/** The serializer `ecrire_sections_fortigate`: writes the supported sections
    that hold objects, in the canonical order, as FortiGate CLI text.

    The output file is modelled as the list of lines written to it; a line is
    what one `f.write(...\n)` puts out, and `end\n\n` is the line `end`
    followed by an empty line. */
module Writer {
  import opened Wrappers
  import opened Text
  import opened AssocLists
  import opened Config

  /** `    edit "<name>"` */
  function EditLine(name: string): string {
    "    edit \"" + name + "\""
  }

  /** `        set <key> "<value>"` */
  function SetLine(k: string, v: string): string {
    "        set " + k + " \"" + v + "\""
  }

  const NextLine: string := "    next"
  const EndLine: string := "end"

  /** The lines written and whether the write finished without an exception. */
  datatype Rendered = Rendered(lines: seq<string>, ok: bool)

  /** The `set` lines for the entries `o[..j]`, skipping the key `name`. */
  function AttrLines(o: Obj, j: nat): seq<string>
    requires j <= |o|
  {
    if j == 0 then []
    else AttrLines(o, j - 1) + (if o[j - 1].0 != "name" then [SetLine(o[j - 1].0, o[j - 1].1)] else [])
  }

  /** The block of one object. */
  function ObjectLines(o: Obj): seq<string>
    requires HasName(o)
  {
    [EditLine(NameOf(o))] + AttrLines(o, |o|) + [NextLine]
  }

  /** The objects `objs[..k]`; the first without a name raises `KeyError`
      before its `edit` line is written, and nothing more is written. */
  function ObjectsLines(objs: seq<Obj>, k: nat): Rendered
    requires k <= |objs|
  {
    if k == 0 then Rendered([], true)
    else
      var prev := ObjectsLines(objs, k - 1);
      if !prev.ok then prev
      else if HasName(objs[k - 1]) then Rendered(prev.lines + ObjectLines(objs[k - 1]), true)
      else Rendered(prev.lines, false)
  }

  /** The sections `Supported[..n]` that `m` holds objects for, each as its
      header, its objects, `end` and an empty line. */
  function SectionsLines(m: Sections, n: nat): Rendered
    requires n <= |Supported|
  {
    if n == 0 then Rendered([], true)
    else
      var prev := SectionsLines(m, n - 1);
      var s := Supported[n - 1];
      if !prev.ok || Objects(m, s) == [] then prev
      else
        var body := ObjectsLines(m[s], |m[s]|);
        if body.ok then Rendered(prev.lines + [s] + body.lines + [EndLine, ""], true)
        else Rendered(prev.lines + [s] + body.lines, false)
  }

  /** `ecrire_sections_fortigate`, without the file it writes to. */
  function Render(m: Sections): Rendered {
    SectionsLines(m, |Supported|)
  }

  /** Once an object has raised, later objects change nothing. */
  lemma {:induction false} ObjectsFailSticks(objs: seq<Obj>, k: nat, k': nat)
    requires k <= k' <= |objs|
    requires !ObjectsLines(objs, k).ok
    ensures ObjectsLines(objs, k') == ObjectsLines(objs, k)
    decreases k' - k
  {
    if k < k' {
      ObjectsFailSticks(objs, k, k' - 1);
    }
  }

  /** Once a section has raised, later sections change nothing. */
  lemma {:induction false} SectionsFailSticks(m: Sections, n: nat, n': nat)
    requires n <= n' <= |Supported|
    requires !SectionsLines(m, n).ok
    ensures SectionsLines(m, n') == SectionsLines(m, n)
    decreases n' - n
  {
    if n < n' {
      SectionsFailSticks(m, n, n' - 1);
    }
  }

  /** The innermost loop of the writer: one object's block, appended to
      what was written so far. */
  method WriteObject(out: seq<string>, obj: Obj) returns (lines: seq<string>)
    requires HasName(obj)
    ensures lines == out + ObjectLines(obj)
  {
    lines := out + [EditLine(Lookup(obj, "name").value)];
    for j := 0 to |obj|
      invariant lines == out + [EditLine(NameOf(obj))] + AttrLines(obj, j)
    {
      var (key, v) := obj[j];
      if key != "name" {
        lines := lines + [SetLine(key, v)];
      }
    }
    lines := lines + [NextLine];
  }

  /** The loop over the objects of one section: stops at the first object
      without a name, where `obj['name']` raises `KeyError`. */
  method WriteObjects(out: seq<string>, objs: seq<Obj>) returns (lines: seq<string>, ok: bool)
    ensures var r := ObjectsLines(objs, |objs|); lines == out + r.lines && ok == r.ok
  {
    lines := out;
    for k := 0 to |objs|
      invariant ObjectsLines(objs, k).ok
      invariant lines == out + ObjectsLines(objs, k).lines
    {
      var obj := objs[k];
      if "name" !in Keys(obj) {
        ObjectsFailSticks(objs, k + 1, |objs|);
        return lines, false;
      }
      lines := WriteObject(lines, obj);
    }
    return lines, true;
  }

  /** One pass of the loop over the supported sections: `Supported[n]` is
      written when `m` holds objects for it. */
  method WriteSection(out: seq<string>, m: Sections, n: nat) returns (lines: seq<string>, ok: bool)
    requires n < |Supported|
    requires Rendered(out, true) == SectionsLines(m, n)
    ensures Rendered(lines, ok) == SectionsLines(m, n + 1)
  {
    var section := Supported[n];
    if section in m && m[section] != [] {
      lines, ok := WriteObjects(out + [section], m[section]);
      if ok {
        lines := lines + [EndLine, ""];
      }
    } else {
      lines, ok := out, true;
    }
  }

  /** `ecrire_sections_fortigate` as the source runs it; returns the lines
      written and whether no exception was raised. */
  method WriteSections(m: Sections) returns (lines: seq<string>, ok: bool)
    ensures Rendered(lines, ok) == Render(m)
  {
    lines := [];
    for n := 0 to |Supported|
      invariant Rendered(lines, true) == SectionsLines(m, n)
    {
      lines, ok := WriteSection(lines, m, n);
      if !ok {
        // the exception ends the write; what was written stays in the file
        SectionsFailSticks(m, n + 1, |Supported|);
        return;
      }
    }
    return lines, true;
  }

  /** Every object is written exactly when every object before it has a name. */
  lemma {:induction false} ObjectsOk(objs: seq<Obj>, k: nat)
    requires k <= |objs|
    ensures ObjectsLines(objs, k).ok <==> forall j :: 0 <= j < k ==> HasName(objs[j])
  {
    if k > 0 {
      ObjectsOk(objs, k - 1);
    }
  }

  /** The sections `Supported[..n]` are written without exception exactly when
      each of their objects has a name. */
  lemma {:induction false} SectionsOk(m: Sections, n: nat)
    requires n <= |Supported|
    ensures SectionsLines(m, n).ok <==>
      forall j, o :: 0 <= j < n && o in Objects(m, Supported[j]) ==> HasName(o)
  {
    if n > 0 {
      SectionsOk(m, n - 1);
      var s := Supported[n - 1];
      if Objects(m, s) != [] {
        ObjectsOk(m[s], |m[s]|);
        assert ObjectsLines(m[s], |m[s]|).ok <==> forall o :: o in Objects(m, s) ==> HasName(o) by {
          assert forall o :: o in m[s] <==> exists j :: 0 <= j < |m[s]| && m[s][j] == o;
        }
      }
    }
  }

  /** The write completes exactly when every object of a supported section
      has a name; otherwise `KeyError` cuts it short. */
  lemma {:induction false} RenderOk(m: Sections)
    ensures Render(m).ok <==> forall s, o :: s in Supported && o in Objects(m, s) ==> HasName(o)
  {
    SectionsOk(m, |Supported|);
    assert forall s :: s in Supported <==> exists j :: 0 <= j < |Supported| && Supported[j] == s;
  }

  /** Only the supported sections of `m` matter; any other key is ignored. */
  lemma {:induction false} SectionsOnlySupported(m: Sections, m': Sections, n: nat)
    requires n <= |Supported|
    requires forall s :: s in Supported ==> Objects(m, s) == Objects(m', s)
    ensures SectionsLines(m, n) == SectionsLines(m', n)
  {
    if n > 0 {
      SectionsOnlySupported(m, m', n - 1);
    }
  }

  lemma {:induction false} RenderOnlySupported(m: Sections, m': Sections)
    requires forall s :: s in Supported ==> Objects(m, s) == Objects(m', s)
    ensures Render(m) == Render(m')
  {
    SectionsOnlySupported(m, m', |Supported|);
  }

  /** The lines of `lines` that are section headers, in order. */
  function Headers(lines: seq<string>): (hs: seq<string>)
    ensures forall h :: h in hs ==> h in Supported && h in lines
  {
    if lines == [] then []
    else
      var init := lines[..|lines| - 1];
      var last := lines[|lines| - 1];
      assert forall l :: l in init ==> l in lines;
      Headers(init) + (if last in Supported then [last] else [])
  }

  lemma {:induction false} HeadersAppend(a: seq<string>, b: seq<string>)
    ensures Headers(a + b) == Headers(a) + Headers(b)
    decreases |b|
  {
    if b != [] {
      var init := b[..|b| - 1];
      assert (a + b)[..|a + b| - 1] == a + init;
      assert (a + b)[|a + b| - 1] == b[|b| - 1];
      HeadersAppend(a, init);
    } else {
      assert a + b == a;
    }
  }

  /** Lines that are not headers contribute none. */
  lemma {:induction false} HeadersNone(lines: seq<string>)
    requires forall l :: l in lines ==> l !in Supported
    ensures Headers(lines) == []
  {
    if lines != [] {
      var init := lines[..|lines| - 1];
      assert forall l :: l in init ==> l in lines;
      assert lines[|lines| - 1] in lines;
      HeadersNone(init);
    }
  }

  /** Every line of an object block is indented, and no header is. */
  lemma {:induction false} ObjectsIndented(objs: seq<Obj>, k: nat)
    requires k <= |objs|
    ensures forall l :: l in ObjectsLines(objs, k).lines ==> l !in Supported
  {
    if k > 0 {
      ObjectsIndented(objs, k - 1);
      var o := objs[k - 1];
      if ObjectsLines(objs, k - 1).ok && HasName(o) {
        AttrLinesIndented(o, |o|);
        forall l | l in ObjectLines(o) ensures l !in Supported {
          assert l != [] && l[0] == ' ';
        }
      }
    }
  }

  lemma {:induction false} AttrLinesIndented(o: Obj, j: nat)
    requires j <= |o|
    ensures forall l :: l in AttrLines(o, j) ==> l != [] && l[0] == ' '
  {
    if j > 0 {
      AttrLinesIndented(o, j - 1);
    }
  }

  /** The supported sections among `Supported[..n]` that hold objects. */
  function Present(m: Sections, n: nat): seq<string>
    requires n <= |Supported|
  {
    if n == 0 then []
    else Present(m, n - 1) + (if Objects(m, Supported[n - 1]) != [] then [Supported[n - 1]] else [])
  }

  lemma {:induction false} SectionsHeaders(m: Sections, n: nat)
    requires n <= |Supported|
    requires SectionsLines(m, n).ok
    ensures Headers(SectionsLines(m, n).lines) == Present(m, n)
  {
    if n > 0 {
      var s := Supported[n - 1];
      var prev := SectionsLines(m, n - 1);
      assert prev.ok;
      SectionsHeaders(m, n - 1);
      if Objects(m, s) != [] {
        var body := ObjectsLines(m[s], |m[s]|);
        ObjectsIndented(m[s], |m[s]|);
        HeadersBlock(prev.lines, s, body.lines);
      }
    }
  }

  /** The block of one section adds its header and nothing else. */
  lemma {:induction false} HeadersBlock(prev: seq<string>, s: string, body: seq<string>)
    requires s in Supported
    requires forall l :: l in body ==> l !in Supported
    ensures Headers(prev + [s] + body + [EndLine, ""]) == Headers(prev) + [s]
  {
    HeadersNone(body);
    HeadersNone([EndLine, ""]);
    HeadersAppend(prev, [s]);
    HeadersAppend(prev + [s], body);
    HeadersAppend(prev + [s] + body, [EndLine, ""]);
    assert Headers([s]) == [s] by {
      assert [s][..0] == [];
    }
  }

  /** A complete write puts out the header of each supported section that
      holds objects, once, in the order of `Supported`, and no other header. */
  lemma {:induction false} RenderHeaders(m: Sections)
    requires Render(m).ok
    ensures Headers(Render(m).lines) == Present(m, |Supported|)
  {
    SectionsHeaders(m, |Supported|);
  }
}
