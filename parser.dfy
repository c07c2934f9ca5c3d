/** The section extractor `lire_sections_fortigate`: turns the lines of a
    FortiGate CLI export into the address objects of the requested sections.

    The specification functions recurse on an index into the line list; the
    method `ReadSections` runs the source's nested index loops and is proved
    to compute the same result. */
module Parser {
  import opened Wrappers
  import opened Text
  import opened AssocLists
  import opened Config

  /** How a read ended: normally, on a file that could not be opened or
      read, or on the `ValueError` of a malformed `set` line. */
  datatype ReadStatus = Complete | SourceUnavailable | Aborted

  datatype ParseResult = ParseResult(objets: Sections, status: ReadStatus)

  /** Where the outer loop ends up: the state it built (the objects read)
      and whether a `ValueError` cut it short. */
  datatype ScanResult<State> = ScanResult(objets: State, aborted: bool)

  /** What the attribute loop made of the lines after an `edit` line:
      the attributes, how many lines it consumed before stopping (at `next`,
      at the end of input, or at the line that raised), and whether it raised. */
  datatype Collected = Collected(params: Obj, consumed: nat, failed: bool)

  /** What the attribute loop does with one stripped line. */
  datatype AttrLine =
    | Ignored                             // not `set `, no space in the tail, or a `uuid`
    | Assign(key: string, value: string)  // `params[cle] = val.strip('"')`
    | BadUnpack                           // `cle, val = partie.split(maxsplit=1)` raises

  /** `{section: [] for section in sections_demandées}` */
  function EmptyFor(requested: seq<string>): (m: Sections)
    ensures m.Keys == set s | s in requested
    ensures forall s :: s in m ==> m[s] == []
  {
    map s | s in requested :: []
  }

  /** Python truthiness of `section_active`: `None` and `""` are both false. */
  predicate Truthy(active: Option<string>) {
    active.Some? && active.value != ""
  }

  /** One line of an `edit` block, already stripped. The space test is on a
      literal ' ' while the split is on any whitespace, so `set a\tb` is
      ignored and `set  comment` (one token after leading whitespace) raises. */
  function ClassifyAttr(l: string): (a: AttrLine)
    ensures a.Assign? ==> a.key != "uuid" && ValidKey(a.key) && EndsFree(a.value, '"')
  {
    if !StartsWith(l, "set ") then Ignored
    else
      var partie := l[4..];
      if ' ' !in partie then Ignored
      else
        var parts := SplitOnce(partie);
        if |parts| != 2 then BadUnpack
        else if parts[0] == "uuid" then Ignored
        else Assign(parts[0], StripChar(parts[1], '"'))
  }

  /** A `set` line whose tail holds no literal space is ignored, even when
      it holds a tab or another whitespace character. */
  lemma {:induction false} ClassifyNoSpace(t: string)
    requires ' ' !in t
    ensures ClassifyAttr("set " + t) == Ignored
  {
    assert ("set " + t)[..4] == "set ";
    assert ("set " + t)[4..] == t;
  }

  /** A `set` line whose tail holds a space but at most one token, such as
      `set  comment`, makes the unpacking raise. */
  lemma {:induction false} ClassifyOneToken(ws: string, tok: string, ws': string)
    requires AllSpace(ws) && NoSpace(tok) && AllSpace(ws')
    requires ' ' in ws || ' ' in ws'
    ensures ClassifyAttr("set " + ws + tok + ws') == BadUnpack
  {
    var l := "set " + ws + tok + ws';
    var partie := ws + tok + ws';
    assert l == "set " + partie;
    assert l[..4] == "set " && l[4..] == partie;
    assert ' ' in partie by {
      if ' ' in ws {
        var i :| 0 <= i < |ws| && ws[i] == ' ';
        assert partie[i] == ' ';
      } else {
        var i :| 0 <= i < |ws'| && ws'[i] == ' ';
        assert partie[|ws| + |tok| + i] == ' ';
      }
    }
    SplitOnceOneToken(ws, tok, ws');
  }

  /** `set <key><whitespace><value>`: any whitespace run may separate key
      and value, as long as the tail holds a literal space somewhere; `uuid`
      is dropped, any other key is assigned the value with its enclosing
      quotes removed. */
  lemma {:induction false} ClassifyTwoTokens(k: string, ws: string, w: string)
    requires k != [] && NoSpace(k)
    requires ws != [] && AllSpace(ws)
    requires w != [] && !IsSpace(w[0])
    requires ' ' in ws + w
    ensures ClassifyAttr("set " + k + ws + w) == if k == "uuid" then Ignored else Assign(k, StripChar(w, '"'))
  {
    var l := "set " + k + ws + w;
    var partie := k + ws + w;
    assert l == "set " + partie;
    assert l[..4] == "set " && l[4..] == partie;
    assert ' ' in partie by {
      var i :| 0 <= i < |ws + w| && (ws + w)[i] == ' ';
      assert partie[|k| + i] == ' ';
    }
    assert partie == [] + k + ws + w;
    SplitOnceGeneral([], k, ws, w);
  }

  /** The inner loop at lines 48-58, from `lines[i]` on: collects attributes
      until a line equal to `next` or the end of input; `end` and `edit` lines
      do not stop it. */
  function CollectAttrs(lines: seq<string>, i: nat, params: Obj): (c: Collected)
    requires i <= |lines|
    ensures i + c.consumed <= |lines|
    decreases |lines| - i
  {
    if i == |lines| then Collected(params, 0, false)
    else
      var l := Strip(lines[i]);
      if l == "next" then Collected(params, 0, false)
      else
        var a := ClassifyAttr(l);
        if a.BadUnpack? then Collected(params, 0, true)
        else
          var c := CollectAttrs(lines, i + 1, Absorb(params, a));
          Collected(c.params, c.consumed + 1, c.failed)
  }

  /** One line consumed by the attribute loop, which then goes on as `c`. */
  lemma {:induction false} CollectStep(lines: seq<string>, i: nat, params: Obj, a: AttrLine, c: Collected)
    requires i < |lines| && Strip(lines[i]) != "next"
    requires a == ClassifyAttr(Strip(lines[i])) && !a.BadUnpack?
    requires c == CollectAttrs(lines, i + 1, Absorb(params, a))
    ensures CollectAttrs(lines, i, params) == Collected(c.params, c.consumed + 1, c.failed)
  {
  }

  /** The attributes collected keep the shape `WellKeyed` describes. */
  lemma {:induction false} CollectWellKeyed(lines: seq<string>, i: nat, params: Obj)
    requires i <= |lines|
    requires WellKeyed(params)
    ensures WellKeyed(CollectAttrs(lines, i, params).params)
    decreases |lines| - i
  {
    if i < |lines| {
      var l := Strip(lines[i]);
      var a := ClassifyAttr(l);
      if l != "next" && !a.BadUnpack? {
        if a.Assign? {
          PutWellKeyed(params, a.key, a.value);
        }
        CollectStep(lines, i, params, a, CollectAttrs(lines, i + 1, Absorb(params, a)));
        CollectWellKeyed(lines, i + 1, Absorb(params, a));
      }
    }
  }

  /** `lines[j]` is a line the attribute loop goes past: neither `next` nor
      a `set` line that raises. */
  predicate PassedAt(lines: seq<string>, j: int) {
    0 <= j < |lines| && Strip(lines[j]) != "next" && !ClassifyAttr(Strip(lines[j])).BadUnpack?
  }

  /** The attribute loop passes over every line that is not `next` and does
      not raise, `end` and `edit` lines included. */
  lemma {:induction false} CollectPassesOver(lines: seq<string>, i: nat, params: Obj)
    requires i <= |lines|
    ensures var c := CollectAttrs(lines, i, params);
      forall j :: i <= j < i + c.consumed ==> PassedAt(lines, j)
    decreases |lines| - i
  {
    if i < |lines| {
      var l := Strip(lines[i]);
      var a := ClassifyAttr(l);
      if l != "next" && !a.BadUnpack? {
        var c := CollectAttrs(lines, i + 1, Absorb(params, a));
        CollectStep(lines, i, params, a, c);
        CollectPassesOver(lines, i + 1, Absorb(params, a));
        assert PassedAt(lines, i);
      }
    }
  }

  /** When the attribute loop raises, it is on the line it stopped at. */
  lemma {:induction false} CollectFailsAt(lines: seq<string>, i: nat, params: Obj)
    requires i <= |lines|
    ensures var c := CollectAttrs(lines, i, params);
      c.failed ==> i + c.consumed < |lines| && ClassifyAttr(Strip(lines[i + c.consumed])).BadUnpack?
    decreases |lines| - i
  {
    if i < |lines| {
      var l := Strip(lines[i]);
      var a := ClassifyAttr(l);
      if l != "next" && !a.BadUnpack? {
        CollectStep(lines, i, params, a, CollectAttrs(lines, i + 1, Absorb(params, a)));
        CollectFailsAt(lines, i + 1, Absorb(params, a));
      }
    }
  }

  /** Conversely, an attribute loop that reaches a raising `set` line, past
      lines that are neither `next` nor raising, raises there. */
  lemma {:induction false} CollectRaisesAt(lines: seq<string>, i: nat, params: Obj, j: nat)
    requires i <= j < |lines|
    requires forall t :: i <= t < j ==> PassedAt(lines, t)
    requires ClassifyAttr(Strip(lines[j])).BadUnpack?
    ensures CollectAttrs(lines, i, params).failed
    ensures CollectAttrs(lines, i, params).consumed == j - i
    decreases j - i
  {
    if i < j {
      var a := ClassifyAttr(Strip(lines[i]));
      assert PassedAt(lines, i);
      CollectStep(lines, i, params, a, CollectAttrs(lines, i + 1, Absorb(params, a)));
      CollectRaisesAt(lines, i + 1, Absorb(params, a), j);
    } else {
      assert Strip(lines[i]) != "next" by {
        assert !StartsWith("next", "set ");
      }
    }
  }

  /** When the attribute loop ends without raising and before the end of
      input, it is on a `next` line. */
  lemma {:induction false} CollectStopsAtNext(lines: seq<string>, i: nat, params: Obj)
    requires i <= |lines|
    ensures var c := CollectAttrs(lines, i, params);
      !c.failed && i + c.consumed < |lines| ==> Strip(lines[i + c.consumed]) == "next"
    decreases |lines| - i
  {
    if i < |lines| {
      var l := Strip(lines[i]);
      var a := ClassifyAttr(l);
      if l != "next" && !a.BadUnpack? {
        CollectStep(lines, i, params, a, CollectAttrs(lines, i + 1, Absorb(params, a)));
        CollectStopsAtNext(lines, i + 1, Absorb(params, a));
      }
    }
  }

  /** Records one `set` assignment; other lines leave `params` alone. */
  function Absorb(params: Obj, a: AttrLine): Obj {
    if a.Assign? then Put(params, a.key, a.value) else params
  }

  lemma {:induction false} PutWellKeyed(params: Obj, k: string, v: string)
    requires WellKeyed(params)
    requires k != "uuid" && ValidKey(k) && EndsFree(v, '"')
    ensures WellKeyed(Put(params, k, v))
  {
    PutUnique(params, k, v);
  }

  /** A stripped `edit` line splits into `edit` and a non-empty rest. */
  lemma {:induction false} EditLineSplits(ligne: string)
    requires StartsWith(ligne, "edit ") && Trimmed(ligne)
    ensures |SplitOnce(ligne)| == 2
  {
    var rest := ligne[4..];
    assert ligne == "edit" + rest;
    assert rest[0] == ' ';
    TokenEndAfter("edit", rest);
    assert TrimLeft(ligne) == ligne;
    assert rest[|rest| - 1] == ligne[|ligne| - 1];
  }

  /** `ligne.split(maxsplit=1)[1].strip('"')`: every enclosing quote goes. */
  function EditName(ligne: string): (name: string)
    requires StartsWith(ligne, "edit ") && Trimmed(ligne)
    ensures EndsFree(name, '"')
  {
    EditLineSplits(ligne);
    StripChar(SplitOnce(ligne)[1], '"')
  }

  /** The name is the rest of the `edit` line, leading whitespace dropped,
      with every enclosing quote removed: `edit   web01` names `web01`,
      `edit\t"a b"` names `a b`. */
  lemma {:induction false} EditNameRest(ligne: string)
    requires StartsWith(ligne, "edit ") && Trimmed(ligne)
    ensures EditName(ligne) == StripChar(TrimLeft(ligne[5..]), '"')
  {
    var k, r := ligne[..4], ligne[4..];
    assert ligne == k + r;
    assert k == "edit" && r[0] == ' ';
    assert r[|r| - 1] == ligne[|ligne| - 1];
    SplitOnceAfter(k, r);
    assert r[1..] == ligne[5..];
  }

  /** `edit <whitespace><word>` names the word with its quotes removed,
      whatever whitespace follows `edit `. */
  lemma {:induction false} EditNameGeneral(ws: string, w: string)
    requires AllSpace(ws)
    requires w != [] && Trimmed(w)
    ensures StartsWith("edit " + ws + w, "edit ") && Trimmed("edit " + ws + w)
    ensures EditName("edit " + ws + w) == StripChar(w, '"')
  {
    var ligne := "edit " + ws + w;
    assert ligne[..5] == "edit ";
    assert ligne[|ligne| - 1] == w[|w| - 1];
    assert ligne[5..] == ws + w;
    EditNameRest(ligne);
    TrimLeftSpaces(ws, w);
  }

  /** `objet = {'name': ...}; objet.update(params)` */
  function NewObject(name: string, params: Obj): (o: Obj)
    requires EndsFree(name, '"') && WellKeyed(params)
    ensures Shaped(o)
  {
    var base := [("name", name)];
    assert ValidKey("name") && UniqueKeys(base);
    var o := PutAll(base, params);
    PutAllKeys(base, params);
    AppendNewPrefix(Keys(base), Keys(params));
    PutAllFrom(base, params);
    PutAllUnique(base, params);
    assert Keys(o)[..1] == Keys(base);
    assert |Keys(o)| == |o| >= 1;
    assert Keys(base)[0] == "name";
    assert Keys(o)[..1][0] == Keys(o)[0];
    assert o[0].0 == "name";
    assert UniqueKeys(o);
    assert forall p :: p in o ==> p.0 != "uuid" && ValidKey(p.0) && EndsFree(p.1, '"');
    o
  }

  /** `objets[section].append(o)` */
  function Append(objets: Sections, section: string, o: Obj): (r: Sections)
    requires section in objets
    ensures r.Keys == objets.Keys
  {
    objets[section := objets[section] + [o]]
  }

  /** Appending only extends the section's list. */
  lemma {:induction false} AppendGrows(objets: Sections, section: string, o: Obj)
    requires section in objets
    ensures forall s :: s in objets ==> objets[s] <= Append(objets, section, o)[s]
  {
  }

  lemma {:induction false} AppendShaped(objets: Sections, section: string, o: Obj)
    requires section in objets
    requires AllShaped(objets) && Shaped(o)
    ensures AllShaped(Append(objets, section, o))
  {
    var r := Append(objets, section, o);
    assert forall s, x :: s in r && x in r[s] ==> x in objets[s] || x == o;
  }

  /** What one pass of the outer loop does: the index of the next line to
      look at, the new cursor and objects, or the abort of a `ValueError`. */
  datatype Step<State> = Advance(next: nat, active: Option<string>, objets: State) | Abort

  /** One pass of the outer loop at lines 32-67, on the line `lines[i]`. */
  function StepAt(lines: seq<string>, i: nat, requested: seq<string>, active: Option<string>, objets: Sections): (st: Step<Sections>)
    requires i < |lines|
    requires forall s :: s in requested ==> s in objets
    requires Truthy(active) ==> active.value in objets
    ensures st.Advance? ==> st.next > i && st.objets.Keys == objets.Keys
    ensures st.Advance? && Truthy(st.active) ==> st.active.value in objets
  {
    var ligne := Strip(lines[i]);
    if ligne in requested then
      Advance(i + 1, Some(ligne), objets)
    else if Truthy(active) && StartsWith(ligne, "edit ") then
      var c := CollectAttrs(lines, i + 1, []);
      if c.failed then
        Abort
      else
        assert WellKeyed([]);
        CollectWellKeyed(lines, i + 1, []);
        var o := Append(objets, active.value, NewObject(EditName(ligne), c.params));
        // the `end` test at line 64 sees the `edit` line, so the section stays
        // open; the final `i += 1` steps over the `next`
        Advance(i + c.consumed + 2, active, o)
    else
      Advance(i + 1, if ligne == "end" then None else active, objets)
  }

  /** The outer loop from the line `lines[i]` on, with the cursor `active`
      and the objects collected so far. */
  function Scan(lines: seq<string>, i: nat, requested: seq<string>, active: Option<string>, objets: Sections): (r: ScanResult<Sections>)
    requires forall s :: s in requested ==> s in objets
    requires Truthy(active) ==> active.value in objets
    ensures r.objets.Keys == objets.Keys
    decreases |lines| - i
  {
    if i >= |lines| then ScanResult(objets, false)
    else
      match StepAt(lines, i, requested, active, objets)
      case Abort => ScanResult(objets, true)
      case Advance(next, a, o) => Scan(lines, next, requested, a, o)
  }

  /** `lire_sections_fortigate`: `None` stands for a file that cannot be
      opened or read. */
  function Parse(file: Option<seq<string>>, requested: seq<string>): (r: ParseResult)
    ensures r.objets.Keys == set s | s in requested
    ensures file.None? ==> r.status == SourceUnavailable && forall s :: s in r.objets ==> r.objets[s] == []
    ensures r.status == SourceUnavailable ==> file.None?
  {
    match file
    case None => ParseResult(EmptyFor(requested), SourceUnavailable)
    case Some(lines) =>
      var sr := Scan(lines, 0, requested, None, EmptyFor(requested));
      ParseResult(sr.objets, if sr.aborted then Aborted else Complete)
  }

  /** Every object the read returns has `name` first and attributes as the
      attribute loop collects them. */
  lemma {:induction false} ParseShaped(file: Option<seq<string>>, requested: seq<string>)
    ensures AllShaped(Parse(file, requested).objets)
  {
    if file.Some? {
      ScanKeepsShape(file.value, 0, requested, None, EmptyFor(requested));
    }
  }

  /** Every object the scan adds is shaped as `NewObject` builds it. */
  lemma {:induction false} ScanKeepsShape(lines: seq<string>, i: nat, requested: seq<string>, active: Option<string>, objets: Sections)
    requires forall s :: s in requested ==> s in objets
    requires Truthy(active) ==> active.value in objets
    requires AllShaped(objets)
    ensures AllShaped(Scan(lines, i, requested, active, objets).objets)
    decreases |lines| - i
  {
    if i < |lines| {
      match StepAt(lines, i, requested, active, objets)
      case Abort =>
      case Advance(next, a, o) =>
        StepKeepsShape(lines, i, requested, active, objets);
        ScanKeepsShape(lines, next, requested, a, o);
    }
  }

  /** One pass keeps every object shaped. */
  lemma {:induction false} StepKeepsShape(lines: seq<string>, i: nat, requested: seq<string>, active: Option<string>, objets: Sections)
    requires i < |lines|
    requires forall s :: s in requested ==> s in objets
    requires Truthy(active) ==> active.value in objets
    requires AllShaped(objets)
    ensures var st := StepAt(lines, i, requested, active, objets);
      st.Advance? ==> AllShaped(st.objets)
  {
    var ligne := Strip(lines[i]);
    if ligne !in requested && Truthy(active) && StartsWith(ligne, "edit ") {
      var c := CollectAttrs(lines, i + 1, []);
      if !c.failed {
        assert WellKeyed([]);
        CollectWellKeyed(lines, i + 1, []);
        AppendShaped(objets, active.value, NewObject(EditName(ligne), c.params));
      }
    }
  }

  /** One pass only extends lists. */
  lemma {:induction false} StepGrows(lines: seq<string>, i: nat, requested: seq<string>, active: Option<string>, objets: Sections)
    requires i < |lines|
    requires forall s :: s in requested ==> s in objets
    requires Truthy(active) ==> active.value in objets
    ensures var st := StepAt(lines, i, requested, active, objets);
      st.Advance? ==> forall s :: s in objets ==> objets[s] <= st.objets[s]
  {
    var ligne := Strip(lines[i]);
    if ligne !in requested && Truthy(active) && StartsWith(ligne, "edit ") {
      var c := CollectAttrs(lines, i + 1, []);
      if !c.failed {
        assert WellKeyed([]);
        CollectWellKeyed(lines, i + 1, []);
        AppendGrows(objets, active.value, NewObject(EditName(ligne), c.params));
      }
    }
  }

  /** The inner loop at lines 48-58, from `lines[start]` on: returns the
      attributes, the index it stopped at (a `next` line or the end of input)
      and whether a `set` line raised `ValueError`. */
  method ReadAttributes(lines: seq<string>, start: nat) returns (params: Obj, i: nat, failed: bool)
    requires start <= |lines|
    ensures start <= i <= |lines|
    ensures Collected(params, i - start, failed) == CollectAttrs(lines, start, [])
  {
    ghost var c0 := CollectAttrs(lines, start, []);
    params, i, failed := [], start, false;
    while i < |lines|
      invariant start <= i <= start + c0.consumed <= |lines|
      invariant CollectAttrs(lines, i, params) == Collected(c0.params, start + c0.consumed - i, c0.failed)
      decreases |lines| - i
    {
      var l := Strip(lines[i]);
      if l == "next" {
        assert CollectAttrs(lines, i, params) == Collected(params, 0, false);
        break;
      }
      // lines 50-57: a `set` line with a space in its tail is split in two
      var a := ClassifyAttr(l);
      if a.BadUnpack? {
        // `cle, val = ...` raises ValueError
        assert CollectAttrs(lines, i, params) == Collected(params, 0, true);
        failed := true;
        return;
      }
      CollectStep(lines, i, params, a, CollectAttrs(lines, i + 1, Absorb(params, a)));
      // `params[cle] = val.strip('"')` for an assignment, nothing otherwise
      params := Absorb(params, a);
      i := i + 1;
    }
  }

  /** A requested header opens its section. */
  lemma {:induction false} StepHeader(lines: seq<string>, i: nat, requested: seq<string>, active: Option<string>, objets: Sections)
    requires i < |lines|
    requires forall s :: s in requested ==> s in objets
    requires Truthy(active) ==> active.value in objets
    requires Strip(lines[i]) in requested
    ensures StepAt(lines, i, requested, active, objets) == Advance(i + 1, Some(Strip(lines[i])), objets)
  {
  }

  /** Any other line outside an object closes the section on `end` and is
      otherwise passed over. */
  lemma {:induction false} StepOther(lines: seq<string>, i: nat, requested: seq<string>, active: Option<string>, objets: Sections)
    requires i < |lines|
    requires forall s :: s in requested ==> s in objets
    requires Truthy(active) ==> active.value in objets
    requires Strip(lines[i]) !in requested
    requires !(Truthy(active) && StartsWith(Strip(lines[i]), "edit "))
    ensures StepAt(lines, i, requested, active, objets) ==
      Advance(i + 1, if Strip(lines[i]) == "end" then None else active, objets)
  {
  }

  /** An `edit` line in an open section whose attribute loop raises ends
      the scan. */
  lemma {:induction false} StepEditAborts(lines: seq<string>, i: nat, requested: seq<string>, active: Option<string>, objets: Sections)
    requires i < |lines|
    requires forall s :: s in requested ==> s in objets
    requires Truthy(active) && active.value in objets
    requires Strip(lines[i]) !in requested && StartsWith(Strip(lines[i]), "edit ")
    requires CollectAttrs(lines, i + 1, []).failed
    ensures StepAt(lines, i, requested, active, objets) == Abort
  {
  }

  /** An `edit` line in an open section whose attribute loop does not raise
      appends the object and resumes after its `next` line. */
  lemma {:induction false} StepEditAppends(lines: seq<string>, i: nat, requested: seq<string>, active: Option<string>, objets: Sections, c: Collected)
    requires i < |lines|
    requires forall s :: s in requested ==> s in objets
    requires Truthy(active) && active.value in objets
    requires Strip(lines[i]) !in requested && StartsWith(Strip(lines[i]), "edit ")
    requires c == CollectAttrs(lines, i + 1, []) && !c.failed
    requires WellKeyed(c.params)
    ensures StepAt(lines, i, requested, active, objets) ==
      Advance(i + c.consumed + 2, active, Append(objets, active.value, NewObject(EditName(Strip(lines[i])), c.params)))
  {
  }

  /** Lines 42-61: the object opened by the `edit` line `lines[i]`, appended
      to the active section; returns the index after its `next` line, or
      reports the `ValueError` that ends the read. */
  method ReadObject(lines: seq<string>, i: nat, requested: seq<string>, active: Option<string>, objets: Sections)
    returns (objets': Sections, next: nat, failed: bool)
    requires i < |lines|
    requires forall s :: s in requested ==> s in objets
    requires Truthy(active) && active.value in objets
    requires Strip(lines[i]) !in requested && StartsWith(Strip(lines[i]), "edit ")
    ensures StepAt(lines, i, requested, active, objets) == if failed then Abort else Advance(next, active, objets')
    ensures failed ==> objets' == objets
  {
    var ligne := Strip(lines[i]);
    var name := EditName(ligne);
    var params, j;
    params, j, failed := ReadAttributes(lines, i + 1);
    if failed {
      StepEditAborts(lines, i, requested, active, objets);
      return objets, 0, true;
    }
    assert WellKeyed([]);
    CollectWellKeyed(lines, i + 1, []);
    StepEditAppends(lines, i, requested, active, objets, Collected(params, j - (i + 1), false));
    var objet := NewObject(name, params);
    objets' := objets[active.value := objets[active.value] + [objet]];
    next := j + 1;
  }

  /** `lire_sections_fortigate` as the source runs it, on a file it could
      open and read. */
  method ReadSections(file: Option<seq<string>>, requested: seq<string>) returns (objets: Sections, status: ReadStatus)
    ensures ParseResult(objets, status) == Parse(file, requested)
  {
    if file.None? {
      return EmptyFor(requested), SourceUnavailable;
    }
    var aborted;
    objets, aborted := ReadLines(file.value, requested);
    status := if aborted then Aborted else Complete;
  }

  /** The outer loop at lines 30-67: `i` indexes `lines`, `active` is
      `section_active`, objects are appended in place. */
  method ReadLines(lines: seq<string>, requested: seq<string>) returns (objets: Sections, aborted: bool)
    ensures ScanResult(objets, aborted) == Scan(lines, 0, requested, None, EmptyFor(requested))
  {
    objets := EmptyFor(requested);
    ghost var whole := Scan(lines, 0, requested, None, objets);
    var i := 0;
    var active: Option<string> := None;
    while i < |lines|
      invariant forall s :: s in requested ==> s in objets
      invariant Truthy(active) ==> active.value in objets
      invariant Scan(lines, i, requested, active, objets) == whole
      decreases |lines| - i
    {
      var ligne := Strip(lines[i]);
      if ligne in requested {
        StepHeader(lines, i, requested, active, objets);
        active := Some(ligne);
        i := i + 1;
        continue;
      }
      if Truthy(active) && StartsWith(ligne, "edit ") {
        var objets', next, failed := ReadObject(lines, i, requested, active, objets);
        if failed {
          // the ValueError ends the read; the object being built is lost
          return objets, true;
        }
        objets, i := objets', next;
      } else {
        StepOther(lines, i, requested, active, objets);
        if ligne == "end" {
          active := None;
        }
        i := i + 1;
      }
    }
    return objets, false;
  }

  /** The `set` assignments among the `n` lines from `lines[i]` on, in order. */
  function Assigned(lines: seq<string>, i: nat, n: nat): AList<string>
    requires i + n <= |lines|
    decreases n
  {
    if n == 0 then []
    else
      var a := ClassifyAttr(Strip(lines[i]));
      (if a.Assign? then [(a.key, a.value)] else []) + Assigned(lines, i + 1, n - 1)
  }

  /** The attribute loop amounts to `params.update` with the assignments of
      the lines it consumed. */
  lemma {:induction false} CollectIsUpdate(lines: seq<string>, i: nat, params: Obj)
    requires i <= |lines|
    ensures var c := CollectAttrs(lines, i, params);
      c.params == PutAll(params, Assigned(lines, i, c.consumed))
    decreases |lines| - i
  {
    if i < |lines| {
      var a := ClassifyAttr(Strip(lines[i]));
      if Strip(lines[i]) != "next" && !a.BadUnpack? {
        CollectIsUpdate(lines, i + 1, Absorb(params, a));
        CollectUpdateStep(lines, i, params, a, CollectAttrs(lines, i + 1, Absorb(params, a)));
      }
    }
  }

  /** The inductive step of `CollectIsUpdate`, on one line `a` that the
      attribute loop consumes before going on with `c`. */
  lemma {:induction false} CollectUpdateStep(lines: seq<string>, i: nat, params: Obj, a: AttrLine, c: Collected)
    requires i < |lines| && Strip(lines[i]) != "next"
    requires a == ClassifyAttr(Strip(lines[i])) && !a.BadUnpack?
    requires c == CollectAttrs(lines, i + 1, Absorb(params, a))
    requires c.params == PutAll(Absorb(params, a), Assigned(lines, i + 1, c.consumed))
    ensures CollectAttrs(lines, i, params).params == PutAll(params, Assigned(lines, i, c.consumed + 1))
    ensures CollectAttrs(lines, i, params).consumed == c.consumed + 1
  {
    var tail := Assigned(lines, i + 1, c.consumed);
    var head := if a.Assign? then [(a.key, a.value)] else [];
    assert Assigned(lines, i, c.consumed + 1) == head + tail;
    if a.Assign? {
      PutAllCons(params, a.key, a.value, tail);
    } else {
      assert head + tail == tail;
    }
  }

  /** A repeated `set` of the same attribute keeps the last value given. */
  lemma {:induction false} LastSetWins(lines: seq<string>, i: nat, k: string)
    requires i <= |lines|
    ensures var c := CollectAttrs(lines, i, []);
      Lookup(c.params, k) == LastValue(Assigned(lines, i, c.consumed), k)
  {
    var c := CollectAttrs(lines, i, []);
    CollectIsUpdate(lines, i, []);
    LookupPutAll([], Assigned(lines, i, c.consumed), k);
  }

  /** The object starts with `name`; a `set name` among its attributes
      replaces the value taken from the `edit` line; every other attribute
      is the collected one. */
  lemma {:induction false} NewObjectLookup(name: string, params: Obj, k: string)
    requires EndsFree(name, '"') && WellKeyed(params)
    ensures Keys(NewObject(name, params)) == AppendNew(["name"], Keys(params))
    ensures Lookup(NewObject(name, params), k) ==
      if k in Keys(params) then Lookup(params, k)
      else if k == "name" then Some(name)
      else None
  {
    var base := [("name", name)];
    assert Keys(base) == ["name"];
    PutAllKeys(base, params);
    LookupPutAll(base, params, k);
    LastValueLookup(params, k);
  }

  /** Objects are only appended: each list the scan starts with is a prefix
      of the list it ends with. */
  lemma {:induction false} ScanGrows(lines: seq<string>, i: nat, requested: seq<string>, active: Option<string>, objets: Sections)
    requires forall s :: s in requested ==> s in objets
    requires Truthy(active) ==> active.value in objets
    ensures var r := Scan(lines, i, requested, active, objets);
      forall s :: s in objets ==> objets[s] <= r.objets[s]
    decreases |lines| - i
  {
    if i < |lines| {
      match StepAt(lines, i, requested, active, objets)
      case Abort =>
      case Advance(next, a, o) =>
        StepGrows(lines, i, requested, active, objets);
        ScanGrows(lines, next, requested, a, o);
    }
  }

  /** A section that is not open and whose header never appears again gets
      no object: objects only go to the active section. */
  lemma {:induction false} ScanUntouched(lines: seq<string>, i: nat, requested: seq<string>, active: Option<string>, objets: Sections, s: string)
    requires forall s :: s in requested ==> s in objets
    requires Truthy(active) ==> active.value in objets
    requires s in objets && active != Some(s)
    requires forall j :: i <= j < |lines| ==> Strip(lines[j]) != s
    ensures Scan(lines, i, requested, active, objets).objets[s] == objets[s]
    decreases |lines| - i
  {
    if i < |lines| {
      match StepAt(lines, i, requested, active, objets)
      case Abort =>
      case Advance(next, a, o) =>
        ScanUntouched(lines, next, requested, a, o, s);
    }
  }

  /** `lines[j]` is a `set` line whose tail does not split in two, on which
      `cle, val = ...` raises. */
  predicate RaisesAt(lines: seq<string>, j: int) {
    0 <= j < |lines| && ClassifyAttr(Strip(lines[j])).BadUnpack?
  }

  /** A pass that aborts is on an `edit` line whose attribute loop raised. */
  lemma {:induction false} StepAbort(lines: seq<string>, i: nat, requested: seq<string>, active: Option<string>, objets: Sections)
    requires i < |lines|
    requires forall s :: s in requested ==> s in objets
    requires Truthy(active) ==> active.value in objets
    requires StepAt(lines, i, requested, active, objets) == Abort
    ensures CollectAttrs(lines, i + 1, []).failed
  {
  }

  /** An attribute loop that raised did so on the line it stopped at. */
  lemma {:induction false} CollectRaises(lines: seq<string>, i: nat, c: Collected)
    requires i <= |lines| && c == CollectAttrs(lines, i, []) && c.failed
    ensures RaisesAt(lines, i + c.consumed)
  {
    CollectFailsAt(lines, i, []);
  }

  /** A scan aborts only on a `set` line whose tail does not split in two. */
  lemma {:induction false} ScanAbortCause(lines: seq<string>, i: nat, requested: seq<string>, active: Option<string>, objets: Sections)
    requires forall s :: s in requested ==> s in objets
    requires Truthy(active) ==> active.value in objets
    ensures Scan(lines, i, requested, active, objets).aborted ==>
      exists j :: i < j && RaisesAt(lines, j)
    decreases |lines| - i
  {
    if i < |lines| {
      match StepAt(lines, i, requested, active, objets)
      case Abort =>
        StepAbort(lines, i, requested, active, objets);
        var c := CollectAttrs(lines, i + 1, []);
        CollectRaises(lines, i + 1, c);
        assert i < i + 1 + c.consumed;
      case Advance(next, a, o) =>
        ScanAbortCause(lines, next, requested, a, o);
    }
  }

  /** An `edit` block of an open section that reaches a raising `set` line
      before any `next` ends the read, which keeps exactly the objects it had
      appended before that block. */
  lemma {:induction false} ScanAbortsAt(lines: seq<string>, i: nat, requested: seq<string>, active: Option<string>, objets: Sections, j: nat)
    requires forall s :: s in requested ==> s in objets
    requires Truthy(active) && active.value in objets
    requires i < j < |lines|
    requires Strip(lines[i]) !in requested && StartsWith(Strip(lines[i]), "edit ")
    requires forall t :: i < t < j ==> PassedAt(lines, t)
    requires RaisesAt(lines, j)
    ensures Scan(lines, i, requested, active, objets) == ScanResult(objets, true)
  {
    CollectRaisesAt(lines, i + 1, [], j);
    StepEditAborts(lines, i, requested, active, objets);
  }

  /** A read that gets to such a block with the objects `objets` returns
      them with the status `Aborted`. */
  lemma {:induction false} ParseAborts(lines: seq<string>, requested: seq<string>, i: nat, active: Option<string>, objets: Sections, j: nat)
    requires forall s :: s in requested ==> s in objets
    requires Truthy(active) && active.value in objets
    requires Scan(lines, 0, requested, None, EmptyFor(requested)) == Scan(lines, i, requested, active, objets)
    requires i < j < |lines|
    requires Strip(lines[i]) !in requested && StartsWith(Strip(lines[i]), "edit ")
    requires forall t :: i < t < j ==> PassedAt(lines, t)
    requires RaisesAt(lines, j)
    ensures Parse(Some(lines), requested) == ParseResult(objets, Aborted)
  {
    ScanAbortsAt(lines, i, requested, active, objets, j);
  }

  /** `set  comment` (two spaces, one token) is already stripped and raises. */
  lemma {:induction false} LoneTokenRaises(l: string)
    requires l == "set  comment"
    ensures Strip(l) == l && ClassifyAttr(l).BadUnpack?
  {
    var ws, tok := l[4..5], l[5..];
    assert l == "set " + ws + tok + [];
    assert AllSpace(ws) && NoSpace(tok) && ws[0] == ' ';
    ClassifyOneToken(ws, tok, []);
    StripSurrounded([], l, []);
    assert [] + l + [] == l;
  }

  /** `edit "x"` is already stripped and opens an object. */
  lemma {:induction false} EditLineStripped(l: string)
    requires l == "edit \"x\""
    ensures Strip(l) == l && StartsWith(l, "edit ")
  {
    StripSurrounded([], l, []);
    assert [] + l + [] == l;
  }

  /** An address object whose block holds `set  comment` (two spaces, one
      token): the read stops there, without the object. */
  lemma {:induction false} ParseAbortsOnLoneToken(lines: seq<string>, requested: seq<string>)
    requires lines == ["config firewall address", "edit \"x\"", "set  comment", "next", "end"]
    requires requested == ["config firewall address"]
    ensures Parse(Some(lines), requested) == ParseResult(map["config firewall address" := []], Aborted)
  {
    var h := lines[0];
    var empty := EmptyFor(requested);
    assert empty == map[h := []];
    SupportedHeaders(h);
    StripSurrounded([], h, []);
    assert [] + h + [] == h;
    EditLineStripped(lines[1]);
    LoneTokenRaises(lines[2]);
    StepHeader(lines, 0, requested, None, empty);
    ParseAborts(lines, requested, 1, Some(h), empty, 2);
  }
}
