/** The selection rule of `demander_sections`: the answer is split on commas,
    each piece is stripped and converted with `int()`, and the numbers 1 to 6
    pick supported sections in the order given; if any conversion fails,
    every supported section is selected.

    `int()` itself is a parameter, `toInt`, that returns `None` where `int()`
    raises. */
module Selection {
  import opened Wrappers
  import opened Text
  import opened Config

  /** The sections chosen, and whether the fallback to all of them was taken
      (the source then prints `Entrée invalide`). */
  datatype Selected = Selected(sections: seq<string>, fellBack: bool)

  /** Some piece of the answer does not convert: `int()` raises on it. */
  predicate Fails(tokens: seq<string>, toInt: string -> Option<int>) {
    exists j :: 0 <= j < |tokens| && toInt(Strip(tokens[j])).None?
  }

  /** `[int(i.strip()) for i in tokens]`, or `None` when one conversion raises. */
  function Indices(tokens: seq<string>, toInt: string -> Option<int>): (r: Option<seq<int>>)
    ensures r.Some? ==> |r.value| == |tokens|
    ensures r.Some? ==> forall j :: 0 <= j < |tokens| ==> toInt(Strip(tokens[j])) == Some(r.value[j])
    ensures r.None? <==> Fails(tokens, toInt)
  {
    if tokens == [] then Some([])
    else
      var init := tokens[..|tokens| - 1];
      var last := toInt(Strip(tokens[|tokens| - 1]));
      var front := Indices(init, toInt);
      assert forall j :: 0 <= j < |init| ==> init[j] == tokens[j];
      if front.None? || last.None? then None else Some(front.value + [last.value])
  }

  /** An index the comprehension keeps: `0 < i <= len(SECTIONS_SUPPORTÉES)`. */
  predicate InRange(i: int) {
    0 < i <= |Supported|
  }

  /** `[SECTIONS_SUPPORTÉES[i - 1] for i in indices if 0 < i <= 6]` */
  function Pick(indices: seq<int>): (r: seq<string>)
    ensures |r| <= |indices|
    ensures forall s :: s in r ==> s in Supported
  {
    if indices == [] then []
    else
      var i := indices[|indices| - 1];
      Pick(indices[..|indices| - 1]) + if InRange(i) then [Supported[i - 1]] else []
  }

  /** `demander_sections` once the answer has been read. */
  function Select(choice: string, toInt: string -> Option<int>): (r: Selected)
    ensures forall s :: s in r.sections ==> s in Supported
    ensures r.fellBack <==> Fails(SplitOn(choice, ','), toInt)
    ensures r.fellBack ==> r.sections == Supported
  {
    var pieces := SplitOn(choice, ',');
    var indices := Indices(pieces, toInt);
    if indices.None? then Selected(Supported, true) else Selected(Pick(indices.value), false)
  }

  /** Picking from two runs of indices is picking from each in turn. */
  lemma {:induction false} PickConcat(a: seq<int>, b: seq<int>)
    ensures Pick(a + b) == Pick(a) + Pick(b)
    decreases |b|
  {
    if b == [] {
      assert a + b == a;
    } else {
      var init := b[..|b| - 1];
      assert (a + b)[..|a + b| - 1] == a + init;
      assert (a + b)[|a + b| - 1] == b[|b| - 1];
      PickConcat(a, init);
    }
  }

  /** The last index, in range, adds its section after those of the others. */
  lemma {:induction false} PickLast(init: seq<int>, i: int, indices: seq<int>)
    requires indices == init + [i] && InRange(i)
    ensures Pick(indices) == Pick(init) + [Supported[i - 1]]
  {
    assert indices[..|indices| - 1] == init;
  }

  /** Indices that are all in range pick one section each, in order, and a
      repeated index picks its section again. */
  lemma {:induction false} PickInRange(indices: seq<int>)
    requires forall j :: 0 <= j < |indices| ==> 0 < indices[j] <= |Supported|
    ensures |Pick(indices)| == |indices| &&
      forall j :: 0 <= j < |indices| ==> Pick(indices)[j] == Supported[indices[j] - 1]
  {
    if indices != [] {
      var init := indices[..|indices| - 1];
      var i := indices[|indices| - 1];
      assert indices == init + [i];
      PickInRange(init);
      PickLast(init, i, indices);
    }
  }

  /** An index out of range is dropped without a trace. */
  lemma {:induction false} PickDrops(a: seq<int>, i: int, b: seq<int>)
    requires !InRange(i)
    ensures Pick(a + [i] + b) == Pick(a + b)
  {
    PickConcat(a + [i], b);
    PickConcat(a, [i]);
    PickConcat(a, b);
    assert [i][..0] == [];
  }

  /** An answer written as the comma-joined pieces `pieces`, each converting
      to the number `numbers[j]`, selects what those numbers pick. */
  lemma {:induction false} SelectJoined(pieces: seq<string>, numbers: seq<int>, toInt: string -> Option<int>)
    requires |pieces| >= 1 && |numbers| == |pieces|
    requires forall j :: 0 <= j < |pieces| ==> ',' !in pieces[j]
    requires forall j :: 0 <= j < |pieces| ==> toInt(Strip(pieces[j])) == Some(numbers[j])
    ensures Select(Join(pieces, ','), toInt) == Selected(Pick(numbers), false)
  {
    SplitOnJoin(pieces, ',');
    var r := Indices(pieces, toInt);
    assert r.Some?;
    assert r.value == numbers;
  }
}
