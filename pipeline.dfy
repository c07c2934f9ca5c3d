/** What `main` does with the pieces: select the sections, read both files,
    merge them with the second file taking precedence, and write the result.
    The answer to the prompt and the two files are parameters; the output
    file is the list of lines written. */
module Pipeline {
  import opened Wrappers
  import opened Text
  import opened Config
  import opened Parser
  import opened Merge
  import opened Writer
  import opened Selection
  import opened RoundTrip

  /** Everything one run produces: the sections asked for, the two reads,
      the merge with its warnings, and the lines written. */
  datatype Outcome = Outcome(requested: seq<string>, read1: ParseResult, read2: ParseResult, merged: Merged, written: Rendered)

  /** Objects as the parser builds them all have a name. */
  lemma {:induction false} ShapedNamed(m: Sections)
    requires AllShaped(m)
    ensures Named(m)
  {
    forall s, o | s in Supported && o in Objects(m, s) ensures HasName(o) {
      ShapedName(o);
    }
  }

  /** The merge of two reads keeps the parser's shape: it only keeps objects
      of the two files. */
  lemma {:induction false} MergeShaped(c1: Sections, c2: Sections)
    requires AllShaped(c1) && AllShaped(c2)
    ensures Named(c1) && Named(c2)
    ensures AllShaped(Merge.Merge(c1, c2).objets)
  {
    ShapedNamed(c1);
    ShapedNamed(c2);
    var m := Merge.Merge(c1, c2).objets;
    forall s, o | s in m && o in m[s] ensures Shaped(o) {
      MergeFrom(c1, c2, s, o);
    }
  }

  /** `main` without its console output: `choice` is the answer to the
      prompt, `toInt` stands for `int()`, and `file1`, `file2` for the
      contents of `conf_1.txt` and `conf_2.txt` (`None` if unreadable). */
  function Run(choice: string, toInt: string -> Option<int>, file1: Option<seq<string>>, file2: Option<seq<string>>): (r: Outcome)
    ensures forall s :: s in r.requested ==> s in Supported
    ensures AllShaped(r.merged.objets)
    ensures r.merged.objets.Keys == set s | s in Supported
    ensures r.written == Render(r.merged.objets)
  {
    var requested := Select(choice, toInt).sections;
    var read1 := Parse(file1, requested);
    var read2 := Parse(file2, requested);
    ParseShaped(file1, requested);
    ParseShaped(file2, requested);
    MergeShaped(read1.objets, read2.objets);
    var merged := Merge.Merge(read1.objets, read2.objets);
    Outcome(requested, read1, read2, merged, Render(merged.objets))
  }

  /** A merge result is written without error, and reading the lines
      written, for sections it holds, gives back its objects in order. */
  lemma {:induction false} MergedReadsBack(m: Sections, requested: seq<string>)
    requires AllShaped(m)
    requires forall s :: s in requested ==> s in Supported && s in m
    ensures Render(m).ok
    ensures Parse(Some(Render(m).lines), requested) == ParseResult(map s | s in requested :: m[s], Complete)
  {
    ParseRender(m, requested);
    assert (map s | s in requested :: Objects(m, s)) == map s | s in requested :: m[s];
  }

  /** A run writes its whole merge without error, and reading the file it
      wrote, for the same sections, gives back the merged objects of those
      sections, in order. */
  lemma {:induction false} RunReadsBack(choice: string, toInt: string -> Option<int>, file1: Option<seq<string>>, file2: Option<seq<string>>)
    ensures var r := Run(choice, toInt, file1, file2);
      && r.written.ok
      && Parse(Some(r.written.lines), r.requested) == ParseResult(map s | s in r.requested :: r.merged.objets[s], Complete)
  {
    var r := Run(choice, toInt, file1, file2);
    MergedReadsBack(r.merged.objets, r.requested);
  }
}
