# FortiGate address-object merge, modelled in Dafny

`FG-Fusion-Adresses.py` merges the address objects of two FortiGate CLI
exports. It has three stages:

- It reads the `config firewall …` sections the user asked for out of each
  file. Every `edit` … `next` block becomes an object: `name` first, then
  its `set` attributes, with `uuid` dropped.
- It merges the two reads section by section, keyed by object name. The
  second file wins.
- It writes the merge back as CLI text, in the fixed order of the six
  supported sections.

This project models those three stages, the list of supported sections and
the numeric selection rule of the prompt. It proves the properties the
tool relies on. The main ones:

- Reading back what the writer wrote returns the written objects, section by
  section and in order (`RoundTrip.ParseRender`).
- A merged section holds, for each name, exactly the object the second file
  (or else the first) last gave it, in first-seen order. Merging the result
  with the second file again changes nothing.
- A warning is printed exactly for each name found in the same section of
  both files.
- The read aborts only on a `set` line whose tail does not split in two, and
  then keeps what it had already appended.

The modules follow the program:

| Module | What it models |
|---|---|
| `Text` | `str.strip`, `strip('"')`, `split(maxsplit=1)` and `split(',')` |
| `AssocLists` | Python dicts as insertion-ordered association lists |
| `Config` | `SECTIONS_SUPPORTÉES`, objects and sections |
| `Parser` | `lire_sections_fortigate` |
| `Merge` | `fusionner_sections` |
| `Writer` | `ecrire_sections_fortigate` |
| `RoundTrip` | reading back what the writer wrote |
| `Selection` | the selection rule of `demander_sections` |
| `Pipeline` | `main` |

The parser, the merge and the writer are each given twice:

- as functions that specify them (`Parse`/`Scan`, `Merge`, `Render`);
- as methods with the source's loops, proved to compute the same result
  (`ReadSections`, `MergeSections`, `WriteSections`).

Files are lists of lines. An input file that cannot be opened or read
(missing, not permitted, not decodable) is `None`.

Behaviour of the code worth noting:

- `strip('"')` removes every leading and trailing double quote, not one
  enclosing pair.
- The attribute loop stops only at a `next` line or at the end of input.
  An `end` or another `edit` inside an unterminated block is swallowed as
  an attribute line.
- A `set` line whose tail has no literal space is ignored. But `set  x`
  (whitespace, then one token) makes the tuple unpacking raise
  `ValueError`. The `except Exception` handler then ends the read with
  whatever was appended so far. Malformed input is therefore not always
  tolerated silently.
- The merge returns all six supported sections whatever was requested.
  Unrequested ones are empty lists.
- Merging a read with itself warns once for every name, because every
  name is in both inputs (`Merge.MergeWarnings`, `Merge.MergeWarningsOnce`).

## Model

| member | source | states |
|---|---|---|
| `Config.SupportedHeaders` | FG-Fusion-Adresses.py:9-16 | every supported header is a non-empty, already-stripped line starting with `config `, so no `edit`, `set`, `next` or `end` line is one |
| `Config.SupportedDistinct` | FG-Fusion-Adresses.py:9-16 | the six supported headers are pairwise distinct |
| `Text.Strip` | FG-Fusion-Adresses.py:33 | `strip()` leaves neither end of the text as whitespace (ASCII `isspace`) |
| `Text.StripSurrounded` | FG-Fusion-Adresses.py:33 | `strip()` removes exactly the whitespace around a non-empty stripped text and nothing of the text |
| `Text.StripBlank` | FG-Fusion-Adresses.py:33 | a blank line (whitespace only) strips to the empty text |
| `Text.StripChar` | FG-Fusion-Adresses.py:57 | `strip('"')` leaves no double quote at either end |
| `Text.StripCharWrapped` | FG-Fusion-Adresses.py:57 | a text with no quote at either end, wrapped in one quote on each side, is given back by `strip('"')` |
| `Text.SplitOnce` | FG-Fusion-Adresses.py:55 | `split(maxsplit=1)` gives no part exactly for an all-whitespace text, else a first part that is a non-empty whitespace-free token and at most one more part that does not start with whitespace (values pinned by the three lemmas below and `Text.SplitOnceOneToken`) |
| `Text.SplitOnceGeneral` | FG-Fusion-Adresses.py:55 | leading whitespace, a token, any non-empty whitespace run and a text not starting with whitespace split into that token and that text |
| `Text.SplitOnceAfter` | FG-Fusion-Adresses.py:43 | a token followed by a text that starts with whitespace and does not end with it splits into the token and that text with its leading whitespace dropped |
| `Text.SplitOnceAtSpace` | FG-Fusion-Adresses.py:55 | a token, a space and a text not starting with whitespace split into that token and that text |
| `Text.TrimLeftSpaces` | FG-Fusion-Adresses.py:55 | leading whitespace before a text not starting with whitespace is dropped |
| `Text.TokenEndWhole` | FG-Fusion-Adresses.py:55 | a token followed only by whitespace ends where the token ends |
| `Text.SplitOnceOneToken` | FG-Fusion-Adresses.py:55 | whitespace around a single token splits into just that token (nothing if the token is empty) |
| `Text.SplitOn` | FG-Fusion-Adresses.py:133 | `split(',')` gives at least one piece and no piece holds a comma |
| `Text.JoinSplitOn` | FG-Fusion-Adresses.py:133 | joining the pieces of a split with the separator gives the answer back |
| `Text.SplitOnJoin` | FG-Fusion-Adresses.py:133 | splitting comma-joined pieces that hold no comma gives those pieces back |
| `AssocLists.Lookup` | FG-Fusion-Adresses.py:114 | looking `k` up, as `name in d` does, finds nothing exactly when `k` is not a key, and otherwise finds an entry of `d` |
| `AssocLists.Put` | FG-Fusion-Adresses.py:117 | `d[k] = v` keeps the existing keys in place and appends `k` only when it is new; every entry is `(k, v)` or an old one |
| `AssocLists.LookupPut` | FG-Fusion-Adresses.py:117 | after `d[k] = v`, `k` holds `v` and every other key what it held |
| `AssocLists.PutUnique` | FG-Fusion-Adresses.py:57 | assigning a key keeps the keys unique |
| `AssocLists.PutFresh` | FG-Fusion-Adresses.py:57 | assigning a new key appends it at the end |
| `AssocLists.PutAllKeys` | FG-Fusion-Adresses.py:60 | after `d.update(es)` the old keys keep their places and the new keys of `es` follow in order of first occurrence |
| `AssocLists.LookupPutAll` | FG-Fusion-Adresses.py:60 | after `d.update(es)` a key holds the last value `es` gave it, or its old value |
| `AssocLists.PutAllTwice` | FG-Fusion-Adresses.py:111 | applying the same update twice is applying it once |
| `Parser.EmptyFor` | FG-Fusion-Adresses.py:25 | the initial result has exactly the requested sections, each an empty list |
| `Parser.ClassifyAttr` | FG-Fusion-Adresses.py:52-57 | an assigned attribute is never `uuid`, its key is one whitespace-free token and its value has no enclosing quote |
| `Parser.CollectPassesOver` | FG-Fusion-Adresses.py:48-58 | the attribute loop goes past every line that is neither `next` nor a raising `set` line, `end` and `edit` lines included |
| `Parser.CollectStopsAtNext` | FG-Fusion-Adresses.py:48-51 | when the attribute loop stops without raising before the end of input, it stops on a `next` line |
| `Parser.ClassifyNoSpace` | FG-Fusion-Adresses.py:52-54 | a `set` line whose tail holds no literal space is ignored |
| `Parser.ClassifyOneToken` | FG-Fusion-Adresses.py:52-55 | a `set` line whose tail holds a space but only one token makes the unpacking raise |
| `Parser.ClassifyTwoTokens` | FG-Fusion-Adresses.py:52-57 | `set k<ws>w`, with a token `k`, any whitespace run `<ws>`, `w` not starting with whitespace and a literal space somewhere in the tail, assigns `k` the unquoted `w`, unless `k` is `uuid` (a tail with no literal space: `Parser.ClassifyNoSpace`) |
| `Parser.CollectRaisesAt` | FG-Fusion-Adresses.py:47-58 | if every line before a raising `set` line is passed over, the attribute loop raises exactly there (converse of `Parser.CollectFailsAt`) |
| `Parser.CollectFailsAt` | FG-Fusion-Adresses.py:53-55 | when the attribute loop raises, it is on a `set` line whose tail does not split in two |
| `Parser.CollectWellKeyed` | FG-Fusion-Adresses.py:52-57 | the attributes collected have unique keys, no `uuid`, single-token keys and unquoted values |
| `Parser.CollectIsUpdate` | FG-Fusion-Adresses.py:48-58 | the attributes collected are the dict updated with the `set` assignments of the lines consumed, in order |
| `Parser.LastSetWins` | FG-Fusion-Adresses.py:57 | a repeated `set` of one attribute keeps the last value given |
| `Parser.EditLineSplits` | FG-Fusion-Adresses.py:43 | a stripped `edit ` line always has a second part, so `[1]` never fails |
| `Parser.EditName` | FG-Fusion-Adresses.py:43 | the name has every enclosing quote removed |
| `Parser.EditNameRest` | FG-Fusion-Adresses.py:43 | for every stripped `edit ` line, the name is the rest of the line after `edit `, leading whitespace dropped, quotes stripped |
| `Parser.EditNameGeneral` | FG-Fusion-Adresses.py:43 | `edit <ws><w>` with any whitespace run names `w` with its quotes stripped, e.g. `edit   web01` names `web01` |
| `Parser.NewObject` | FG-Fusion-Adresses.py:43-60 | a new object has `name` first and well-formed attributes |
| `Parser.NewObjectLookup` | FG-Fusion-Adresses.py:43-60 | the object's keys are `name` then the new attribute keys; a `set name` overrides the `edit` name, and every other key holds its attribute value |
| `Parser.Append` | FG-Fusion-Adresses.py:61 | appending an object changes no section key |
| `Parser.AppendGrows` | FG-Fusion-Adresses.py:61 | appending only extends the section's list |
| `Parser.StepAt` | FG-Fusion-Adresses.py:32-67 | each pass of the outer loop moves forward, keeps the section keys, and keeps the cursor on a section of the result |
| `Parser.StepHeader` | FG-Fusion-Adresses.py:36-39 | helper unfolding the header branch of one pass, used by `Parser.ReadLines` (loop equals `Parse`) and `RoundTrip.HeaderStep` (written header opens its section) |
| `Parser.StepOther` | FG-Fusion-Adresses.py:63-67 | helper unfolding the `end`/other-line branch of one pass, used by `Parser.ReadLines` and `RoundTrip.EndStep`/`RoundTrip.BlankStep` (written `end` closes the section, blank line changes nothing) |
| `Parser.StepEditAborts` | FG-Fusion-Adresses.py:53-55 | helper unfolding the raising `edit` branch of one pass, used by `Parser.ReadObject` and `Parser.ScanAbortsAt` (a `set` line with one token aborts the read) |
| `Parser.StepEditAppends` | FG-Fusion-Adresses.py:42-67 | helper unfolding the appending `edit` branch of one pass, used by `Parser.ReadObject` and `RoundTrip.StepObject` (a written object reads back as itself) |
| `Parser.StepAbort` | FG-Fusion-Adresses.py:71-72 | helper: a pass that aborts is one whose attribute loop raised; used by `Parser.ScanAbortCause` |
| `Parser.Scan` | FG-Fusion-Adresses.py:30-67 | the outer loop keeps exactly the section keys it started with |
| `Parser.Parse` | FG-Fusion-Adresses.py:19-74 | the result has exactly the requested sections; an unavailable file (missing or unreadable) gives every section empty, and status `SourceUnavailable` occurs exactly then |
| `Parser.ParseShaped` | FG-Fusion-Adresses.py:43-61 | every object read has `name` first, unique single-token keys, no `uuid` and unquoted values |
| `Parser.ScanKeepsShape` | FG-Fusion-Adresses.py:43-61 | the outer loop only adds objects of that shape |
| `Parser.StepKeepsShape` | FG-Fusion-Adresses.py:42-61 | one pass only adds objects of that shape |
| `Parser.StepGrows` | FG-Fusion-Adresses.py:61 | one pass only extends lists |
| `Parser.ScanGrows` | FG-Fusion-Adresses.py:61-74 | the read only appends, so what was appended before an abort is kept |
| `Parser.ScanUntouched` | FG-Fusion-Adresses.py:36-42 | a section that is not open and whose header never comes again gets no object |
| `Parser.CollectRaises` | FG-Fusion-Adresses.py:53-55 | an attribute loop that raised did so on the line it stopped at |
| `Parser.ScanAbortCause` | FG-Fusion-Adresses.py:53-72 | a read aborts only if some later line is a `set` line whose tail does not split in two |
| `Parser.ScanAbortsAt` | FG-Fusion-Adresses.py:42-72 | conversely, an `edit` line in an open section followed by passed-over lines and then a raising `set` line ends the read with the objects read so far |
| `Parser.ParseAborts` | FG-Fusion-Adresses.py:19-74 | a read that reaches such an `edit` line returns the objects read so far with status `Aborted` |
| `Parser.ParseAbortsOnLoneToken` | FG-Fusion-Adresses.py:52-72 | the block `edit "x"`, `set  comment`, `next` aborts the read with the section still empty |
| `Parser.ReadAttributes` | FG-Fusion-Adresses.py:44-58 | the attribute loop, run with an index, computes what `CollectAttrs` specifies |
| `Parser.ReadObject` | FG-Fusion-Adresses.py:42-61 | reading one `edit` block does what one pass of `StepAt` specifies, and an abort changes nothing |
| `Parser.ReadLines` | FG-Fusion-Adresses.py:30-67 | the outer loop, run with an index and a cursor, computes what `Scan` specifies |
| `Parser.ReadSections` | FG-Fusion-Adresses.py:19-74 | `lire_sections_fortigate` as the source runs it computes `Parse` |
| `Merge.Entries` | FG-Fusion-Adresses.py:107 | one entry per object |
| `Merge.EntriesAt` | FG-Fusion-Adresses.py:107 | the entries keep the objects' order: entry j is (name of object j, object j) |
| `Merge.EntriesNamed` | FG-Fusion-Adresses.py:107 | each entry is an object of the list filed under its own name |
| `Merge.IndexFacts` | FG-Fusion-Adresses.py:107-108 | the name index holds each name once, in order of first occurrence, under an object of the list with that name |
| `Merge.SectionFacts` | FG-Fusion-Adresses.py:106-117 | a merged section holds each name once, under an object of that name from one of the two files |
| `Merge.Merge` | FG-Fusion-Adresses.py:99-120 | the merge has exactly the six supported sections, whatever was requested |
| `Merge.MergeAt` | FG-Fusion-Adresses.py:119-120 | helper unfolding `Merge` at one section, used by `Merge.MergeWinner`, `Merge.MergeNamed`, `Merge.MergeOrder`, `Merge.MergeAgainAt` and `Merge.MergeFrom` |
| `Merge.MergeSection` | FG-Fusion-Adresses.py:106-117 | the per-section loop builds the merged dict `SectionFusion` and prints the warnings `SectionWarnings` |
| `Merge.MergeStep` | FG-Fusion-Adresses.py:105-117 | helper unfolding one more section of the merge loop, used by `Merge.FuseSection` and so by `Merge.MergeSections` (loop equals `Merge`) |
| `Merge.FuseSection` | FG-Fusion-Adresses.py:105-117 | the body of the loop over sections does that step |
| `Merge.FuseSections` | FG-Fusion-Adresses.py:104-117 | the loop over sections fills every supported section and prints the warnings in section order |
| `Merge.MergeSections` | FG-Fusion-Adresses.py:99-120 | `fusionner_sections` as the source runs it computes `Merge` and its warnings |
| `Merge.FillValues` | FG-Fusion-Adresses.py:120 | converting the filled dicts to lists gives each key the values of its own dict |
| `Merge.LastNamed` | FG-Fusion-Adresses.py:107 | the reference choice: the last object of a name, absent exactly when no object has that name |
| `Merge.Winner` | FG-Fusion-Adresses.py:107-117 | the object the merge should keep for a name, absent exactly when neither file has that name |
| `Merge.EntriesLastNamed` | FG-Fusion-Adresses.py:107 | the last entry of a name is the last object of that name |
| `Merge.IndexLookup` | FG-Fusion-Adresses.py:107 | looking a name up in one file's index finds that file's last object of that name |
| `Merge.SectionLookup` | FG-Fusion-Adresses.py:111-117 | looking a name up in a merged section finds the second file's last object of that name, or else the first file's |
| `Merge.SectionKeepsWinner` | FG-Fusion-Adresses.py:111-117 | every object kept in a merged section is the winner for its name |
| `Merge.SectionHasWinner` | FG-Fusion-Adresses.py:111-117 | the winner for every name of either file is kept |
| `Merge.MergeWinner` | FG-Fusion-Adresses.py:104-120 | an object is in a merged section exactly when it is the winner for its name, so the second file's object replaces the first's whole |
| `Merge.EntriesValues` | FG-Fusion-Adresses.py:120 | indexing the listed values of a name-keyed dict again gives the same dict |
| `Merge.SectionNames` | FG-Fusion-Adresses.py:111-117 | a merged section's names are the first file's names in order of first occurrence, then the second file's new names |
| `Merge.MergeOrder` | FG-Fusion-Adresses.py:107-120 | the same order, for the lists the merge returns |
| `Merge.MergeNames` | FG-Fusion-Adresses.py:104-120 | no two objects of a merged section share a name, and a name is in it exactly when either file has it in that section |
| `Merge.MergeNamed` | FG-Fusion-Adresses.py:120 | every merged object has a name, so the result can be merged again |
| `Merge.SectionAgain` | FG-Fusion-Adresses.py:107-117 | merging a merged section with the second file's section again changes nothing |
| `Merge.MergeAgainAt` | FG-Fusion-Adresses.py:104-120 | one section of the result is unchanged by merging it with the second file again |
| `Merge.MergeAgain` | FG-Fusion-Adresses.py:99-120 | merging the result with the second file again gives the same result |
| `Merge.ClashesIff` | FG-Fusion-Adresses.py:113-116 | with distinct names to assign, a name warns exactly when it is already a key before the update |
| `Merge.SectionWarningsIff` | FG-Fusion-Adresses.py:113-116 | a section warns about exactly the names it has in both files (once each: `Merge.SectionWarningsUnrepeated`) |
| `Merge.WarningsIff` | FG-Fusion-Adresses.py:105-116 | the warnings of the first sections are exactly their clashes |
| `Merge.MergeWarnings` | FG-Fusion-Adresses.py:113-116 | a warning is printed exactly for each name a supported section has in both files |
| `Merge.UnrepeatedConcat` | FG-Fusion-Adresses.py:116 | two repeat-free warning lists with no warning in common print no warning twice |
| `Merge.ClashesUnrepeated` | FG-Fusion-Adresses.py:110-116 | iterating a dict with distinct keys warns about each clashing name once |
| `Merge.SectionWarningsUnrepeated` | FG-Fusion-Adresses.py:107-116 | a section warns about no name twice, even when one file repeats a name |
| `Merge.WarningsUnrepeated` | FG-Fusion-Adresses.py:105-116 | after any number of sections no warning has been printed twice, since each section's warnings carry its own distinct header |
| `Merge.MergeWarningsOnce` | FG-Fusion-Adresses.py:99-120 | the merge prints no warning twice |
| `Merge.MergeFrom` | FG-Fusion-Adresses.py:107-117 | every merged object comes from the same section of one of the two files |
| `Writer.ObjectsFailSticks` | FG-Fusion-Adresses.py:87-96 | once an object without a name has raised, later objects write nothing |
| `Writer.SectionsFailSticks` | FG-Fusion-Adresses.py:84-96 | once a section has raised, later sections write nothing |
| `Writer.WriteObject` | FG-Fusion-Adresses.py:88-92 | one object's block is its `edit` line, a `set` line per non-`name` entry in order, and `next` |
| `Writer.WriteObjects` | FG-Fusion-Adresses.py:87-92 | the loop over a section's objects writes what `ObjectsLines` specifies and stops at the first object without a name |
| `Writer.WriteSection` | FG-Fusion-Adresses.py:85-93 | one pass over a supported section writes nothing for an absent or empty section, else its header, its objects, `end` and a blank line |
| `Writer.WriteSections` | FG-Fusion-Adresses.py:77-96 | `ecrire_sections_fortigate` as the source runs it writes what `Render` specifies |
| `Writer.ObjectsOk` | FG-Fusion-Adresses.py:88 | the objects are written without exception exactly when each of them has a name |
| `Writer.SectionsOk` | FG-Fusion-Adresses.py:84-96 | the first sections are written without exception exactly when every object in them has a name |
| `Writer.RenderOk` | FG-Fusion-Adresses.py:82-96 | the write completes exactly when every object of a supported section has a name |
| `Writer.SectionsOnlySupported` | FG-Fusion-Adresses.py:84-85 | only the supported sections matter to the first sections written |
| `Writer.RenderOnlySupported` | FG-Fusion-Adresses.py:84-85 | any key that is not a supported section is ignored |
| `Writer.Headers` | FG-Fusion-Adresses.py:86 | the header lines picked out of the output are supported sections that occur in it |
| `Writer.ObjectsIndented` | FG-Fusion-Adresses.py:88-92 | no line of an object block is a section header |
| `Writer.AttrLinesIndented` | FG-Fusion-Adresses.py:91 | every `set` line is indented |
| `Writer.SectionsHeaders` | FG-Fusion-Adresses.py:84-86 | the headers written for the first sections are those holding objects, in canonical order |
| `Writer.RenderHeaders` | FG-Fusion-Adresses.py:84-93 | a complete write lists exactly the non-empty supported sections, in canonical order and whatever the key order |
| `RoundTrip.StripEdit` | FG-Fusion-Adresses.py:88 | a written `edit` line strips to `edit "<name>"` |
| `RoundTrip.StripSet` | FG-Fusion-Adresses.py:91 | a written `set` line strips to `set <key> "<value>"` |
| `RoundTrip.StripBare` | FG-Fusion-Adresses.py:86-93 | a header, `end` and the blank line strip to themselves, and the `next` line to `next` |
| `RoundTrip.ClassifySet` | FG-Fusion-Adresses.py:52-57 | a written `set` line is read back as the assignment it came from |
| `RoundTrip.EditNameBack` | FG-Fusion-Adresses.py:43 | a written `edit` line is read back as the name it came from |
| `RoundTrip.EditNotHeader` | FG-Fusion-Adresses.py:36 | an `edit` line is never a section header |
| `RoundTrip.ScanSkip` | FG-Fusion-Adresses.py:42-67 | with no section open, lines that are neither headers nor `end` change nothing |
| `RoundTrip.ShapedName` | FG-Fusion-Adresses.py:88 | an object as the parser builds it has a name, its first entry |
| `RoundTrip.CollectObject` | FG-Fusion-Adresses.py:48-58 | the written `set` lines of an object, ended by its `next` line, collect exactly its attributes |
| `RoundTrip.RebuildObject` | FG-Fusion-Adresses.py:43-60 | `{'name': …}` updated with the other entries of such an object is that object |
| `RoundTrip.StepObject` | FG-Fusion-Adresses.py:42-67 | the outer loop, on a written `edit` line in an open section, appends the object and resumes after its `next` |
| `RoundTrip.ObjectAppended` | FG-Fusion-Adresses.py:42-67 | the outer loop reads a written object block into the open section |
| `RoundTrip.ObjectSkipped` | FG-Fusion-Adresses.py:42-67 | with no section open, a written object block is skipped |
| `RoundTrip.ScanObjects` | FG-Fusion-Adresses.py:42-67 | the object blocks of a section are read back, in order, into the active section |
| `RoundTrip.HeaderStep` | FG-Fusion-Adresses.py:36-39 | with no section open, a written header opens its section when it is requested, and otherwise leaves no section open |
| `RoundTrip.TailReadable` | FG-Fusion-Adresses.py:63-67 | the written `end` line closes the section and the blank line after it changes nothing |
| `RoundTrip.BlockReadable` | FG-Fusion-Adresses.py:36-67 | a written section block (header, objects, `end`, blank line) adds its objects to the section if requested and leaves no section open |
| `RoundTrip.SectionsReadable` | FG-Fusion-Adresses.py:84-93 | every section block of the output reads back that way |
| `RoundTrip.ScanSections` | FG-Fusion-Adresses.py:30-67 | the blocks of the first sections are read back into the requested ones |
| `RoundTrip.ReadAll` | FG-Fusion-Adresses.py:30-67 | lines holding the blocks of every section, and nothing else, read back into the requested sections of what was written |
| `RoundTrip.ParseRender` | FG-Fusion-Adresses.py:77-96 | writing sections of objects as the parser builds them succeeds, and reading the output back returns each requested section's objects, in order, with the read complete |
| `Selection.Indices` | FG-Fusion-Adresses.py:133 | the numbers are those `int()` gives for each stripped piece, and there are none exactly when some piece does not convert |
| `Selection.Pick` | FG-Fusion-Adresses.py:134 | picking never gives more sections than indices, and only supported ones |
| `Selection.Select` | FG-Fusion-Adresses.py:132-137 | the selection holds only supported sections; it falls back exactly when some piece does not convert, and then holds all six |
| `Selection.PickConcat` | FG-Fusion-Adresses.py:134 | picking from two runs of indices is picking from each in turn |
| `Selection.PickLast` | FG-Fusion-Adresses.py:134 | a last index in range adds its section after the others |
| `Selection.PickInRange` | FG-Fusion-Adresses.py:134 | indices all in range pick one section each, in the order given, repeats included |
| `Selection.PickDrops` | FG-Fusion-Adresses.py:134 | an index out of range is dropped without a trace |
| `Selection.SelectJoined` | FG-Fusion-Adresses.py:133-134 | an answer of comma-joined pieces that all convert selects what their numbers pick |
| `Pipeline.ShapedNamed` | FG-Fusion-Adresses.py:107-108 | objects as the parser builds them all have a name, so `obj['name']` in the merge never fails |
| `Pipeline.MergeShaped` | FG-Fusion-Adresses.py:146-152 | the merge of two reads keeps the parser's object shape |
| `Pipeline.Run` | FG-Fusion-Adresses.py:140-155 | a run selects only supported sections, merges into all six sections of well-shaped objects, and writes that merge |
| `Pipeline.MergedReadsBack` | FG-Fusion-Adresses.py:152-155 | writing a merge succeeds, and reading it back for requested sections gives the merged objects |
| `Pipeline.RunReadsBack` | FG-Fusion-Adresses.py:143-155 | a run writes its whole merge, and reading the written lines back for the same sections gives the merged objects of those sections, in order |

## Left out

- File I/O: opening, `readlines`, `write`, and the hard-coded paths (lines 4-6). An input file is its list of lines, or `None` when it cannot be opened or read. The output file is the list of lines written, and `end\n\n` is the two lines `end` and `""`.
- Newline translation and encoding. A line is one `str` without its line break. A name or value that itself holds a line break would be cut in two by a real file, and the round trip would not hold for it. The model, which works on lists of lines, does not see this.
- Whitespace: `strip()` and `split()` use the ASCII whitespace of `str.isspace` (code points 9-13 and 28-32). Unicode whitespace is not modelled.
- `int()` in `demander_sections` is the parameter `toInt`, which returns `None` where `int()` raises. The answer to the prompt is the parameter `choice`.
- All `print` output is left out: section list, prompt, progress messages, error messages and `main`'s closing count per section (lines 128-131, 142-160). The merge's warnings are returned as a list instead.
- Writer errors: the failure to open the output file and the handler at lines 95-96 are left out. A `KeyError` on an object without a name is modelled: it stops the write and the result has `ok` false.
- Which read error occurred, and its message (lines 68-71). Every error of `open` or `readlines` happens before any line is parsed, so each leaves every section empty and is the one input `None`. Once the lines are read, the only exception the loop can raise is the `ValueError` of a malformed `set` line, which is modelled.
- `Merge.Merge`: `obj['name']` raises `KeyError`, uncaught, on an object without a name. It is modelled as the precondition `Named` on both inputs. `Pipeline.ShapedNamed` shows every object the parser builds meets it.
- `Parser.ReadLines` and `Parser.ReadSections` return the result and a status. They do not model the list objects being mutated in place through aliases, because no caller can observe that.
