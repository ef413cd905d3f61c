/** The input of the core: newline-delimited FHIR resource files, each line a JSON
    object, reduced to the members CountResources reads. */
module Ndjson {
  import opened JavaValues

  /** One element of a Patient's "name" array: its "family" member and its "given"
      array (None when "given" is missing or null). */
  datatype HumanName = HumanName(family: Field, given: Option<seq<Field>>)

  /** What json-simple's parser makes of one line, for the members the core reads:
      "resourceType", "id" and "name" (None when "name" is missing or null). */
  datatype Resource = Resource(resourceType: Field, id: Field, name: Option<seq<HumanName>>)

  /** One line: its raw text and the parse result (None when `parser.parse` throws
      ParseException). */
  datatype Line = Line(raw: string, parsed: Option<Resource>)

  /** A file: whether `File.isFile()` holds, and its lines in reading order. */
  datatype File = File(isFile: bool, lines: seq<Line>)

  /** A key of the tally: a resource type, or None for Java's null key, which a
      resource without a "resourceType" member is counted under. */
  type Category = Option<string>

  /** The lines a scan reads from one file: none unless it is a readable file. */
  function Readable(f: File): seq<Line> {
    if f.isFile then f.lines else []
  }

  /** The lines a scan over `files` reads, in order. */
  function ReadLines(files: seq<File>): seq<Line>
    decreases |files|
  {
    if files == [] then [] else ReadLines(files[..|files| - 1]) + Readable(files[|files| - 1])
  }

  lemma {:induction false} ReadLinesAppend(a: seq<File>, b: seq<File>)
    ensures ReadLines(a + b) == ReadLines(a) + ReadLines(b)
    decreases |b|
  {
    if b == [] {
      assert a + b == a;
    } else {
      var b' := b[..|b| - 1];
      assert (a + b)[..|a + b| - 1] == a + b';
      assert (a + b)[|a + b| - 1] == b[|b| - 1];
      ReadLinesAppend(a, b');
    }
  }

  /** A file that is not readable contributes no line: removing it changes nothing. */
  lemma UnreadableFileIgnored(files: seq<File>, i: nat)
    requires i < |files| && !files[i].isFile
    ensures ReadLines(files) == ReadLines(files[..i] + files[i + 1..])
  {
    var before, after := files[..i], files[i + 1..];
    assert files == (before + [files[i]]) + after;
    ReadLinesAppend(before + [files[i]], after);
    assert (before + [files[i]])[..|before|] == before;
    assert ReadLines(before + [files[i]]) == ReadLines(before);
    ReadLinesAppend(before, after);
  }

  /** Reading one more file reads its lines, if it is readable, after the others. */
  lemma ReadLinesSnoc(files: seq<File>, f: File)
    ensures ReadLines(files + [f]) == ReadLines(files) + Readable(f)
  {
    assert (files + [f])[..|files|] == files;
  }

  /** Reading up to and including file `fi`, then the files after it, is reading
      everything. */
  lemma ReadLinesSplit(files: seq<File>, fi: nat)
    requires fi < |files| && files[fi].isFile
    ensures ReadLines(files) == (ReadLines(files[..fi]) + files[fi].lines) + ReadLines(files[fi + 1..])
  {
    var f := files[fi];
    var before, after := files[..fi], files[fi + 1..];
    assert files == (before + [f]) + after;
    ReadLinesAppend(before + [f], after);
    ReadLinesSnoc(before, f);
  }
}
