/** findName and findId: resolving a patient in the Patient file. Both read every
    line, parse only the lines whose raw text passes a substring filter, and keep
    what the last such line gives. */
module Identity {
  import opened JavaValues
  import opened Ndjson

  /** The display name of a line that passed the filter (lines 122-126): parse it,
      take the first element of "name", then its "family" followed by its first
      "given", with no separator. The operands are evaluated left to right, so a
      non-string family throws before "given" is looked at. */
  function DisplayName(line: Line): Result<string, Failure> {
    match line.parsed
    case None => Failure(Malformed)
    case Some(res) =>
      match res.name
      case None => Failure(NullPointer)
      case Some(names) =>
        if |names| == 0 then Failure(IndexOutOfBounds)
        else
          var first := names[0];
          match CastString(first.family)
          case Failure(f) => Failure(f)
          case Success(family) =>
            match first.given
            case None => Failure(NullPointer)
            case Some(given) =>
              if |given| == 0 then Failure(IndexOutOfBounds)
              else
                match CastString(given[0])
                case Failure(f) => Failure(f)
                case Success(g) => Success(JavaText(family) + JavaText(g))
  }

  /** The name after reading `lines` in order from "": each line containing id
      replaces it; the first exception ends the loop. */
  function NameScan(id: string, lines: seq<Line>): Result<string, Failure>
    decreases |lines|
  {
    if lines == [] then Success("")
    else match NameScan(id, lines[..|lines| - 1])
      case Failure(f) => Failure(f)
      case Success(name) =>
        var line := lines[|lines| - 1];
        if Contains(line.raw, id) then DisplayName(line) else Success(name)
  }

  /** findName's result: "" when the Patient file is not a readable file. */
  function NameLookup(id: string, patFile: File): Result<string, Failure> {
    if patFile.isFile then NameScan(id, patFile.lines) else Success("")
  }

  /** findName (lines 109-136). */
  method FindName(id: string, patFile: File) returns (r: Result<string, Failure>)
    ensures r == NameLookup(id, patFile)
  {
    var fullName := "";
    if patFile.isFile {
      var lines := patFile.lines;
      var i := 0;
      while i < |lines|
        invariant 0 <= i <= |lines|
        invariant NameScan(id, lines[..i]) == Success(fullName)
      {
        var line := lines[i];
        assert lines[..i + 1][..i] == lines[..i];
        if Contains(line.raw, id) {
          var name := DisplayName(line);
          if name.Failure? {
            assert lines == lines[..i + 1] + lines[i + 1..];
            NameFailureSticks(id, lines[..i + 1], lines[i + 1..]);
            return name;
          }
          fullName := name.value;
        }
        i := i + 1;
      }
      assert lines[..i] == lines;
    }
    r := Success(fullName);
  }

  lemma {:induction false} NameFailureSticks(id: string, xs: seq<Line>, ys: seq<Line>)
    requires NameScan(id, xs).Failure?
    ensures NameScan(id, xs + ys) == NameScan(id, xs)
    decreases |ys|
  {
    if ys == [] {
      assert xs + ys == xs;
    } else {
      assert (xs + ys)[..|xs + ys| - 1] == xs + ys[..|ys| - 1];
      NameFailureSticks(id, xs, ys[..|ys| - 1]);
    }
  }

  /** A line findName gets past: one without id, or one with a readable name. */
  predicate NameSurvives(id: string, line: Line) {
    !Contains(line.raw, id) || DisplayName(line).Success?
  }

  /** findName returns normally exactly when every line containing id has a
      readable name. */
  lemma {:induction false} NameScanSucceedsIff(id: string, lines: seq<Line>)
    ensures NameScan(id, lines).Success? <==>
            forall i :: 0 <= i < |lines| ==> NameSurvives(id, lines[i])
    decreases |lines|
  {
    if lines != [] {
      var prefix := lines[..|lines| - 1];
      NameScanSucceedsIff(id, prefix);
      assert forall i :: 0 <= i < |prefix| ==> prefix[i] == lines[i];
    }
  }

  /** The first line containing id whose name cannot be read decides: findName
      throws that line's exception. */
  lemma NameFailsAtFirstBadLine(id: string, lines: seq<Line>, k: nat)
    requires k < |lines| && !NameSurvives(id, lines[k])
    requires forall i :: 0 <= i < k ==> NameSurvives(id, lines[i])
    ensures NameScan(id, lines) == Failure(DisplayName(lines[k]).error)
  {
    var upTo := lines[..k + 1];
    assert upTo[..k] == lines[..k];
    NameScanSucceedsIff(id, lines[..k]);
    assert upTo[k] == lines[k];
    assert lines == upTo + lines[k + 1..];
    NameFailureSticks(id, upTo, lines[k + 1..]);
  }

  /** No line contains id: the name stays "". */
  lemma {:induction false} NameNoMatch(id: string, lines: seq<Line>)
    requires forall i :: 0 <= i < |lines| ==> !Contains(lines[i].raw, id)
    ensures NameScan(id, lines) == Success("")
    decreases |lines|
  {
    if lines != [] {
      NameNoMatch(id, lines[..|lines| - 1]);
    }
  }

  /** Last match wins: when findName returns normally, its result is the display
      name of the last line containing id. */
  lemma {:induction false} NameLastMatchWins(id: string, lines: seq<Line>, k: nat)
    requires k < |lines| && Contains(lines[k].raw, id)
    requires forall j :: k < j < |lines| ==> !Contains(lines[j].raw, id)
    requires NameScan(id, lines).Success?
    ensures NameScan(id, lines) == DisplayName(lines[k])
    decreases |lines|
  {
    var prefix := lines[..|lines| - 1];
    if k < |lines| - 1 {
      NameLastMatchWins(id, prefix, k);
    }
  }

  /** Lines without id are never parsed: files that differ only in how such lines
      would parse resolve to the same name. */
  lemma {:induction false} NameIgnoresUnmatchedLines(id: string, a: seq<Line>, b: seq<Line>)
    requires |a| == |b|
    requires forall i :: 0 <= i < |a| ==> a[i].raw == b[i].raw
    requires forall i :: 0 <= i < |a| && Contains(a[i].raw, id) ==> a[i].parsed == b[i].parsed
    ensures NameScan(id, a) == NameScan(id, b)
    decreases |a|
  {
    if a != [] {
      var n := |a| - 1;
      NameIgnoresUnmatchedLines(id, a[..n], b[..n]);
      assert a[n].raw == b[n].raw;
    }
  }

  /** The id of a line that passed the filter (lines 161-162): parse it and cast its
      "id" member to String, which may be null. */
  function IdOf(line: Line): Result<Option<string>, Failure> {
    match line.parsed
    case None => Failure(Malformed)
    case Some(res) => CastString(res.id)
  }

  /** The filter of line 160: the raw line contains both names. */
  predicate NamesBoth(line: Line, lName: string, fName: string) {
    Contains(line.raw, lName) && Contains(line.raw, fName)
  }

  /** The id after reading `lines` in order from "": each line containing both names
      replaces it; the first exception ends the loop. */
  function IdScan(lName: string, fName: string, lines: seq<Line>): Result<Option<string>, Failure>
    decreases |lines|
  {
    if lines == [] then Success(Some(""))
    else match IdScan(lName, fName, lines[..|lines| - 1])
      case Failure(f) => Failure(f)
      case Success(id) =>
        var line := lines[|lines| - 1];
        if NamesBoth(line, lName, fName) then IdOf(line) else Success(id)
  }

  /** findId's result: "" when the Patient file is not a readable file. */
  function IdLookup(lName: string, fName: string, patFile: File): Result<Option<string>, Failure> {
    if patFile.isFile then IdScan(lName, fName, patFile.lines) else Success(Some(""))
  }

  /** findId (lines 147-172). */
  method FindId(lName: string, fName: string, patFile: File) returns (r: Result<Option<string>, Failure>)
    ensures r == IdLookup(lName, fName, patFile)
  {
    var id: Option<string> := Some("");
    if patFile.isFile {
      var lines := patFile.lines;
      var i := 0;
      while i < |lines|
        invariant 0 <= i <= |lines|
        invariant IdScan(lName, fName, lines[..i]) == Success(id)
      {
        var line := lines[i];
        assert lines[..i + 1][..i] == lines[..i];
        if Contains(line.raw, lName) && Contains(line.raw, fName) {
          var found := IdOf(line);
          if found.Failure? {
            assert lines == lines[..i + 1] + lines[i + 1..];
            IdFailureSticks(lName, fName, lines[..i + 1], lines[i + 1..]);
            return found;
          }
          id := found.value;
        }
        i := i + 1;
      }
      assert lines[..i] == lines;
    }
    r := Success(id);
  }

  lemma {:induction false} IdFailureSticks(lName: string, fName: string, xs: seq<Line>, ys: seq<Line>)
    requires IdScan(lName, fName, xs).Failure?
    ensures IdScan(lName, fName, xs + ys) == IdScan(lName, fName, xs)
    decreases |ys|
  {
    if ys == [] {
      assert xs + ys == xs;
    } else {
      assert (xs + ys)[..|xs + ys| - 1] == xs + ys[..|ys| - 1];
      IdFailureSticks(lName, fName, xs, ys[..|ys| - 1]);
    }
  }

  /** A line findId gets past: one without both names, or one that parses. */
  predicate IdSurvives(lName: string, fName: string, line: Line) {
    !NamesBoth(line, lName, fName) || IdOf(line).Success?
  }

  /** findId returns normally exactly when every line containing both names parses
      and has a String or null "id". */
  lemma {:induction false} IdScanSucceedsIff(lName: string, fName: string, lines: seq<Line>)
    ensures IdScan(lName, fName, lines).Success? <==>
            forall i :: 0 <= i < |lines| ==> IdSurvives(lName, fName, lines[i])
    decreases |lines|
  {
    if lines != [] {
      var prefix := lines[..|lines| - 1];
      IdScanSucceedsIff(lName, fName, prefix);
      assert forall i :: 0 <= i < |prefix| ==> prefix[i] == lines[i];
    }
  }

  /** The first line containing both names that cannot be read decides: findId
      throws that line's exception. */
  lemma IdFailsAtFirstBadLine(lName: string, fName: string, lines: seq<Line>, k: nat)
    requires k < |lines| && !IdSurvives(lName, fName, lines[k])
    requires forall i :: 0 <= i < k ==> IdSurvives(lName, fName, lines[i])
    ensures IdScan(lName, fName, lines) == Failure(IdOf(lines[k]).error)
  {
    var upTo := lines[..k + 1];
    assert upTo[..k] == lines[..k];
    IdScanSucceedsIff(lName, fName, lines[..k]);
    assert upTo[k] == lines[k];
    assert lines == upTo + lines[k + 1..];
    IdFailureSticks(lName, fName, upTo, lines[k + 1..]);
  }

  /** No line contains both names: the id stays "". */
  lemma {:induction false} IdNoMatch(lName: string, fName: string, lines: seq<Line>)
    requires forall i :: 0 <= i < |lines| ==> !NamesBoth(lines[i], lName, fName)
    ensures IdScan(lName, fName, lines) == Success(Some(""))
    decreases |lines|
  {
    if lines != [] {
      IdNoMatch(lName, fName, lines[..|lines| - 1]);
    }
  }

  /** Last match wins: when findId returns normally, its result is the id of the last
      line containing both names. */
  lemma {:induction false} IdLastMatchWins(lName: string, fName: string, lines: seq<Line>, k: nat)
    requires k < |lines| && NamesBoth(lines[k], lName, fName)
    requires forall j :: k < j < |lines| ==> !NamesBoth(lines[j], lName, fName)
    requires IdScan(lName, fName, lines).Success?
    ensures IdScan(lName, fName, lines) == IdOf(lines[k])
    decreases |lines|
  {
    var prefix := lines[..|lines| - 1];
    if k < |lines| - 1 {
      IdLastMatchWins(lName, fName, prefix, k);
    }
  }

  /** Line k is a Patient whose id is I and whose first name entry has family F and
      first given name G. */
  predicate IsPatient(line: Line, i: string, f: string, g: string) {
    && line.parsed.Some?
    && line.parsed.value.id == Text(i)
    && line.parsed.value.name.Some?
    && |line.parsed.value.name.value| > 0
    && line.parsed.value.name.value[0].family == Text(f)
    && line.parsed.value.name.value[0].given.Some?
    && |line.parsed.value.name.value[0].given.value| > 0
    && line.parsed.value.name.value[0].given.value[0] == Text(g)
  }

  /** Round trip: when one Patient line is the only line containing its id and the
      only line containing both its names, resolving by id gives family + given, and
      resolving by (family, given) gives the id back. */
  lemma ResolveRoundTrip(lines: seq<Line>, k: nat, i: string, f: string, g: string)
    requires k < |lines| && IsPatient(lines[k], i, f, g)
    requires Contains(lines[k].raw, i) && NamesBoth(lines[k], f, g)
    requires forall j :: 0 <= j < |lines| && j != k ==> !Contains(lines[j].raw, i)
    requires forall j :: 0 <= j < |lines| && j != k ==> !NamesBoth(lines[j], f, g)
    ensures NameLookup(i, File(true, lines)) == Success(f + g)
    ensures IdLookup(f, g, File(true, lines)) == Success(Some(i))
  {
    NameScanSucceedsIff(i, lines);
    NameLastMatchWins(i, lines, k);
    IdScanSucceedsIff(f, g, lines);
    IdLastMatchWins(f, g, lines, k);
  }
}
