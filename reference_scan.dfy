/** findNumOfRef: every line of every readable file that contains the patient id is
    parsed, and the count of its resourceType goes up by one. */
module ReferenceScan {
  import opened JavaValues
  import opened Ndjson

  /** The HashMap<String, Integer> findNumOfRef builds: category to count. Counts are
      unbounded here; Java's Integer would wrap above 2147483647. */
  type Tally = map<Category, nat>

  /** `getOrDefault(c, 0)`. */
  function CountIn(t: Tally, c: Category): nat {
    if c in t then t[c] else 0
  }

  /** The category of a line that passed the filter: the line is parsed and its
      resourceType member cast to String. */
  function CategoryOf(line: Line): Result<Category, Failure> {
    match line.parsed
    case None => Failure(Malformed)
    case Some(res) => CastString(res.resourceType)
  }

  /** A line the scan gets past: one that does not contain id, or whose category can
      be read. */
  predicate Survives(id: string, line: Line) {
    !Contains(line.raw, id) || CategoryOf(line).Success?
  }

  /** One turn of the read loop: a null id throws at `line.contains(id)`; a line
      without id is skipped unparsed; any other line raises its category by one. */
  function Step(id: Option<string>, t: Tally, line: Line): Result<Tally, Failure> {
    match id
    case None => Failure(NullPointer)
    case Some(s) =>
      if !Contains(line.raw, s) then Success(t)
      else match CategoryOf(line)
        case Failure(f) => Failure(f)
        case Success(c) => Success(t[c := CountIn(t, c) + 1])
  }

  /** The tally after reading `lines` in order from the empty map; the first
      exception ends the scan and is what the scan yields. */
  function Scan(id: Option<string>, lines: seq<Line>): Result<Tally, Failure>
    decreases |lines|
  {
    if lines == [] then Success(map[])
    else match Scan(id, lines[..|lines| - 1])
      case Failure(f) => Failure(f)
      case Success(t) => Step(id, t, lines[|lines| - 1])
  }

  /** The number of lines that contain id. */
  function MatchCount(id: string, lines: seq<Line>): nat
    decreases |lines|
  {
    if lines == [] then 0
    else MatchCount(id, lines[..|lines| - 1]) + (if Contains(lines[|lines| - 1].raw, id) then 1 else 0)
  }

  /** The number of lines that contain id and whose category is c. */
  function CountOf(id: string, lines: seq<Line>, c: Category): nat
    decreases |lines|
  {
    if lines == [] then 0
    else
      var last := lines[|lines| - 1];
      CountOf(id, lines[..|lines| - 1], c) +
      (if Contains(last.raw, id) && CategoryOf(last) == Success(c) then 1 else 0)
  }

  /** The sum of all counts of a tally. */
  ghost function Total(t: Tally): nat
    decreases |t|
  {
    if t == map[] then 0
    else
      var c :| c in t;
      assert |t - {c}| < |t| by { assert (t - {c}).Keys == t.Keys - {c}; }
      t[c] + Total(t - {c})
  }

  /** findNumOfRef (lines 214-242): the loop over files; the lines of each readable
      file are read by ScanFile, which updates the same map. */
  method FindNumOfRef(files: seq<File>, id: Option<string>) returns (r: Result<Tally, Failure>)
    ensures r == Scan(id, ReadLines(files))
  {
    var returnHash: Tally := map[];
    var fi := 0;
    while fi < |files|
      invariant 0 <= fi <= |files|
      invariant Scan(id, ReadLines(files[..fi])) == Success(returnHash)
    {
      var file := files[fi];
      ghost var read := ReadLines(files[..fi]);
      assert files[..fi + 1] == files[..fi] + [file];
      ReadLinesSnoc(files[..fi], file);
      if file.isFile {
        var scanned := ScanFile(id, file.lines, returnHash, read);
        if scanned.Failure? {
          AbortEndsScan(id, files, fi);
          return scanned;
        }
        returnHash := scanned.value;
        assert ReadLines(files[..fi + 1]) == read + file.lines;
      } else {
        assert ReadLines(files[..fi + 1]) == read + [] == read;
      }
      fi := fi + 1;
    }
    assert files[..fi] == files;
    r := Success(returnHash);
  }

  /** The read loop of lines 226-232 over one file, continuing the tally `returnHash`
      that the lines `before` produced. */
  method ScanFile(id: Option<string>, lines: seq<Line>, returnHash: Tally, ghost before: seq<Line>)
    returns (r: Result<Tally, Failure>)
    requires Scan(id, before) == Success(returnHash)
    ensures r == Scan(id, before + lines)
  {
    var tally := returnHash;
    var li := 0;
    assert before + lines[..0] == before;
    while li < |lines|
      invariant 0 <= li <= |lines|
      invariant Scan(id, before + lines[..li]) == Success(tally)
    {
      var line := lines[li];
      assert before + lines[..li + 1] == (before + lines[..li]) + [line];
      ScanSnoc(id, before + lines[..li], line);
      match id {
        case None =>
          FailureEndsFile(id, before, lines, li);
          return Failure(NullPointer);
        case Some(s) =>
          if Contains(line.raw, s) {
            var resource := CategoryOf(line);
            match resource {
              case Failure(f) =>
                FailureEndsFile(id, before, lines, li);
                return Failure(f);
              case Success(c) =>
                tally := tally[c := CountIn(tally, c) + 1];
            }
          }
      }
      li := li + 1;
    }
    assert lines[..li] == lines;
    r := Success(tally);
  }

  /** An exception at line li of a file ends the read loop of that file. */
  lemma FailureEndsFile(id: Option<string>, before: seq<Line>, lines: seq<Line>, li: nat)
    requires li < |lines| && Scan(id, before + lines[..li + 1]).Failure?
    ensures Scan(id, before + lines) == Scan(id, before + lines[..li + 1])
  {
    assert before + lines == (before + lines[..li + 1]) + lines[li + 1..];
    ScanFailureSticks(id, before + lines[..li + 1], lines[li + 1..]);
  }

  /** Reading one more line is one more Step. */
  lemma ScanSnoc(id: Option<string>, xs: seq<Line>, x: Line)
    ensures Scan(id, xs).Failure? ==> Scan(id, xs + [x]) == Scan(id, xs)
    ensures Scan(id, xs).Success? ==> Scan(id, xs + [x]) == Step(id, Scan(id, xs).value, x)
  {
    assert (xs + [x])[..|xs|] == xs;
  }

  /** An exception inside file fi ends the whole scan: no later file changes the
      outcome. */
  lemma AbortEndsScan(id: Option<string>, files: seq<File>, fi: nat)
    requires fi < |files| && files[fi].isFile
    requires Scan(id, ReadLines(files[..fi]) + files[fi].lines).Failure?
    ensures Scan(id, ReadLines(files)) == Scan(id, ReadLines(files[..fi]) + files[fi].lines)
  {
    ReadLinesSplit(files, fi);
    ScanFailureSticks(id, ReadLines(files[..fi]) + files[fi].lines, ReadLines(files[fi + 1..]));
  }

  /** Once the scan has thrown, reading more lines does not change what it yields. */
  lemma {:induction false} ScanFailureSticks(id: Option<string>, xs: seq<Line>, ys: seq<Line>)
    requires Scan(id, xs).Failure?
    ensures Scan(id, xs + ys) == Scan(id, xs)
    decreases |ys|
  {
    if ys == [] {
      assert xs + ys == xs;
    } else {
      assert (xs + ys)[..|xs + ys| - 1] == xs + ys[..|ys| - 1];
      ScanFailureSticks(id, xs, ys[..|ys| - 1]);
    }
  }

  /** The scan succeeds exactly when every line survives: a line without id is never
      parsed, so it cannot make the scan fail, whatever it holds. */
  lemma {:induction false} ScanSucceedsIff(id: string, lines: seq<Line>)
    ensures Scan(Some(id), lines).Success? <==>
            forall i :: 0 <= i < |lines| ==> Survives(id, lines[i])
    decreases |lines|
  {
    if lines != [] {
      var prefix := lines[..|lines| - 1];
      ScanSucceedsIff(id, prefix);
      assert forall i :: 0 <= i < |prefix| ==> prefix[i] == lines[i];
    }
  }

  /** The first line that contains id and cannot be read as a resource decides the
      outcome: the scan stops there with that line's exception. */
  lemma ScanFailsAtFirstBadLine(id: string, lines: seq<Line>, k: nat)
    requires k < |lines| && !Survives(id, lines[k])
    requires forall i :: 0 <= i < k ==> Survives(id, lines[i])
    ensures Scan(Some(id), lines) == Failure(CategoryOf(lines[k]).error)
  {
    var prefix, upTo := lines[..k], lines[..k + 1];
    assert forall i :: 0 <= i < k ==> prefix[i] == lines[i];
    ScanSucceedsIff(id, prefix);
    assert upTo == prefix + [lines[k]];
    ScanSnoc(Some(id), prefix, lines[k]);
    assert Scan(Some(id), upTo) == Failure(CategoryOf(lines[k]).error);
    assert lines == upTo + lines[k + 1..];
    ScanFailureSticks(Some(id), upTo, lines[k + 1..]);
  }

  /** For every category c, the final count of c is the number of lines containing
      id whose resourceType is c; a category is present exactly when that number is
      positive, so every present count is at least 1. */
  lemma {:induction false} TallyCounts(id: string, lines: seq<Line>, t: Tally)
    requires Scan(Some(id), lines) == Success(t)
    ensures forall c :: c in t <==> CountOf(id, lines, c) > 0
    ensures forall c :: c in t ==> t[c] == CountOf(id, lines, c) && t[c] >= 1
    decreases |lines|
  {
    if lines != [] {
      var prefix := lines[..|lines| - 1];
      var t0 :| Scan(Some(id), prefix) == Success(t0);
      TallyCounts(id, prefix, t0);
    }
  }

  lemma TotalRemove(t: Tally, c: Category)
    requires c in t
    ensures Total(t) == t[c] + Total(t - {c})
    decreases |t|
  {
    var d :| d in t && Total(t) == t[d] + Total(t - {d});
    if d != c {
      assert (t - {d}).Keys == t.Keys - {d};
      assert (t - {c}).Keys == t.Keys - {c};
      TotalRemove(t - {d}, c);
      TotalRemove(t - {c}, d);
      assert t - {d} - {c} == t - {c} - {d};
    }
  }

  /** Raising one category by one raises the sum by one. */
  lemma TotalBump(t: Tally, c: Category)
    ensures Total(t[c := CountIn(t, c) + 1]) == Total(t) + 1
  {
    var u := t[c := CountIn(t, c) + 1];
    TotalRemove(u, c);
    if c in t {
      TotalRemove(t, c);
      assert u - {c} == t - {c};
    } else {
      assert u - {c} == t;
    }
  }

  /** The sum of all counts is the number of lines that contain id: each matching
      line raises exactly one count by exactly one. */
  lemma {:induction false} TallySum(id: string, lines: seq<Line>, t: Tally)
    requires Scan(Some(id), lines) == Success(t)
    ensures Total(t) == MatchCount(id, lines)
    decreases |lines|
  {
    if lines != [] {
      var prefix := lines[..|lines| - 1];
      var t0 :| Scan(Some(id), prefix) == Success(t0);
      TallySum(id, prefix, t0);
      var last := lines[|lines| - 1];
      if Contains(last.raw, id) {
        TotalBump(t0, CategoryOf(last).value);
      }
    }
  }

  /** Keys are never removed and counts never go down: the tally after more lines
      extends the tally after fewer. */
  lemma {:induction false} ScanKeysGrow(id: string, xs: seq<Line>, ys: seq<Line>, t1: Tally, t2: Tally)
    requires Scan(Some(id), xs) == Success(t1) && Scan(Some(id), xs + ys) == Success(t2)
    ensures t1.Keys <= t2.Keys
    ensures forall c :: c in t1 ==> t1[c] <= t2[c]
    decreases |ys|
  {
    if ys == [] {
      assert xs + ys == xs;
    } else {
      var ys' := ys[..|ys| - 1];
      assert (xs + ys)[..|xs + ys| - 1] == xs + ys';
      var t :| Scan(Some(id), xs + ys') == Success(t);
      ScanKeysGrow(id, xs, ys', t1, t);
    }
  }

  /** Lines that do not contain id are never parsed: two files that differ only in
      how such lines would parse give the same scan. */
  lemma {:induction false} ScanIgnoresUnmatchedLines(id: string, a: seq<Line>, b: seq<Line>)
    requires |a| == |b|
    requires forall i :: 0 <= i < |a| ==> a[i].raw == b[i].raw
    requires forall i :: 0 <= i < |a| && Contains(a[i].raw, id) ==> a[i].parsed == b[i].parsed
    ensures Scan(Some(id), a) == Scan(Some(id), b)
    decreases |a|
  {
    if a != [] {
      var n := |a| - 1;
      ScanIgnoresUnmatchedLines(id, a[..n], b[..n]);
      assert a[n].raw == b[n].raw;
    }
  }

  /** The empty id passes the filter on every line: every line is counted. */
  lemma {:induction false} EmptyIdMatchesEveryLine(lines: seq<Line>)
    ensures MatchCount("", lines) == |lines|
    decreases |lines|
  {
    if lines != [] {
      EmptyIdMatchesEveryLine(lines[..|lines| - 1]);
      ContainsEmpty(lines[|lines| - 1].raw);
    }
  }

  /** A null id throws NullPointerException at the first line read. */
  lemma {:induction false} NullIdThrows(lines: seq<Line>)
    ensures Scan(None, lines) == if lines == [] then Success(map[]) else Failure(NullPointer)
    decreases |lines|
  {
    if lines != [] {
      NullIdThrows(lines[..|lines| - 1]);
    }
  }
}
