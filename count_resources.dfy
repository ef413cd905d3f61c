/** main: resolve the patient from the command-line arguments, scan every file for
    the patient's id, rank the tally. Exceptions of the checked kinds are caught in
    main, which then goes on with what it had; runtime exceptions end the program. */
module CountResources {
  import opened JavaValues
  import opened Ndjson
  import opened ReferenceScan
  import opened Rank
  import opened Identity

  /** How a run ends. Report holds the header printMap prints and the tally handed to
      sortDesc. */
  datatype Outcome =
    | Usage                         // wrong number of arguments
    | NoFiles                       // no .ndjson file in the directory
    | Crashed(failure: Failure)     // a runtime exception escaped main
    | Report(name: string, id: Option<string>, tally: Tally)

  /** The handlers at lines 51, 65 and 91 catch `IOException | ParseException`;
      runtime exceptions pass through. */
  predicate CaughtByMain(f: Failure) {
    f.Malformed?
  }

  /** Lines 79-98, once the patient is resolved: stop when there are no files, else
      scan; after a caught exception the tally is the empty map main started with. */
  function ScanPhase(name: string, id: Option<string>, files: seq<File>): Outcome {
    if |files| == 0 then NoFiles
    else match Scan(id, ReadLines(files))
      case Success(t) => Report(name, id, t)
      case Failure(f) => if CaughtByMain(f) then Report(name, id, map[]) else Crashed(f)
  }

  /** What main does with its arguments, the Patient file and the .ndjson files. */
  function RunOutcome(args: seq<string>, patFile: File, files: seq<File>): Outcome {
    if |args| == 1 then
      match NameLookup(args[0], patFile)
      case Success(name) => ScanPhase(name, Some(args[0]), files)
      case Failure(f) => if CaughtByMain(f) then ScanPhase("", Some(args[0]), files) else Crashed(f)
    else if |args| == 2 then
      var fullName := args[0] + " " + args[1];
      match IdLookup(args[1], args[0], patFile)
      case Success(id) => ScanPhase(fullName, id, files)
      case Failure(f) => if CaughtByMain(f) then ScanPhase(fullName, Some(""), files) else Crashed(f)
    else Usage
  }

  /** main (lines 34-99), with the directory listing given as `files` and the
      ranking printMap would print returned beside the outcome. */
  method Run(args: seq<string>, patFile: File, files: seq<File>) returns (r: Outcome, ranking: seq<Entry>)
    ensures r == RunOutcome(args, patFile, files)
    ensures r.Report? ==> IsRanking(r.tally, ranking)
    ensures !r.Report? ==> ranking == []
  {
    var fullName := "";
    var id: Option<string> := Some("");
    if |args| == 1 {
      id := Some(args[0]);
      var found := FindName(args[0], patFile);
      match found {
        case Success(name) => fullName := name;
        case Failure(f) => if !CaughtByMain(f) { return Crashed(f), []; }
      }
    } else if |args| == 2 {
      fullName := args[0] + " " + args[1];
      var found := FindId(args[1], args[0], patFile);
      match found {
        case Success(i) => id := i;
        case Failure(f) => if !CaughtByMain(f) { return Crashed(f), []; }
      }
    } else {
      return Usage, [];
    }
    if |files| == 0 {
      return NoFiles, [];
    }
    var resourceMap: Tally := map[];
    var scanned := FindNumOfRef(files, id);
    match scanned {
      case Success(t) => resourceMap := t;
      case Failure(f) => if !CaughtByMain(f) { return Crashed(f), []; }
    }
    var order := EntryOrder(resourceMap);
    ranking := SortDesc(resourceMap, order);
    r := Report(fullName, id, resourceMap);
  }

  /** When no patient has both names, main still scans, with the id "": every line of
      every readable file passes the filter, so the counts add up to the number of
      lines read. */
  lemma UnresolvedNameCountsEveryLine(args: seq<string>, patFile: File, files: seq<File>, t: Tally)
    requires |args| == 2 && |files| > 0
    requires IdLookup(args[1], args[0], patFile) == Success(Some(""))
    requires Scan(Some(""), ReadLines(files)) == Success(t)
    ensures RunOutcome(args, patFile, files) == Report(args[0] + " " + args[1], Some(""), t)
    ensures Total(t) == |ReadLines(files)|
  {
    TallySum("", ReadLines(files), t);
    EmptyIdMatchesEveryLine(ReadLines(files));
  }

  /** A line that contains the id but is not valid JSON stops the scan; main catches
      the ParseException and reports the empty map it started with. */
  lemma MalformedLineEmptiesReport(name: string, id: string, files: seq<File>, k: nat)
    requires |files| > 0
    requires k < |ReadLines(files)|
    requires Contains(ReadLines(files)[k].raw, id) && ReadLines(files)[k].parsed.None?
    requires forall i :: 0 <= i < k ==> Survives(id, ReadLines(files)[i])
    ensures ScanPhase(name, Some(id), files) == Report(name, Some(id), map[])
  {
    ScanFailsAtFirstBadLine(id, ReadLines(files), k);
  }

  /** A patient file whose last line naming both names has no "id" member makes
      findId return null, and the scan then throws NullPointerException as soon as any
      line is read. */
  lemma NullIdCrashesScan(name: string, files: seq<File>)
    requires |files| > 0
    ensures ScanPhase(name, None, files) ==
            if ReadLines(files) == [] then Report(name, None, map[]) else Crashed(NullPointer)
  {
    NullIdThrows(ReadLines(files));
  }

  /** Resolving by id and by (first, last) name on a Patient file in which the record
      is the only match gives the same id and the same tally; only the header name
      differs: family + given on one path, first + " " + last on the other. */
  lemma RunRoundTrip(lines: seq<Line>, k: nat, i: string, first: string, last: string, files: seq<File>)
    requires k < |lines| && IsPatient(lines[k], i, last, first)
    requires Contains(lines[k].raw, i) && NamesBoth(lines[k], last, first)
    requires forall j :: 0 <= j < |lines| && j != k ==> !Contains(lines[j].raw, i)
    requires forall j :: 0 <= j < |lines| && j != k ==> !NamesBoth(lines[j], last, first)
    ensures RunOutcome([i], File(true, lines), files) == ScanPhase(last + first, Some(i), files)
    ensures RunOutcome([first, last], File(true, lines), files) == ScanPhase(first + " " + last, Some(i), files)
  {
    ResolveRoundTrip(lines, k, i, last, first);
  }
}
