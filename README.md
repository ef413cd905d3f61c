# CountResources: reference scan and tally, in Dafny

FhirJsonCLI's `CountResources` takes a patient, given either as an id or as a
first and last name, and resolves it against `Patient.ndjson`. It then reads every
`.ndjson` file in the working directory line by line. A line whose raw text contains
the patient id is parsed as JSON, and the count of its `resourceType` goes up by one.
The tally is printed sorted by count, descending.

This project models that core:

- `java_values.dfy` (module `JavaValues`) covers the Java behaviour the code relies
  on. Java null is `None`. The exceptions are `Failure`: json-simple's
  `ParseException` is `Malformed`; `NullPointer`, `IndexOutOfBounds` and
  `ClassCast` are the runtime exceptions. It also models `(String)` casts of JSON
  members, `+` turning null into `"null"`, and `String.contains`.
- `ndjson.dfy` (module `Ndjson`) holds the input. A line is its raw text plus what
  the parser makes of it. A file is an `isFile()` flag plus its lines. `ReadLines`
  gives the lines a scan reads.
- `reference_scan.dfy` (module `ReferenceScan`) models `findNumOfRef`. The loop over
  files is `FindNumOfRef`. The loop over one file's lines is the method `ScanFile`,
  which goes on updating the same map. Both are proved equal to the specification
  function `Scan`, and lemmas about `Scan` give the counting properties.
- `rank.dfy` (module `Rank`) models `sortDesc` as a function of the map and of the
  order in which the `HashMap` iterates its entries. That order is unspecified in
  Java, so the function takes it as a parameter.
- `identity.dfy` (module `Identity`) models `findName` and `findId`. Each is a loop
  method proved against a specification function, with last-match-wins lemmas.
- `count_resources.dfy` (module `CountResources`) models `main`. `RunOutcome` says
  how a run ends. `Run` calls the methods in the same order `main` does.

The model keeps these behaviours of the code, which a reader might not expect:

- A line that contains the id but does not parse aborts the whole scan.
  `ParseException` propagates out of `findNumOfRef`. `main` catches it and reports
  the empty map it started with. It is not a per-line skip.
- When `findId` finds nobody, `main` prints a notice and still scans, with the id
  `""`. Every line then passes the filter and is parsed. If none of them fails, every
  line of every readable file is counted; a line that does not parse stops the scan
  as above.
- A resource without `resourceType` is counted under the null key, which
  `HashMap` accepts. It is not left out.
- When the last Patient line containing both names has no `"id"` member, `findId`
  returns null.
  `line.contains(null)` then throws `NullPointerException` at the first line the
  scan reads, and nothing catches it.

## Model

| member | source | states |
|---|---|---|
| JavaValues.ContainsIffOccurs | FhirJsonCLI/src/fhir/CountResources.java:227 | the recursive `contains` holds exactly when some window of the line spells the searched text |
| JavaValues.ContainsEmpty | FhirJsonCLI/src/fhir/CountResources.java:227 | every line contains the empty string |
| Ndjson.UnreadableFileIgnored | FhirJsonCLI/src/fhir/CountResources.java:218-219 | a file for which `isFile()` is false contributes no line: removing it leaves the lines read unchanged |
| ReferenceScan.FindNumOfRef | FhirJsonCLI/src/fhir/CountResources.java:214-242 | the nested loops over files and lines, updating the map in place, yield exactly `Scan` of the lines of the readable files, including the first exception |
| ReferenceScan.ScanFile | FhirJsonCLI/src/fhir/CountResources.java:226-232 | reading one file line by line, starting from the map the earlier lines left, yields `Scan` of the earlier lines followed by this file's lines |
| ReferenceScan.ScanFailureSticks | FhirJsonCLI/src/fhir/CountResources.java:226-232 | once a line has thrown, later lines do not change the outcome: the exception leaves the loop |
| ReferenceScan.ScanSucceedsIff | FhirJsonCLI/src/fhir/CountResources.java:227-229 | the scan returns normally exactly when every line either lacks the id or parses with a String-or-null resourceType; a line that lacks the id cannot make it fail |
| ReferenceScan.ScanFailsAtFirstBadLine | FhirJsonCLI/src/fhir/CountResources.java:227-229 | the first line that contains the id and cannot be read decides the outcome: the scan throws that line's exception (ParseException for a malformed line) |
| ReferenceScan.TallyCounts | FhirJsonCLI/src/fhir/CountResources.java:218-232 | for every category c, its final count equals the number of lines containing the id whose resourceType is c; c is present exactly when that number is positive, so every present count is at least 1 |
| ReferenceScan.TotalBump | FhirJsonCLI/src/fhir/CountResources.java:230 | `put(resource, getOrDefault(resource, 0) + 1)` raises the sum of all counts by exactly one |
| ReferenceScan.TallySum | FhirJsonCLI/src/fhir/CountResources.java:227-230 | the sum of all counts equals the number of lines that contain the id |
| ReferenceScan.ScanKeysGrow | FhirJsonCLI/src/fhir/CountResources.java:230 | keys are never removed and no count goes down as more lines are read |
| ReferenceScan.ScanIgnoresUnmatchedLines | FhirJsonCLI/src/fhir/CountResources.java:227-228 | lines without the id are never parsed: changing how they would parse does not change the scan |
| ReferenceScan.EmptyIdMatchesEveryLine | FhirJsonCLI/src/fhir/CountResources.java:227 | with the id `""` every line passes the filter |
| ReferenceScan.NullIdThrows | FhirJsonCLI/src/fhir/CountResources.java:227 | with a null id the scan throws NullPointerException at the first line read, and returns the empty map only when there is no line |
| Rank.SortDesc | FhirJsonCLI/src/fhir/CountResources.java:195-202 | the result holds exactly the map's key-count pairs, each key once and as a permutation of the entry set; counts are non-increasing; entries with equal counts keep the map's iteration order |
| Rank.StableSortFacts | FhirJsonCLI/src/fhir/CountResources.java:199 | sorting by count descending permutes the entries, orders them, keeps distinct keys distinct, and keeps equal counts in their input order |
| Rank.CollectDistinct | FhirJsonCLI/src/fhir/CountResources.java:200 | collecting entries with distinct keys into the LinkedHashMap keeps them as they are: the merge function `(e1, e2) -> e1` is never used |
| Rank.EntriesRanked | FhirJsonCLI/src/fhir/CountResources.java:197-200 | a sorted permutation of the entry set lists every key of the map once, with its count |
| Rank.EntryOrder | FhirJsonCLI/src/fhir/CountResources.java:197-198 | the entry set is streamed in some order that lists every key exactly once |
| Identity.FindName | FhirJsonCLI/src/fhir/CountResources.java:109-136 | the loop overwriting `fullName` yields exactly `NameLookup`: `""` for an absent file, else the name scan with its first exception |
| Identity.NameScanSucceedsIff | FhirJsonCLI/src/fhir/CountResources.java:120-127 | findName returns normally exactly when every line containing the id has a readable first name entry |
| Identity.NameFailsAtFirstBadLine | FhirJsonCLI/src/fhir/CountResources.java:121-126 | the first line containing the id whose name cannot be read decides the exception findName throws |
| Identity.NameNoMatch | FhirJsonCLI/src/fhir/CountResources.java:111-128 | when no line contains the id the result is `""` |
| Identity.NameLastMatchWins | FhirJsonCLI/src/fhir/CountResources.java:120-127 | a normal result is family + first given, with no separator, of the last line containing the id |
| Identity.NameIgnoresUnmatchedLines | FhirJsonCLI/src/fhir/CountResources.java:121-122 | lines without the id are never parsed: changing how they would parse does not change the name |
| Identity.FindId | FhirJsonCLI/src/fhir/CountResources.java:147-172 | the loop overwriting `id` yields exactly `IdLookup`: `""` for an absent file, else the id scan with its first exception |
| Identity.IdScanSucceedsIff | FhirJsonCLI/src/fhir/CountResources.java:158-163 | findId returns normally exactly when every line containing both names parses and has a String or null id |
| Identity.IdFailsAtFirstBadLine | FhirJsonCLI/src/fhir/CountResources.java:160-162 | the first line containing both names that cannot be read decides the exception findId throws |
| Identity.IdNoMatch | FhirJsonCLI/src/fhir/CountResources.java:149-164 | when no line contains both names the result is `""` |
| Identity.IdLastMatchWins | FhirJsonCLI/src/fhir/CountResources.java:158-163 | a normal result is the id member of the last line containing both the last and the first name |
| Identity.ResolveRoundTrip | FhirJsonCLI/src/fhir/CountResources.java:109-171 | for a Patient line that is the only one with its id and the only one with both its names, findName gives family + given and findId(family, given) gives the id back |
| CountResources.Run | FhirJsonCLI/src/fhir/CountResources.java:34-99 | main's steps give exactly `RunOutcome`, and a report's ranking lists every entry of the tally once, counts non-increasing |
| CountResources.UnresolvedNameCountsEveryLine | FhirJsonCLI/src/fhir/CountResources.java:56-96 | when findId finds nobody, main still scans with `""`; the report carries that tally, whose counts add up to the number of lines read |
| CountResources.MalformedLineEmptiesReport | FhirJsonCLI/src/fhir/CountResources.java:87-96 | a malformed line containing the id, before any other bad line, leaves main with the empty map it started with |
| CountResources.NullIdCrashesScan | FhirJsonCLI/src/fhir/CountResources.java:214-232 | a null id from findId ends the run with NullPointerException unless no readable file has a line |
| CountResources.RunRoundTrip | FhirJsonCLI/src/fhir/CountResources.java:45-72 | run by id and run by (first, last) on the same unique Patient record scan with the same id; the header name is family + given on one path and first + " " + last on the other |

## Left out

- File and stream I/O: opening, reading and closing files, `File.isFile()` (a flag
  on each file), `folder.listFiles` with the `.ndjson` filter (the file list is a
  parameter), and the `user.dir` path. IOException is therefore never raised in the
  model.
- JSON syntax: json-simple's source is not part of this model. A parse is given as
  the resource it yields or as ParseException. A line that is valid JSON but not an
  object, and `name` or `given` members that are not arrays or hold non-objects, are
  not modelled. In Java such a value throws ClassCastException, except the literal
  `null`: a line that is just `null`, or a `null` first element of `name`, makes the
  next `get` throw NullPointerException.
- printMap and the usage and "Unable to find ID" messages, which are console output
  only. The `id == ""` reference comparison at line 70 only guards such a message.
- Stack traces printed by `main`. Only their effect is kept: the name, the id or the
  map keeps the value it had.
- The concrete tie order of `HashMap` iteration. `SortDesc` takes the iteration
  order as a parameter, and `Run` picks it without constraint.
- Concurrency: the source has none.
- TallyCounts: counts are unbounded naturals. In Java a count is an `Integer`, and
  `getOrDefault(resource, 0) + 1` wraps to -2147483648 after 2147483647 matches of one
  category; the equality with `CountOf` and the bound `>= 1` assume no wrap.
- TotalBump: assumes unbounded counts; with a 32-bit count at 2147483647 the sum
  would drop instead of rising by one.
- TallySum: assumes unbounded counts; the Java sum of wrapped counts differs once one
  category passes 2147483647 matches.
- The nesting of the two loops of `findNumOfRef`: the inner loop is the separate
  method `ScanFile`. An exception it raises ends `FindNumOfRef` at once, as one
  raised in the inner loop ends the Java method.
