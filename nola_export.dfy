/** `soda_to_hl2_csv` of NOLA2CSV.py: page through a Socrata collection
    1000 records at a time, transform every incident and write the rows to
    a CSV file after its header, skipping only the incidents whose
    transform raises KeyError. */
module NolaExport {
  import opened Wrappers
  import opened PyStr
  import opened NolaTransform

  /** One CSV record as the list of its fields, before quoting. */
  type Line = seq<string>

  /** The `$limit` of every page request, and the step of `$offset`. */
  const Limit: nat := 1000

  /** One `GET endpoint?$offset=<offset>&$limit=<limit>`. */
  datatype Request = Request(offset: nat, limit: nat)

  /** The HTTP status of a page and the JSON array it decodes to. */
  datatype PageResponse<R> = PageResponse(status: int, records: seq<R>)

  /** The remote collection: what each page request returns. */
  type Remote = Request -> PageResponse<Record>

  /** What one export needs besides the remote: the header list and the
      transformer, any object whose `transform` turns an incident into a row
      or raises. */
  datatype Pipeline = Pipeline(headers: seq<string>, transform: Record -> Result<Row, TransformError>)

  /** `csv.DictWriter.writerow`'s view of a row dictionary: the values in
      header order, "" for a header the row lacks, and None (ValueError)
      when the row has a key that is not a header. */
  function DictRow(fieldnames: seq<string>, row: Row): (r: Option<Line>)
    ensures r.Some? <==> forall k :: k in row ==> k in fieldnames
    ensures r.Some? ==> |r.value| == |fieldnames|
    ensures r.Some? ==> forall i :: 0 <= i < |fieldnames| ==>
              r.value[i] == if fieldnames[i] in row then row[fieldnames[i]] else ""
  {
    if exists k :: k in row && k !in fieldnames then None
    else Some(seq(|fieldnames|, i requires 0 <= i < |fieldnames| =>
                  if fieldnames[i] in row then row[fieldnames[i]] else ""))
  }

  /** A row holding exactly the header names is laid out as its values in
      header order. */
  lemma DictRowComplete(fieldnames: seq<string>, row: Row, line: Line)
    requires forall k :: k in row ==> k in fieldnames
    requires |line| == |fieldnames|
    requires forall i :: 0 <= i < |fieldnames| ==> fieldnames[i] in row && line[i] == row[fieldnames[i]]
    ensures DictRow(fieldnames, row) == Some(line)
  {
    var r := DictRow(fieldnames, row);
    assert r.Some? && |r.value| == |line|;
    forall i | 0 <= i < |line|
      ensures r.value[i] == line[i]
    {
    }
    assert r.value == line;
  }

  /** Every field of the record is plain ASCII: Python 2's CSV writer turns
      each unicode field into a byte string with the ASCII codec. */
  predicate IsAscii(line: Line) {
    forall i :: 0 <= i < |line| ==> IsAsciiText(line[i])
  }

  /** What `writerow` makes of a row: its record, or the ValueError it
      raises, either for a key that is not a header or (UnicodeEncodeError)
      for a field it cannot encode. */
  function EncodeRow(fieldnames: seq<string>, row: Row): (r: Result<Line, Abort>)
    ensures r == Err(RowRejected) <==> DictRow(fieldnames, row).None?
    ensures r == Err(NotAscii) <==> DictRow(fieldnames, row).Some? && !IsAscii(DictRow(fieldnames, row).value)
    ensures r.Ok? ==> r.value == DictRow(fieldnames, row).value && IsAscii(r.value)
  {
    match DictRow(fieldnames, row)
    case None => Err(RowRejected)
    case Some(line) => if IsAscii(line) then Ok(line) else Err(NotAscii)
  }

  /** The output file while it is written: created empty (a truncating
      `open(outpath, "wb")`), then one CSV record per write. */
  class CsvWriter {
    const fieldnames: seq<string>
    var lines: seq<Line>

    constructor (fieldnames: seq<string>)
      ensures this.fieldnames == fieldnames && lines == []
    {
      this.fieldnames := fieldnames;
      lines := [];
    }

    /** `writeheader`: the header names, as a record of their own. */
    method WriteHeader()
      modifies this
      ensures lines == old(lines) + [fieldnames]
    {
      lines := lines + [fieldnames];
    }

    /** `writerow`: appends the row's record, or raises and writes
        nothing. */
    method WriteRow(row: Row) returns (written: Result<Line, Abort>)
      modifies this
      ensures written == EncodeRow(fieldnames, row)
      ensures lines == if written.Ok? then old(lines) + [written.value] else old(lines)
    {
      written := EncodeRow(fieldnames, row);
      if written.Ok? {
        lines := lines + [written.value];
      }
    }
  }

  /** Why the export stopped before reaching an empty page. */
  datatype Abort =
    | TransformFailed(error: TransformError)  // IndexError or ValueError out of the transform
    | RowRejected                             // the CSV writer's ValueError for an extra key
    | NotAscii                                // the CSV writer's UnicodeEncodeError

  /** What the `try` block does with one incident: write its record, skip it
      (KeyError), or let an exception escape. */
  datatype Step = Write(line: Line) | Skip | Halt(reason: Abort)

  /** One pass of the inner loop: transform, then write; only KeyError is
      caught. */
  function StepOf(p: Pipeline, incident: Record): (s: Step)
    ensures s.Skip? <==> p.transform(incident).Err? && p.transform(incident).error.KeyError?
    ensures s.Write? <==> p.transform(incident).Ok? && EncodeRow(p.headers, p.transform(incident).value).Ok?
    ensures s.Write? ==> s.line == EncodeRow(p.headers, p.transform(incident).value).value
    ensures s.Halt? && p.transform(incident).Ok? ==> s.reason == EncodeRow(p.headers, p.transform(incident).value).error
  {
    match p.transform(incident)
    case Err(KeyError(_)) => Skip
    case Err(e) => Halt(TransformFailed(e))
    case Ok(row) =>
      match EncodeRow(p.headers, row)
      case Ok(line) => Write(line)
      case Err(reason) => Halt(reason)
  }

  /** The step function of a pipeline, as the loops below take it. */
  function Stepper(p: Pipeline): Record -> Step
  {
    incident => StepOf(p, incident)
  }

  /** The records written so far and whether an exception escaped. */
  datatype Batch = Batch(lines: seq<Line>, abort: Option<Abort>)

  function Then(b: Batch, s: Step): Batch
  {
    if b.abort.Some? then b
    else match s
      case Write(line) => Batch(b.lines + [line], None)
      case Skip => b
      case Halt(reason) => Batch(b.lines, Some(reason))
  }

  /** The inner loop over one page's incidents, in order, stopping at the
      first exception that is not a KeyError. */
  function Process<R>(step: R -> Step, incidents: seq<R>): (b: Batch)
    ensures |b.lines| <= |incidents|
    ensures b.abort.Some? ==> |b.lines| < |incidents|
  {
    if |incidents| == 0 then Batch([], None)
    else Then(Process(step, incidents[..|incidents| - 1]), step(incidents[|incidents| - 1]))
  }

  /** Reference definition of what gets written: the record of every
      incident whose step writes, in input order; skipped and failing ones
      contribute nothing. */
  function Kept<R>(step: R -> Step, incidents: seq<R>): seq<Line>
  {
    if incidents == [] then []
    else (if step(incidents[0]).Write? then [step(incidents[0]).line] else []) + Kept(step, incidents[1..])
  }

  /** No incident lets an exception escape. */
  predicate Clean<R>(step: R -> Step, incidents: seq<R>) {
    forall j :: 0 <= j < |incidents| ==> !step(incidents[j]).Halt?
  }

  lemma {:induction false} KeptConcat<R>(step: R -> Step, a: seq<R>, b: seq<R>)
    ensures Kept(step, a + b) == Kept(step, a) + Kept(step, b)
    decreases |a|
  {
    if a == [] {
      assert a + b == b;
    } else {
      assert (a + b)[1..] == a[1..] + b;
      KeptConcat(step, a[1..], b);
    }
  }

  /** On a clean page the inner loop writes every kept record and nothing
      escapes. */
  lemma {:induction false} ProcessClean<R>(step: R -> Step, incidents: seq<R>)
    requires Clean(step, incidents)
    ensures Process(step, incidents) == Batch(Kept(step, incidents), None)
    decreases |incidents|
  {
    if |incidents| > 0 {
      var n := |incidents| - 1;
      assert incidents == incidents[..n] + [incidents[n]];
      ProcessClean(step, incidents[..n]);
      KeptConcat(step, incidents[..n], [incidents[n]]);
    }
  }

  /** Otherwise the inner loop writes the kept records of the incidents
      before the first failing one and reports that one's exception. */
  lemma {:induction false} ProcessHalts<R>(step: R -> Step, incidents: seq<R>, j: nat)
    requires j < |incidents| && step(incidents[j]).Halt? && Clean(step, incidents[..j])
    ensures Process(step, incidents) == Batch(Kept(step, incidents[..j]), Some(step(incidents[j]).reason))
    decreases |incidents|
  {
    var n := |incidents| - 1;
    if j == n {
      ProcessClean(step, incidents[..j]);
    } else {
      assert incidents[..n][..j] == incidents[..j];
      assert incidents[..n][j] == incidents[j];
      ProcessHalts(step, incidents[..n], j);
    }
  }

  /** Incidents that are not clean have a first failing one. */
  lemma FirstHalt<R>(step: R -> Step, incidents: seq<R>) returns (j: nat)
    requires !Clean(step, incidents)
    ensures j < |incidents| && step(incidents[j]).Halt? && Clean(step, incidents[..j])
  {
    j := 0;
    while !step(incidents[j]).Halt?
      invariant j < |incidents| && Clean(step, incidents[..j])
      invariant exists m :: j <= m < |incidents| && step(incidents[m]).Halt?
      decreases |incidents| - j
    {
      assert incidents[..j + 1] == incidents[..j] + [incidents[j]];
      j := j + 1;
    }
  }

  /** Exactly when an exception escapes the inner loop. */
  lemma ProcessAborts<R>(step: R -> Step, incidents: seq<R>)
    ensures Process(step, incidents).abort.Some? <==> !Clean(step, incidents)
  {
    if Clean(step, incidents) {
      ProcessClean(step, incidents);
    } else {
      var j := FirstHalt(step, incidents);
      ProcessHalts(step, incidents, j);
    }
  }

  /** Once an exception escapes, later incidents change nothing. */
  lemma {:induction false} ProcessStops<R>(step: R -> Step, incidents: seq<R>, j: nat)
    requires 0 < j <= |incidents|
    requires Process(step, incidents[..j]).abort.Some?
    ensures Process(step, incidents) == Process(step, incidents[..j])
    decreases |incidents| - j
  {
    if j < |incidents| {
      assert incidents[..j + 1][..j] == incidents[..j];
      ProcessStops(step, incidents, j + 1);
    } else {
      assert incidents[..j] == incidents;
    }
  }

  /** One more incident, while nothing has escaped yet. */
  lemma ProcessNext<R>(step: R -> Step, incidents: seq<R>, j: nat)
    requires j < |incidents|
    ensures Process(step, incidents[..j + 1]) == Then(Process(step, incidents[..j]), step(incidents[j]))
  {
    assert incidents[..j + 1][..j] == incidents[..j];
  }

  /** Once an exception escapes at incident j, the page's outcome is fixed. */
  lemma ProcessEndsAt<R>(step: R -> Step, incidents: seq<R>, j: nat)
    requires j < |incidents|
    requires Process(step, incidents[..j + 1]).abort.Some?
    ensures Process(step, incidents) == Process(step, incidents[..j + 1])
  {
    if j + 1 < |incidents| {
      ProcessStops(step, incidents, j + 1);
    } else {
      assert incidents[..j + 1] == incidents;
    }
  }

  /** Every record the step function writes satisfies `good`. */
  ghost predicate WritesOnly<R(!new)>(step: R -> Step, good: Line -> bool) {
    forall x :: step(x).Write? ==> good(step(x).line)
  }

  /** The inner loop writes only records its step function writes. */
  lemma {:induction false} ProcessWritesOnly<R(!new)>(step: R -> Step, good: Line -> bool, incidents: seq<R>)
    requires WritesOnly(step, good)
    ensures forall line :: line in Process(step, incidents).lines ==> good(line)
    decreases |incidents|
  {
    if |incidents| > 0 {
      ProcessWritesOnly(step, good, incidents[..|incidents| - 1]);
    }
  }

  /** The inner `for incident in data` loop: writes each incident's record in
      turn, skipping KeyError, and returns the exception that escaped, if
      any. */
  method WriteIncidents(p: Pipeline, writer: CsvWriter, incidents: seq<Record>) returns (abort: Option<Abort>)
    requires writer.fieldnames == p.headers
    modifies writer
    ensures writer.lines == old(writer.lines) + Process(Stepper(p), incidents).lines
    ensures abort == Process(Stepper(p), incidents).abort
  {
    ghost var step := Stepper(p);
    var j := 0;
    while j < |incidents|
      invariant 0 <= j <= |incidents|
      invariant Process(step, incidents[..j]).abort.None?
      invariant writer.lines == old(writer.lines) + Process(step, incidents[..j]).lines
    {
      ProcessNext(step, incidents, j);
      assert step(incidents[j]) == StepOf(p, incidents[j]);
      var result := p.transform(incidents[j]);
      match result {
        case Ok(row) =>
          var written := writer.WriteRow(row);
          if written.Err? {
            ProcessEndsAt(step, incidents, j);
            return Some(written.error);
          }
        case Err(e) =>
          if !e.KeyError? {
            ProcessEndsAt(step, incidents, j);
            return Some(TransformFailed(e));
          }
      }
      j := j + 1;
    }
    assert incidents[..j] == incidents;
    abort := None;
  }

  /** The page `soda_to_hl2_csv` requests `i`-th. */
  function PageRequest(i: nat): (r: Request)
    ensures r.offset == Limit * i && r.limit == Limit
  {
    Request(i * Limit, Limit)
  }

  function PageAt<R>(remote: Request -> PageResponse<R>, i: nat): PageResponse<R>
  {
    remote(PageRequest(i))
  }

  /** `raise_for_status`: a 4xx or 5xx status aborts the export. */
  predicate RaisesForStatus(status: int) {
    400 <= status < 600
  }

  /** A page after which no further page is requested. */
  predicate EndsPaging<R>(page: PageResponse<R>) {
    RaisesForStatus(page.status) || page.records == []
  }

  /** How the export ended. */
  datatype Ending =
    | Exhausted              // an empty page: the normal end
    | HttpError(status: int) // raise_for_status raised
    | Aborted(reason: Abort) // an incident raised something other than KeyError

  /** What the export did: the pages it requested, the records it wrote
      after the header, and how it ended. */
  datatype Run = Run(requests: seq<Request>, lines: seq<Line>, ending: Ending)

  /** The paging loop from page `i` on. `end` is a page that ends paging: the
      collection is finite. */
  function RunFrom<R>(step: R -> Step, remote: Request -> PageResponse<R>, i: nat, end: nat): (r: Run)
    requires i <= end && EndsPaging(PageAt(remote, end))
    ensures 1 <= |r.requests| <= end - i + 1
    ensures forall n :: 0 <= n < |r.requests| ==> r.requests[n] == PageRequest(i + n)
    ensures r.ending.HttpError? ==> RaisesForStatus(r.ending.status)
    decreases end - i
  {
    var page := PageAt(remote, i);
    if RaisesForStatus(page.status) then Run([PageRequest(i)], [], HttpError(page.status))
    else if page.records == [] then Run([PageRequest(i)], [], Exhausted)
    else
      var b := Process(step, page.records);
      if b.abort.Some? then Run([PageRequest(i)], b.lines, Aborted(b.abort.value))
      else
        var rest := RunFrom(step, remote, i + 1, end);
        Run([PageRequest(i)] + rest.requests, b.lines + rest.lines, rest.ending)
  }

  /** The whole export writes only records its step function writes. */
  lemma {:induction false} RunWritesOnly<R(!new)>(step: R -> Step, good: Line -> bool,
                                           remote: Request -> PageResponse<R>, i: nat, end: nat)
    requires i <= end && EndsPaging(PageAt(remote, end))
    requires WritesOnly(step, good)
    ensures forall line :: line in RunFrom(step, remote, i, end).lines ==> good(line)
    decreases end - i
  {
    var page := PageAt(remote, i);
    if !EndsPaging(page) {
      ProcessWritesOnly(step, good, page.records);
      if Process(step, page.records).abort.None? {
        RunWritesOnly(step, good, remote, i + 1, end);
      }
    }
  }

  /** The run does not depend on which ending page bounds it. */
  lemma {:induction false} RunFromAnyEnd<R>(step: R -> Step, remote: Request -> PageResponse<R>, i: nat, end1: nat, end2: nat)
    requires i <= end1 && EndsPaging(PageAt(remote, end1))
    requires i <= end2 && EndsPaging(PageAt(remote, end2))
    ensures RunFrom(step, remote, i, end1) == RunFrom(step, remote, i, end2)
    decreases end1 - i
  {
    var page := PageAt(remote, i);
    if !EndsPaging(page) && Process(step, page.records).abort.None? {
      RunFromAnyEnd(step, remote, i + 1, end1, end2);
    }
  }

  /** The page requests from page `i` up to, not including, page `j`. */
  function PageRequests(i: nat, j: nat): (r: seq<Request>)
    ensures |r| == if i <= j then j - i else 0
    ensures forall n :: 0 <= n < |r| ==> r[n] == PageRequest(i + n)
    decreases j - i
  {
    if i >= j then [] else [PageRequest(i)] + PageRequests(i + 1, j)
  }

  lemma PageRequestsSnoc(i: nat, j: nat)
    requires i <= j
    ensures PageRequests(i, j + 1) == PageRequests(i, j) + [PageRequest(j)]
  {
    assert forall n :: 0 <= n < j - i ==> PageRequests(i, j + 1)[n] == PageRequests(i, j)[n];
  }

  /** The incidents of pages `i` up to, not including, `j`, in order. */
  function Fetched<R>(remote: Request -> PageResponse<R>, i: nat, j: nat): seq<R>
    decreases j - i
  {
    if i >= j then [] else PageAt(remote, i).records + Fetched(remote, i + 1, j)
  }

  lemma {:induction false} FetchedAppend<R>(remote: Request -> PageResponse<R>, i: nat, k: nat)
    requires i <= k
    ensures Fetched(remote, i, k + 1) == Fetched(remote, i, k) + PageAt(remote, k).records
    decreases k - i
  {
    if i < k {
      FetchedAppend(remote, i + 1, k);
      assert Fetched(remote, i, k + 1) == PageAt(remote, i).records + Fetched(remote, i + 1, k + 1);
    } else {
      assert Fetched(remote, k + 1, k + 1) == [];
      assert PageAt(remote, k).records + [] == PageAt(remote, k).records;
    }
  }

  /** A page the loop goes past: a success, not empty, and none of its
      incidents raises anything but KeyError. */
  predicate Passes<R>(step: R -> Step, page: PageResponse<R>) {
    !EndsPaging(page) && Clean(step, page.records)
  }

  /** Pages 0..k-1 are all passed. */
  predicate AllPass<R>(step: R -> Step, remote: Request -> PageResponse<R>, k: nat) {
    forall n :: 0 <= n < k ==> Passes(step, PageAt(remote, n))
  }

  /** The records written for the pages before `k`. */
  function KeptBefore<R>(step: R -> Step, remote: Request -> PageResponse<R>, k: nat): seq<Line>
  {
    Kept(step, Fetched(remote, 0, k))
  }

  /** Going past page k appends its kept records to the file. */
  lemma PassPage<R>(step: R -> Step, remote: Request -> PageResponse<R>, k: nat, end: nat)
    requires AllPass(step, remote, k) && k <= end && EndsPaging(PageAt(remote, end))
    requires !EndsPaging(PageAt(remote, k)) && Process(step, PageAt(remote, k).records).abort.None?
    ensures AllPass(step, remote, k + 1) && k + 1 <= end
    ensures KeptBefore(step, remote, k + 1) ==
              KeptBefore(step, remote, k) + Process(step, PageAt(remote, k).records).lines
  {
    var records := PageAt(remote, k).records;
    ProcessAborts(step, records);
    ProcessClean(step, records);
    assert Passes(step, PageAt(remote, k));
    FetchedAppend(remote, 0, k);
    KeptConcat(step, Fetched(remote, 0, k), records);
  }

  /** What the page the loop stops at contributes, and how the run ends. */
  function LastPage<R>(step: R -> Step, page: PageResponse<R>): Run
  {
    if RaisesForStatus(page.status) then Run([], [], HttpError(page.status))
    else if page.records == [] then Run([], [], Exhausted)
    else
      var b := Process(step, page.records);
      Run([], b.lines, if b.abort.Some? then Aborted(b.abort.value) else Exhausted)
  }

  /** The page the loop stops at. */
  lemma RunFromLast<R>(step: R -> Step, remote: Request -> PageResponse<R>, k: nat, end: nat)
    requires k <= end && EndsPaging(PageAt(remote, end))
    requires !Passes(step, PageAt(remote, k))
    ensures RunFrom(step, remote, k, end) ==
      Run([PageRequest(k)], LastPage(step, PageAt(remote, k)).lines, LastPage(step, PageAt(remote, k)).ending)
  {
    ProcessAborts(step, PageAt(remote, k).records);
  }

  /** A page the loop goes past contributes its request and its kept
      records. */
  lemma RunFromPassed<R>(step: R -> Step, remote: Request -> PageResponse<R>, i: nat, end: nat)
    requires i <= end && EndsPaging(PageAt(remote, end))
    requires Passes(step, PageAt(remote, i))
    ensures i + 1 <= end
    ensures var rest := RunFrom(step, remote, i + 1, end);
      RunFrom(step, remote, i, end) ==
        Run([PageRequest(i)] + rest.requests, Kept(step, PageAt(remote, i).records) + rest.lines, rest.ending)
  {
    ProcessClean(step, PageAt(remote, i).records);
  }

  /** What the run from page `i` is when page `k` is the first one not
      passed: the requests for pages i..k, the kept records of pages i..k-1,
      then what page k contributes. */
  function RunUpTo<R>(step: R -> Step, remote: Request -> PageResponse<R>, i: nat, k: nat): Run
  {
    var last := LastPage(step, PageAt(remote, k));
    Run(PageRequests(i, k + 1), Kept(step, Fetched(remote, i, k)) + last.lines, last.ending)
  }

  /** Unfolding `RunUpTo` by one page that comes before `k`. */
  lemma RunUpToCons<R>(step: R -> Step, remote: Request -> PageResponse<R>, i: nat, k: nat)
    requires i < k
    ensures var rest := RunUpTo(step, remote, i + 1, k);
      RunUpTo(step, remote, i, k) ==
        Run([PageRequest(i)] + rest.requests, Kept(step, PageAt(remote, i).records) + rest.lines, rest.ending)
  {
    var page := PageAt(remote, i);
    var later := Fetched(remote, i + 1, k);
    assert Fetched(remote, i, k) == page.records + later;
    KeptConcat(step, page.records, later);
    assert PageRequests(i, k + 1) == [PageRequest(i)] + PageRequests(i + 1, k + 1);
  }

  /** The step of the induction below: a passed page `i` in front of the run
      from page `i + 1`. */
  lemma RunUpToPassed<R>(step: R -> Step, remote: Request -> PageResponse<R>, i: nat, k: nat, end: nat)
    requires i < k <= end && EndsPaging(PageAt(remote, end))
    requires Passes(step, PageAt(remote, i))
    requires RunFrom(step, remote, i + 1, end) == RunUpTo(step, remote, i + 1, k)
    ensures RunFrom(step, remote, i, end) == RunUpTo(step, remote, i, k)
  {
    RunFromPassed(step, remote, i, end);
    RunUpToCons(step, remote, i, k);
  }

  lemma {:induction false} RunFromPages<R>(step: R -> Step, remote: Request -> PageResponse<R>, i: nat, k: nat, end: nat)
    requires i <= k <= end && EndsPaging(PageAt(remote, end))
    requires forall n :: i <= n < k ==> Passes(step, PageAt(remote, n))
    requires !Passes(step, PageAt(remote, k))
    ensures RunFrom(step, remote, i, end) == RunUpTo(step, remote, i, k)
    decreases k - i
  {
    if i == k {
      RunFromLast(step, remote, k, end);
      var last := LastPage(step, PageAt(remote, k));
      assert PageRequests(i, k + 1) == [PageRequest(i)];
      assert Kept(step, Fetched(remote, i, k)) == [];
      assert last.lines == [] + last.lines;
    } else {
      RunFromPages(step, remote, i + 1, k, end);
      RunUpToPassed(step, remote, i, k, end);
    }
  }

  /** The paging loop, stated over the whole run: if pages 0..k-1 are passed
      and page k is not, exactly k+1 pages are requested, at offsets 0, 1000,
      ..., 1000*k; the file holds the kept records of every incident of
      pages 0..k-1 in page order, then what page k contributes. */
  lemma RunCharacterized<R>(step: R -> Step, remote: Request -> PageResponse<R>, k: nat, end: nat)
    requires EndsPaging(PageAt(remote, end))
    requires AllPass(step, remote, k)
    requires !Passes(step, PageAt(remote, k))
    ensures k <= end
    ensures var r := RunFrom(step, remote, 0, end);
      && r.requests == PageRequests(0, k + 1)
      && r.lines == KeptBefore(step, remote, k) + LastPage(step, PageAt(remote, k)).lines
      && r.ending == LastPage(step, PageAt(remote, k)).ending
  {
    assert !Passes(step, PageAt(remote, end));
    RunFromPages(step, remote, 0, k, end);
  }

  /** A collection of 2500 records in pages of 1000, 1000 and 500: four page
      requests, the last at offset 3000, and 2500 incidents fetched. */
  lemma TwentyFiveHundredRecords<R>(step: R -> Step, remote: Request -> PageResponse<R>)
    requires |PageAt(remote, 0).records| == 1000 && |PageAt(remote, 1).records| == 1000
    requires |PageAt(remote, 2).records| == 500 && PageAt(remote, 3).records == []
    requires forall i :: 0 <= i < 4 ==> !RaisesForStatus(PageAt(remote, i).status)
    requires forall i :: 0 <= i < 3 ==> Clean(step, PageAt(remote, i).records)
    ensures var r := RunFrom(step, remote, 0, 3);
      |r.requests| == 4 && r.requests[3].offset == 3000 && r.ending == Exhausted &&
      r.lines == KeptBefore(step, remote, 3)
    ensures |Fetched(remote, 0, 3)| == 2500
  {
    forall i | 0 <= i < 3 ensures Passes(step, PageAt(remote, i)) {
      assert PageAt(remote, i).records != [] by {
        assert i == 0 || i == 1 || i == 2;
      }
    }
    assert AllPass(step, remote, 3);
    RunCharacterized(step, remote, 3, 3);
    assert Fetched(remote, 3, 3) == [];
  }

  /** The loop stops at page k, having written the kept records of the
      pages before it and what page k contributes. */
  lemma StopsAt<R>(step: R -> Step, remote: Request -> PageResponse<R>, k: nat, end: nat)
    requires AllPass(step, remote, k) && EndsPaging(PageAt(remote, end))
    requires EndsPaging(PageAt(remote, k)) || Process(step, PageAt(remote, k).records).abort.Some?
    ensures var r := RunFrom(step, remote, 0, end);
      && r.requests == PageRequests(0, k + 1)
      && r.lines == KeptBefore(step, remote, k) + LastPage(step, PageAt(remote, k)).lines
      && r.ending == LastPage(step, PageAt(remote, k)).ending
  {
    ProcessAborts(step, PageAt(remote, k).records);
    RunCharacterized(step, remote, k, end);
  }

  lemma AppendAssoc<T>(a: seq<T>, b: seq<T>, c: seq<T>)
    ensures (a + b) + c == a + (b + c)
  {
  }

  /** One pass of the paging loop once a page has arrived: stop on an HTTP
      error or an empty page, otherwise write the page's incidents. Returns
      how the export ends, or None to go on to the next page. */
  method WritePage(p: Pipeline, writer: CsvWriter, page: PageResponse<Record>) returns (stop: Option<Ending>)
    requires writer.fieldnames == p.headers
    modifies writer
    ensures stop.None? <==> !EndsPaging(page) && Process(Stepper(p), page.records).abort.None?
    ensures stop.None? ==> writer.lines == old(writer.lines) + Process(Stepper(p), page.records).lines
    ensures stop.Some? ==> writer.lines == old(writer.lines) + LastPage(Stepper(p), page).lines
    ensures stop.Some? ==> stop.value == LastPage(Stepper(p), page).ending
  {
    if RaisesForStatus(page.status) {
      return Some(HttpError(page.status));
    }
    if |page.records| == 0 {
      return Some(Exhausted);
    }
    var abort := WriteIncidents(p, writer, page.records);
    if abort.Some? {
      return Some(Aborted(abort.value));
    }
    return None;
  }

  /** `soda_to_hl2_csv`: write the header, then request page after page
      (offset 0, 1000, 2000, ...) until a page is empty, writing the records
      of each page's incidents as they arrive. Returns the requests made,
      the whole file and how the export ended. `end` is a page that ends
      paging. */
  method SodaToHl2Csv(p: Pipeline, remote: Remote, ghost end: nat)
      returns (requests: seq<Request>, file: seq<Line>, ending: Ending)
    requires EndsPaging(PageAt(remote, end))
    ensures var r := RunFrom(Stepper(p), remote, 0, end);
      requests == r.requests && file == [p.headers] + r.lines && ending == r.ending
  {
    ghost var step := Stepper(p);
    var writer := new CsvWriter(p.headers);
    writer.WriteHeader();
    var limit := Limit;
    var offset := 0;
    ghost var page: nat := 0;
    requests := [];
    while true
      invariant page <= end && offset == page * Limit
      invariant writer.fieldnames == p.headers
      invariant AllPass(step, remote, page)
      invariant requests == PageRequests(0, page)
      invariant writer.lines == [p.headers] + KeptBefore(step, remote, page)
      decreases end - page
    {
      var request := Request(offset, limit);
      assert request == PageRequest(page);
      var response := remote(request);
      requests := requests + [request];
      PageRequestsSnoc(0, page);
      ghost var kept := KeptBefore(step, remote, page);
      var stop := WritePage(p, writer, response);
      if stop.Some? {
        ending := stop.value;
        file := writer.lines;
        StopsAt(step, remote, page, end);
        AppendAssoc([p.headers], kept, LastPage(step, response).lines);
        return;
      }
      PassPage(step, remote, page, end);
      AppendAssoc([p.headers], kept, Process(step, response.records).lines);
      offset := offset + limit;
      page := page + 1;
    }
  }
}
