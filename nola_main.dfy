/** `main` of NOLA2CSV.py: export every configured Socrata collection to a
    CSV file with the ten HunchLab columns, using each endpoint's URL as the
    datasource of its rows. */
module NolaMain {
  import opened Wrappers
  import opened PyStr
  import opened NolaTransform
  import opened NolaExport

  /** The (endpoint, output file) pairs `main` exports; the 2011 to 2013
      collections are commented out, only 2014 is active. */
  const Sources: seq<(string, string)> :=
    [("http://data.nola.gov/resource/jsyu-nz5r.json", "NolaCrimes2014.csv")]

  /** The export of one endpoint: `main`'s header list and a
      `NOLATransformer` named after the endpoint. */
  function NolaPipeline(url: string, lib: TimeLib): (p: Pipeline)
    ensures p.headers == Headers
    ensures forall incident :: p.transform(incident) == NolaTransformer(url).Transform(incident, lib)
  {
    Pipeline(Headers, incident => NolaTransformer(url).Transform(incident, lib))
  }

  /** A transformed row's values in header order. */
  function HeaderFields(row: Row): (line: Line)
    requires row.Keys == HeaderSet
    ensures |line| == |Headers|
    ensures forall i :: 0 <= i < |Headers| ==> line[i] == row[Headers[i]]
  {
    [row["id"], row["datasource"], row["pointx"], row["pointy"], row["address"],
     row["datetimefrom"], row["datetimeto"], row["report_time"], row["class"], row["last_updated"]]
  }

  /** The CSV writer lays every transformed row out in header order: its
      keys are exactly the headers, so no extra key and no empty column. */
  lemma HeadersLine(row: Row)
    requires row.Keys == HeaderSet
    ensures DictRow(Headers, row) == Some(HeaderFields(row))
  {
    KeysAreHeaders(row);
    DictRowComplete(Headers, row, HeaderFields(row));
  }

  /** A row whose keys are the header set has every header and no other key. */
  lemma KeysAreHeaders(row: Row)
    requires row.Keys == HeaderSet
    ensures forall k :: k in row ==> k in Headers
    ensures forall i :: 0 <= i < |Headers| ==> Headers[i] in row
  {
    HeaderSetIsHeaders();
  }

  /** A record of a New Orleans export: ten fields, the endpoint URL as
      datasource, and the three time columns equal. */
  predicate NolaLine(url: string, line: Line) {
    |line| == |Headers| && line[1] == url && line[6] == line[5] && line[7] == line[5]
  }

  /** What the inner loop does with one New Orleans incident: write its ten
      fields when the transform succeeds and they are ASCII, skip it on
      KeyError, and stop the export on IndexError or ValueError out of the
      transform or on a field the writer cannot encode. */
  lemma NolaStep(url: string, lib: TimeLib, incident: Record)
    ensures var s := StepOf(NolaPipeline(url, lib), incident);
      var r := NolaTransformer(url).Transform(incident, lib);
      && (s.Write? <==> r.Ok? && IsAscii(HeaderFields(r.value)))
      && (s.Write? ==> s.line == HeaderFields(r.value) && NolaLine(url, s.line))
      && (s.Skip? <==> r.Err? && r.error.KeyError?)
      && (s.Halt? && r.Err? ==> !r.error.KeyError? && s.reason == TransformFailed(r.error))
      && (s.Halt? && r.Ok? ==> !IsAscii(HeaderFields(r.value)) && s.reason == NotAscii)
  {
    var p := NolaPipeline(url, lib);
    var r := NolaTransformer(url).Transform(incident, lib);
    assert p.transform(incident) == r;
    if r.Ok? {
      NolaStepWrites(url, lib, incident);
    }
  }

  /** A transformed incident is written as its ten fields, unless one of
      them is not ASCII. */
  lemma NolaStepWrites(url: string, lib: TimeLib, incident: Record)
    requires NolaTransformer(url).Transform(incident, lib).Ok?
    ensures var row := NolaTransformer(url).Transform(incident, lib).value;
      StepOf(NolaPipeline(url, lib), incident) ==
        if IsAscii(HeaderFields(row)) then Write(HeaderFields(row)) else Halt(NotAscii)
    ensures NolaLine(url, HeaderFields(NolaTransformer(url).Transform(incident, lib).value))
  {
    var row := NolaTransformer(url).Transform(incident, lib).value;
    TransformFields(NolaTransformer(url), incident, lib);
    RowWritten(NolaPipeline(url, lib), incident, row);
    RowIsNolaLine(url, row);
  }

  /** The writer lays a transformed row out as its ten fields, or raises
      UnicodeEncodeError when one is not ASCII. */
  lemma RowWritten(p: Pipeline, incident: Record, row: Row)
    requires p.headers == Headers && p.transform(incident) == Ok(row) && row.Keys == HeaderSet
    ensures StepOf(p, incident) ==
      if IsAscii(HeaderFields(row)) then Write(HeaderFields(row)) else Halt(NotAscii)
  {
    HeadersLine(row);
  }

  /** The four time columns hold `isoformat` text, which is ASCII, so
      whether the writer accepts a transformed row depends only on the six
      columns copied from the incident and the transformer. */
  lemma TimeColumnsAscii(url: string, lib: TimeLib, incident: Record)
    requires NolaTransformer(url).Transform(incident, lib).Ok?
    ensures var row := NolaTransformer(url).Transform(incident, lib).value;
      && IsAsciiText(row["datetimefrom"]) && IsAsciiText(row["datetimeto"])
      && IsAsciiText(row["report_time"]) && IsAsciiText(row["last_updated"])
      && (IsAscii(HeaderFields(row)) <==>
            && IsAsciiText(row["id"]) && IsAsciiText(row["datasource"])
            && IsAsciiText(row["pointx"]) && IsAsciiText(row["pointy"])
            && IsAsciiText(row["address"]) && IsAsciiText(row["class"]))
  {
    var t := NolaTransformer(url);
    var row := t.Transform(incident, lib).value;
    TransformFields(t, incident, lib);
    assert ConvertTime(incident["timecreate"], lib).Ok? && ConvertTime(incident["timeclosed"], lib).Ok?;
    AsciiColumns(row);
  }

  /** A row with the header keys is written exactly when each of its ten
      values is ASCII. */
  lemma AsciiColumns(row: Row)
    requires row.Keys == HeaderSet
    ensures IsAscii(HeaderFields(row)) <==>
      && IsAsciiText(row["id"]) && IsAsciiText(row["datasource"])
      && IsAsciiText(row["pointx"]) && IsAsciiText(row["pointy"])
      && IsAsciiText(row["address"]) && IsAsciiText(row["datetimefrom"])
      && IsAsciiText(row["datetimeto"]) && IsAsciiText(row["report_time"])
      && IsAsciiText(row["class"]) && IsAsciiText(row["last_updated"])
  {
    var line := HeaderFields(row);
    assert line == [row["id"], row["datasource"], row["pointx"], row["pointy"], row["address"],
      row["datetimefrom"], row["datetimeto"], row["report_time"], row["class"], row["last_updated"]];
    if forall i :: 0 <= i < 10 ==> IsAsciiText(line[i]) {
      assert IsAsciiText(line[0]) && IsAsciiText(line[1]) && IsAsciiText(line[2]) && IsAsciiText(line[3]);
      assert IsAsciiText(line[4]) && IsAsciiText(line[5]) && IsAsciiText(line[6]) && IsAsciiText(line[7]);
      assert IsAsciiText(line[8]) && IsAsciiText(line[9]);
    } else {
      var i :| 0 <= i < 10 && !IsAsciiText(line[i]);
      assert i == 0 || i == 1 || i == 2 || i == 3 || i == 4 || i == 5 || i == 6 || i == 7 || i == 8 || i == 9;
    }
  }

  /** A row whose datasource is the URL and whose three time columns agree
      lays out as a `NolaLine`. */
  lemma RowIsNolaLine(url: string, row: Row)
    requires row.Keys == HeaderSet && row["datasource"] == url
    requires row["datetimeto"] == row["datetimefrom"] && row["report_time"] == row["datetimefrom"]
    ensures NolaLine(url, HeaderFields(row))
  {
  }

  /** Every record a New Orleans export writes is a `NolaLine`. */
  lemma NolaWritesOnly(url: string, lib: TimeLib)
    ensures WritesOnly(Stepper(NolaPipeline(url, lib)), line => NolaLine(url, line))
  {
    forall incident | Stepper(NolaPipeline(url, lib))(incident).Write?
      ensures NolaLine(url, Stepper(NolaPipeline(url, lib))(incident).line)
    {
      NolaStep(url, lib, incident);
    }
  }

  /** What exporting one endpoint writes after the header. */
  function SourceRun(lib: TimeLib, remote: Remote, url: string, end: nat): Run
    requires EndsPaging(PageAt(remote, end))
  {
    RunFrom(Stepper(NolaPipeline(url, lib)), remote, 0, end)
  }

  /** Every record of every export carries the endpoint URL as datasource. */
  lemma SourceRunLines(lib: TimeLib, remote: Remote, url: string, end: nat)
    requires EndsPaging(PageAt(remote, end))
    ensures forall line :: line in SourceRun(lib, remote, url, end).lines ==> NolaLine(url, line)
  {
    NolaWritesOnly(url, lib);
    RunWritesOnly(Stepper(NolaPipeline(url, lib)), line => NolaLine(url, line), remote, 0, end);
  }

  /** An output file as it is left behind. */
  datatype Output = Output(outpath: string, file: seq<Line>)

  /** The file left for one source: its output path, then the header and
      the records its export wrote, each carrying the endpoint URL as
      datasource. */
  predicate Exported(lib: TimeLib, remote: Remote, source: (string, string), end: nat, out: Output)
    requires EndsPaging(PageAt(remote, end))
  {
    && out == Output(source.1, [Headers] + SourceRun(lib, remote, source.0, end).lines)
    && forall line :: line in out.file[1..] ==> NolaLine(source.0, line)
  }

  /** `soda_to_hl2_csv(url, outpath, headers, NOLATransformer(url))` for one
      source of `main`. */
  method ExportSource(source: (string, string), lib: TimeLib, remote: Remote, ghost end: nat)
      returns (out: Output, ending: Ending)
    requires EndsPaging(PageAt(remote, end))
    ensures Exported(lib, remote, source, end, out)
    ensures ending == SourceRun(lib, remote, source.0, end).ending
  {
    var (url, outpath) := source;
    var requests, file;
    requests, file, ending := SodaToHl2Csv(NolaPipeline(url, lib), remote, end);
    SourceRunLines(lib, remote, url, end);
    assert file[1..] == SourceRun(lib, remote, url, end).lines;
    out := Output(outpath, file);
  }

  /** `main`'s loop over `sources` (it passes `Sources`): export each
      endpoint in turn; an export that does not end at an empty page raises
      out of `main`, so later sources are not exported. `remotes` gives each
      endpoint's collection and `ends` a page that ends paging for each. */
  method ExportSources(sources: seq<(string, string)>, lib: TimeLib, remotes: string -> Remote, ghost ends: seq<nat>)
      returns (outputs: seq<Output>, failure: Option<Ending>)
    requires |ends| == |sources|
    requires forall i :: 0 <= i < |sources| ==> EndsPaging(PageAt(remotes(sources[i].0), ends[i]))
    ensures |outputs| <= |sources|
    ensures forall i :: 0 <= i < |outputs| ==> Exported(lib, remotes(sources[i].0), sources[i], ends[i], outputs[i])
    ensures failure.None? ==> |outputs| == |sources|
    ensures forall i :: 0 <= i < |outputs| && (failure.None? || i < |outputs| - 1) ==>
      SourceRun(lib, remotes(sources[i].0), sources[i].0, ends[i]).ending == Exhausted
    ensures failure.Some? ==>
      && 0 < |outputs| && failure.value != Exhausted
      && failure.value == SourceRun(lib, remotes(sources[|outputs| - 1].0), sources[|outputs| - 1].0, ends[|outputs| - 1]).ending
  {
    outputs := [];
    var n := 0;
    while n < |sources|
      invariant n <= |sources| && |outputs| == n
      invariant forall i :: 0 <= i < n ==> Exported(lib, remotes(sources[i].0), sources[i], ends[i], outputs[i])
      invariant forall i :: 0 <= i < n ==> SourceRun(lib, remotes(sources[i].0), sources[i].0, ends[i]).ending == Exhausted
    {
      var out, ending := ExportSource(sources[n], lib, remotes(sources[n].0), ends[n]);
      outputs := outputs + [out];
      if ending != Exhausted {
        return outputs, Some(ending);
      }
      n := n + 1;
    }
    failure := None;
  }

  /** `main`: the one active source, the 2014 collection, is exported to
      NolaCrimes2014.csv; the export ends with an empty page or with the
      failure that escapes `main`. */
  method ExportMain(lib: TimeLib, remotes: string -> Remote, ghost ends: seq<nat>)
      returns (outputs: seq<Output>, failure: Option<Ending>)
    requires |ends| == 1 && EndsPaging(PageAt(remotes(Sources[0].0), ends[0]))
    ensures |outputs| == 1 && outputs[0].outpath == "NolaCrimes2014.csv"
    ensures Exported(lib, remotes(Sources[0].0), Sources[0], ends[0], outputs[0])
    ensures failure.None? <==> SourceRun(lib, remotes(Sources[0].0), Sources[0].0, ends[0]).ending == Exhausted
  {
    outputs, failure := ExportSources(Sources, lib, remotes, ends);
  }
}
