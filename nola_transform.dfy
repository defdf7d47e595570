/** NOLATransformer of NOLA2CSV.py: one New Orleans calls-for-service
    incident (a JSON object with string values) becomes one ten-column
    HunchLab row, or fails the way the Python code raises. */
module NolaTransform {
  import opened Wrappers
  import opened PyStr
  import opened PyTime

  /** A decoded incident: JSON keys to their string values. */
  type Record = map<string, string>

  /** The dictionary handed to the CSV writer. */
  type Row = map<string, string>

  /** The exceptions the transform can raise. */
  datatype TransformError =
    | KeyError(key: string)   // a required field is missing from the incident
    | IndexError              // a timestamp lacks a '/'-segment or a time-of-day token
    | ValueError              // neither strptime format matches, or `datetime` rejects the fields
    | OverflowError           // `localize` steps a day past either end of the `datetime` range

  /** The library calls this model does not interpret: `time.strptime` (None
      when it raises ValueError), and the UTC offset in minutes that pytz's
      US/Central `localize` picks for a wall-clock time. */
  datatype TimeLib = TimeLib(
    strptime: (string, string) -> Option<CivilTime>,
    centralOffset: CivilTime -> int)

  const WithSeconds := "%m/%d/%Y %H:%M:%S"
  const WithoutSeconds := "%m/%d/%Y %H:%M"

  /** The CSV header list of `main`, in column order. */
  const Headers: seq<string> :=
    ["id", "datasource", "pointx", "pointy", "address", "datetimefrom",
     "datetimeto", "report_time", "class", "last_updated"]

  /** The header names as a set, the keys a transformed row must have. */
  const HeaderSet: set<string> :=
    {"id", "datasource", "pointx", "pointy", "address", "datetimefrom",
     "datetimeto", "report_time", "class", "last_updated"}

  /** The set and the list name the same headers. */
  lemma HeaderSetIsHeaders()
    ensures forall h :: h in Headers <==> h in HeaderSet
  {
  }

  /** The incident keys `transform` reads, in the order it reads them. */
  const RequiredKeys: seq<string> :=
    ["nopd_item", "mapx", "mapy", "block_address", "zip", "timecreate", "typetext", "timeclosed"]

  /** Every key `transform` reads is present. */
  predicate HasRequiredKeys(incident: Record) {
    && "nopd_item" in incident && "mapx" in incident && "mapy" in incident
    && "block_address" in incident && "zip" in incident && "timecreate" in incident
    && "typetext" in incident && "timeclosed" in incident
  }

  lemma RequiredKeysListed(incident: Record)
    ensures HasRequiredKeys(incident) <==> forall k :: k in RequiredKeys ==> k in incident
  {
  }

  /** `incident[key]`. */
  function Get(incident: Record, key: string): (r: Result<string, TransformError>)
    ensures r.Ok? <==> key in incident
    ensures r.Ok? ==> r.value == incident[key]
    ensures r.Err? ==> r.error == KeyError(key)
  {
    if key in incident then Ok(incident[key]) else Err(KeyError(key))
  }

  /** `_decode_address`: block address, a comma and a space, the zip code;
      `block_address` is looked up first. */
  function DecodeAddress(incident: Record): (r: Result<string, TransformError>)
    ensures r.Ok? <==> "block_address" in incident && "zip" in incident
    ensures r.Ok? ==> r.value == incident["block_address"] + ", " + incident["zip"]
    ensures r.Err? ==> r.error == KeyError(if "block_address" in incident then "zip" else "block_address")
  {
    var block :- Get(incident, "block_address");
    var zip :- Get(incident, "zip");
    Ok(block + ", " + zip)
  }

  /** The time-of-day token is zero-filled to five characters only when it
      is exactly four long (`2:36` becomes `02:36`). */
  function PadClock(clock: string): (r: string)
    ensures |clock| != 4 ==> r == clock
    ensures |clock| == 4 && !IsSign(clock[0]) ==> r == "0" + clock
    ensures |clock| == 4 && IsSign(clock[0]) ==> r == [clock[0]] + "0" + clock[1..]
  {
    if |clock| == 4 then
      var r := ZFill(clock, 5);
      assert r == r[..1] + r[1..];
      r
    else clock
  }

  /** The string surgery of `_convert_time` before parsing: split on '/',
      zero-fill month and day to two characters, keep the first
      whitespace token of the third segment (the year) and the padded
      second one (the time of day). */
  function CleanTime(s: string): (r: Result<string, TransformError>)
    ensures r.Err? ==> r.error == IndexError
  {
    var parts := Split(s, '/');
    if |parts| < 3 then Err(IndexError)
    else
      var month := ZFill(parts[0], 2);
      var day := ZFill(parts[1], 2);
      var tokens := SplitWhitespace(parts[2]);
      if |tokens| < 2 then Err(IndexError)
      else Ok(month + "/" + day + "/" + tokens[0] + " " + PadClock(tokens[1]))
  }

  /** `_convert_time`: clean, parse with seconds, fall back to the format
      without seconds only when that fails, localize and format. It never
      raises a KeyError. */
  function ConvertTime(s: string, lib: TimeLib): (r: Result<string, TransformError>)
    ensures r.Err? ==> r.error == IndexError || r.error == ValueError || r.error == OverflowError
    ensures r.Ok? ==> IsAsciiText(r.value)
  {
    var clean :- CleanTime(s);
    match lib.strptime(clean, WithSeconds)
    case Some(t) => Localize(t, lib)
    case None =>
      match lib.strptime(clean, WithoutSeconds)
      case Some(t) => Localize(t, lib)
      case None => Err(ValueError)
  }

  /** `datetime.datetime(*struct_time[:6])`, localized to US/Central and
      formatted with `isoformat`. `datetime` raises ValueError for fields
      out of range. pytz's `localize` first adds one day and subtracts one
      day, which raises OverflowError on the first and the last day of the
      range. Otherwise the result is ASCII `isoformat` text. */
  function Localize(t: CivilTime, lib: TimeLib): (r: Result<string, TransformError>)
    ensures r == Err(ValueError) <==> !DatetimeAccepts(t)
    ensures r == Err(OverflowError) <==> DatetimeAccepts(t) && AtRangeEnd(t)
    ensures r.Err? ==> r.error == ValueError || r.error == OverflowError
    ensures r.Ok? ==> r.value == IsoFormat(t, lib.centralOffset(t)) && IsAsciiText(r.value)
  {
    if !DatetimeAccepts(t) then Err(ValueError)
    else if PrevDay(t).None? || NextDay(t).None? then
      DayStepOverflows(t);
      Err(OverflowError)
    else
      DayStepOverflows(t);
      Ok(IsoFormat(t, lib.centralOffset(t)))
  }

  /** The parse outcome of `_convert_time`: the format with seconds is tried
      first and wins whenever it parses; the format without seconds is used
      only when it does not; IndexError comes from the cleanup, and
      ValueError when both formats fail or `datetime` rejects the fields of
      the format that parsed. */
  lemma ConvertTimeFallback(s: string, lib: TimeLib)
    ensures CleanTime(s).Err? ==> ConvertTime(s, lib) == Err(IndexError)
    ensures CleanTime(s).Ok? && lib.strptime(CleanTime(s).value, WithSeconds).Some? ==>
              ConvertTime(s, lib) == Localize(lib.strptime(CleanTime(s).value, WithSeconds).value, lib)
    ensures CleanTime(s).Ok? && lib.strptime(CleanTime(s).value, WithSeconds).None? &&
            lib.strptime(CleanTime(s).value, WithoutSeconds).Some? ==>
              ConvertTime(s, lib) == Localize(lib.strptime(CleanTime(s).value, WithoutSeconds).value, lib)
    ensures ConvertTime(s, lib) == Err(ValueError) <==>
              && CleanTime(s).Ok?
              && var clean := CleanTime(s).value;
                 match lib.strptime(clean, WithSeconds)
                 case Some(t) => !DatetimeAccepts(t)
                 case None =>
                   match lib.strptime(clean, WithoutSeconds)
                   case Some(t) => !DatetimeAccepts(t)
                   case None => true
  {
  }

  /** `strptime` accepts seconds up to 61, but `datetime` only up to 59: a
      timestamp at second 60 or 61 parses with the first format and then
      raises ValueError, without trying the second format. */
  lemma LeapSecondFails(s: string, lib: TimeLib)
    requires CleanTime(s).Ok?
    requires lib.strptime(CleanTime(s).value, WithSeconds).Some?
    requires lib.strptime(CleanTime(s).value, WithSeconds).value.second > 59
    ensures ConvertTime(s, lib) == Err(ValueError)
  {
  }

  /** A timestamp whose parsed date is 0001-01-01 or 9999-12-31 (such as
      `1/1/0001 0:00`) passes the `datetime` checks and then raises
      OverflowError in `localize`. */
  lemma RangeEndOverflows(s: string, lib: TimeLib)
    ensures ConvertTime(s, lib) == Err(OverflowError) <==>
              && CleanTime(s).Ok?
              && var clean := CleanTime(s).value;
                 match lib.strptime(clean, WithSeconds)
                 case Some(t) => DatetimeAccepts(t) && AtRangeEnd(t)
                 case None =>
                   match lib.strptime(clean, WithoutSeconds)
                   case Some(t) => DatetimeAccepts(t) && AtRangeEnd(t)
                   case None => false
  {
  }

  /** A well-formed timestamp `M/D/` followed by space-separated tokens is
      cleaned to the padded month and day, the year token and the padded
      time token; later tokens (an AM/PM marker, say) are dropped. */
  lemma CleanTimeShape(month: string, day: string, tokens: seq<string>)
    requires '/' !in month && '/' !in day
    requires |tokens| >= 2
    requires forall i :: 0 <= i < |tokens| ==> tokens[i] != "" && NoSpace(tokens[i]) && '/' !in tokens[i]
    ensures CleanTime(month + "/" + day + "/" + Join(tokens, ' ')) ==
            Ok(ZFill(month, 2) + "/" + ZFill(day, 2) + "/" + tokens[0] + " " + PadClock(tokens[1]))
  {
    var rest := Join(tokens, ' ');
    JoinAvoids(tokens, ' ', '/');
    var parts := [month, day, rest];
    var s := month + "/" + day + "/" + rest;
    Join3(month, day, rest, '/');
    SplitJoin(parts, '/');
    assert Split(s, '/') == parts;
    SplitWhitespaceJoin(tokens);
    assert SplitWhitespace(parts[2]) == tokens;
  }

  /** The cleanup raises IndexError exactly when the timestamp has fewer
      than two '/' or its third segment fewer than two whitespace tokens. */
  lemma CleanTimeFails(s: string)
    ensures CleanTime(s).Err? <==> |Split(s, '/')| < 3 || |SplitWhitespace(Split(s, '/')[2])| < 2
  {
  }

  /** The unpadded form of the data set, `M/D/YYYY H:MM` with one-digit
      month, day and hour, is repaired to `0M/0D/YYYY 0H:MM`. */
  lemma CleanTimeUnpadded(m: char, d: char, year: string, h: char, minutes: string)
    requires IsDigit(m) && IsDigit(d) && IsDigit(h)
    requires |minutes| == 2 && IsDigit(minutes[0]) && IsDigit(minutes[1])
    requires year != "" && NoSpace(year) && '/' !in year
    ensures CleanTime([m] + "/" + [d] + "/" + (year + " " + ([h, ':'] + minutes))) ==
            Ok(['0', m] + "/" + ['0', d] + "/" + year + " " + (['0', h, ':'] + minutes))
  {
    var clock := [h, ':'] + minutes;
    var input := [m] + "/" + [d] + "/" + (year + " " + clock);
    assert CleanTime(input) == Ok(ZFill([m], 2) + "/" + ZFill([d], 2) + "/" + year + " " + PadClock(clock)) by {
      var tokens := [year, clock];
      assert Join(tokens, ' ') == year + " " + clock by {
        assert tokens[1..] == [clock];
      }
      assert NoSpace(clock) && '/' !in clock by {
        assert clock == [h, ':', minutes[0], minutes[1]];
      }
      assert '/' !in [m] && '/' !in [d];
      CleanTimeShape([m], [d], tokens);
    }
    assert ZFill([m], 2) == ['0', m] && ZFill([d], 2) == ['0', d] by {
      assert !IsSign(m) && !IsSign(d);
    }
    assert PadClock(clock) == ['0', h, ':'] + minutes by {
      assert |clock| == 4 && !IsSign(clock[0]);
      assert "0" + clock == ['0', h, ':'] + minutes;
    }
  }

  /** `4/1/2015 2:36` becomes `04/01/2015 02:36`. */
  lemma CleanTimeExample(s: string)
    requires s == "4/1/2015 2:36"
    ensures CleanTime(s) == Ok("04/01/2015 02:36")
  {
    ExampleSpelledOut();
    CleanTimeUnpadded('4', '1', "2015", '2', "36");
  }

  /** The example's input and output, spelled out piece by piece. */
  lemma ExampleSpelledOut()
    ensures "4/1/2015 2:36" == ['4'] + "/" + ['1'] + "/" + ("2015" + " " + (['2', ':'] + "36"))
    ensures "04/01/2015 02:36" == ['0', '4'] + "/" + ['0', '1'] + "/" + "2015" + " " + (['0', '2', ':'] + "36")
  {
  }

  /** A timestamp with a date but no time-of-day token raises IndexError. */
  lemma CleanTimeDateOnly(month: string, day: string, year: string)
    requires '/' !in month && '/' !in day && '/' !in year
    requires NoSpace(year)
    ensures CleanTime(month + "/" + day + "/" + year).Err?
  {
    var parts := [month, day, year];
    Join3(month, day, year, '/');
    SplitJoin(parts, '/');
    if year != "" {
      SplitWhitespaceJoin([year]);
    }
  }

  /** Fewer than two slashes raise IndexError. */
  lemma CleanTimeFewSlashes(month: string, day: string)
    requires '/' !in month && '/' !in day
    ensures CleanTime(month).Err?
    ensures CleanTime(month + "/" + day).Err?
  {
    SplitJoin([month], '/');
    assert Join([month, day], '/') == month + "/" + day;
    SplitJoin([month, day], '/');
  }

  /** The dictionary `transform` fills key by key. */
  function MakeRow(id: string, datasource: string, pointx: string, pointy: string,
                   address: string, from: string, to: string, reported: string,
                   category: string, updated: string): (row: Row)
    ensures row.Keys == HeaderSet
    ensures row["id"] == id && row["datasource"] == datasource
    ensures row["pointx"] == pointx && row["pointy"] == pointy && row["address"] == address
    ensures row["datetimefrom"] == from && row["datetimeto"] == to && row["report_time"] == reported
    ensures row["class"] == category && row["last_updated"] == updated
  {
    map[
      "id" := id, "datasource" := datasource, "pointx" := pointx, "pointy" := pointy,
      "address" := address, "datetimefrom" := from, "datetimeto" := to,
      "report_time" := reported, "class" := category, "last_updated" := updated]
  }

  datatype NolaTransformer = NolaTransformer(datasource: string) {

    /** `transform`: the row for one incident, reading the incident's keys
        in the order of `RequiredKeys` and stopping at the first failure. */
    function Transform(incident: Record, lib: TimeLib): (r: Result<Row, TransformError>)
      ensures r.Ok? ==> r.value.Keys == HeaderSet
      ensures r.Ok? <==>
                HasRequiredKeys(incident) &&
                ConvertTime(incident["timecreate"], lib).Ok? &&
                ConvertTime(incident["timeclosed"], lib).Ok?
    {
      var id :- Get(incident, "nopd_item");
      var pointx :- Get(incident, "mapx");
      var pointy :- Get(incident, "mapy");
      var address :- DecodeAddress(incident);
      var created :- Get(incident, "timecreate");
      // The source converts `timecreate` three times, once per column; the
      // conversion is a function of its input, so the three columns share it.
      var from :- ConvertTime(created, lib);
      var category :- Get(incident, "typetext");
      var closed :- Get(incident, "timeclosed");
      var updated :- ConvertTime(closed, lib);
      Ok(MakeRow(id, datasource, pointx, pointy, address, from, from, from, category, updated))
    }
  }

  /** Where each column of a transformed row comes from: the three time
      columns agree and come from `timecreate`, `last_updated` from
      `timeclosed`, `datasource` from the transformer. */
  lemma TransformFields(t: NolaTransformer, incident: Record, lib: TimeLib)
    requires t.Transform(incident, lib).Ok?
    ensures var row := t.Transform(incident, lib).value;
      && row["id"] == incident["nopd_item"]
      && row["datasource"] == t.datasource
      && row["pointx"] == incident["mapx"]
      && row["pointy"] == incident["mapy"]
      && row["address"] == incident["block_address"] + ", " + incident["zip"]
      && row["datetimefrom"] == ConvertTime(incident["timecreate"], lib).value
      && row["datetimeto"] == row["datetimefrom"]
      && row["report_time"] == row["datetimefrom"]
      && row["class"] == incident["typetext"]
      && row["last_updated"] == ConvertTime(incident["timeclosed"], lib).value
  {
  }

  /** A missing required key makes the whole transform fail. */
  lemma MissingKeyFails(t: NolaTransformer, incident: Record, lib: TimeLib, k: string)
    requires k in RequiredKeys && k !in incident
    ensures t.Transform(incident, lib).Err?
  {
    RequiredKeysListed(incident);
    assert !HasRequiredKeys(incident);
  }

  /** The keys `transform` reads before its first timestamp conversion. */
  predicate HasKeysBeforeConversion(incident: Record) {
    && "nopd_item" in incident && "mapx" in incident && "mapy" in incident
    && "block_address" in incident && "zip" in incident && "timecreate" in incident
  }

  /** Exactly when the transform raises KeyError: a key read before
      `timecreate` is converted is missing, or `timecreate` converts and
      then `typetext` or `timeclosed` is missing. */
  lemma TransformKeyError(t: NolaTransformer, incident: Record, lib: TimeLib)
    ensures var r := t.Transform(incident, lib);
      (r.Err? && r.error.KeyError?) <==>
        !HasKeysBeforeConversion(incident) ||
        (ConvertTime(incident["timecreate"], lib).Ok? &&
         ("typetext" !in incident || "timeclosed" !in incident))
  {
  }

  /** The key a KeyError names is missing, and every key read before it is
      present. */
  lemma KeyErrorNamesFirstMissing(t: NolaTransformer, incident: Record, lib: TimeLib)
    requires t.Transform(incident, lib).Err? && t.Transform(incident, lib).error.KeyError?
    ensures var k := t.Transform(incident, lib).error.key;
      exists i :: 0 <= i < |RequiredKeys| && RequiredKeys[i] == k &&
        k !in incident && forall j :: 0 <= j < i ==> RequiredKeys[j] in incident
  {
    var k := t.Transform(incident, lib).error.key;
    var i: nat;
    if "nopd_item" !in incident {
      i := 0;
    } else if "mapx" !in incident {
      i := 1;
    } else if "mapy" !in incident {
      i := 2;
    } else if "block_address" !in incident {
      i := 3;
    } else if "zip" !in incident {
      i := 4;
    } else if "timecreate" !in incident {
      i := 5;
    } else if "typetext" !in incident {
      i := 6;
    } else {
      i := 7;
    }
    assert i < |RequiredKeys| && RequiredKeys[i] == k && k !in incident;
    assert forall j :: 0 <= j < i ==> RequiredKeys[j] in incident;
  }
}
