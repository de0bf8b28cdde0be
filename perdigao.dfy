/** perdigao_sonde_to_nc.py: the variant of the radiosonde converter for the
    NCAR quality-controlled soundings. The header lines give attributes
    with underscores for blanks, line 5 the UTC launch time, line 4 the
    launch position, and the table's columns are renamed to the project's
    variable names in lower case. */
module Perdigao {
  import opened Common
  import opened Text
  import opened SondeFile

  /** The first line of the data table. */
  const TABLE_START: nat := 12
  /** The line holding the UTC launch time. */
  const LAUNCH_TIME_LINE: nat := 5
  /** The line holding the launch position: `label: lon, lat, alt`. */
  const POSITION_LINE: nat := 4

  /** What header line `line` contributes: lines holding '/' or '(' are
      skipped; any other is split at ": ", field 0 with its blanks turned to
      underscores naming the attribute and field 1, without leading blanks
      or newlines, giving its value; a line without ": " is skipped, since
      the IndexError it raises is caught. */
  function Entry(line: string): Result<Option<(string, string)>> {
    if '/' in line || '(' in line then Ok(None)
    else
      var tmp := Split(line, ": ");
      if |tmp| < 2 then Ok(None)
      else Ok(Some((Replace(tmp[0], " ", "_"), Replace(LStrip(tmp[1]), "\n", ""))))
  }

  /** A header line `key: value` gives attribute `key` with underscores for
      blanks, and the value stripped of its leading blanks and newlines;
      neither the name holds a blank nor the value a newline. */
  lemma EntryOfLine(key: string, value: string)
    requires '/' !in key && '/' !in value && '(' !in key && '(' !in value
    requires ':' !in key && ':' !in value
    ensures Entry(key + ": " + value) == Ok(Some((Replace(key, " ", "_"), Replace(LStrip(value), "\n", ""))))
    ensures ' ' !in Entry(key + ": " + value).value.value.0
    ensures '\n' !in Entry(key + ": " + value).value.value.1
  {
    assert '/' !in ": " && '(' !in ": ";
    SplitFirst(key, ": ", value);
    SplitNone(value, ": ");
    ReplaceCharGone(key, ' ', "_");
    ReplaceCharGone(LStrip(value), '\n', "");
  }

  /** No header line stops the conversion: a line without ": " is skipped. */
  lemma EntryWithoutSeparator(line: string)
    requires ':' !in line
    ensures Entry(line) == Ok(None)
  {
    if '/' !in line && '(' !in line {
      SplitNone(line, ": ");
    }
  }

  /** The attribute loop fails only on a launch shorter than the header. */
  lemma {:induction false} AttrsFailOnlyShort(sonde: seq<string>, n: nat)
    requires n <= HEADER_LINES
    ensures Attrs(sonde, Entry, n).Ok? <==> n <= |sonde|
    ensures Attrs(sonde, Entry, n).Err? ==> Attrs(sonde, Entry, n).error == IndexError
    decreases n
  {
    if n > 0 {
      AttrsFailOnlyShort(sonde, n - 1);
    }
  }

  /** The launch time, as seconds, read from line 5 without its CR LF line
      end by `parseTime` (datetime.strptime with the UTC-launch-time
      format); a line the format rejects raises ValueError. */
  function LaunchTime(sonde: seq<string>, parseTime: string -> Option<int>): (r: Result<int>)
    ensures |sonde| <= LAUNCH_TIME_LINE ==> r == Err(IndexError)
    ensures |sonde| > LAUNCH_TIME_LINE ==>
      (r.Ok? <==> parseTime(Replace(sonde[LAUNCH_TIME_LINE], "\r\n", "")).Some?)
  {
    if |sonde| <= LAUNCH_TIME_LINE then Err(IndexError)
    else match parseTime(Replace(sonde[LAUNCH_TIME_LINE], "\r\n", "")) {
      case None => Err(ValueError)
      case Some(t) => Ok(t)
    }
  }

  /** The launch position: the text of line 4 between its first and second
      ':' split at ',', whose first three fields, without newlines, are the
      longitude, latitude and altitude; too few fields raise IndexError. */
  function Position(sonde: seq<string>): (r: Result<(string, string, string)>)
    ensures r.Ok? ==> '\n' !in r.value.0 && '\n' !in r.value.1 && '\n' !in r.value.2
  {
    if |sonde| <= POSITION_LINE then Err(IndexError)
    else
      var parts := Split(sonde[POSITION_LINE], ":");
      if |parts| < 2 then Err(IndexError)
      else
        var tmp := Split(parts[1], ",");
        if |tmp| < 3 then Err(IndexError)
        else
          ReplaceCharGone(tmp[0], '\n', "");
          ReplaceCharGone(tmp[1], '\n', "");
          ReplaceCharGone(tmp[2], '\n', "");
          Ok((Replace(tmp[0], "\n", ""), Replace(tmp[1], "\n", ""), Replace(tmp[2], "\n", "")))
  }

  /** A position line `title:lon,lat,alt` gives the three fields. */
  lemma PositionOfLine(sonde: seq<string>, title: string, lon: string, lat: string, alt: string)
    requires |sonde| > POSITION_LINE && sonde[POSITION_LINE] == title + ":" + lon + "," + lat + "," + alt
    requires ':' !in title && ':' !in lon && ':' !in lat && ':' !in alt
    requires ',' !in lon && ',' !in lat && ',' !in alt
    ensures Position(sonde) == Ok((Replace(lon, "\n", ""), Replace(lat, "\n", ""), Replace(alt, "\n", "")))
  {
    var coords := lon + "," + lat + "," + alt;
    assert sonde[POSITION_LINE] == title + ":" + coords;
    TitleSplit(title, coords);
    CoordsSplit(lon, lat, alt);
  }

  lemma TitleSplit(title: string, coords: string)
    requires ':' !in title && ':' !in coords
    ensures Split(title + ":" + coords, ":") == [title, coords]
  {
    SplitFirst(title, ":", coords);
    SplitNone(coords, ":");
  }

  lemma CoordsSplit(lon: string, lat: string, alt: string)
    requires ',' !in lon && ',' !in lat && ',' !in alt
    ensures Split(lon + "," + lat + "," + alt, ",") == [lon, lat, alt]
  {
    assert lon + "," + lat + "," + alt == lon + "," + (lat + "," + alt);
    SplitFirst(lon, ",", lat + "," + alt);
    SplitFirst(lat, ",", alt);
    SplitNone(alt, ",");
  }

  /** The project's name for a column. */
  function Rename(key: string): string {
    if key == "Temp" then "tdry"
    else if key == "Press" then "pres"
    else if key == "spd" then "wspd"
    else if key == "Ucmp" then "u_wind"
    else if key == "Vcmp" then "v_wind"
    else if key == "Wcmp" then "w_wind"
    else key
  }

  /** The name of a column's variable: the renamed title in lower case. */
  function NcName(key: string): (name: string)
    ensures |name| > 0 ==> |key| > 0
  {
    Lower(Rename(key))
  }

  /** Variable names hold no upper-case letter, and a column without a new
      name keeps its title, lower-cased. */
  lemma NcNames(key: string)
    ensures forall i :: 0 <= i < |NcName(key)| ==> !('A' <= NcName(key)[i] <= 'Z')
    ensures key !in {"Temp", "Press", "spd", "Ucmp", "Vcmp", "Wcmp"} ==> NcName(key) == Lower(key)
  {
    LowerIsLower(Rename(key));
  }

  /** Two columns can share a variable name: a table with both `Temp` and
      `tdry` columns stops at the second with netCDF's name clash. */
  lemma RenameClash(cols: map<string, seq<string>>)
    requires "Temp" in cols && |cols["Temp"]| > 0
    ensures Variables(["Temp", "tdry"], cols, NcName) == Err(NameInUse("tdry"))
  {
    assert ["Temp", "tdry"][..1] == ["Temp"];
    assert ["Temp"][..0] == [];
    assert Lower("tdry") == "tdry";
    assert NcName("Temp") == "tdry";
    assert NcName("tdry") == "tdry";
  }

  /** The global attributes: the header's, then the UTC launch time in ISO
      form and the launch position. */
  function LaunchAttrs(header: map<string, string>, time: string, pos: (string, string, string)): (attrs: map<string, string>)
    ensures attrs.Keys == header.Keys + {"UTC_Release_Time", "release_lon", "release_lat", "release_alt"}
    ensures attrs["UTC_Release_Time"] == time && attrs["release_lon"] == pos.0
    ensures attrs["release_lat"] == pos.1 && attrs["release_alt"] == pos.2
    ensures forall k :: k in header && k !in {"UTC_Release_Time", "release_lon", "release_lat", "release_alt"} ==> attrs[k] == header[k]
  {
    header["UTC_Release_Time" := time]["release_lon" := pos.0]["release_lat" := pos.1]["release_alt" := pos.2]
  }

  /** One launch, in the order the converter works: the table, the header
      attributes, the launch time, the position, then the variables. */
  function ConvertLaunch(sonde: seq<string>, reader: string -> seq<Level>, parseTime: string -> Option<int>,
                         isoformat: int -> string, stamp: int -> string, outDir: string, prefix: string)
    : (r: Result<SondeOutput>)
    ensures r.Ok? ==> |sonde| >= HEADER_LINES
  {
    var t :- Columns(reader(Flatten(Drop(sonde, TABLE_START))));
    var header :- Attrs(sonde, Entry, HEADER_LINES);
    var time :- LaunchTime(sonde, parseTime);
    var pos :- Position(sonde);
    var vars :- Variables(t.keys, t.columns, NcName);
    Ok(SondeOutput(PathJoin(outDir, prefix + "_" + stamp(time) + ".nc"), LaunchAttrs(header, isoformat(time), pos), vars))
  }

  /** A launch's file has one variable per column, in the first row's key
      order, named by `NcName`, with the column's entry 0 as units and its
      entries from 2 on as values; no two columns share a name. */
  lemma LaunchVariables(sonde: seq<string>, reader: string -> seq<Level>, parseTime: string -> Option<int>,
                                           isoformat: int -> string, stamp: int -> string, outDir: string, prefix: string)
    requires AllDicts(reader(Flatten(Drop(sonde, TABLE_START))))
    requires ConvertLaunch(sonde, reader, parseTime, isoformat, stamp, outDir, prefix).Ok?
    ensures var rows := reader(Flatten(Drop(sonde, TABLE_START)));
      var vars := ConvertLaunch(sonde, reader, parseTime, isoformat, stamp, outDir, prefix).value.variables;
      (|rows| == 0 ==> vars == []) &&
      (|rows| > 0 ==>
        |vars| == |rows[0].keys| && Injective(rows[0].keys, NcName) &&
        forall i :: 0 <= i < |vars| ==>
          vars[i] == NcVariable(NcName(rows[0].keys[i]), rows[0].fields[rows[0].keys[i]], Drop(ColumnOf(rows, rows[0].keys[i]), 2)))
  {
    var rows := reader(Flatten(Drop(sonde, TABLE_START)));
    LaunchTable(sonde, reader, parseTime, isoformat, stamp, outDir, prefix);
    TableVariables(rows, NcName);
  }

  /** A converted launch's variables are those of its table. */
  lemma LaunchTable(sonde: seq<string>, reader: string -> seq<Level>, parseTime: string -> Option<int>,
                            isoformat: int -> string, stamp: int -> string, outDir: string, prefix: string)
    requires ConvertLaunch(sonde, reader, parseTime, isoformat, stamp, outDir, prefix).Ok?
    ensures var rows := reader(Flatten(Drop(sonde, TABLE_START)));
      Columns(rows).Ok? &&
      Variables(Columns(rows).value.keys, Columns(rows).value.columns, NcName)
        == Ok(ConvertLaunch(sonde, reader, parseTime, isoformat, stamp, outDir, prefix).value.variables)
  {
  }

  /** One launch as the converter runs it. */
  method WriteLaunch(sonde: seq<string>, reader: string -> seq<Level>, parseTime: string -> Option<int>,
                     isoformat: int -> string, stamp: int -> string, outDir: string, prefix: string)
    returns (r: Result<SondeOutput>)
    ensures r == ConvertLaunch(sonde, reader, parseTime, isoformat, stamp, outDir, prefix)
  {
    var table := ReadColumns(reader(Flatten(Drop(sonde, TABLE_START))));
    if table.Err? {
      return Err(table.error);
    }
    var ncattrs := ReadAttrs(sonde, Entry);
    if ncattrs.Err? {
      return Err(ncattrs.error);
    }
    var time := LaunchTime(sonde, parseTime);
    if time.Err? {
      return Err(time.error);
    }
    var pos := Position(sonde);
    if pos.Err? {
      return Err(pos.error);
    }
    var vars := WriteVariables(table.value, NcName);
    if vars.Err? {
      return Err(vars.error);
    }
    r := Ok(SondeOutput(PathJoin(outDir, prefix + "_" + stamp(time.value) + ".nc"),
                        LaunchAttrs(ncattrs.value, isoformat(time.value), pos.value), vars.value));
  }

  /** The whole file: the launches, then one file per launch until one fails. */
  method PerdigaoSondeToNc(lines: seq<string>, reader: string -> seq<Level>, parseTime: string -> Option<int>,
                           isoformat: int -> string, stamp: int -> string, outDir: string, prefix: string)
    returns (c: Conversion)
    ensures c == ConvertFile(lines, s => ConvertLaunch(s, reader, parseTime, isoformat, stamp, outDir, prefix))
  {
    var convert := s => ConvertLaunch(s, reader, parseTime, isoformat, stamp, outDir, prefix);
    var grouped := GroupLaunches(lines);
    if grouped.Err? {
      return Conversion([], Some(grouped.error));
    }
    var launches := grouped.value;
    ConvertFileOf(lines, launches, convert);
    var written: seq<SondeOutput> := [];
    for i := 0 to |launches|
      invariant ConvertAll(launches[..i], convert) == Conversion(written, None)
    {
      var out := WriteLaunch(launches[i], reader, parseTime, isoformat, stamp, outDir, prefix);
      ConvertAllNext(launches, i, convert, written);
      if out.Err? {
        return Conversion(written, Some(out.error));
      }
      written := written + [out.value];
    }
    assert launches[..|launches|] == launches;
    c := Conversion(written, None);
  }
}
