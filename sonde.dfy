/** sonde_to_nc.py: one netCDF file per radiosonde launch of a text file.
    A launch's lines 0-10 hold `name: value` attributes, line 11 the nominal
    release time, and the lines from 12 on a space-separated table whose
    first row names the columns, whose second row gives the units and whose
    third is a row of dashes. */
module Sonde {
  import opened Common
  import opened Text
  import opened SondeFile

  /** The first line of the data table. */
  const TABLE_START: nat := 12
  /** The line holding the nominal release time. */
  const RELEASE_LINE: nat := 11

  /** What header line `line` contributes: a line holding '/' is skipped;
      any other is split at ": ", field 0 naming the attribute and field 1,
      without leading blanks or newlines, giving its value; a line without
      ": " raises IndexError. */
  function Entry(line: string): Result<Option<(string, string)>> {
    if '/' in line then Ok(None)
    else
      var tmp := Split(line, ": ");
      if |tmp| < 2 then Err(IndexError)
      else Ok(Some((tmp[0], Replace(LStrip(tmp[1]), "\n", ""))))
  }

  /** A header line `key: value` gives attribute `key` with the value
      stripped of its leading blanks and its newlines. */
  lemma EntryOfLine(key: string, value: string)
    requires '/' !in key && '/' !in value && ':' !in key && ':' !in value
    ensures Entry(key + ": " + value) == Ok(Some((key, Replace(LStrip(value), "\n", ""))))
    ensures '\n' !in Entry(key + ": " + value).value.value.1
  {
    var line := key + ": " + value;
    assert '/' !in line by {
      assert '/' !in ": ";
    }
    SplitFirst(key, ": ", value);
    SplitNone(value, ": ");
    ReplaceCharGone(LStrip(value), '\n', "");
  }

  /** A header line with neither '/' nor ':' stops the conversion. */
  lemma EntryWithoutSeparator(line: string)
    requires '/' !in line && ':' !in line
    ensures Entry(line) == Err(IndexError)
  {
    SplitNone(line, ": ");
  }

  /** The release time, as seconds, read from line 11 without its newlines
      by `parseTime` (datetime.strptime with the nominal-release-time
      format); a line the format rejects raises ValueError. */
  function ReleaseTime(sonde: seq<string>, parseTime: string -> Option<int>): (r: Result<int>)
    ensures |sonde| <= RELEASE_LINE ==> r == Err(IndexError)
    ensures |sonde| > RELEASE_LINE ==>
      (r.Ok? <==> parseTime(Replace(sonde[RELEASE_LINE], "\n", "")).Some?)
  {
    if |sonde| <= RELEASE_LINE then Err(IndexError)
    else match parseTime(Replace(sonde[RELEASE_LINE], "\n", "")) {
      case None => Err(ValueError)
      case Some(t) => Ok(t)
    }
  }

  /** The output path: `prefix_<stamp>.nc` in `outDir`, where `stamp`
      formats the release time as `%Y%m%d_%H%M%S`. */
  function FileName(outDir: string, prefix: string, stamp: string): (path: string)
    ensures EndsWith(path, prefix + "_" + stamp + ".nc")
    ensures EndsWith(path, ".nc")
  {
    var name := prefix + "_" + stamp + ".nc";
    EndsWithAppend(prefix + "_" + stamp, ".nc");
    EndsWithTrans(PathJoin(outDir, name), name, ".nc");
    PathJoin(outDir, name)
  }

  /** Variable names are the column titles unchanged. */
  function SameName(key: string): string { key }

  /** One launch, in the order the converter works: the table, the header
      attributes, the release time, then the variables. */
  function ConvertLaunch(sonde: seq<string>, reader: string -> seq<Level>, parseTime: string -> Option<int>,
                         stamp: int -> string, outDir: string, prefix: string): (r: Result<SondeOutput>)
    ensures |sonde| <= RELEASE_LINE ==> r.Err?
  {
    var t :- Columns(reader(Flatten(Drop(sonde, TABLE_START))));
    var attrs :- Attrs(sonde, Entry, HEADER_LINES);
    var time :- ReleaseTime(sonde, parseTime);
    var vars :- Variables(t.keys, t.columns, SameName);
    Ok(SondeOutput(FileName(outDir, prefix, stamp(time)), attrs, vars))
  }

  /** A launch's file has one variable per column of the table, in the first
      row's key order, named by its title, with the column's entry 0 as
      units and its entries from 2 on as values. */
  lemma LaunchVariables(sonde: seq<string>, reader: string -> seq<Level>, parseTime: string -> Option<int>,
                                           stamp: int -> string, outDir: string, prefix: string)
    requires AllDicts(reader(Flatten(Drop(sonde, TABLE_START))))
    requires ConvertLaunch(sonde, reader, parseTime, stamp, outDir, prefix).Ok?
    ensures var rows := reader(Flatten(Drop(sonde, TABLE_START)));
      var vars := ConvertLaunch(sonde, reader, parseTime, stamp, outDir, prefix).value.variables;
      (|rows| == 0 ==> vars == []) &&
      (|rows| > 0 ==>
        |vars| == |rows[0].keys| && Injective(rows[0].keys, SameName) &&
        forall i :: 0 <= i < |vars| ==>
          vars[i] == NcVariable(SameName(rows[0].keys[i]), rows[0].fields[rows[0].keys[i]], Drop(ColumnOf(rows, rows[0].keys[i]), 2)))
  {
    var rows := reader(Flatten(Drop(sonde, TABLE_START)));
    LaunchTable(sonde, reader, parseTime, stamp, outDir, prefix);
    TableVariables(rows, SameName);
  }

  /** A converted launch's variables are those of its table. */
  lemma LaunchTable(sonde: seq<string>, reader: string -> seq<Level>, parseTime: string -> Option<int>,
                            stamp: int -> string, outDir: string, prefix: string)
    requires ConvertLaunch(sonde, reader, parseTime, stamp, outDir, prefix).Ok?
    ensures var rows := reader(Flatten(Drop(sonde, TABLE_START)));
      Columns(rows).Ok? &&
      Variables(Columns(rows).value.keys, Columns(rows).value.columns, SameName)
        == Ok(ConvertLaunch(sonde, reader, parseTime, stamp, outDir, prefix).value.variables)
  {
  }

  /** Every header line must be readable: a launch shorter than the header
      raises IndexError unless an earlier line already failed. */
  lemma ShortHeader(sonde: seq<string>)
    requires |sonde| < HEADER_LINES
    requires forall i :: 0 <= i < |sonde| ==> Entry(sonde[i]).Ok?
    ensures Attrs(sonde, Entry, HEADER_LINES) == Err(IndexError)
  {
  }

  /** One launch as the converter runs it. */
  method WriteLaunch(sonde: seq<string>, reader: string -> seq<Level>, parseTime: string -> Option<int>,
                     stamp: int -> string, outDir: string, prefix: string) returns (r: Result<SondeOutput>)
    ensures r == ConvertLaunch(sonde, reader, parseTime, stamp, outDir, prefix)
  {
    var table := ReadColumns(reader(Flatten(Drop(sonde, TABLE_START))));
    if table.Err? {
      return Err(table.error);
    }
    var ncattrs := ReadAttrs(sonde, Entry);
    if ncattrs.Err? {
      return Err(ncattrs.error);
    }
    var time := ReleaseTime(sonde, parseTime);
    if time.Err? {
      return Err(time.error);
    }
    var vars := WriteVariables(table.value, SameName);
    if vars.Err? {
      return Err(vars.error);
    }
    r := Ok(SondeOutput(FileName(outDir, prefix, stamp(time.value)), ncattrs.value, vars.value));
  }

  /** The whole file: the launches, then one file per launch until one fails. */
  method SondeToNc(lines: seq<string>, reader: string -> seq<Level>, parseTime: string -> Option<int>,
                   stamp: int -> string, outDir: string, prefix: string) returns (c: Conversion)
    ensures c == ConvertFile(lines, s => ConvertLaunch(s, reader, parseTime, stamp, outDir, prefix))
  {
    var convert := s => ConvertLaunch(s, reader, parseTime, stamp, outDir, prefix);
    var grouped := GroupLaunches(lines);
    if grouped.Err? {
      return Conversion([], Some(grouped.error));
    }
    var launches := grouped.value;
    ConvertFileOf(lines, launches, convert);
    var written: seq<SondeOutput> := [];
    for i := 0 to |launches|
      invariant ConvertAll(launches[..i], convert) == Conversion(written, None)
    {
      var out := WriteLaunch(launches[i], reader, parseTime, stamp, outDir, prefix);
      ConvertAllNext(launches, i, convert, written);
      if out.Err? {
        return Conversion(written, Some(out.error));
      }
      written := written + [out.value];
    }
    assert launches[..|launches|] == launches;
    c := Conversion(written, None);
  }
}
