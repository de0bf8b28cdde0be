/** The Leosphere line-of-sight converter of lidar_los_to_netcdf.py: the
    header size, GPS position, compass settings and range list are read from
    fixed lines of the text file; every data row after the header is split
    on tabs and its per-range values are picked out with a stride of eight
    columns into preallocated arrays; the scan tag comes from the file name.

    Reading the file, strptime/strftime and the netCDF writing are outside
    the model: the lines arrive as strings, the row time stamp parser and
    the date formatter are parameters. */
module Los {
  import opened Common
  import opened Text

  // ---------------------------------------------------------------------
  // Header lines
  // ---------------------------------------------------------------------

  /** `line.split('=')[-1]`: the text after the last '='. */
  function AfterEquals(line: string): string {
    Last(Split(line, "="))
  }

  /** `header_size = int(data[0].split('=')[-1])`. */
  function HeaderSize(data: seq<string>): (r: Result<int>)
    ensures r.Err? ==> r.error == (if |data| == 0 then IndexError else ValueError)
  {
    if |data| == 0 then Err(IndexError) else ParseInt(AfterEquals(data[0]))
  }

  /** Python's `s[:-1]`: everything but the last character. */
  function DropLast(s: string): (r: string)
    ensures |s| > 0 ==> r + [s[|s| - 1]] == s
    ensures |s| == 0 ==> r == s
  {
    if |s| == 0 then s else s[..|s| - 1]
  }

  /** The latitude (first = true) or longitude of the GPS line: the first or
      last space-separated word after the '=', with "\r\n" removed and its
      last character (the hemisphere letter) dropped, read as a float and
      divided by 100. */
  function Coordinate(line: string, first: bool): (r: Result<real>)
    ensures r.Err? ==> r.error == ValueError
  {
    var words := Split(AfterEquals(line), " ");
    var word := if first then words[0] else Last(words);
    var v :- ParseReal(DropLast(Replace(word, "\r\n", "")));
    Ok(v / 100.0)
  }

  /** A compass setting: the float after the last '=', "\r\n" removed. */
  function Setting(line: string): (r: Result<real>)
    ensures r.Err? ==> r.error == ValueError
  {
    ParseReal(Replace(AfterEquals(line), "\r\n", ""))
  }

  /** A number parser in the manner of float(): its only error is ValueError. */
  ghost predicate IsParser(parse: string -> Result<real>) {
    forall x :: parse(x).Err? ==> parse(x).error == ValueError
  }

  lemma ParseRealIsParser()
    ensures IsParser(ParseReal)
  {
  }

  /** `[float(x) for x in xs]`: the error of the first string the parser
      rejects. The converter's parser is `ParseReal`. */
  function ParseAll(xs: seq<string>, parse: string -> Result<real>): (r: Result<seq<real>>)
    ensures r.Ok? <==> forall i :: 0 <= i < |xs| ==> parse(xs[i]).Ok?
    ensures r.Ok? ==> |r.value| == |xs| && forall i :: 0 <= i < |xs| ==> r.value[i] == parse(xs[i]).value
    ensures r.Err? ==> exists i :: 0 <= i < |xs| && parse(xs[i]) == Err(r.error)
    decreases |xs|
  {
    if |xs| == 0 then Ok([])
    else
      var head :- parse(xs[0]);
      var tail :- ParseAll(xs[1..], parse);
      Ok([head] + tail)
  }

  /** The range fields of the range line: the tab fields after the last
      '=', without the first (empty) one, and with "\r\n" removed from the
      last; `range[-1]` on an empty list is an IndexError. */
  function RangeFields(line: string): (r: Result<seq<string>>)
    ensures r.Ok? <==> |Split(AfterEquals(line), "\t")| >= 2
    ensures r.Ok? ==> |r.value| == |Split(AfterEquals(line), "\t")| - 1
    ensures r.Ok? ==> forall k :: 0 <= k < |r.value| - 1 ==> r.value[k] == Split(AfterEquals(line), "\t")[k + 1]
    ensures r.Err? ==> r.error == IndexError
  {
    var fields := Split(AfterEquals(line), "\t");
    if |fields| < 2 then Err(IndexError)
    else
      var rs := fields[1..];
      Ok(rs[..|rs| - 1] + [Replace(rs[|rs| - 1], "\r\n", "")])
  }

  /** The attributes of the output file. */
  datatype Attrs = Attrs(lat: real, lon: real, directionOffset: real, compassHeading: real,
                         pitchAngle: real, rollAngle: real, fullHeader: string)

  /** Python's normalisation of a slice bound `i` on a list of length n. */
  function SliceBound(i: int, n: nat): (k: nat)
    ensures k <= n
    ensures 0 <= i <= n ==> k == i
    ensures i > n ==> k == n
    ensures i < 0 ==> k == if n + i < 0 then 0 else n + i
  {
    if i < 0 then (if n + i < 0 then 0 else n + i) else if i > n then n else i
  }

  /** The header attributes, read in the order of the source: latitude and
      longitude from line 4, the compass settings from lines 28 to 31, and
      `"".join(data[0:header_size])`. */
  function Attributes(data: seq<string>, headerSize: int): (r: Result<Attrs>)
    ensures r.Ok? ==> r.value.fullHeader == Flatten(data[..SliceBound(headerSize, |data|)])
    ensures r.Ok? ==> |data| >= 32
  {
    if |data| < 5 then Err(IndexError)
    else
      var lat :- Coordinate(data[4], true);
      var lon :- Coordinate(data[4], false);
      if |data| < 29 then Err(IndexError) else
      var direction :- Setting(data[28]);
      if |data| < 30 then Err(IndexError) else
      var heading :- Setting(data[29]);
      if |data| < 31 then Err(IndexError) else
      var pitch :- Setting(data[30]);
      if |data| < 32 then Err(IndexError) else
      var roll :- Setting(data[31]);
      Ok(Attrs(lat, lon, direction, heading, pitch, roll, Flatten(data[..SliceBound(headerSize, |data|)])))
  }

  /** The ranges of line 39. */
  function Ranges(data: seq<string>, parse: string -> Result<real>): (r: Result<seq<real>>)
    requires IsParser(parse)
    ensures r.Err? ==> r.error in {IndexError, ValueError}
  {
    if |data| < 40 then Err(IndexError)
    else
      var fields :- RangeFields(data[39]);
      ParseAll(fields, parse)
  }

  /** `data[header_size+1:]`: the data rows. */
  function Rows(data: seq<string>, headerSize: int): (rows: seq<string>)
    ensures 0 <= headerSize < |data| ==> rows == data[headerSize + 1..] && |rows| == |data| - headerSize - 1
    ensures headerSize >= |data| ==> rows == []
  {
    data[SliceBound(headerSize + 1, |data|)..]
  }

  // ---------------------------------------------------------------------
  // Data rows
  // ---------------------------------------------------------------------

  /** `col[start::8]`: every eighth column from `start` on. */
  function Stride(col: seq<string>, start: nat): (r: seq<string>)
    ensures forall k :: 0 <= k < |r| ==> start + 8 * k < |col| && r[k] == col[start + 8 * k]
    ensures |col| <= start + 8 * |r|
    decreases |col| - start
  {
    if start >= |col| then []
    else [col[start]] + Stride(col, start + 8)
  }

  /** numpy's assignment of a list of values to a row of n cells: a list of
      length n is copied, a single value is broadcast, any other length is
      a ValueError. */
  function Broadcast(values: seq<real>, n: nat): (r: Result<seq<real>>)
    ensures r.Ok? <==> |values| == n || |values| == 1
    ensures r.Ok? ==> |r.value| == n
    ensures r.Ok? && |values| == n ==> r.value == values
    ensures r.Ok? ==> forall k :: 0 <= k < n ==> r.value[k] == values[if |values| == n then k else 0]
    ensures r.Err? ==> r.error == ValueError
  {
    if |values| == n then Ok(values)
    else if |values| == 1 then Ok(seq(n, _ => values[0]))
    else Err(ValueError)
  }

  /** `a[i, :] = strs` for a row of n cells. */
  function RowValues(strs: seq<string>, n: nat, parse: string -> Result<real>): (r: Result<seq<real>>)
    requires IsParser(parse)
    ensures r.Ok? ==> |r.value| == n
    ensures r.Err? ==> r.error == ValueError
  {
    var values :- ParseAll(strs, parse);
    Broadcast(values, n)
  }

  /** n copies of v: a scalar assigned to a whole row. */
  function Fill(n: nat, v: real): (r: seq<real>)
    ensures |r| == n && forall k :: 0 <= k < n ==> r[k] == v
  {
    seq(n, _ => v)
  }

  /** What one data row leaves in the arrays: the time and the five
      per-range rows, and whether a ValueError was reported. */
  datatype Row = Row(time: int, azimuth: seq<real>, elevation: seq<real>, radialWind: seq<real>,
                     dispersion: seq<real>, cnr: seq<real>, reported: bool)

  /** The outcome of each read of a row, in the order of the source: the
      time stamp (None when strptime rejects it), the azimuth and elevation
      columns (IndexError when the row is too short), and the three strided
      rows. */
  datatype RowParts = RowParts(time: Option<int>, azimuth: Result<real>, elevation: Result<real>,
                               radialWind: Result<seq<real>>, dispersion: Result<seq<real>>,
                               cnr: Result<seq<real>>)

  /** Each strided row that was read has n values. */
  predicate PartsFit(p: RowParts, n: nat) {
    (p.radialWind.Ok? ==> |p.radialWind.value| == n) &&
    (p.dispersion.Ok? ==> |p.dispersion.value| == n) &&
    (p.cnr.Ok? ==> |p.cnr.value| == n)
  }

  /** The reads of a line with n ranges. The time stamp is read by
      `toEpoch` (strptime, `_to_epoch` and the int64 store). */
  function Parts(line: string, toEpoch: string -> Option<int>, n: nat, parse: string -> Result<real>): (p: RowParts)
    requires IsParser(parse)
    ensures PartsFit(p, n)
    ensures p.azimuth.Err? ==> (p.azimuth.error == IndexError <==> |Split(line, "\t")| <= 6)
    ensures p.elevation.Err? ==> (p.elevation.error == IndexError <==> |Split(line, "\t")| <= 7)
    ensures p.radialWind.Err? ==> p.radialWind.error == ValueError
    ensures p.dispersion.Err? ==> p.dispersion.error == ValueError
    ensures p.cnr.Err? ==> p.cnr.error == ValueError
  {
    var col := Split(line, "\t");
    RowParts(
      toEpoch(col[0]),
      if |col| <= 6 then Err(IndexError) else parse(col[6]),
      if |col| <= 7 then Err(IndexError) else parse(col[7]),
      RowValues(Stride(col, 8), n, parse),
      RowValues(Stride(col, 9), n, parse),
      RowValues(Stride(col, 10), n, parse))
  }

  /** One pass of the row loop: a ValueError ends the row with what was
      assigned so far and is reported; a row too short for columns 6 or 7
      raises IndexError, which nothing catches. */
  function RowOf(p: RowParts, n: nat): (r: Result<Row>)
    requires PartsFit(p, n)
    ensures r.Err? ==> r.error == IndexError
    ensures r.Ok? ==> |r.value.azimuth| == |r.value.elevation| == |r.value.radialWind| == n
    ensures r.Ok? ==> |r.value.dispersion| == |r.value.cnr| == n
  {
    var z := Fill(n, 0.0);
    if p.time.None? then Ok(Row(0, z, z, z, z, z, true))
    else if p.azimuth == Err(IndexError) then Err(IndexError)
    else if p.azimuth.Err? then Ok(Row(p.time.value, z, z, z, z, z, true))
    else
      var az := Fill(n, p.azimuth.value);
      if p.elevation == Err(IndexError) then Err(IndexError)
      else if p.elevation.Err? then Ok(Row(p.time.value, az, z, z, z, z, true))
      else
        var el := Fill(n, p.elevation.value);
        if p.radialWind.Err? then Ok(Row(p.time.value, az, el, z, z, z, true))
        else if p.dispersion.Err? then Ok(Row(p.time.value, az, el, p.radialWind.value, z, z, true))
        else if p.cnr.Err? then Ok(Row(p.time.value, az, el, p.radialWind.value, p.dispersion.value, z, true))
        else Ok(Row(p.time.value, az, el, p.radialWind.value, p.dispersion.value, p.cnr.value, false))
  }

  /** A data row of n ranges as the converter reads it. */
  function ReadRow(line: string, toEpoch: string -> Option<int>, n: nat, parse: string -> Result<real>): Result<Row>
    requires IsParser(parse)
  {
    RowOf(Parts(line, toEpoch, n, parse), n)
  }

  /** The five per-range arrays of the converter are distinct, have `rows`
      rows and n columns. */
  predicate Grids(rows: nat, n: nat, az: array2<real>, el: array2<real>, rw: array2<real>,
                  dp: array2<real>, cn: array2<real>)
  {
    az.Length0 == el.Length0 == rw.Length0 == dp.Length0 == cn.Length0 == rows &&
    az.Length1 == el.Length1 == rw.Length1 == dp.Length1 == cn.Length1 == n &&
    az != el && az != rw && az != dp && az != cn && el != rw && el != dp && el != cn &&
    rw != dp && rw != cn && dp != cn
  }

  /** `a[i, :] = values`. */
  method SetRow(a: array2<real>, i: nat, values: seq<real>)
    requires i < a.Length0 && |values| == a.Length1
    modifies a
    ensures forall k :: 0 <= k < a.Length1 ==> a[i, k] == values[k]
    ensures forall r, k :: 0 <= r < a.Length0 && 0 <= k < a.Length1 && r != i ==> a[r, k] == old(a[r, k])
  {
    forall k | 0 <= k < a.Length1 {
      a[i, k] := values[k];
    }
  }

  /** The body of the row loop for row i: assigns the time, azimuth,
      elevation and the three strided rows in turn. A ValueError stops the
      row and is reported (true); an IndexError is returned as an error. */
  method FillRow(p: RowParts, n: nat, i: nat, time: array<int>,
                 az: array2<real>, el: array2<real>, rw: array2<real>, dp: array2<real>, cn: array2<real>)
    returns (r: Result<bool>)
    requires PartsFit(p, n)
    requires Grids(time.Length, n, az, el, rw, dp, cn) && i < time.Length
    requires time[i] == 0
    requires forall k :: 0 <= k < n ==> az[i, k] == el[i, k] == rw[i, k] == dp[i, k] == cn[i, k] == 0.0
    modifies time, az, el, rw, dp, cn
    ensures r.Err? <==> RowOf(p, n).Err?
    ensures r.Err? ==> r.error == IndexError
    ensures r.Ok? ==> var row := RowOf(p, n).value;
      r.value == row.reported && time[i] == row.time &&
      forall k :: 0 <= k < n ==>
        az[i, k] == row.azimuth[k] && el[i, k] == row.elevation[k] && rw[i, k] == row.radialWind[k] &&
        dp[i, k] == row.dispersion[k] && cn[i, k] == row.cnr[k]
    ensures forall j :: 0 <= j < time.Length && j != i ==> time[j] == old(time[j])
    ensures forall j, k :: 0 <= j < time.Length && 0 <= k < n && j != i ==>
      az[j, k] == old(az[j, k]) && el[j, k] == old(el[j, k]) && rw[j, k] == old(rw[j, k]) &&
      dp[j, k] == old(dp[j, k]) && cn[j, k] == old(cn[j, k])
  {
    if p.time.None? {
      return Ok(true);
    }
    time[i] := p.time.value;
    if p.azimuth == Err(IndexError) {
      return Err(IndexError);
    }
    if p.azimuth.Err? {
      return Ok(true);
    }
    SetRow(az, i, Fill(n, p.azimuth.value));
    if p.elevation == Err(IndexError) {
      return Err(IndexError);
    }
    if p.elevation.Err? {
      return Ok(true);
    }
    SetRow(el, i, Fill(n, p.elevation.value));
    if p.radialWind.Err? {
      return Ok(true);
    }
    SetRow(rw, i, p.radialWind.value);
    if p.dispersion.Err? {
      return Ok(true);
    }
    SetRow(dp, i, p.dispersion.value);
    if p.cnr.Err? {
      return Ok(true);
    }
    SetRow(cn, i, p.cnr.value);
    return Ok(false);
  }

  // ---------------------------------------------------------------------
  // Scan tag and file name
  // ---------------------------------------------------------------------

  /** The scan tag of an input file name; 'RHI' wins over 'PPI'. */
  function ScanTag(inFile: string): (tag: string)
    ensures tag == "_RHI" <==> Contains(inFile, "RHI")
    ensures tag == "_PPI" <==> !Contains(inFile, "RHI") && Contains(inFile, "PPI")
    ensures tag == "" <==> !Contains(inFile, "RHI") && !Contains(inFile, "PPI")
  {
    if Contains(inFile, "RHI") then "_RHI"
    else if Contains(inFile, "PPI") then "_PPI"
    else ""
  }

  /** `"{prefix}{scan}_{date}.nc"` joined onto the output directory. */
  function LosFileName(outDir: string, prefix: string, inFile: string, date: string): (r: string)
    ensures EndsWith(r, prefix + ScanTag(inFile) + "_" + date + ".nc")
  {
    PathJoin(outDir, prefix + ScanTag(inFile) + "_" + date + ".nc")
  }

  // ---------------------------------------------------------------------
  // process_file
  // ---------------------------------------------------------------------

  /** The output file: its name, attributes and variables. */
  datatype LosOutput = LosOutput(
    filename: string,
    attrs: Attrs,
    epochTime: seq<int>,
    range: seq<real>,
    azimuth: seq<seq<real>>,
    elevation: seq<seq<real>>,
    radialWind: seq<seq<real>>,
    dispersion: seq<seq<real>>,
    cnr: seq<seq<real>>)

  /** The names of the global attributes the converter writes. */
  const OUTPUT_ATTRIBUTES: set<string> :=
    {"lat", "lon", "direction_offset", "compass_heading", "pitch_angle", "roll_angle", "full_header"}

  /** The names of the variables the converter writes. */
  const OUTPUT_VARIABLES: set<string> :=
    {"epoch_time", "range", "azimuth", "elevation", "radial_wind", "dispersion", "cnr"}

  /** The reads of each line of a file with n ranges. */
  function LineParts(toEpoch: string -> Option<int>, n: nat, parse: string -> Result<real>): (parts: string -> RowParts)
    requires IsParser(parse)
    ensures forall line :: PartsFit(parts(line), n)
  {
    (line: string) => Parts(line, toEpoch, n, parse)
  }

  /** No data row is too short for its azimuth or elevation column. */
  predicate RowsRead(rows: seq<string>, parts: string -> RowParts, n: nat)
    requires forall line :: PartsFit(parts(line), n)
  {
    forall i :: 0 <= i < |rows| ==> RowOf(parts(rows[i]), n).Ok?
  }

  /** The data rows as read. */
  function ReadRows(rows: seq<string>, parts: string -> RowParts, n: nat): (rs: seq<Row>)
    requires forall line :: PartsFit(parts(line), n)
    requires RowsRead(rows, parts, n)
    ensures |rs| == |rows| && forall i :: 0 <= i < |rows| ==> rs[i] == RowOf(parts(rows[i]), n).value
  {
    seq(|rows|, i requires 0 <= i < |rows| => RowOf(parts(rows[i]), n).value)
  }

  /** The (time, range) variable of a field of the rows. */
  function Column(rs: seq<Row>, field: Row -> seq<real>): (grid: seq<seq<real>>)
    ensures |grid| == |rs| && forall i :: 0 <= i < |rs| ==> grid[i] == field(rs[i])
  {
    seq(|rs|, i requires 0 <= i < |rs| => field(rs[i]))
  }

  /** The header of the file: its size, the attributes and the ranges. */
  datatype Header = Header(size: int, attrs: Attrs, ranges: seq<real>)

  /** The header reads of `process_file`, in order. */
  function ReadHeader(data: seq<string>): Result<Header> {
    var headerSize :- HeaderSize(data);
    var attrs :- Attributes(data, headerSize);
    ParseRealIsParser();
    var ranges :- Ranges(data, ParseReal);
    Ok(Header(headerSize, attrs, ranges))
  }

  /** The output once the data rows are read. */
  function Output(header: Header, rs: seq<Row>, inFile: string, outDir: string, prefix: string,
                  date: int -> string): LosOutput
    requires |rs| > 0
  {
    LosOutput(
      LosFileName(outDir, prefix, inFile, date(rs[0].time)),
      header.attrs,
      seq(|rs|, i requires 0 <= i < |rs| => rs[i].time),
      header.ranges,
      Column(rs, (r: Row) => r.azimuth),
      Column(rs, (r: Row) => r.elevation),
      Column(rs, (r: Row) => r.radialWind),
      Column(rs, (r: Row) => r.dispersion),
      Column(rs, (r: Row) => r.cnr))
  }

  /** `process_file` on the lines of a line-of-sight file. `toEpoch` reads
      a row time stamp, `date` formats an epoch time as "%Y%m%d_%H%M%S". The
      file is named after the time of the first row; a file without data
      rows fails with IndexError on `time[0]`. */
  function ProcessFileSpec(data: seq<string>, inFile: string, outDir: string, prefix: string,
                           toEpoch: string -> Option<int>, date: int -> string): Result<LosOutput>
  {
    var header :- ReadHeader(data);
    var rows := Rows(data, header.size);
    var n := |header.ranges|;
    ParseRealIsParser();
    var parts := LineParts(toEpoch, n, ParseReal);
    if !RowsRead(rows, parts, n) || |rows| == 0 then Err(IndexError)
    else Ok(Output(header, ReadRows(rows, parts, n), inFile, outDir, prefix, date))
  }

  /** `a[:]` of a (time, range) array. */
  method Snapshot(a: array2<real>) returns (grid: seq<seq<real>>)
    ensures |grid| == a.Length0
    ensures forall i :: 0 <= i < a.Length0 ==> |grid[i]| == a.Length1 && forall k :: 0 <= k < a.Length1 ==> grid[i][k] == a[i, k]
  {
    grid := seq(a.Length0, i requires 0 <= i < a.Length0 reads a =>
      seq(a.Length1, k requires 0 <= k < a.Length1 reads a => a[i, k]));
  }

  /** Two grids with the same cells are equal. */
  lemma SameGrid(x: seq<seq<real>>, y: seq<seq<real>>)
    requires |x| == |y| && forall i :: 0 <= i < |x| ==> |x[i]| == |y[i]|
    requires forall i, k :: 0 <= i < |x| && 0 <= k < |x[i]| ==> x[i][k] == y[i][k]
    ensures x == y
  {
    forall i | 0 <= i < |x|
      ensures x[i] == y[i]
    {
    }
  }

  /** The row loop: allocates the zero-filled arrays and fills them row by
      row; a row raising IndexError ends the conversion. */
  method FillRows(rows: seq<string>, parts: string -> RowParts, n: nat)
    returns (r: Result<(array<int>, array2<real>, array2<real>, array2<real>, array2<real>, array2<real>)>)
    requires forall line :: PartsFit(parts(line), n)
    ensures r.Err? <==> !RowsRead(rows, parts, n)
    ensures r.Err? ==> r.error == IndexError
    ensures r.Ok? ==> var (time, az, el, rw, dp, cn) := r.value;
      time.Length == |rows| && Grids(|rows|, n, az, el, rw, dp, cn) &&
      forall i :: 0 <= i < |rows| ==> var row := RowOf(parts(rows[i]), n).value;
        time[i] == row.time &&
        forall k :: 0 <= k < n ==>
          az[i, k] == row.azimuth[k] && el[i, k] == row.elevation[k] && rw[i, k] == row.radialWind[k] &&
          dp[i, k] == row.dispersion[k] && cn[i, k] == row.cnr[k]
  {
    var time := new int[|rows|](_ => 0);
    var az := new real[|rows|, n]((_, _) => 0.0);
    var el := new real[|rows|, n]((_, _) => 0.0);
    var rw := new real[|rows|, n]((_, _) => 0.0);
    var dp := new real[|rows|, n]((_, _) => 0.0);
    var cn := new real[|rows|, n]((_, _) => 0.0);
    var i := 0;
    while i < |rows|
      invariant i <= |rows|
      invariant forall j :: 0 <= j < i ==> RowOf(parts(rows[j]), n).Ok?
      invariant forall j :: 0 <= j < |rows| ==> time[j] == if j < i then RowOf(parts(rows[j]), n).value.time else 0
      invariant forall j, k :: 0 <= j < |rows| && 0 <= k < n ==>
        if j < i then
          var row := RowOf(parts(rows[j]), n).value;
          az[j, k] == row.azimuth[k] && el[j, k] == row.elevation[k] && rw[j, k] == row.radialWind[k] &&
          dp[j, k] == row.dispersion[k] && cn[j, k] == row.cnr[k]
        else az[j, k] == el[j, k] == rw[j, k] == dp[j, k] == cn[j, k] == 0.0
    {
      var res := FillRow(parts(rows[i]), n, i, time, az, el, rw, dp, cn);
      if res.Err? {
        return Err(IndexError);
      }
      i := i + 1;
    }
    return Ok((time, az, el, rw, dp, cn));
  }

  /** `process_file`. */
  method ProcessFile(data: seq<string>, inFile: string, outDir: string, prefix: string,
                     toEpoch: string -> Option<int>, date: int -> string) returns (r: Result<LosOutput>)
    ensures r == ProcessFileSpec(data, inFile, outDir, prefix, toEpoch, date)
  {
    var header :- ReadHeader(data);
    var rows := Rows(data, header.size);
    var n := |header.ranges|;
    ParseRealIsParser();
    var parts := LineParts(toEpoch, n, ParseReal);
    var arrays :- FillRows(rows, parts, n);
    var (time, az, el, rw, dp, cn) := arrays;
    if time.Length == 0 {
      return Err(IndexError);
    }
    var out := Write(header, ReadRows(rows, parts, n), inFile, outDir, prefix, date, time, az, el, rw, dp, cn);
    return Ok(out);
  }

  /** The writing half of `process_file`: the arrays become the variables. */
  method Write(header: Header, ghost rs: seq<Row>, inFile: string, outDir: string, prefix: string,
               date: int -> string, time: array<int>,
               az: array2<real>, el: array2<real>, rw: array2<real>, dp: array2<real>, cn: array2<real>)
    returns (out: LosOutput)
    requires |rs| == time.Length > 0 && Grids(|rs|, |header.ranges|, az, el, rw, dp, cn)
    requires forall i :: 0 <= i < |rs| ==> |rs[i].azimuth| == |rs[i].elevation| == |rs[i].radialWind| == |header.ranges|
    requires forall i :: 0 <= i < |rs| ==> |rs[i].dispersion| == |rs[i].cnr| == |header.ranges|
    requires forall i :: 0 <= i < |rs| ==>
      time[i] == rs[i].time &&
      forall k :: 0 <= k < |header.ranges| ==>
        az[i, k] == rs[i].azimuth[k] && el[i, k] == rs[i].elevation[k] && rw[i, k] == rs[i].radialWind[k] &&
        dp[i, k] == rs[i].dispersion[k] && cn[i, k] == rs[i].cnr[k]
    ensures out == Output(header, rs, inFile, outDir, prefix, date)
  {
    var azimuth := Snapshot(az);
    var elevation := Snapshot(el);
    var radialWind := Snapshot(rw);
    var dispersion := Snapshot(dp);
    var cnr := Snapshot(cn);
    SameGrid(azimuth, Column(rs, (r: Row) => r.azimuth));
    SameGrid(elevation, Column(rs, (r: Row) => r.elevation));
    SameGrid(radialWind, Column(rs, (r: Row) => r.radialWind));
    SameGrid(dispersion, Column(rs, (r: Row) => r.dispersion));
    SameGrid(cnr, Column(rs, (r: Row) => r.cnr));
    assert time[..] == seq(|rs|, i requires 0 <= i < |rs| => rs[i].time);
    out := LosOutput(LosFileName(outDir, prefix, inFile, date(time[0])), header.attrs, time[..], header.ranges,
                     azimuth, elevation, radialWind, dispersion, cnr);
  }


  // ---------------------------------------------------------------------
  // Properties
  // ---------------------------------------------------------------------

  /** The header size is read back from a line "key=<n>\r\n". */
  lemma HeaderSizeOfLine(key: string, n: int, rest: seq<string>)
    requires forall i :: 0 <= i < |key| ==> key[i] != '='
    ensures HeaderSize([key + "=" + FormatInt(n) + "\r\n"] + rest) == Ok(n)
  {
    var b := FormatInt(n) + "\r\n";
    FormatIntChars(n);
    assert key + "=" + FormatInt(n) + "\r\n" == key + "=" + b;
    SplitFirst(key, "=", b);
    SplitNone(b, "=");
    ParseIntLineEnd(FormatInt(n), "\r\n");
    ParseFormatInt(n);
  }

  /** str() of each number. */
  function Formatted(values: seq<int>): (strs: seq<string>)
    ensures |strs| == |values| && forall i :: 0 <= i < |values| ==> strs[i] == FormatInt(values[i])
  {
    seq(|values|, i requires 0 <= i < |values| => FormatInt(values[i]))
  }

  /** A list whose every string parses is read element by element. */
  lemma ParseAllOk(xs: seq<string>, ys: seq<real>, parse: string -> Result<real>)
    requires |xs| == |ys| && forall i :: 0 <= i < |xs| ==> parse(xs[i]) == Ok(ys[i])
    ensures ParseAll(xs, parse) == Ok(ys)
  {
    var r := ParseAll(xs, parse);
    assert r.Ok?;
    assert r.value == ys;
  }

  /** float() reads back what str() writes for every int. */
  lemma ParseFormatted(values: seq<int>)
    ensures ParseAll(Formatted(values), ParseReal) == Ok(seq(|values|, i requires 0 <= i < |values| => values[i] as real))
  {
    var ys := seq(|values|, i requires 0 <= i < |values| => values[i] as real);
    forall i | 0 <= i < |values|
      ensures ParseReal(Formatted(values)[i]) == Ok(ys[i])
    {
      ParseFormatInt(values[i]);
      ParseRealExtendsParseInt(FormatInt(values[i]));
    }
    ParseAllOk(Formatted(values), ys, ParseReal);
  }

  /** The range fields of a range line "key=\t<r0>\t<r1>...\r\n" are the
      numerals between the tabs. */
  lemma RangeFieldsOfLine(line: string, key: string, values: seq<int>)
    requires |values| >= 1
    requires forall i :: 0 <= i < |key| ==> key[i] != '='
    requires line == key + "=\t" + Join(Formatted(values), "\t") + "\r\n"
    ensures RangeFields(line) == Ok(Formatted(values))
  {
    var f := Formatted(values);
    var m := |f|;
    var g := f[..m - 1] + [f[m - 1] + "\r\n"];
    assert Split(AfterEquals(line), "\t") == [""] + g by {
      forall k | 0 <= k < m
        ensures forall i :: 0 <= i < |f[k]| ==> f[k][i] != '=' && f[k][i] != '\t'
      {
        FormatIntChars(values[k]);
      }
      LineEndFree(f);
      JoinAppend(f, "\t", "\r\n");
      assert line == key + "=" + "\t" + Join(g, "\t");
      TabbedFields(key, g);
    }
    assert '\r' !in f[m - 1] by {
      FormatIntChars(values[m - 1]);
    }
    LineEndRemoved(line, f);
  }

  /** Fields whose last one ends in the line end are read without it. */
  lemma LineEndRemoved(line: string, f: seq<string>)
    requires |f| >= 1
    requires '\r' !in f[|f| - 1]
    requires Split(AfterEquals(line), "\t") == [""] + (f[..|f| - 1] + [f[|f| - 1] + "\r\n"])
    ensures RangeFields(line) == Ok(f)
  {
    var m := |f|;
    var g := f[..m - 1] + [f[m - 1] + "\r\n"];
    RemoveTrailing(f[m - 1], "\r\n");
    assert ([""] + g)[1..] == g;
    assert g[..m - 1] == f[..m - 1];
    assert f == f[..m - 1] + [f[m - 1]];
  }

  /** Numerals with the line end appended to the last hold no '=' or tab. */
  lemma LineEndFree(f: seq<string>)
    requires |f| >= 1
    requires forall k, i :: 0 <= k < |f| && 0 <= i < |f[k]| ==> f[k][i] != '=' && f[k][i] != '\t'
    ensures var g := f[..|f| - 1] + [f[|f| - 1] + "\r\n"];
      forall k, i :: 0 <= k < |g| && 0 <= i < |g[k]| ==> g[k][i] != '=' && g[k][i] != '\t'
  {
    var m := |f|;
    var g := f[..m - 1] + [f[m - 1] + "\r\n"];
    forall k, i | 0 <= k < m && 0 <= i < |g[k]|
      ensures g[k][i] != '=' && g[k][i] != '\t'
    {
      if k < m - 1 {
        assert g[k] == f[k];
      } else if i < |f[m - 1]| {
        assert g[k][i] == f[m - 1][i];
      } else {
        assert g[k][i] in "\r\n";
      }
    }
  }

  /** After the '=' of "key=\t<g0>\t<g1>...", the tab-separated fields are
      an empty one and then the g's. */
  lemma TabbedFields(key: string, g: seq<string>)
    requires |g| >= 1
    requires forall i :: 0 <= i < |key| ==> key[i] != '='
    requires forall k, i :: 0 <= k < |g| && 0 <= i < |g[k]| ==> g[k][i] != '=' && g[k][i] != '\t'
    ensures Split(AfterEquals(key + "=" + "\t" + Join(g, "\t")), "\t") == [""] + g
  {
    JoinFree(g, "\t", '=');
    var b := "\t" + Join(g, "\t");
    assert key + "=" + "\t" + Join(g, "\t") == key + "=" + b;
    SplitFirst(key, "=", b);
    SplitNone(b, "=");
    assert "" + "\t" + Join(g, "\t") == b;
    SplitFirst("", "\t", Join(g, "\t"));
    SplitJoin(g, "\t");
  }

  /** The range list is read back from its line (ranges written as whole
      numbers of metres). */
  lemma RangesOfLine(data: seq<string>, key: string, values: seq<int>)
    requires |data| >= 40 && |values| >= 1
    requires forall i :: 0 <= i < |key| ==> key[i] != '='
    requires data[39] == key + "=\t" + Join(Formatted(values), "\t") + "\r\n"
    requires IsParser(ParseReal)
    ensures Ranges(data, ParseReal) == Ok(seq(|values|, i requires 0 <= i < |values| => values[i] as real))
  {
    ParseRealIsParser();
    RangeFieldsOfLine(data[39], key, values);
    ParseFormatted(values);
  }

  /** In a complete row of n ranges (eight columns per range after the
      eight leading columns), range k's radial wind, dispersion and CNR come
      from columns 8 + 8k, 9 + 8k and 10 + 8k. */
  lemma StrideColumns(line: string, toEpoch: string -> Option<int>, n: nat, parse: string -> Result<real>)
    requires IsParser(parse)
    requires |Split(line, "\t")| == 8 * (n + 1)
    requires ReadRow(line, toEpoch, n, parse).Ok? && !ReadRow(line, toEpoch, n, parse).value.reported
    ensures var col := Split(line, "\t"); var row := ReadRow(line, toEpoch, n, parse).value;
      forall k :: 0 <= k < n ==>
        parse(col[8 + 8 * k]).Ok? && row.radialWind[k] == parse(col[8 + 8 * k]).value &&
        parse(col[9 + 8 * k]).Ok? && row.dispersion[k] == parse(col[9 + 8 * k]).value &&
        parse(col[10 + 8 * k]).Ok? && row.cnr[k] == parse(col[10 + 8 * k]).value
  {
    var col := Split(line, "\t");
    var p := Parts(line, toEpoch, n, parse);
    RowOfComplete(p, n);
    StrideValues(col, 8, n, parse);
    StrideValues(col, 9, n, parse);
    StrideValues(col, 10, n, parse);
  }

  /** A row that is not reported took every value from its parts. */
  lemma RowOfComplete(p: RowParts, n: nat)
    requires PartsFit(p, n) && RowOf(p, n).Ok? && !RowOf(p, n).value.reported
    ensures p.time.Some? && p.azimuth.Ok? && p.elevation.Ok?
    ensures p.radialWind.Ok? && p.dispersion.Ok? && p.cnr.Ok?
    ensures RowOf(p, n).value == Row(p.time.value, Fill(n, p.azimuth.value), Fill(n, p.elevation.value),
                                    p.radialWind.value, p.dispersion.value, p.cnr.value, false)
  {
  }

  /** The values of a full stride are the parsed strings themselves. */
  lemma StrideValues(col: seq<string>, start: nat, n: nat, parse: string -> Result<real>)
    requires IsParser(parse)
    requires |col| == 8 * (n + 1) && 8 <= start < 16
    requires RowValues(Stride(col, start), n, parse).Ok?
    ensures forall k :: 0 <= k < n ==>
      parse(col[start + 8 * k]).Ok? && RowValues(Stride(col, start), n, parse).value[k] == parse(col[start + 8 * k]).value
  {
    var st := Stride(col, start);
    assert |st| == n;
    var values := ParseAll(st, parse);
  }

  /** Azimuth and elevation are the same for every range of a row: the
      values of columns 6 and 7 once they were reached. */
  lemma AnglesPerRow(line: string, toEpoch: string -> Option<int>, n: nat, parse: string -> Result<real>)
    requires IsParser(parse)
    requires ReadRow(line, toEpoch, n, parse).Ok?
    ensures var col := Split(line, "\t"); var row := ReadRow(line, toEpoch, n, parse).value;
      (toEpoch(col[0]).Some? && |col| > 6 && parse(col[6]).Ok? ==>
         forall k :: 0 <= k < n ==> row.azimuth[k] == parse(col[6]).value) &&
      (toEpoch(col[0]).Some? && |col| > 7 && parse(col[6]).Ok? && parse(col[7]).Ok? ==>
         forall k :: 0 <= k < n ==> row.elevation[k] == parse(col[7]).value)
  {
  }

  /** A row whose time stamp strptime rejects is reported and left at zero;
      it does not stop the conversion. */
  lemma BadTimeRow(line: string, toEpoch: string -> Option<int>, n: nat, parse: string -> Result<real>)
    requires IsParser(parse)
    requires toEpoch(Split(line, "\t")[0]).None?
    ensures ReadRow(line, toEpoch, n, parse).Ok?
    ensures var row := ReadRow(line, toEpoch, n, parse).value;
      row.reported && row.time == 0 &&
      forall k :: 0 <= k < n ==>
        row.azimuth[k] == row.elevation[k] == row.radialWind[k] == row.dispersion[k] == row.cnr[k] == 0.0
  {
  }

  /** A row whose radial wind list does not parse or does not fit the
      ranges is reported and keeps its time and angles. */
  lemma BadWindRow(line: string, toEpoch: string -> Option<int>, n: nat, parse: string -> Result<real>)
    requires IsParser(parse)
    requires var col := Split(line, "\t");
      toEpoch(col[0]).Some? && |col| > 7 && parse(col[6]).Ok? && parse(col[7]).Ok? &&
      RowValues(Stride(col, 8), n, parse).Err?
    ensures ReadRow(line, toEpoch, n, parse).Ok?
    ensures var col := Split(line, "\t"); var row := ReadRow(line, toEpoch, n, parse).value;
      row.reported && row.time == toEpoch(col[0]).value &&
      forall k :: 0 <= k < n ==>
        row.azimuth[k] == parse(col[6]).value && row.elevation[k] == parse(col[7]).value &&
        row.radialWind[k] == row.dispersion[k] == row.cnr[k] == 0.0
  {
    var col := Split(line, "\t");
    var p := Parts(line, toEpoch, n, parse);
    assert p.time == toEpoch(col[0]) && p.azimuth == parse(col[6]) && p.elevation == parse(col[7]);
    assert p.radialWind.Err?;
    RowOfBadWind(p, n);
  }

  /** Parts whose radial wind failed give a reported row with the angles
      and zero values. */
  lemma RowOfBadWind(p: RowParts, n: nat)
    requires PartsFit(p, n)
    requires p.time.Some? && p.azimuth.Ok? && p.elevation.Ok? && p.radialWind.Err?
    ensures RowOf(p, n) == Ok(Row(p.time.value, Fill(n, p.azimuth.value), Fill(n, p.elevation.value),
                                  Fill(n, 0.0), Fill(n, 0.0), Fill(n, 0.0), true))
  {
  }

  /** A row too short for its azimuth column, with a readable time stamp,
      stops the conversion with IndexError. */
  lemma ShortRow(line: string, toEpoch: string -> Option<int>, n: nat, parse: string -> Result<real>)
    requires IsParser(parse)
    requires toEpoch(Split(line, "\t")[0]).Some? && |Split(line, "\t")| <= 6
    ensures ReadRow(line, toEpoch, n, parse) == Err(IndexError)
  {
  }

  /** The converted file has one time per data row after the header, and
      every variable has one row per time and one column per range. */
  lemma OutputShape(data: seq<string>, inFile: string, outDir: string, prefix: string,
                    toEpoch: string -> Option<int>, date: int -> string)
    requires ProcessFileSpec(data, inFile, outDir, prefix, toEpoch, date).Ok?
    ensures var out := ProcessFileSpec(data, inFile, outDir, prefix, toEpoch, date).value;
      var size := ReadHeader(data).value.size;
      (0 <= size ==> size + 1 < |data| && |out.epochTime| == |data| - size - 1) &&
      |out.epochTime| == |Rows(data, size)| > 0 &&
      |out.azimuth| == |out.elevation| == |out.radialWind| == |out.dispersion| == |out.cnr| == |out.epochTime| &&
      forall i :: 0 <= i < |out.epochTime| ==>
        |out.azimuth[i]| == |out.elevation[i]| == |out.radialWind[i]| == |out.range| &&
        |out.dispersion[i]| == |out.cnr[i]| == |out.range|
  {
    var header := ReadHeader(data).value;
    var n := |header.ranges|;
    ParseRealIsParser();
    var parts := LineParts(toEpoch, n, ParseReal);
    var rows := Rows(data, header.size);
    var rs := ReadRows(rows, parts, n);
    forall i | 0 <= i < |rs|
      ensures |rs[i].azimuth| == |rs[i].elevation| == |rs[i].radialWind| == |rs[i].dispersion| == |rs[i].cnr| == n
    {
      assert rs[i] == RowOf(parts(rows[i]), n).value;
    }
    OutputGrids(header, rs, inFile, outDir, prefix, date);
  }

  /** Every variable written has one row per data row, each as long as the
      range list. */
  lemma OutputGrids(header: Header, rs: seq<Row>, inFile: string, outDir: string, prefix: string,
                    date: int -> string)
    requires |rs| > 0
    requires forall i :: 0 <= i < |rs| ==>
      |rs[i].azimuth| == |rs[i].elevation| == |rs[i].radialWind| == |rs[i].dispersion| == |rs[i].cnr| == |header.ranges|
    ensures var out := Output(header, rs, inFile, outDir, prefix, date);
      |out.epochTime| == |rs| && out.range == header.ranges &&
      |out.azimuth| == |out.elevation| == |out.radialWind| == |out.dispersion| == |out.cnr| == |rs| &&
      forall i :: 0 <= i < |rs| ==>
        out.epochTime[i] == rs[i].time &&
        |out.azimuth[i]| == |out.elevation[i]| == |out.radialWind[i]| == |out.range| &&
        |out.dispersion[i]| == |out.cnr[i]| == |out.range|
  {
  }
}
