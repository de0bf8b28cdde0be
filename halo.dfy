/** The Halo Photonics Doppler lidar decoder of halo_dl_decode.py: the
    tab-separated header of an .hpl file becomes a key/value map, the ray
    and gate lines are found by index arithmetic and read into arrays, the
    scan type picks a product tag, and the output file name is built.

    Reading the file, strptime/strftime and the netCDF writing are outside
    the model: the lines arrive as strings and the start time as a
    `StartTime` record. */
module Halo {
  import opened Common
  import opened Text

  // ---------------------------------------------------------------------
  // Scan type lookup
  // ---------------------------------------------------------------------

  /** `lookup`: the product tag of each scan type the decoder knows. */
  const SCAN_TYPES: map<string, string> := map[
    "User file 4 - stepped" := "vad",
    "User file 3 - stepped" := "vad",
    "User file 2 - stepped" := "fp",
    "User file 1 - stepped" := "vad",
    "VAD - stepped" := "vad",
    "Stare - stepped" := "fp"]

  /** `lookup[scan]`: a known scan type gives its tag; any other string is a KeyError. */
  function ScanType(scan: string): (r: Result<string>)
    ensures r.Ok? <==> scan in SCAN_TYPES
    ensures r.Ok? ==> r.value in {"vad", "fp"}
    ensures r.Err? ==> r.error == KeyError(scan)
  {
    if scan in SCAN_TYPES then Ok(SCAN_TYPES[scan]) else Err(KeyError(scan))
  }

  /** Exactly the second user file and the stare scan are fixed-pointing ('fp');
      the four other known scan types are VADs. */
  lemma ScanTypeTags(scan: string)
    ensures ScanType(scan) == Ok("fp") <==> scan in {"User file 2 - stepped", "Stare - stepped"}
    ensures ScanType(scan) == Ok("vad") <==>
      scan in {"User file 1 - stepped", "User file 3 - stepped", "User file 4 - stepped", "VAD - stepped"}
  {
  }

  // ---------------------------------------------------------------------
  // decode_header
  // ---------------------------------------------------------------------

  /** One header line as `decode_header` reads it: the key is the first tab
      field with every ':' removed, the value the second tab field with every
      "\r\n" removed; further fields are ignored. A line without a tab has no
      second field: IndexError. */
  function HeaderEntry(line: string): (r: Result<(string, string)>)
    ensures r.Ok? <==> '\t' in line
    ensures r.Err? ==> r.error == IndexError
    ensures r.Ok? ==> ':' !in r.value.0
  {
    var fields := Split(line, "\t");
    SplitChar(line, '\t');
    CountCharIn(line, '\t');
    if |fields| < 2 then Err(IndexError)
    else
      ReplaceCharGone(fields[0], ':', "");
      Ok((Replace(fields[0], ":", ""), Replace(fields[1], "\r\n", "")))
  }

  /** A line "key:<TAB>value\r\n" decodes to (key, value) when neither
      holds a tab, the key no ':' and the value no '\r'. */
  lemma HeaderEntryOfLine(key: string, value: string)
    requires forall i :: 0 <= i < |key| ==> key[i] != '\t' && key[i] != ':'
    requires forall i :: 0 <= i < |value| ==> value[i] != '\t' && value[i] != '\r'
    ensures HeaderEntry(key + ":\t" + value + "\r\n") == Ok((key, value))
  {
    var colon := key + ":";
    KeyColon(key);
    RemoveTrailing(key, ":");
    RemoveTrailing(value, "\r\n");
    var tail := value + "\r\n";
    var line := key + ":\t" + value + "\r\n";
    assert line == colon + "\t" + tail;
    SplitFirst(colon, "\t", tail);
    assert forall i :: 0 <= i < |tail| ==> tail[i] != '\t';
    SplitNone(tail, "\t");
    assert line[|colon|] == '\t';
  }

  /** Fields after the value are ignored. */
  lemma HeaderEntryIgnoresExtra(key: string, value: string, extra: string)
    requires forall i :: 0 <= i < |key| ==> key[i] != '\t' && key[i] != ':'
    requires forall i :: 0 <= i < |value| ==> value[i] != '\t' && value[i] != '\r'
    ensures HeaderEntry(key + ":\t" + value + "\t" + extra) == Ok((key, value))
  {
    var colon := key + ":";
    KeyColon(key);
    RemoveTrailing(key, ":");
    ReplaceAbsentChar(value, "\r\n");
    var line := key + ":\t" + value + "\t" + extra;
    assert line == colon + "\t" + (value + "\t" + extra);
    SplitFirst(colon, "\t", value + "\t" + extra);
    SplitFirst(value, "\t", extra);
    assert line[|colon|] == '\t';
  }

  lemma KeyColon(key: string)
    requires forall i :: 0 <= i < |key| ==> key[i] != '\t'
    ensures forall i :: 0 <= i < |key + ":"| ==> (key + ":")[i] != '\t'
  {
  }

  /** A string without the pattern's first character is left by Replace. */
  lemma ReplaceAbsentChar(s: string, pat: string)
    requires |pat| > 0
    requires forall i :: 0 <= i < |s| ==> s[i] != pat[0]
    ensures Replace(s, pat, "") == s
  {
    ReplaceIsJoinSplit(s, pat, "");
    SplitNone(s, pat);
  }

  /** A character occurs in a string exactly when it is counted there. */
  lemma {:induction false} CountCharIn(s: string, c: char)
    ensures CountChar(s, c) > 0 <==> c in s
    decreases |s|
  {
    if |s| > 0 {
      CountCharIn(s[1..], c);
      assert s == [s[0]] + s[1..];
    }
  }

  /** The dictionary `decode_header` builds from a list of lines: each line's
      entry stored in turn, so a later line with a repeated key overwrites
      the earlier value; the first line without a tab raises IndexError. */
  function HeaderMap(header: seq<string>): Result<map<string, string>>
    decreases |header|
  {
    if |header| == 0 then Ok(map[])
    else
      var m :- HeaderMap(header[..|header| - 1]);
      var entry :- HeaderEntry(header[|header| - 1]);
      Ok(m[entry.0 := entry.1])
  }

  /** `decode_header`: fills a dictionary line by line. */
  method DecodeHeader(header: seq<string>) returns (r: Result<map<string, string>>)
    ensures r == HeaderMap(header)
  {
    var m: map<string, string> := map[];
    var i := 0;
    while i < |header|
      invariant 0 <= i <= |header|
      invariant HeaderMap(header[..i]) == Ok(m)
    {
      assert header[..i + 1][..i] == header[..i];
      var entry := HeaderEntry(header[i]);
      if entry.Err? {
        HeaderMapAfterFailure(header, i, |header|);
        assert header[..|header|] == header;
        return Err(IndexError);
      }
      m := m[entry.value.0 := entry.value.1];
      i := i + 1;
    }
    assert header[..i] == header;
    r := Ok(m);
  }

  /** Once a line without a tab is reached, the decoding fails with IndexError. */
  lemma {:induction false} HeaderMapAfterFailure(header: seq<string>, i: nat, count: nat)
    requires i < count <= |header|
    requires HeaderMap(header[..i]).Ok? && '\t' !in header[i]
    ensures HeaderMap(header[..count]) == Err(IndexError)
    decreases count
  {
    assert header[..count][..count - 1] == header[..count - 1];
    if count - 1 > i {
      HeaderMapAfterFailure(header, i, count - 1);
    } else {
      assert header[..count][count - 1] == header[i];
    }
  }

  /** Decoding fails exactly when some line has no tab, and then with IndexError. */
  lemma {:induction false} HeaderMapFails(header: seq<string>)
    ensures HeaderMap(header).Err? <==> exists i :: 0 <= i < |header| && '\t' !in header[i]
    ensures HeaderMap(header).Err? ==> HeaderMap(header).error == IndexError
    decreases |header|
  {
    if |header| > 0 {
      var init := header[..|header| - 1];
      HeaderMapFails(init);
      assert forall i :: 0 <= i < |init| ==> init[i] == header[i];
      if HeaderMap(init).Err? {
        var i :| 0 <= i < |init| && '\t' !in init[i];
        assert '\t' !in header[i];
      }
    }
  }

  /** No key holds a ':', there are at most as many keys as lines, and every
      line's key is present. */
  lemma {:induction false} HeaderMapKeys(header: seq<string>)
    requires HeaderMap(header).Ok?
    ensures forall i :: 0 <= i < |header| ==> '\t' in header[i]
    ensures forall key :: key in HeaderMap(header).value ==> ':' !in key
    ensures |HeaderMap(header).value| <= |header|
    ensures forall i :: 0 <= i < |header| ==> HeaderEntry(header[i]).value.0 in HeaderMap(header).value
    decreases |header|
  {
    if |header| > 0 {
      var init := header[..|header| - 1];
      HeaderMapKeys(init);
      assert forall i :: 0 <= i < |init| ==> init[i] == header[i];
    }
  }

  /** The value stored under a key is the one on the last line with that key. */
  lemma {:induction false} HeaderMapLastWins(header: seq<string>, j: nat)
    requires HeaderMap(header).Ok? && j < |header|
    requires forall i :: 0 <= i < |header| ==> '\t' in header[i]
    requires forall i :: j < i < |header| ==> HeaderEntry(header[i]).value.0 != HeaderEntry(header[j]).value.0
    ensures HeaderEntry(header[j]).value.0 in HeaderMap(header).value
    ensures HeaderMap(header).value[HeaderEntry(header[j]).value.0] == HeaderEntry(header[j]).value.1
    decreases |header|
  {
    HeaderMapKeys(header);
    if j < |header| - 1 {
      var init := header[..|header| - 1];
      assert forall i :: 0 <= i < |init| ==> init[i] == header[i];
      HeaderMapLastWins(init, j);
    }
  }

  // ---------------------------------------------------------------------
  // The line layout of the data section
  // ---------------------------------------------------------------------

  /** The data section starts after 17 header lines; each ray is one info
      line followed by one line per gate. Line k of ray `ray` (k = 0 the
      info line, k = g + 1 gate g). */
  function LineOf(ray: nat, k: nat, ngates: nat): nat {
    ray * (ngates + 1) + 17 + k
  }

  lemma {:induction false} MulStep(a: nat, b: nat, n: nat)
    requires a < b
    ensures a * n + n <= b * n
    decreases b
  {
    if b > a + 1 {
      MulStep(a, b - 1, n);
      assert (b - 1) * n + n == b * n;
    } else {
      assert (a + 1) * n == a * n + n;
    }
  }

  /** The lines are laid out in (ray, line) order: a ray's lines come
      before every later ray's, and within a ray the info line comes first
      and the gates follow in order. So no line is read twice. */
  lemma LayoutOrdered(r1: nat, k1: nat, r2: nat, k2: nat, ngates: nat)
    requires k1 <= ngates && k2 <= ngates
    requires r1 < r2 || (r1 == r2 && k1 < k2)
    ensures LineOf(r1, k1, ngates) < LineOf(r2, k2, ngates)
  {
    if r1 < r2 {
      MulStep(r1, r2, ngates + 1);
    }
  }

  lemma LayoutInjective(r1: nat, k1: nat, r2: nat, k2: nat, ngates: nat)
    requires k1 <= ngates && k2 <= ngates
    requires LineOf(r1, k1, ngates) == LineOf(r2, k2, ngates)
    ensures r1 == r2 && k1 == k2
  {
    if r1 < r2 || (r1 == r2 && k1 < k2) {
      LayoutOrdered(r1, k1, r2, k2, ngates);
    } else if r2 < r1 || (r1 == r2 && k2 < k1) {
      LayoutOrdered(r2, k2, r1, k1, ngates);
    }
  }

  /** Every line from 17 on belongs to exactly one (ray, line) slot. */
  lemma LayoutCovers(idx: nat, ngates: nat)
    requires idx >= 17
    ensures var ray, k := (idx - 17) / (ngates + 1), (idx - 17) % (ngates + 1);
      k <= ngates && LineOf(ray, k, ngates) == idx
  {
  }

  function InfoLine(ray: nat, ngates: nat): nat {
    LineOf(ray, 0, ngates)
  }

  function GateLine(ray: nat, gate: nat, ngates: nat): nat {
    LineOf(ray, gate + 1, ngates)
  }

  // ---------------------------------------------------------------------
  // Reading the rays
  // ---------------------------------------------------------------------

  /** `float(lines[idx].split()[j])`: a missing line or token is an
      IndexError, a token float() rejects a ValueError. */
  function Token(lines: seq<string>, idx: nat, j: nat): (r: Result<real>)
    ensures r.Err? ==> r.error == (if idx >= |lines| || j >= |Words(lines[idx])| then IndexError else ValueError)
  {
    if idx >= |lines| then Err(IndexError)
    else
      var words := Words(lines[idx]);
      if j >= |words| then Err(IndexError) else ParseReal(words[j])
  }

  /** The token reader of a file: `float(lines[idx].split()[j])`. */
  function Reader(lines: seq<string>): (nat, nat) -> Result<real> {
    (idx: nat, j: nat) => Token(lines, idx, j)
  }

  /** Token j of the info line of a ray: hour, azimuth, elevation, pitch, roll. */
  function InfoToken(read: (nat, nat) -> Result<real>, ngates: nat, ray: nat, j: nat): Result<real> {
    read(InfoLine(ray, ngates), j)
  }

  /** Token f of the line of gate g of a ray: 1 velocity, 2 intensity, 3 beta. */
  function GateToken(read: (nat, nat) -> Result<real>, ngates: nat, ray: nat, g: nat, f: nat): Result<real> {
    read(GateLine(ray, g, ngates), f)
  }

  /** The first k info reads of a ray succeed. */
  predicate InfoOk(read: (nat, nat) -> Result<real>, ngates: nat, ray: nat, k: nat) {
    forall j :: 0 <= j < k ==> InfoToken(read, ngates, ray, j).Ok?
  }

  /** The reads of tokens 1 .. k - 1 of gate g of a ray succeed. */
  predicate GateOk(read: (nat, nat) -> Result<real>, ngates: nat, ray: nat, g: nat, k: nat) {
    forall f :: 1 <= f < k ==> GateToken(read, ngates, ray, g, f).Ok?
  }

  /** All reads of gates 0 .. g - 1 of a ray succeed. */
  predicate GatesOk(read: (nat, nat) -> Result<real>, ngates: nat, ray: nat, g: nat) {
    forall h :: 0 <= h < g ==> GateOk(read, ngates, ray, h, 4)
  }

  predicate RayOk(read: (nat, nat) -> Result<real>, ngates: nat, ray: nat) {
    InfoOk(read, ngates, ray, 5) && GatesOk(read, ngates, ray, ngates)
  }

  /** Every read of rays 0 .. k - 1 succeeds. */
  predicate RaysOk(read: (nat, nat) -> Result<real>, ngates: nat, k: nat) {
    forall r :: 0 <= r < k ==> RayOk(read, ngates, r)
  }

  /** The error of the first failing read of a ray from gate g, token f on. */
  function GatesError(read: (nat, nat) -> Result<real>, ngates: nat, ray: nat, g: nat, f: nat): Option<Error>
    requires 1 <= f <= 4
    decreases ngates - g, 4 - f
  {
    if g >= ngates then None
    else if f == 4 then GatesError(read, ngates, ray, g + 1, 1)
    else if GateToken(read, ngates, ray, g, f).Err? then Some(GateToken(read, ngates, ray, g, f).error)
    else GatesError(read, ngates, ray, g, f + 1)
  }

  /** The error of the first failing read of a ray from info token j on. */
  function InfoError(read: (nat, nat) -> Result<real>, ngates: nat, ray: nat, j: nat): Option<Error>
    requires j <= 5
    decreases 5 - j
  {
    if j == 5 then GatesError(read, ngates, ray, 0, 1)
    else if InfoToken(read, ngates, ray, j).Err? then Some(InfoToken(read, ngates, ray, j).error)
    else InfoError(read, ngates, ray, j + 1)
  }

  /** The error of the first failing read of rays ray .. nrays - 1, in
      reading order, or None when all of them succeed. */
  function FillError(read: (nat, nat) -> Result<real>, ngates: nat, nrays: nat, ray: nat): Option<Error>
    decreases nrays - ray
  {
    if ray >= nrays then None
    else if InfoError(read, ngates, ray, 0).Some? then InfoError(read, ngates, ray, 0)
    else FillError(read, ngates, nrays, ray + 1)
  }

  /** What one cell of the info arrays of a ray holds once the ray has been
      read as far as it goes: the token when its read was reached and
      succeeded, otherwise the initial 0. */
  function LocalInfo(read: (nat, nat) -> Result<real>, ngates: nat, ray: nat, j: nat): real {
    if InfoOk(read, ngates, ray, j + 1) then InfoToken(read, ngates, ray, j).value else 0.0
  }

  function LocalGate(read: (nat, nat) -> Result<real>, ngates: nat, ray: nat, g: nat, f: nat): real {
    if 1 <= f && InfoOk(read, ngates, ray, 5) && GatesOk(read, ngates, ray, g) && GateOk(read, ngates, ray, g, f + 1)
    then GateToken(read, ngates, ray, g, f).value else 0.0
  }

  /** The final content of info cell j of a ray: rays after a failing one
      are never reached and keep 0. */
  function InfoCell(read: (nat, nat) -> Result<real>, ngates: nat, ray: nat, j: nat): real {
    if RaysOk(read, ngates, ray) then LocalInfo(read, ngates, ray, j) else 0.0
  }

  function GateCell(read: (nat, nat) -> Result<real>, ngates: nat, ray: nat, g: nat, f: nat): real {
    if RaysOk(read, ngates, ray) then LocalGate(read, ngates, ray, g, f) else 0.0
  }

  /** Reads info token j of a ray into its array, once tokens 0 .. j - 1
      have been read. */
  method ReadInfoToken(read: (nat, nat) -> Result<real>, ngates: nat, ray: nat, j: nat, a: array<real>)
    returns (err: Option<Error>)
    requires j < 5 && ray < a.Length && a[ray] == 0.0
    requires InfoOk(read, ngates, ray, j)
    modifies a
    ensures err.None? <==> InfoOk(read, ngates, ray, j + 1)
    ensures err.Some? ==> err == InfoError(read, ngates, ray, j)
    ensures err.None? ==> InfoError(read, ngates, ray, j) == InfoError(read, ngates, ray, j + 1)
    ensures a[ray] == LocalInfo(read, ngates, ray, j)
    ensures forall r :: 0 <= r < a.Length && r != ray ==> a[r] == old(a[r])
  {
    var t := InfoToken(read, ngates, ray, j);
    if t.Err? { return Some(t.error); }
    a[ray] := t.value;
    return None;
  }

  /** Once a read has failed, no later info cell of the ray is written. */
  lemma InfoUnreached(read: (nat, nat) -> Result<real>, ngates: nat, ray: nat, j: nat, k: nat)
    requires j <= k && !InfoOk(read, ngates, ray, j + 1)
    ensures LocalInfo(read, ngates, ray, k) == 0.0
  {
  }

  /** Reads the info line of one ray into the five info arrays, stopping at
      the first failing read. */
  method ReadInfo(read: (nat, nat) -> Result<real>, ngates: nat, ray: nat,
                  hour: array<real>, az: array<real>, elev: array<real>, pitch: array<real>, roll: array<real>)
    returns (err: Option<Error>)
    requires ray < hour.Length == az.Length == elev.Length == pitch.Length == roll.Length
    requires hour != az && hour != elev && hour != pitch && hour != roll && az != elev
    requires az != pitch && az != roll && elev != pitch && elev != roll && pitch != roll
    requires hour[ray] == az[ray] == elev[ray] == pitch[ray] == roll[ray] == 0.0
    modifies hour, az, elev, pitch, roll
    ensures err.None? <==> InfoOk(read, ngates, ray, 5)
    ensures err.Some? ==> err == InfoError(read, ngates, ray, 0)
    ensures err.None? ==> InfoError(read, ngates, ray, 0) == InfoError(read, ngates, ray, 5)
    ensures hour[ray] == LocalInfo(read, ngates, ray, 0) && az[ray] == LocalInfo(read, ngates, ray, 1)
    ensures elev[ray] == LocalInfo(read, ngates, ray, 2) && pitch[ray] == LocalInfo(read, ngates, ray, 3)
    ensures roll[ray] == LocalInfo(read, ngates, ray, 4)
    ensures forall r :: 0 <= r < hour.Length && r != ray ==>
      hour[r] == old(hour[r]) && az[r] == old(az[r]) && elev[r] == old(elev[r]) &&
      pitch[r] == old(pitch[r]) && roll[r] == old(roll[r])
  {
    err := ReadInfoToken(read, ngates, ray, 0, hour);
    if err.Some? {
      InfoUnreached(read, ngates, ray, 0, 1);
      InfoUnreached(read, ngates, ray, 0, 2);
      InfoUnreached(read, ngates, ray, 0, 3);
      InfoUnreached(read, ngates, ray, 0, 4);
      return;
    }
    err := ReadInfoToken(read, ngates, ray, 1, az);
    if err.Some? {
      InfoUnreached(read, ngates, ray, 1, 2);
      InfoUnreached(read, ngates, ray, 1, 3);
      InfoUnreached(read, ngates, ray, 1, 4);
      return;
    }
    err := ReadInfoToken(read, ngates, ray, 2, elev);
    if err.Some? {
      InfoUnreached(read, ngates, ray, 2, 3);
      InfoUnreached(read, ngates, ray, 2, 4);
      return;
    }
    err := ReadInfoToken(read, ngates, ray, 3, pitch);
    if err.Some? {
      InfoUnreached(read, ngates, ray, 3, 4);
      return;
    }
    err := ReadInfoToken(read, ngates, ray, 4, roll);
  }

  /** Reads token f of gate g of a ray into its grid, once the earlier reads
      of the ray have succeeded. */
  method ReadGateToken(read: (nat, nat) -> Result<real>, ngates: nat, ray: nat, g: nat, f: nat, a: array2<real>)
    returns (err: Option<Error>)
    requires 1 <= f <= 3 && g < ngates && g < a.Length0 && ray < a.Length1 && a[g, ray] == 0.0
    requires InfoOk(read, ngates, ray, 5) && GatesOk(read, ngates, ray, g) && GateOk(read, ngates, ray, g, f)
    modifies a
    ensures err.None? <==> GateOk(read, ngates, ray, g, f + 1)
    ensures err.Some? ==> err == GatesError(read, ngates, ray, g, f)
    ensures err.None? ==> GatesError(read, ngates, ray, g, f) == GatesError(read, ngates, ray, g, f + 1)
    ensures a[g, ray] == LocalGate(read, ngates, ray, g, f)
    ensures forall h, r :: 0 <= h < a.Length0 && 0 <= r < a.Length1 && (h != g || r != ray) ==> a[h, r] == old(a[h, r])
  {
    var t := GateToken(read, ngates, ray, g, f);
    if t.Err? {
      assert !GateOk(read, ngates, ray, g, f + 1);
      return Some(t.error);
    }
    assert GateOk(read, ngates, ray, g, f + 1);
    a[g, ray] := t.value;
    return None;
  }

  /** Once a gate read has failed, no later cell of that gate is written. */
  lemma GateUnreached(read: (nat, nat) -> Result<real>, ngates: nat, ray: nat, g: nat, f: nat, k: nat)
    requires f <= k && !GateOk(read, ngates, ray, g, f + 1)
    ensures LocalGate(read, ngates, ray, g, k) == 0.0
  {
  }

  /** Reads the velocity, intensity and backscatter of gate g of a ray. */
  method ReadGate(read: (nat, nat) -> Result<real>, ngates: nat, ray: nat, g: nat,
                  vel: array2<real>, intensity: array2<real>, beta: array2<real>)
    returns (err: Option<Error>)
    requires g < ngates == vel.Length0 == intensity.Length0 == beta.Length0
    requires ray < vel.Length1 == intensity.Length1 == beta.Length1
    requires vel != intensity && vel != beta && intensity != beta
    requires vel[g, ray] == intensity[g, ray] == beta[g, ray] == 0.0
    requires InfoOk(read, ngates, ray, 5) && GatesOk(read, ngates, ray, g)
    modifies vel, intensity, beta
    ensures err.None? <==> GatesOk(read, ngates, ray, g + 1)
    ensures err.Some? ==> err == GatesError(read, ngates, ray, g, 1)
    ensures err.None? ==> GatesError(read, ngates, ray, g, 1) == GatesError(read, ngates, ray, g + 1, 1)
    ensures vel[g, ray] == LocalGate(read, ngates, ray, g, 1)
    ensures intensity[g, ray] == LocalGate(read, ngates, ray, g, 2)
    ensures beta[g, ray] == LocalGate(read, ngates, ray, g, 3)
    ensures forall h, r :: 0 <= h < vel.Length0 && 0 <= r < vel.Length1 && (h != g || r != ray) ==>
      vel[h, r] == old(vel[h, r]) && intensity[h, r] == old(intensity[h, r]) && beta[h, r] == old(beta[h, r])
  {
    err := ReadGateToken(read, ngates, ray, g, 1, vel);
    if err.Some? {
      GateUnreached(read, ngates, ray, g, 1, 2);
      GateUnreached(read, ngates, ray, g, 1, 3);
      return;
    }
    err := ReadGateToken(read, ngates, ray, g, 2, intensity);
    if err.Some? {
      GateUnreached(read, ngates, ray, g, 2, 3);
      return;
    }
    err := ReadGateToken(read, ngates, ray, g, 3, beta);
    if err.None? {
      assert GatesError(read, ngates, ray, g, 4) == GatesError(read, ngates, ray, g + 1, 1);
    }
  }

  /** Once gate g has failed, no later gate of the ray is reached. */
  lemma GatesUnreached(read: (nat, nat) -> Result<real>, ngates: nat, ray: nat, g: nat, h: nat, f: nat)
    requires g < h && !GatesOk(read, ngates, ray, g + 1)
    ensures LocalGate(read, ngates, ray, h, f) == 0.0
  {
    assert !GatesOk(read, ngates, ray, h);
  }

  /** The gate loop of one ray. */
  method ReadGates(read: (nat, nat) -> Result<real>, ngates: nat, ray: nat,
                   vel: array2<real>, intensity: array2<real>, beta: array2<real>)
    returns (err: Option<Error>)
    requires ngates == vel.Length0 == intensity.Length0 == beta.Length0
    requires ray < vel.Length1 == intensity.Length1 == beta.Length1
    requires vel != intensity && vel != beta && intensity != beta
    requires forall h :: 0 <= h < ngates ==> vel[h, ray] == intensity[h, ray] == beta[h, ray] == 0.0
    requires InfoOk(read, ngates, ray, 5)
    modifies vel, intensity, beta
    ensures err.None? <==> GatesOk(read, ngates, ray, ngates)
    ensures err == GatesError(read, ngates, ray, 0, 1)
    ensures forall h :: 0 <= h < ngates ==>
      vel[h, ray] == LocalGate(read, ngates, ray, h, 1) &&
      intensity[h, ray] == LocalGate(read, ngates, ray, h, 2) &&
      beta[h, ray] == LocalGate(read, ngates, ray, h, 3)
    ensures forall h, r :: 0 <= h < ngates && 0 <= r < vel.Length1 && r != ray ==>
      vel[h, r] == old(vel[h, r]) && intensity[h, r] == old(intensity[h, r]) && beta[h, r] == old(beta[h, r])
  {
    var g := 0;
    while g < ngates
      invariant g <= ngates
      invariant GatesOk(read, ngates, ray, g)
      invariant GatesError(read, ngates, ray, 0, 1) == GatesError(read, ngates, ray, g, 1)
      invariant forall h :: 0 <= h < ngates ==>
        vel[h, ray] == (if h < g then LocalGate(read, ngates, ray, h, 1) else 0.0) &&
        intensity[h, ray] == (if h < g then LocalGate(read, ngates, ray, h, 2) else 0.0) &&
        beta[h, ray] == (if h < g then LocalGate(read, ngates, ray, h, 3) else 0.0)
      invariant forall h, r :: 0 <= h < ngates && 0 <= r < vel.Length1 && r != ray ==>
        vel[h, r] == old(vel[h, r]) && intensity[h, r] == old(intensity[h, r]) && beta[h, r] == old(beta[h, r])
    {
      err := ReadGate(read, ngates, ray, g, vel, intensity, beta);
      if err.Some? {
        forall h, f | g < h < ngates
          ensures LocalGate(read, ngates, ray, h, f) == 0.0
        {
          GatesUnreached(read, ngates, ray, g, h, f);
        }
        assert !GatesOk(read, ngates, ray, ngates) by {
          assert !GateOk(read, ngates, ray, g, 4);
        }
        return;
      }
      g := g + 1;
    }
    assert GatesError(read, ngates, ray, g, 1) == None;
    return None;
  }

  /** One more ray read: the rays so far stay readable exactly when it is,
      and a failing ray leaves every later ray unreached. */
  lemma RaysOkNext(read: (nat, nat) -> Result<real>, ngates: nat, ray: nat)
    requires RaysOk(read, ngates, ray)
    ensures RaysOk(read, ngates, ray + 1) <==> RayOk(read, ngates, ray)
    ensures forall j :: InfoCell(read, ngates, ray, j) == LocalInfo(read, ngates, ray, j)
    ensures forall g, f :: GateCell(read, ngates, ray, g, f) == LocalGate(read, ngates, ray, g, f)
    ensures !RayOk(read, ngates, ray) ==>
      forall r, j :: ray < r ==> InfoCell(read, ngates, r, j) == 0.0
    ensures !RayOk(read, ngates, ray) ==>
      forall r, g, f :: ray < r ==> GateCell(read, ngates, r, g, f) == 0.0
  {
    if !RayOk(read, ngates, ray) {
      forall r | ray < r ensures !RaysOk(read, ngates, r) {
        assert !RayOk(read, ngates, ray);
      }
    }
  }

  /** Reads one ray: its info line, then its gates. */
  method ReadRay(read: (nat, nat) -> Result<real>, ngates: nat, ray: nat,
                 hour: array<real>, az: array<real>, elev: array<real>, pitch: array<real>, roll: array<real>,
                 vel: array2<real>, intensity: array2<real>, beta: array2<real>)
    returns (err: Option<Error>)
    requires ray < hour.Length == az.Length == elev.Length == pitch.Length == roll.Length
    requires hour != az && hour != elev && hour != pitch && hour != roll && az != elev
    requires az != pitch && az != roll && elev != pitch && elev != roll && pitch != roll
    requires ngates == vel.Length0 == intensity.Length0 == beta.Length0
    requires hour.Length == vel.Length1 == intensity.Length1 == beta.Length1
    requires vel != intensity && vel != beta && intensity != beta
    requires hour[ray] == az[ray] == elev[ray] == pitch[ray] == roll[ray] == 0.0
    requires forall h :: 0 <= h < ngates ==> vel[h, ray] == intensity[h, ray] == beta[h, ray] == 0.0
    modifies hour, az, elev, pitch, roll, vel, intensity, beta
    ensures err.None? <==> RayOk(read, ngates, ray)
    ensures err == InfoError(read, ngates, ray, 0)
    ensures hour[ray] == LocalInfo(read, ngates, ray, 0) && az[ray] == LocalInfo(read, ngates, ray, 1)
    ensures elev[ray] == LocalInfo(read, ngates, ray, 2) && pitch[ray] == LocalInfo(read, ngates, ray, 3)
    ensures roll[ray] == LocalInfo(read, ngates, ray, 4)
    ensures forall h :: 0 <= h < ngates ==>
      vel[h, ray] == LocalGate(read, ngates, ray, h, 1) &&
      intensity[h, ray] == LocalGate(read, ngates, ray, h, 2) &&
      beta[h, ray] == LocalGate(read, ngates, ray, h, 3)
    ensures forall r :: 0 <= r < hour.Length && r != ray ==>
      hour[r] == old(hour[r]) && az[r] == old(az[r]) && elev[r] == old(elev[r]) &&
      pitch[r] == old(pitch[r]) && roll[r] == old(roll[r])
    ensures forall h, r :: 0 <= h < ngates && 0 <= r < vel.Length1 && r != ray ==>
      vel[h, r] == old(vel[h, r]) && intensity[h, r] == old(intensity[h, r]) && beta[h, r] == old(beta[h, r])
  {
    err := ReadInfo(read, ngates, ray, hour, az, elev, pitch, roll);
    if err.Some? {
      return;
    }
    err := ReadGates(read, ngates, ray, vel, intensity, beta);
  }

  /** The ray loop of `process_file`: zero-filled arrays of `nrays` rays
      and `ngates` gates, filled ray by ray until the first failing read,
      whose error is returned. Cells the loop did not reach keep 0. */
  method ReadRays(read: (nat, nat) -> Result<real>, ngates: nat, nrays: nat)
    returns (err: Option<Error>,
             hour: array<real>, az: array<real>, elev: array<real>, pitch: array<real>, roll: array<real>,
             vel: array2<real>, intensity: array2<real>, beta: array2<real>)
    ensures err == FillError(read, ngates, nrays, 0)
    ensures err.None? <==> RaysOk(read, ngates, nrays)
    ensures hour.Length == az.Length == elev.Length == pitch.Length == roll.Length == nrays
    ensures vel.Length0 == intensity.Length0 == beta.Length0 == ngates
    ensures vel.Length1 == intensity.Length1 == beta.Length1 == nrays
    ensures forall r :: 0 <= r < nrays ==>
      hour[r] == InfoCell(read, ngates, r, 0) && az[r] == InfoCell(read, ngates, r, 1) &&
      elev[r] == InfoCell(read, ngates, r, 2) && pitch[r] == InfoCell(read, ngates, r, 3) &&
      roll[r] == InfoCell(read, ngates, r, 4)
    ensures forall g, r :: 0 <= g < ngates && 0 <= r < nrays ==>
      vel[g, r] == GateCell(read, ngates, r, g, 1) && intensity[g, r] == GateCell(read, ngates, r, g, 2) &&
      beta[g, r] == GateCell(read, ngates, r, g, 3)
  {
    hour := new real[nrays](_ => 0.0);
    az := new real[nrays](_ => 0.0);
    elev := new real[nrays](_ => 0.0);
    pitch := new real[nrays](_ => 0.0);
    roll := new real[nrays](_ => 0.0);
    vel := new real[ngates, nrays]((_, _) => 0.0);
    intensity := new real[ngates, nrays]((_, _) => 0.0);
    beta := new real[ngates, nrays]((_, _) => 0.0);
    var ray := 0;
    while ray < nrays
      invariant ray <= nrays
      invariant RaysOk(read, ngates, ray)
      invariant FillError(read, ngates, nrays, 0) == FillError(read, ngates, nrays, ray)
      invariant forall r :: 0 <= r < nrays ==>
        hour[r] == (if r < ray then InfoCell(read, ngates, r, 0) else 0.0) &&
        az[r] == (if r < ray then InfoCell(read, ngates, r, 1) else 0.0) &&
        elev[r] == (if r < ray then InfoCell(read, ngates, r, 2) else 0.0) &&
        pitch[r] == (if r < ray then InfoCell(read, ngates, r, 3) else 0.0) &&
        roll[r] == (if r < ray then InfoCell(read, ngates, r, 4) else 0.0)
      invariant forall g, r :: 0 <= g < ngates && 0 <= r < nrays ==>
        vel[g, r] == (if r < ray then GateCell(read, ngates, r, g, 1) else 0.0) &&
        intensity[g, r] == (if r < ray then GateCell(read, ngates, r, g, 2) else 0.0) &&
        beta[g, r] == (if r < ray then GateCell(read, ngates, r, g, 3) else 0.0)
    {
      err := ReadRay(read, ngates, ray, hour, az, elev, pitch, roll, vel, intensity, beta);
      RaysOkNext(read, ngates, ray);
      if err.Some? {
        return;
      }
      ray := ray + 1;
    }
    return None, hour, az, elev, pitch, roll, vel, intensity, beta;
  }

  // ---------------------------------------------------------------------
  // Range gates
  // ---------------------------------------------------------------------

  /** `rng`: the centre of each range gate, `(gate + 0.5) * gate_length`. */
  function GateCentres(ngates: int, gateLength: real): (rng: seq<real>)
    ensures |rng| == if ngates < 0 then 0 else ngates
    ensures forall g :: 0 <= g < |rng| ==> rng[g] == (g as real + 0.5) * gateLength
  {
    if ngates <= 0 then [] else
    seq(ngates, g requires 0 <= g < ngates => (g as real + 0.5) * gateLength)
  }

  /** Gate centres are one gate length apart and the first lies half a gate out. */
  lemma GateCentresSpacing(ngates: int, gateLength: real)
    ensures forall g :: 0 <= g < |GateCentres(ngates, gateLength)| - 1 ==>
      GateCentres(ngates, gateLength)[g + 1] - GateCentres(ngates, gateLength)[g] == gateLength
    ensures |GateCentres(ngates, gateLength)| > 0 ==> GateCentres(ngates, gateLength)[0] == gateLength / 2.0
  {
  }

  // ---------------------------------------------------------------------
  // File name
  // ---------------------------------------------------------------------

  /** The start time as the decoder uses it: seconds since 1970 of the
      start and of midnight of its day, and the start formatted as
      "%Y%m%d_%H%M". */
  datatype StartTime = StartTime(epoch: real, midnight: real, stamp: string)

  /** The output file name: "<tag>_<stamp>.nc", or "<prefix>_<tag>_<stamp>.nc"
      with a prefix, joined onto the output directory. */
  function FileName(outDir: string, prefix: Option<string>, tag: string, start: StartTime): (r: string)
    ensures EndsWith(r, tag + "_" + start.stamp + ".nc")
    ensures prefix.Some? ==> EndsWith(r, prefix.value + "_" + tag + "_" + start.stamp + ".nc")
    ensures EndsWith(r, ".nc")
  {
    var tail := tag + "_" + start.stamp + ".nc";
    var name := if prefix.Some? then prefix.value + "_" + tail else tail;
    var r := PathJoin(outDir, name);
    assert prefix.Some? ==> name == prefix.value + "_" + tag + "_" + start.stamp + ".nc";
    EndsWithAppend(if prefix.Some? then prefix.value + "_" else "", tail);
    assert name == (if prefix.Some? then prefix.value + "_" else "") + tail;
    EndsWithTrans(r, name, tail);
    EndsWithAppend(tag + "_" + start.stamp, ".nc");
    EndsWithTrans(r, tail, ".nc");
    r
  }

  // ---------------------------------------------------------------------
  // process_file
  // ---------------------------------------------------------------------

  /** A float stored into an 'i8' netCDF variable: truncated toward zero. */
  function Trunc(x: real): (r: int)
    ensures r as real <= x < r as real + 1.0 || r as real - 1.0 < x <= r as real
    ensures x >= 0.0 ==> 0 <= r && r as real <= x
    ensures x <= 0.0 ==> r <= 0 && x <= r as real
  {
    if x >= 0.0 then x.Floor else -((-x).Floor)
  }

  /** `header[key]`. */
  function Lookup(header: map<string, string>, key: string): (r: Result<string>)
    ensures r.Ok? <==> key in header
    ensures r.Ok? ==> r.value == header[key]
    ensures r.Err? ==> r.error == KeyError(key)
  {
    if key in header then Ok(header[key]) else Err(KeyError(key))
  }

  /** What the converted netCDF file holds, by dimension: `time` is the ray,
      `range` the gate. */
  datatype HaloOutput = HaloOutput(
    filename: string,
    baseTime: int,
    timeOffset: seq<int>,
    hour: seq<real>,
    range: seq<real>,
    azimuth: seq<real>,
    elevation: seq<real>,
    pitch: seq<real>,
    roll: seq<real>,
    velocity: seq<seq<real>>,
    intensity: seq<seq<real>>,
    backscatter: seq<seq<real>>)

  /** Seconds since 1970 of hour h of the start day. */
  function RayEpoch(start: StartTime, h: real): real {
    start.midnight + 3600.0 * h
  }

  /** The (time, range) grid of field f after the transpose. */
  function Grid(read: (nat, nat) -> Result<real>, ngates: nat, nrays: nat, f: nat, scale: real): (grid: seq<seq<real>>)
    ensures |grid| == nrays && forall t :: 0 <= t < nrays ==> |grid[t]| == ngates
    ensures forall t, g :: 0 <= t < nrays && 0 <= g < ngates ==> grid[t][g] == GateCell(read, ngates, t, g, f) * scale
  {
    seq(nrays, t requires 0 <= t < nrays => seq(ngates, g requires 0 <= g < ngates => GateCell(read, ngates, t, g, f) * scale))
  }

  /** A grid with the cells of `Grid` is `Grid`. */
  lemma GridCells(grid: seq<seq<real>>, read: (nat, nat) -> Result<real>, ngates: nat, nrays: nat, f: nat, scale: real)
    requires |grid| == nrays && forall t :: 0 <= t < nrays ==> |grid[t]| == ngates
    requires forall t, g :: 0 <= t < nrays && 0 <= g < ngates ==> grid[t][g] == GateCell(read, ngates, t, g, f) * scale
    ensures grid == Grid(read, ngates, nrays, f, scale)
  {
    forall t | 0 <= t < nrays
      ensures grid[t] == Grid(read, ngates, nrays, f, scale)[t]
    {
    }
  }

  /** The info array j (0 hour, 1 azimuth, 2 elevation, 3 pitch, 4 roll). */
  function InfoColumn(read: (nat, nat) -> Result<real>, ngates: nat, nrays: nat, j: nat): (col: seq<real>)
    ensures |col| == nrays && forall r :: 0 <= r < nrays ==> col[r] == InfoCell(read, ngates, r, j)
  {
    seq(nrays, r requires 0 <= r < nrays => InfoCell(read, ngates, r, j))
  }

  /** `base_time - epoch` stored as 'i8'. */
  function TimeOffsets(start: StartTime, hours: seq<real>): (offsets: seq<int>)
    ensures |offsets| == |hours|
    ensures forall r :: 0 <= r < |hours| ==> offsets[r] == Trunc(start.epoch - RayEpoch(start, hours[r]))
  {
    seq(|hours|, r requires 0 <= r < |hours| => Trunc(start.epoch - RayEpoch(start, hours[r])))
  }

  /** `rng / 1e3`: the gate centres in km. */
  function RangeKm(ngates: nat, gateLength: real): (km: seq<real>)
    ensures |km| == ngates && forall g :: 0 <= g < ngates ==> km[g] == (g as real + 0.5) * gateLength / 1000.0
  {
    var rng := GateCentres(ngates, gateLength);
    seq(ngates, g requires 0 <= g < ngates => rng[g] / 1000.0)
  }

  /** The output built from the decoded arrays. */
  function Output(read: (nat, nat) -> Result<real>, ngates: nat, nrays: nat, gateLength: real,
                  start: StartTime, filename: string): HaloOutput
  {
    HaloOutput(
      filename,
      Trunc(start.epoch),
      TimeOffsets(start, InfoColumn(read, ngates, nrays, 0)),
      InfoColumn(read, ngates, nrays, 0),
      RangeKm(ngates, gateLength),
      InfoColumn(read, ngates, nrays, 1),
      InfoColumn(read, ngates, nrays, 2),
      InfoColumn(read, ngates, nrays, 3),
      InfoColumn(read, ngates, nrays, 4),
      Grid(read, ngates, nrays, 1, 1.0),
      Grid(read, ngates, nrays, 2, 1.0),
      Grid(read, ngates, nrays, 3, 1000.0))
  }

  /** The header fields `process_file` needs, in the order it reads them. */
  datatype Settings = Settings(nrays: int, ngates: int, gateLength: real, start: StartTime, tag: string)

  /** The header lines are the first 11 lines of the file (fewer if the
      file is shorter). */
  function HeaderLines(lines: seq<string>): (h: seq<string>)
    ensures |h| == if |lines| < 11 then |lines| else 11
    ensures h == lines[..|h|]
  {
    if |lines| < 11 then lines else lines[..11]
  }

  /** The header fields of the decoded header, each read in turn: a missing key is a KeyError, an
      unreadable number or start time a ValueError, an unknown scan type a
      KeyError. `strptime` parses the "Start time" field. */
  function ReadSettings(header: map<string, string>, strptime: string -> Option<StartTime>): Result<Settings> {
    var raysText :- Lookup(header, "No. of rays in file");
    var nrays :- ParseInt(raysText);
    var gatesText :- Lookup(header, "Number of gates");
    var ngates :- ParseInt(gatesText);
    var lengthText :- Lookup(header, "Range gate length (m)");
    var gateLength :- ParseReal(lengthText);
    var startText :- Lookup(header, "Start time");
    var start :- if strptime(startText).Some? then Ok(strptime(startText).value) else Err(ValueError);
    var scanText :- Lookup(header, "Scan type");
    var tag :- ScanType(scanText);
    Ok(Settings(nrays, ngates, gateLength, start, tag))
  }

  /** `process_file` on the lines of an .hpl file: negative ray or gate
      counts make numpy refuse the arrays (ValueError); a failing read of
      a ray ends the reading, and is tolerated when it is an IndexError and
      raised otherwise. */
  function ProcessFileSpec(lines: seq<string>, outDir: string, prefix: Option<string>,
                           strptime: string -> Option<StartTime>): Result<HaloOutput>
  {
    var header :- HeaderMap(HeaderLines(lines));
    var cfg :- ReadSettings(header, strptime);
    if cfg.nrays < 0 || cfg.ngates < 0 then Err(ValueError)
    else
      var err := FillError(Reader(lines), cfg.ngates, cfg.nrays, 0);
      if err.Some? && err.value != IndexError then Err(err.value)
      else Ok(Output(Reader(lines), cfg.ngates, cfg.nrays, cfg.gateLength, cfg.start,
                     FileName(outDir, prefix, cfg.tag, cfg.start)))
  }

  /** The time loop: the seconds since 1970 of every ray. */
  method RayEpochs(hour: array<real>, start: StartTime) returns (epoch: seq<real>)
    ensures |epoch| == hour.Length
    ensures forall r :: 0 <= r < hour.Length ==> epoch[r] == RayEpoch(start, hour[r])
  {
    epoch := [];
    var i := 0;
    while i < hour.Length
      invariant i <= hour.Length && |epoch| == i
      invariant forall r :: 0 <= r < i ==> epoch[r] == RayEpoch(start, hour[r])
    {
      epoch := epoch + [RayEpoch(start, hour[i])];
      i := i + 1;
    }
  }

  /** `a.transpose() * scale` for the grid of field f. */
  method Transpose(ghost read: (nat, nat) -> Result<real>, ngates: nat, nrays: nat, f: nat, scale: real, a: array2<real>)
    returns (grid: seq<seq<real>>)
    requires a.Length0 == ngates && a.Length1 == nrays
    requires forall g, r :: 0 <= g < ngates && 0 <= r < nrays ==> a[g, r] == GateCell(read, ngates, r, g, f)
    ensures grid == Grid(read, ngates, nrays, f, scale)
  {
    grid := seq(nrays, t requires 0 <= t < nrays reads a =>
      seq(ngates, g requires 0 <= g < ngates reads a => a[g, t] * scale));
    GridCells(grid, read, ngates, nrays, f, scale);
  }

  /** The writing half of `process_file`: the time conversion, the range
      in km, the transposed grids and the backscatter in km^-1 sr^-1. */
  method Convert(ghost read: (nat, nat) -> Result<real>, ngates: nat, nrays: nat, gateLength: real,
                 start: StartTime, filename: string,
                 hour: array<real>, az: array<real>, elev: array<real>, pitch: array<real>, roll: array<real>,
                 vel: array2<real>, intensity: array2<real>, beta: array2<real>)
    returns (out: HaloOutput)
    requires hour.Length == az.Length == elev.Length == pitch.Length == roll.Length == nrays
    requires vel.Length0 == intensity.Length0 == beta.Length0 == ngates
    requires vel.Length1 == intensity.Length1 == beta.Length1 == nrays
    requires forall r :: 0 <= r < nrays ==>
      hour[r] == InfoCell(read, ngates, r, 0) && az[r] == InfoCell(read, ngates, r, 1) &&
      elev[r] == InfoCell(read, ngates, r, 2) && pitch[r] == InfoCell(read, ngates, r, 3) &&
      roll[r] == InfoCell(read, ngates, r, 4)
    requires forall g, r :: 0 <= g < ngates && 0 <= r < nrays ==>
      vel[g, r] == GateCell(read, ngates, r, g, 1) && intensity[g, r] == GateCell(read, ngates, r, g, 2) &&
      beta[g, r] == GateCell(read, ngates, r, g, 3)
    ensures out == Output(read, ngates, nrays, gateLength, start, filename)
  {
    var epoch := RayEpochs(hour, start);
    var timeOffset := seq(nrays, i requires 0 <= i < nrays => Trunc(start.epoch - epoch[i]));
    assert hour[..] == InfoColumn(read, ngates, nrays, 0);
    assert az[..] == InfoColumn(read, ngates, nrays, 1);
    assert elev[..] == InfoColumn(read, ngates, nrays, 2);
    assert pitch[..] == InfoColumn(read, ngates, nrays, 3);
    assert roll[..] == InfoColumn(read, ngates, nrays, 4);
    assert timeOffset == TimeOffsets(start, hour[..]);
    var velocity := Transpose(read, ngates, nrays, 1, 1.0, vel);
    var power := Transpose(read, ngates, nrays, 2, 1.0, intensity);
    var backscatter := Transpose(read, ngates, nrays, 3, 1000.0, beta);
    out := HaloOutput(filename, Trunc(start.epoch), timeOffset, hour[..], RangeKm(ngates, gateLength),
      az[..], elev[..], pitch[..], roll[..], velocity, power, backscatter);
  }

  /** `process_file`. */
  method ProcessFile(lines: seq<string>, outDir: string, prefix: Option<string>,
                     strptime: string -> Option<StartTime>) returns (r: Result<HaloOutput>)
    ensures r == ProcessFileSpec(lines, outDir, prefix, strptime)
  {
    var header :- DecodeHeader(HeaderLines(lines));
    var cfg :- ReadSettings(header, strptime);
    if cfg.nrays < 0 || cfg.ngates < 0 {
      return Err(ValueError);
    }
    var nrays: nat, ngates: nat := cfg.nrays, cfg.ngates;
    var err, hour, az, elev, pitch, roll, vel, intensity, beta := ReadRays(Reader(lines), ngates, nrays);
    if err.Some? && err.value != IndexError {
      return Err(err.value);
    }
    var out := Convert(Reader(lines), ngates, nrays, cfg.gateLength, cfg.start,
      FileName(outDir, prefix, cfg.tag, cfg.start), hour, az, elev, pitch, roll, vel, intensity, beta);
    return Ok(out);
  }

  // ---------------------------------------------------------------------
  // Properties of the ray reading
  // ---------------------------------------------------------------------

  /** Gate g's reads from token f on, and every read of the later gates, succeed. */
  predicate GatesOkFrom(read: (nat, nat) -> Result<real>, ngates: nat, ray: nat, g: nat, f: nat) {
    (g < ngates ==> forall k :: f <= k < 4 ==> GateToken(read, ngates, ray, g, k).Ok?) &&
    (forall h :: g < h < ngates ==> GateOk(read, ngates, ray, h, 4))
  }

  lemma {:induction false} GatesErrorNone(read: (nat, nat) -> Result<real>, ngates: nat, ray: nat, g: nat, f: nat)
    requires 1 <= f <= 4
    ensures GatesError(read, ngates, ray, g, f).None? <==> GatesOkFrom(read, ngates, ray, g, f)
    decreases ngates - g, 4 - f
  {
    if g >= ngates {
    } else if f == 4 {
      GatesErrorNone(read, ngates, ray, g + 1, 1);
      if GatesOkFrom(read, ngates, ray, g + 1, 1) {
        forall h | g < h < ngates
          ensures GateOk(read, ngates, ray, h, 4)
        {
          if h == g + 1 {
            assert forall k :: 1 <= k < 4 ==> GateToken(read, ngates, ray, h, k).Ok?;
          }
        }
      }
      if GatesOkFrom(read, ngates, ray, g, f) {
        if g + 1 < ngates {
          assert GateOk(read, ngates, ray, g + 1, 4);
        }
      }
    } else {
      GatesErrorNone(read, ngates, ray, g, f + 1);
    }
  }

  lemma {:induction false} InfoErrorNone(read: (nat, nat) -> Result<real>, ngates: nat, ray: nat, j: nat)
    requires j <= 5
    ensures InfoError(read, ngates, ray, j).None? <==>
      (forall k :: j <= k < 5 ==> InfoToken(read, ngates, ray, k).Ok?) && GatesOk(read, ngates, ray, ngates)
    decreases 5 - j
  {
    if j == 5 {
      GatesErrorNone(read, ngates, ray, 0, 1);
      if GatesOkFrom(read, ngates, ray, 0, 1) {
        forall h | 0 <= h < ngates
          ensures GateOk(read, ngates, ray, h, 4)
        {
          if h == 0 {
            assert forall k :: 1 <= k < 4 ==> GateToken(read, ngates, ray, h, k).Ok?;
          }
        }
      }
      if GatesOk(read, ngates, ray, ngates) && 0 < ngates {
        assert GateOk(read, ngates, ray, 0, 4);
      }
    } else {
      InfoErrorNone(read, ngates, ray, j + 1);
    }
  }

  /** A ray's reading succeeds exactly when every one of its reads does. */
  lemma RayErrorIff(read: (nat, nat) -> Result<real>, ngates: nat, ray: nat)
    ensures InfoError(read, ngates, ray, 0).None? <==> RayOk(read, ngates, ray)
  {
    InfoErrorNone(read, ngates, ray, 0);
  }

  /** The reading of all rays succeeds exactly when every read does; when
      it fails, the error is that of the first ray with a failing read. */
  lemma {:induction false} FillErrorIff(read: (nat, nat) -> Result<real>, ngates: nat, nrays: nat, ray: nat)
    ensures FillError(read, ngates, nrays, ray).None? <==> forall r :: ray <= r < nrays ==> RayOk(read, ngates, r)
    ensures FillError(read, ngates, nrays, ray).Some? ==>
      exists r :: ray <= r < nrays && !RayOk(read, ngates, r) &&
        (forall q :: ray <= q < r ==> RayOk(read, ngates, q)) &&
        FillError(read, ngates, nrays, ray) == InfoError(read, ngates, r, 0)
    decreases nrays - ray
  {
    if ray < nrays {
      RayErrorIff(read, ngates, ray);
      FillErrorIff(read, ngates, nrays, ray + 1);
      if InfoError(read, ngates, ray, 0).Some? {
        assert !RayOk(read, ngates, ray);
      } else if FillError(read, ngates, nrays, ray + 1).Some? {
        var r :| ray + 1 <= r < nrays && !RayOk(read, ngates, r) &&
          (forall q :: ray + 1 <= q < r ==> RayOk(read, ngates, q)) &&
          FillError(read, ngates, nrays, ray + 1) == InfoError(read, ngates, r, 0);
        assert forall q :: ray <= q < r ==> RayOk(read, ngates, q);
      }
    }
  }

  /** Every error of the ray reading is the error of a single token read
      of a data line (line 17 on). */
  lemma {:induction false} GatesErrorIsARead(read: (nat, nat) -> Result<real>, ngates: nat, ray: nat, g: nat, f: nat)
    requires 1 <= f <= 4
    ensures GatesError(read, ngates, ray, g, f).Some? ==>
      exists idx: nat, k: nat :: idx >= 17 && read(idx, k) == Err(GatesError(read, ngates, ray, g, f).value)
    decreases ngates - g, 4 - f
  {
    if g >= ngates {
    } else if f == 4 {
      GatesErrorIsARead(read, ngates, ray, g + 1, 1);
    } else if GateToken(read, ngates, ray, g, f).Err? {
      var idx := GateLine(ray, g, ngates);
      assert read(idx, f) == Err(GatesError(read, ngates, ray, g, f).value);
    } else {
      GatesErrorIsARead(read, ngates, ray, g, f + 1);
    }
  }

  lemma {:induction false} InfoErrorIsARead(read: (nat, nat) -> Result<real>, ngates: nat, ray: nat, j: nat)
    requires j <= 5
    ensures InfoError(read, ngates, ray, j).Some? ==>
      exists idx: nat, k: nat :: idx >= 17 && read(idx, k) == Err(InfoError(read, ngates, ray, j).value)
    decreases 5 - j
  {
    if j == 5 {
      GatesErrorIsARead(read, ngates, ray, 0, 1);
    } else if InfoToken(read, ngates, ray, j).Err? {
      var idx := InfoLine(ray, ngates);
      assert read(idx, j) == Err(InfoError(read, ngates, ray, j).value);
    } else {
      InfoErrorIsARead(read, ngates, ray, j + 1);
    }
  }

  lemma {:induction false} FillErrorIsARead(read: (nat, nat) -> Result<real>, ngates: nat, nrays: nat, ray: nat)
    ensures FillError(read, ngates, nrays, ray).Some? ==>
      exists idx: nat, k: nat :: idx >= 17 && read(idx, k) == Err(FillError(read, ngates, nrays, ray).value)
    decreases nrays - ray
  {
    if ray < nrays {
      InfoErrorIsARead(read, ngates, ray, 0);
      FillErrorIsARead(read, ngates, nrays, ray + 1);
    }
  }

  /** Every whitespace-separated token of every data line (the lines after
      the 17 header lines) is a number float() accepts. */
  predicate NumericBody(lines: seq<string>) {
    forall idx, k :: 17 <= idx < |lines| && 0 <= k < |Words(lines[idx])| ==> ParseReal(Words(lines[idx])[k]).Ok?
  }

  /** `except IndexError`: a file that ends early, or whose rays have too
      few tokens, is still converted once its header is readable and its
      tokens are numbers; an unreadable token makes the conversion fail
      with ValueError. */
  lemma ShortFileConverts(lines: seq<string>, outDir: string, prefix: Option<string>,
                          strptime: string -> Option<StartTime>)
    requires NumericBody(lines)
    requires HeaderMap(HeaderLines(lines)).Ok?
    requires ReadSettings(HeaderMap(HeaderLines(lines)).value, strptime).Ok?
    requires ReadSettings(HeaderMap(HeaderLines(lines)).value, strptime).value.nrays >= 0
    requires ReadSettings(HeaderMap(HeaderLines(lines)).value, strptime).value.ngates >= 0
    ensures ProcessFileSpec(lines, outDir, prefix, strptime).Ok?
  {
    var cfg := ReadSettings(HeaderMap(HeaderLines(lines)).value, strptime).value;
    var read := Reader(lines);
    var err := FillError(read, cfg.ngates, cfg.nrays, 0);
    FillErrorIsARead(read, cfg.ngates, cfg.nrays, 0);
    if err.Some? {
      var idx: nat, k: nat :| idx >= 17 && read(idx, k) == Err(err.value);
      assert Token(lines, idx, k) == Err(err.value);
    }
  }

  /** The error of a ray read is an IndexError or a ValueError; a
      ValueError needs a token of a data line that float() rejects. */
  lemma FailingReadKind(lines: seq<string>, ngates: nat, nrays: nat)
    ensures FillError(Reader(lines), ngates, nrays, 0).Some? ==>
      FillError(Reader(lines), ngates, nrays, 0).value in {IndexError, ValueError}
    ensures FillError(Reader(lines), ngates, nrays, 0) == Some(ValueError) ==>
      exists idx, k :: 17 <= idx < |lines| && 0 <= k < |Words(lines[idx])| && ParseReal(Words(lines[idx])[k]).Err?
  {
    var read := Reader(lines);
    var err := FillError(read, ngates, nrays, 0);
    FillErrorIsARead(read, ngates, nrays, 0);
    if err.Some? {
      var idx: nat, k: nat :| idx >= 17 && read(idx, k) == Err(err.value);
      assert Token(lines, idx, k) == Err(err.value);
    }
  }

  /** A ray whose info line lies past the end of the file is not read: all
      its cells keep 0, and so do the cells of every later ray. */
  lemma RaysPastTheEnd(lines: seq<string>, ngates: nat, ray: nat, later: nat)
    requires |lines| <= InfoLine(ray, ngates) && ray <= later
    ensures forall j :: 0 <= j < 5 ==> InfoCell(Reader(lines), ngates, later, j) == 0.0
    ensures forall g, f :: 0 <= g < ngates ==> GateCell(Reader(lines), ngates, later, g, f) == 0.0
  {
    var read := Reader(lines);
    assert InfoToken(read, ngates, ray, 0) == Err(IndexError);
    assert !RayOk(read, ngates, ray);
    if ray < later {
      assert !RaysOk(read, ngates, later);
    } else {
      assert !InfoOk(read, ngates, ray, 1);
    }
  }

  /** A file whose rays are all complete is decoded token for token. */
  lemma CompleteFileDecoded(read: (nat, nat) -> Result<real>, ngates: nat, nrays: nat, gateLength: real,
                            start: StartTime, filename: string)
    requires RaysOk(read, ngates, nrays)
    ensures var out := Output(read, ngates, nrays, gateLength, start, filename);
      (forall r :: 0 <= r < nrays ==>
         InfoOk(read, ngates, r, 5) &&
         out.hour[r] == InfoToken(read, ngates, r, 0).value && out.azimuth[r] == InfoToken(read, ngates, r, 1).value &&
         out.elevation[r] == InfoToken(read, ngates, r, 2).value && out.pitch[r] == InfoToken(read, ngates, r, 3).value &&
         out.roll[r] == InfoToken(read, ngates, r, 4).value) &&
      (forall r, g :: 0 <= r < nrays && 0 <= g < ngates ==>
         GateToken(read, ngates, r, g, 1).Ok? && GateToken(read, ngates, r, g, 2).Ok? &&
         GateToken(read, ngates, r, g, 3).Ok? &&
         out.velocity[r][g] == GateToken(read, ngates, r, g, 1).value &&
         out.intensity[r][g] == GateToken(read, ngates, r, g, 2).value &&
         out.backscatter[r][g] == GateToken(read, ngates, r, g, 3).value * 1000.0)
  {
    forall r | 0 <= r < nrays
      ensures InfoOk(read, ngates, r, 5) && RaysOk(read, ngates, r)
    {
      assert RayOk(read, ngates, r);
    }
    forall r, g | 0 <= r < nrays && 0 <= g < ngates
      ensures GateOk(read, ngates, r, g, 4) && GatesOk(read, ngates, r, g)
      ensures GateCell(read, ngates, r, g, 1) == GateToken(read, ngates, r, g, 1).value
      ensures GateCell(read, ngates, r, g, 2) == GateToken(read, ngates, r, g, 2).value
      ensures GateCell(read, ngates, r, g, 3) == GateToken(read, ngates, r, g, 3).value
    {
      assert RayOk(read, ngates, r) && RaysOk(read, ngates, r);
    }
  }
}
