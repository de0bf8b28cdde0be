/** What the two radiosonde converters share: cutting a text file that holds
    several launches into one block of lines per launch, collecting the rows
    of a launch's data table into one list of strings per column, reading
    the attribute lines of a launch header, turning the columns into netCDF
    variables, and converting the launches of a file one after another. */
module SondeFile {
  import opened Common
  import opened Text

  // ---------------------------------------------------------------------
  // Launches
  // ---------------------------------------------------------------------

  /** The line that opens a launch: it holds the words "Data Type". */
  predicate IsMarker(line: string) {
    Contains(line, "Data Type")
  }

  /** The number of lines of `lines` that open a launch. */
  function CountMarkers(lines: seq<string>): (n: nat)
    ensures n <= |lines|
    decreases |lines|
  {
    if |lines| == 0 then 0
    else CountMarkers(lines[..|lines| - 1]) + (if IsMarker(lines[|lines| - 1]) then 1 else 0)
  }

  /** A launch as the file holds it: its marker line, then only lines that
      are not markers. */
  predicate IsLaunch(block: seq<string>) {
    |block| > 0 && IsMarker(block[0]) && forall k :: 0 < k < |block| ==> !IsMarker(block[k])
  }

  lemma FlattenSnoc(parts: seq<seq<string>>, last: seq<string>)
    ensures Flatten(parts + [last]) == Flatten(parts) + last
  {
    FlattenAppend(parts, [last]);
    assert Flatten([last]) == last + Flatten([]);
  }

  /** The launches of a file: a marker line starts a new launch, any other
      line goes to the end of the latest one. A line before the first marker
      is appended to `launches[-1]` of an empty list, which raises
      IndexError. */
  function Launches(lines: seq<string>): (r: Result<seq<seq<string>>>)
    ensures r.Ok? <==> |lines| == 0 || IsMarker(lines[0])
    ensures r.Err? ==> r.error == IndexError
    ensures r.Ok? ==> |r.value| == CountMarkers(lines)
    ensures r.Ok? ==> Flatten(r.value) == lines
    ensures r.Ok? ==> forall j :: 0 <= j < |r.value| ==> IsLaunch(r.value[j])
    decreases |lines|
  {
    if |lines| == 0 then Ok([])
    else
      var p := lines[..|lines| - 1];
      var front :- Launches(p);
      var line := lines[|lines| - 1];
      assert lines == p + [line];
      LaunchesAdd(p, front, line);
      if IsMarker(line) then Ok(front + [[line]])
      else if |front| == 0 then Err(IndexError)
      else Ok(front[..|front| - 1] + [front[|front| - 1] + [line]])
  }

  /** `launches` cuts `lines` into launches, one per marker line. */
  ghost predicate LaunchesOf(launches: seq<seq<string>>, lines: seq<string>) {
    |launches| == CountMarkers(lines) && Flatten(launches) == lines &&
    forall j :: 0 <= j < |launches| ==> IsLaunch(launches[j])
  }

  /** One more line: a marker opens a launch, any other line joins the
      latest one, and there is a latest one exactly when the file so far
      starts with a marker or the line is one. */
  lemma LaunchesAdd(p: seq<string>, front: seq<seq<string>>, line: string)
    requires LaunchesOf(front, p) && (|p| == 0 || IsMarker(p[0]))
    ensures (IsMarker(line) || |front| > 0) <==> IsMarker((p + [line])[0])
    ensures IsMarker(line) ==> LaunchesOf(front + [[line]], p + [line])
    ensures !IsMarker(line) && |front| > 0 ==>
      LaunchesOf(front[..|front| - 1] + [front[|front| - 1] + [line]], p + [line])
  {
    assert (p + [line])[..|p|] == p;
    if |p| == 0 {
      assert Flatten<string>([]) == [];
      assert |front| == 0;
    } else {
      assert |front| > 0;
    }
    if IsMarker(line) {
      LaunchesOpen(p, front, line);
    } else if |front| > 0 {
      LaunchesJoin(p, front, line);
    }
  }

  /** A marker line opens a new launch. */
  lemma LaunchesOpen(p: seq<string>, front: seq<seq<string>>, line: string)
    requires LaunchesOf(front, p) && IsMarker(line)
    ensures LaunchesOf(front + [[line]], p + [line])
  {
    assert (p + [line])[..|p|] == p;
    FlattenSnoc(front, [line]);
  }

  /** Any other line goes to the end of the latest launch. */
  lemma LaunchesJoin(p: seq<string>, front: seq<seq<string>>, line: string)
    requires LaunchesOf(front, p) && !IsMarker(line) && |front| > 0
    ensures LaunchesOf(front[..|front| - 1] + [front[|front| - 1] + [line]], p + [line])
  {
    assert (p + [line])[..|p|] == p;
    var m := |front| - 1;
    assert front == front[..m] + [front[m]];
    FlattenSnoc(front[..m], front[m]);
    FlattenSnoc(front[..m], front[m] + [line]);
  }

  /** The reading loop: `count` launches so far, each line either opening a
      new launch or appended to launch `count - 1`. */
  method GroupLaunches(lines: seq<string>) returns (r: Result<seq<seq<string>>>)
    ensures r == Launches(lines)
  {
    var count := 0;
    var launches: seq<seq<string>> := [];
    for i := 0 to |lines|
      invariant count == |launches|
      invariant Launches(lines[..i]) == Ok(launches)
    {
      var line := lines[i];
      LaunchesNext(lines, i, launches);
      if !IsMarker(line) {
        if count == 0 {
          // launches[-1] of an empty list
          return Err(IndexError);
        }
        launches := launches[..count - 1] + [launches[count - 1] + [line]];
      } else {
        count := count + 1;
        launches := launches + [[line]];
      }
    }
    assert lines[..|lines|] == lines;
    r := Ok(launches);
  }

  /** One more line read: it opens a launch, joins the latest one, or,
      with no launch yet, ends the reading with IndexError. */
  lemma LaunchesNext(lines: seq<string>, i: nat, launches: seq<seq<string>>)
    requires i < |lines| && Launches(lines[..i]) == Ok(launches)
    ensures var line := lines[i];
      (IsMarker(line) ==> Launches(lines[..i + 1]) == Ok(launches + [[line]])) &&
      (!IsMarker(line) && |launches| > 0 ==>
        Launches(lines[..i + 1]) == Ok(launches[..|launches| - 1] + [launches[|launches| - 1] + [line]])) &&
      (!IsMarker(line) && |launches| == 0 ==> Launches(lines) == Err(IndexError))
  {
    if IsMarker(lines[i]) || |launches| > 0 {
      LaunchesExtend(lines, i, launches);
    } else {
      LaunchesNoMarkerFirst(lines, i);
    }
  }

  /** A marker opens a launch; any other line joins the latest one. */
  lemma LaunchesExtend(lines: seq<string>, i: nat, launches: seq<seq<string>>)
    requires i < |lines| && Launches(lines[..i]) == Ok(launches)
    requires IsMarker(lines[i]) || |launches| > 0
    ensures Launches(lines[..i + 1]) ==
      Ok(if IsMarker(lines[i]) then launches + [[lines[i]]]
         else launches[..|launches| - 1] + [launches[|launches| - 1] + [lines[i]]])
  {
    var prefix := lines[..i + 1];
    assert prefix[..i] == lines[..i] && prefix[i] == lines[i];
    LaunchesStep(prefix);
  }

  /** No launch yet and a line that is not a marker: the file does not
      start with a marker. */
  lemma LaunchesNoMarkerFirst(lines: seq<string>, i: nat)
    requires i < |lines| && Launches(lines[..i]) == Ok([]) && !IsMarker(lines[i])
    ensures Launches(lines) == Err(IndexError)
  {
    assert Flatten<string>([]) == [];
    assert |lines[..i]| == 0;
  }

  /** Launches unfolded once. */
  lemma LaunchesStep(lines: seq<string>)
    requires |lines| > 0 && Launches(lines[..|lines| - 1]).Ok?
    ensures var front := Launches(lines[..|lines| - 1]).value;
      var line := lines[|lines| - 1];
      Launches(lines) ==
        if IsMarker(line) then Ok(front + [[line]])
        else if |front| == 0 then Err(IndexError)
        else Ok(front[..|front| - 1] + [front[|front| - 1] + [line]])
  {
  }

  // ---------------------------------------------------------------------
  // The data table
  // ---------------------------------------------------------------------

  /** Python's `xs[n:]`: empty when `xs` is shorter than `n`. */
  function Drop<T>(xs: seq<T>, n: nat): (r: seq<T>)
    ensures |r| == if n <= |xs| then |xs| - n else 0
    ensures forall i :: 0 <= i < |r| ==> r[i] == xs[n + i]
  {
    if n <= |xs| then xs[n..] else []
  }

  /** One row of a launch's data table as `csv.DictReader` yields it: a
      dictionary from column title to field, with its keys in iteration
      order. */
  datatype Level = Level(keys: seq<string>, fields: map<string, string>)

  /** A row that is a dictionary: every key once, and every key has a field. */
  ghost predicate IsDict(l: Level) {
    (forall k :: k in l.keys <==> k in l.fields) &&
    forall i, j :: 0 <= i < j < |l.keys| ==> l.keys[i] != l.keys[j]
  }

  /** The `data` dictionary being filled: its keys in insertion order and
      each key's list of fields. */
  datatype Table = Table(keys: seq<string>, columns: map<string, seq<string>>)

  function EmptyColumns(keys: seq<string>): (cols: map<string, seq<string>>)
    ensures cols.Keys == set k | k in keys
    ensures forall k :: k in cols ==> cols[k] == []
  {
    map k | k in keys :: []
  }

  /** `for key in level.keys(): data[key].append(level[key])`: a key the
      dictionary does not have raises KeyError. */
  function AppendRow(keys: seq<string>, cols: map<string, seq<string>>, fields: map<string, string>)
    : (r: Result<map<string, seq<string>>>)
    ensures r.Ok? <==> forall k :: k in keys ==> k in cols && k in fields
    ensures r.Ok? ==> r.value.Keys == cols.Keys
    ensures r.Ok? ==> forall k :: k in cols && k !in keys ==> r.value[k] == cols[k]
    ensures r.Err? ==> exists k :: k in keys && (k !in cols || k !in fields) && r.error == KeyError(k)
    decreases |keys|
  {
    if |keys| == 0 then Ok(cols)
    else
      var prev :- AppendRow(keys[..|keys| - 1], cols, fields);
      var k := keys[|keys| - 1];
      assert keys == keys[..|keys| - 1] + [k];
      if k !in prev || k !in fields then Err(KeyError(k))
      else Ok(prev[k := prev[k] + [fields[k]]])
  }

  /** With distinct keys, every key of the row gains exactly its own field
      at the end of its list. */
  lemma {:induction false} AppendRowExact(keys: seq<string>, cols: map<string, seq<string>>, fields: map<string, string>)
    requires forall i, j :: 0 <= i < j < |keys| ==> keys[i] != keys[j]
    requires AppendRow(keys, cols, fields).Ok?
    ensures forall k :: k in keys ==> AppendRow(keys, cols, fields).value[k] == cols[k] + [fields[k]]
    decreases |keys|
  {
    if |keys| > 0 {
      var n := |keys| - 1;
      assert keys == keys[..n] + [keys[n]];
      AppendRowExact(keys[..n], cols, fields);
      forall k | k in keys
        ensures AppendRow(keys, cols, fields).value[k] == cols[k] + [fields[k]]
      {
        if k != keys[n] {
          var i :| 0 <= i < |keys| && keys[i] == k;
          assert k in keys[..n] by { assert keys[..n][i] == k; }
        }
      }
    }
  }

  /** A key that fails stops the row: the whole row fails with its error. */
  lemma {:induction false} AppendRowStops(keys: seq<string>, j: nat, cols: map<string, seq<string>>, fields: map<string, string>)
    requires j <= |keys| && AppendRow(keys[..j], cols, fields).Err?
    ensures AppendRow(keys, cols, fields) == AppendRow(keys[..j], cols, fields)
    decreases |keys|
  {
    if j < |keys| {
      var n := |keys| - 1;
      assert keys[..n][..j] == keys[..j];
      AppendRowStops(keys[..n], j, cols, fields);
    } else {
      assert keys[..j] == keys;
    }
  }

  /** The reading loop over the rows: the first row creates an empty list
      for each of its keys, then every row appends its fields. */
  function Columns(rows: seq<Level>): (r: Result<Table>)
    decreases |rows|
  {
    if |rows| == 0 then Ok(Table([], map[]))
    else
      var t :- Columns(rows[..|rows| - 1]);
      var level := rows[|rows| - 1];
      var t0 := if |rows| == 1 then Table(level.keys, EmptyColumns(level.keys)) else t;
      var cols :- AppendRow(level.keys, t0.columns, level.fields);
      Ok(Table(t0.keys, cols))
  }

  /** A row that fails stops the reading: the table fails with its error. */
  lemma {:induction false} ColumnsStops(rows: seq<Level>, i: nat)
    requires i <= |rows| && Columns(rows[..i]).Err?
    ensures Columns(rows) == Columns(rows[..i])
    decreases |rows|
  {
    if i < |rows| {
      var n := |rows| - 1;
      assert rows[..n][..i] == rows[..i];
      ColumnsStops(rows[..n], i);
      ColumnsFailsOn(rows);
    } else {
      assert rows[..i] == rows;
    }
  }

  /** A failure before the last row is the failure of all rows. */
  lemma ColumnsFailsOn(rows: seq<Level>)
    requires |rows| > 0 && Columns(rows[..|rows| - 1]).Err?
    ensures Columns(rows) == Columns(rows[..|rows| - 1])
  {
  }

  /** The fields column `k` receives: one from every row that has key `k`,
      in row order. */
  function ColumnOf(rows: seq<Level>, k: string): (c: seq<string>)
    ensures |c| <= |rows|
    decreases |rows|
  {
    if |rows| == 0 then []
    else
      var l := rows[|rows| - 1];
      ColumnOf(rows[..|rows| - 1], k) + (if k in l.keys && k in l.fields then [l.fields[k]] else [])
  }

  /** Every row's keys are among the first row's: the only rows the reading
      loop accepts. */
  predicate KeysOfFirst(rows: seq<Level>) {
    forall i, k :: 0 <= i < |rows| && k in rows[i].keys ==> k in rows[0].keys
  }

  ghost predicate AllDicts(rows: seq<Level>) {
    forall i :: 0 <= i < |rows| ==> IsDict(rows[i])
  }

  /** `t` is the table of `rows`: the first row's keys in order, and for
      each of them exactly the fields of that key in row order. */
  ghost predicate TableOf(t: Table, rows: seq<Level>)
    requires |rows| > 0
  {
    t.keys == rows[0].keys &&
    (forall k :: k in t.columns <==> k in rows[0].keys) &&
    forall k :: k in rows[0].keys ==> t.columns[k] == ColumnOf(rows, k)
  }

  lemma ColumnsOne(rows: seq<Level>)
    requires |rows| == 1 && IsDict(rows[0])
    ensures Columns(rows).Ok? && TableOf(Columns(rows).value, rows)
  {
    var level := rows[0];
    var t0 := Table(level.keys, EmptyColumns(level.keys));
    assert Columns(rows[..0]) == Ok(Table([], map[]));
    AppendRowExact(level.keys, t0.columns, level.fields);
    forall k | k in rows[0].keys
      ensures Columns(rows).value.columns[k] == ColumnOf(rows, k)
    {
      assert ColumnOf(rows, k) == ColumnOf(rows[..0], k) + [level.fields[k]];
    }
  }

  lemma ColumnsNext(rows: seq<Level>)
    requires |rows| >= 2 && IsDict(rows[|rows| - 1])
    requires Columns(rows[..|rows| - 1]).Ok? && TableOf(Columns(rows[..|rows| - 1]).value, rows[..|rows| - 1])
    ensures Columns(rows).Ok? <==> forall k :: k in rows[|rows| - 1].keys ==> k in rows[0].keys
    ensures Columns(rows).Ok? ==> TableOf(Columns(rows).value, rows)
    ensures Columns(rows).Err? ==>
      exists k :: k in rows[|rows| - 1].keys && k !in rows[0].keys && Columns(rows).error == KeyError(k)
  {
    var n := |rows| - 1;
    var front := rows[..n];
    var level := rows[n];
    var t := Columns(front).value;
    assert front[0] == rows[0];
    if forall k :: k in level.keys ==> k in t.columns {
      AppendRowExact(level.keys, t.columns, level.fields);
      forall k | k in rows[0].keys
        ensures Columns(rows).value.columns[k] == ColumnOf(rows, k)
      {
        assert ColumnOf(rows, k) == ColumnOf(front, k) + (if k in level.keys && k in level.fields then [level.fields[k]] else []);
      }
    }
  }

  lemma ColumnsFrontFails(rows: seq<Level>, i: nat, k: string)
    requires 0 < i < |rows| - 1 && k in rows[i].keys && k !in rows[0].keys
    requires Columns(rows[..|rows| - 1]) == Err(KeyError(k))
    ensures Columns(rows) == Err(KeyError(k)) && !KeysOfFirst(rows)
  {
  }

  lemma KeysOfFirstNext(rows: seq<Level>)
    requires |rows| >= 2 && KeysOfFirst(rows[..|rows| - 1])
    ensures KeysOfFirst(rows) <==> forall k :: k in rows[|rows| - 1].keys ==> k in rows[0].keys
  {
    var n := |rows| - 1;
    if forall k :: k in rows[n].keys ==> k in rows[0].keys {
      forall i, k | 0 <= i < |rows| && k in rows[i].keys ensures k in rows[0].keys {
        if i < n { assert rows[..n][i] == rows[i]; }
      }
    }
  }

  /** The reading loop accepts exactly the rows whose keys are all among
      the first row's, and then holds the table of the rows; otherwise it
      fails naming a key of a later row that the first row lacks. */
  lemma {:induction false} ColumnsSpec(rows: seq<Level>)
    requires AllDicts(rows)
    ensures Columns(rows).Ok? <==> KeysOfFirst(rows)
    ensures Columns(rows).Ok? && |rows| > 0 ==> TableOf(Columns(rows).value, rows)
    ensures Columns(rows).Err? ==>
      exists i, k :: 0 < i < |rows| && k in rows[i].keys && k !in rows[0].keys && Columns(rows).error == KeyError(k)
    decreases |rows|
  {
    if |rows| <= 1 {
      ColumnsBase(rows);
    } else {
      AllDictsFront(rows);
      ColumnsSpec(rows[..|rows| - 1]);
      ColumnsStep(rows);
    }
  }

  /** The three facts ColumnsSpec states about `rows`. */
  ghost predicate ColumnsCorrect(rows: seq<Level>) {
    (Columns(rows).Ok? <==> KeysOfFirst(rows)) &&
    (Columns(rows).Ok? && |rows| > 0 ==> TableOf(Columns(rows).value, rows)) &&
    (Columns(rows).Err? ==>
      exists i, k :: 0 < i < |rows| && k in rows[i].keys && k !in rows[0].keys && Columns(rows).error == KeyError(k))
  }

  /** One more row keeps ColumnsCorrect. */
  lemma ColumnsStep(rows: seq<Level>)
    requires |rows| >= 2 && IsDict(rows[|rows| - 1]) && ColumnsCorrect(rows[..|rows| - 1])
    ensures ColumnsCorrect(rows)
  {
    var front := rows[..|rows| - 1];
    assert front[0] == rows[0];
    if Columns(front).Err? {
      ColumnsAfterFailure(rows);
    } else {
      ColumnsAfterSuccess(rows);
    }
  }

  /** No row or one row: ColumnsCorrect holds outright. */
  lemma ColumnsBase(rows: seq<Level>)
    requires |rows| <= 1 && AllDicts(rows)
    ensures ColumnsCorrect(rows)
  {
    if |rows| == 0 {
      assert Columns(rows) == Ok(Table([], map[]));
    } else {
      assert KeysOfFirst(rows) by {
        forall i, k | 0 <= i < |rows| && k in rows[i].keys ensures k in rows[0].keys { assert i == 0; }
      }
      ColumnsOne(rows);
    }
  }

  /** The rows before the last are dictionaries too. */
  lemma AllDictsFront(rows: seq<Level>)
    requires |rows| > 0 && AllDicts(rows)
    ensures AllDicts(rows[..|rows| - 1]) && IsDict(rows[|rows| - 1])
  {
    var front := rows[..|rows| - 1];
    forall i | 0 <= i < |front| ensures IsDict(front[i]) { assert front[i] == rows[i]; }
  }

  /** ColumnsSpec for rows whose reading already failed before the last row. */
  lemma ColumnsAfterFailure(rows: seq<Level>)
    requires |rows| >= 2 && Columns(rows[..|rows| - 1]).Err?
    requires var front := rows[..|rows| - 1];
      exists i, k :: 0 < i < |front| && k in front[i].keys && k !in front[0].keys && Columns(front).error == KeyError(k)
    ensures Columns(rows).Err? && !KeysOfFirst(rows)
    ensures exists i, k :: 0 < i < |rows| && k in rows[i].keys && k !in rows[0].keys && Columns(rows).error == KeyError(k)
  {
    var front := rows[..|rows| - 1];
    var i, k :| 0 < i < |front| && k in front[i].keys && k !in front[0].keys && Columns(front).error == KeyError(k);
    assert front[i] == rows[i] && front[0] == rows[0];
    ColumnsFrontFails(rows, i, k);
  }

  /** ColumnsSpec for rows whose reading succeeded up to the last row. */
  lemma ColumnsAfterSuccess(rows: seq<Level>)
    requires |rows| >= 2 && IsDict(rows[|rows| - 1])
    requires var front := rows[..|rows| - 1];
      Columns(front).Ok? && KeysOfFirst(front) && TableOf(Columns(front).value, front)
    ensures Columns(rows).Ok? <==> KeysOfFirst(rows)
    ensures Columns(rows).Ok? ==> TableOf(Columns(rows).value, rows)
    ensures Columns(rows).Err? ==>
      exists i, k :: 0 < i < |rows| && k in rows[i].keys && k !in rows[0].keys && Columns(rows).error == KeyError(k)
  {
    var n := |rows| - 1;
    ColumnsNext(rows);
    KeysOfFirstNext(rows);
    if Columns(rows).Err? {
      var k :| k in rows[n].keys && k !in rows[0].keys && Columns(rows).error == KeyError(k);
      assert 0 < n < |rows| && k in rows[n].keys;
    }
  }

  /** When every row has the first row's keys, each column holds one field
      per row, the `i`-th row's field at index `i`. */
  lemma {:induction false} ColumnOfFull(rows: seq<Level>, k: string)
    requires forall i :: 0 <= i < |rows| ==> k in rows[i].keys && k in rows[i].fields
    ensures |ColumnOf(rows, k)| == |rows|
    ensures forall i :: 0 <= i < |rows| ==> ColumnOf(rows, k)[i] == rows[i].fields[k]
    decreases |rows|
  {
    if |rows| > 0 {
      var n := |rows| - 1;
      ColumnOfFull(rows[..n], k);
      forall i | 0 <= i < |rows| ensures ColumnOf(rows, k)[i] == rows[i].fields[k] {
        if i < n { assert rows[..n][i] == rows[i]; }
      }
    }
  }

  /** The reading loop of lines 45-58: a `first` flag, then for every row
      an inner loop over its keys. */
  method ReadColumns(rows: seq<Level>) returns (r: Result<Table>)
    ensures r == Columns(rows)
  {
    var keys: seq<string> := [];
    var data: map<string, seq<string>> := map[];
    var first := true;
    for i := 0 to |rows|
      invariant first <==> i == 0
      invariant Columns(rows[..i]) == Ok(Table(keys, data))
    {
      var level := rows[i];
      ColumnsRow(rows, i, Table(keys, data));
      if first {
        keys := level.keys;
        data := EmptyColumns(level.keys);
        first := false;
      }
      var appended := AppendFields(level, data);
      if appended.Err? {
        return Err(appended.error);
      }
      data := appended.value;
    }
    assert rows[..|rows|] == rows;
    r := Ok(Table(keys, data));
  }

  /** The inner loop of the reading: each key of the row, in order, has the
      row's field appended to its list. */
  method AppendFields(level: Level, data: map<string, seq<string>>) returns (r: Result<map<string, seq<string>>>)
    ensures r == AppendRow(level.keys, data, level.fields)
  {
    var cols := data;
    for j := 0 to |level.keys|
      invariant AppendRow(level.keys[..j], data, level.fields) == Ok(cols)
    {
      var key := level.keys[j];
      AppendRowNext(level.keys, j, data, level.fields, cols);
      if key !in cols || key !in level.fields {
        return Err(KeyError(key));
      }
      cols := cols[key := cols[key] + [level.fields[key]]];
    }
    assert level.keys[..|level.keys|] == level.keys;
    r := Ok(cols);
  }

  /** One more key of the row: its field is appended to its list, or its
      KeyError ends the row. */
  lemma AppendRowNext(keys: seq<string>, j: nat, data: map<string, seq<string>>, fields: map<string, string>,
                      cols: map<string, seq<string>>)
    requires j < |keys| && AppendRow(keys[..j], data, fields) == Ok(cols)
    ensures var k := keys[j];
      (k in cols && k in fields ==> AppendRow(keys[..j + 1], data, fields) == Ok(cols[k := cols[k] + [fields[k]]])) &&
      (k !in cols || k !in fields ==> AppendRow(keys, data, fields) == Err(KeyError(k)))
  {
    assert keys[..j + 1][..j] == keys[..j];
    if keys[j] !in cols || keys[j] !in fields {
      AppendRowStops(keys, j + 1, data, fields);
    }
  }

  /** One more row read: its fields are appended to the table so far (to
      fresh empty lists for the first row), or its error ends the reading. */
  lemma ColumnsRow(rows: seq<Level>, i: nat, t: Table)
    requires i < |rows| && Columns(rows[..i]) == Ok(t)
    ensures var level := rows[i];
      var t0 := if i == 0 then Table(level.keys, EmptyColumns(level.keys)) else t;
      var c := AppendRow(level.keys, t0.columns, level.fields);
      (c.Ok? ==> Columns(rows[..i + 1]) == Ok(Table(t0.keys, c.value))) &&
      (c.Err? ==> Columns(rows) == Err(c.error))
  {
    assert rows[..i + 1][..i] == rows[..i];
    var level := rows[i];
    var t0 := if i == 0 then Table(level.keys, EmptyColumns(level.keys)) else t;
    if AppendRow(level.keys, t0.columns, level.fields).Err? {
      ColumnsStops(rows, i + 1);
    }
  }

  // ---------------------------------------------------------------------
  // Header attributes
  // ---------------------------------------------------------------------

  /** The header lines read for attributes: lines 0 to 10 of a launch. */
  const HEADER_LINES: nat := 11

  /** What one header line contributes: an attribute, nothing, or an error. */
  type Entry = string -> Result<Option<(string, string)>>

  /** The attribute loop over the first `n` header lines: a later line
      overwrites an attribute of the same name, and a launch of fewer lines
      raises IndexError. */
  function Attrs(sonde: seq<string>, entry: Entry, n: nat): (r: Result<map<string, string>>)
    ensures r.Ok? ==> n <= |sonde|
    ensures r.Ok? ==> forall i :: 0 <= i < n ==> entry(sonde[i]).Ok?
    ensures r.Err? && n <= |sonde| ==> exists i :: 0 <= i < n && entry(sonde[i]) == Err(r.error)
    ensures r.Err? && n > |sonde| && (forall i :: 0 <= i < |sonde| ==> entry(sonde[i]).Ok?) ==> r.error == IndexError
    decreases n
  {
    if n == 0 then Ok(map[])
    else
      var prev :- Attrs(sonde, entry, n - 1);
      if |sonde| <= n - 1 then Err(IndexError)
      else
        var e :- entry(sonde[n - 1]);
        if e.None? then Ok(prev) else Ok(prev[e.value.0 := e.value.1])
  }

  /** Line `i` gives attribute `k`. */
  ghost predicate Gives(sonde: seq<string>, entry: Entry, i: nat, k: string) {
    i < |sonde| && entry(sonde[i]).Ok? && entry(sonde[i]).value.Some? && entry(sonde[i]).value.value.0 == k
  }

  /** The attributes are exactly the names the lines give, each with the
      value of the last line that gives it. */
  lemma {:induction false} AttrsLastWins(sonde: seq<string>, entry: Entry, n: nat)
    requires Attrs(sonde, entry, n).Ok?
    ensures forall k :: k in Attrs(sonde, entry, n).value <==> exists i :: 0 <= i < n && Gives(sonde, entry, i, k)
    ensures forall i, k ::
      (0 <= i < n && Gives(sonde, entry, i, k) && (forall j :: i < j < n ==> !Gives(sonde, entry, j, k)))
      ==> Attrs(sonde, entry, n).value[k] == entry(sonde[i]).value.value.1
    decreases n
  {
    if n > 0 {
      AttrsLastWins(sonde, entry, n - 1);
      var prev := Attrs(sonde, entry, n - 1).value;
      var e := entry(sonde[n - 1]).value;
      var r := Attrs(sonde, entry, n).value;
      assert r == if e.None? then prev else prev[e.value.0 := e.value.1];
      forall k ensures k in r <==> exists i :: 0 <= i < n && Gives(sonde, entry, i, k) {
        if k in r && !(e.Some? && e.value.0 == k) {
          var i :| 0 <= i < n - 1 && Gives(sonde, entry, i, k);
        }
        if e.Some? && e.value.0 == k {
          assert Gives(sonde, entry, n - 1, k);
        }
      }
      forall i, k | 0 <= i < n && Gives(sonde, entry, i, k) && (forall j :: i < j < n ==> !Gives(sonde, entry, j, k))
        ensures r[k] == entry(sonde[i]).value.value.1
      {
        if i < n - 1 {
          assert !Gives(sonde, entry, n - 1, k);
        }
      }
    }
  }

  /** The attribute loop of both converters. */
  method ReadAttrs(sonde: seq<string>, entry: Entry) returns (r: Result<map<string, string>>)
    ensures r == Attrs(sonde, entry, HEADER_LINES)
  {
    var ncattrs: map<string, string> := map[];
    for i := 0 to HEADER_LINES
      invariant Attrs(sonde, entry, i) == Ok(ncattrs)
    {
      if |sonde| <= i {
        AttrsStops(sonde, entry, i + 1, HEADER_LINES);
        return Err(IndexError);
      }
      var e := entry(sonde[i]);
      if e.Err? {
        AttrsStops(sonde, entry, i + 1, HEADER_LINES);
        return Err(e.error);
      }
      if e.value.Some? {
        ncattrs := ncattrs[e.value.value.0 := e.value.value.1];
      }
    }
    r := Ok(ncattrs);
  }

  lemma {:induction false} AttrsStops(sonde: seq<string>, entry: Entry, i: nat, n: nat)
    requires i <= n && Attrs(sonde, entry, i).Err?
    ensures Attrs(sonde, entry, n) == Attrs(sonde, entry, i)
    decreases n
  {
    if i < n {
      AttrsStops(sonde, entry, i, n - 1);
    }
  }

  // ---------------------------------------------------------------------
  // Variables and output files
  // ---------------------------------------------------------------------

  /** A netCDF variable of a launch file: its name, its `units` attribute
      and its values (written as the table's strings; netCDF converts them
      to floats). */
  datatype NcVariable = NcVariable(name: string, units: string, values: seq<string>)

  function Names(vars: seq<NcVariable>): (names: seq<string>)
    ensures |names| == |vars| && forall i :: 0 <= i < |vars| ==> names[i] == vars[i].name
  {
    seq(|vars|, i requires 0 <= i < |vars| => vars[i].name)
  }

  /** The variable loop over the table's keys in insertion order: each key
      becomes a variable named `rename(key)` whose units are the column's
      entry 0 and whose values are the column from entry 2 on (entry 1 is the
      row of dashes under the units). A second variable of the same name is
      refused by netCDF. */
  function Variables(keys: seq<string>, cols: map<string, seq<string>>, rename: string -> string)
    : (r: Result<seq<NcVariable>>)
    ensures r.Ok? ==> |r.value| == |keys|
    ensures r.Ok? ==> forall i :: 0 <= i < |keys| ==>
      keys[i] in cols && |cols[keys[i]]| > 0 &&
      r.value[i] == NcVariable(rename(keys[i]), cols[keys[i]][0], Drop(cols[keys[i]], 2))
    ensures r.Ok? ==> forall i, j :: 0 <= i < j < |keys| ==> r.value[i].name != r.value[j].name
    decreases |keys|
  {
    if |keys| == 0 then Ok([])
    else
      var prev :- Variables(keys[..|keys| - 1], cols, rename);
      var key := keys[|keys| - 1];
      var name := rename(key);
      if name in Names(prev) then Err(NameInUse(name))
      else if key !in cols then Err(KeyError(key))
      else if |cols[key]| == 0 then Err(IndexError)
      else Ok(prev + [NcVariable(name, cols[key][0], Drop(cols[key], 2))])
  }

  /** Names that `rename` keeps apart. */
  predicate Injective(keys: seq<string>, rename: string -> string) {
    forall i, j :: 0 <= i < j < |keys| ==> rename(keys[i]) != rename(keys[j])
  }

  /** Variables fail only on a name clash: every column of a table read from
      at least one row holds the first row's field, so entry 0 exists. */
  lemma {:induction false} VariablesOk(rows: seq<Level>, rename: string -> string)
    requires AllDicts(rows) && Columns(rows).Ok?
    requires Injective(Columns(rows).value.keys, rename)
    ensures Variables(Columns(rows).value.keys, Columns(rows).value.columns, rename).Ok?
  {
    ColumnsSpec(rows);
    if |rows| > 0 {
      var t := Columns(rows).value;
      forall k | k in rows[0].keys ensures |t.columns[k]| > 0 {
        ColumnOfFirst(rows, k);
      }
      VariablesOfGood(t.keys, t.columns, rename);
    }
  }

  lemma {:induction false} ColumnOfFirst(rows: seq<Level>, k: string)
    requires |rows| > 0 && k in rows[0].keys && k in rows[0].fields
    ensures |ColumnOf(rows, k)| > 0 && ColumnOf(rows, k)[0] == rows[0].fields[k]
    decreases |rows|
  {
    if |rows| > 1 {
      ColumnOfFirst(rows[..|rows| - 1], k);
    }
  }

  lemma {:induction false} VariablesOfGood(keys: seq<string>, cols: map<string, seq<string>>, rename: string -> string)
    requires forall k :: k in keys ==> k in cols && |cols[k]| > 0
    requires Injective(keys, rename)
    ensures Variables(keys, cols, rename).Ok?
    decreases |keys|
  {
    if |keys| > 0 {
      var n := |keys| - 1;
      assert Injective(keys[..n], rename) by {
        forall i, j | 0 <= i < j < n ensures rename(keys[..n][i]) != rename(keys[..n][j]) {
          assert keys[..n][i] == keys[i] && keys[..n][j] == keys[j];
        }
      }
      VariablesOfGood(keys[..n], cols, rename);
      var prev := Variables(keys[..n], cols, rename).value;
      assert rename(keys[n]) !in Names(prev) by {
        forall i | 0 <= i < n ensures Names(prev)[i] != rename(keys[n]) {
          assert keys[..n][i] == keys[i];
        }
      }
    }
  }

  /** The variable loop of both converters. */
  method WriteVariables(t: Table, rename: string -> string) returns (r: Result<seq<NcVariable>>)
    ensures r == Variables(t.keys, t.columns, rename)
  {
    var vars: seq<NcVariable> := [];
    for i := 0 to |t.keys|
      invariant Variables(t.keys[..i], t.columns, rename) == Ok(vars)
    {
      var key := t.keys[i];
      var name := rename(key);
      assert t.keys[..i + 1] == t.keys[..i] + [key];
      if name in Names(vars) {
        VariablesStops(t.keys, i + 1, t.columns, rename);
        return Err(NameInUse(name));
      }
      if key !in t.columns {
        VariablesStops(t.keys, i + 1, t.columns, rename);
        return Err(KeyError(key));
      }
      if |t.columns[key]| == 0 {
        VariablesStops(t.keys, i + 1, t.columns, rename);
        return Err(IndexError);
      }
      vars := vars + [NcVariable(name, t.columns[key][0], Drop(t.columns[key], 2))];
    }
    assert t.keys[..|t.keys|] == t.keys;
    r := Ok(vars);
  }

  lemma {:induction false} VariablesStops(keys: seq<string>, j: nat, cols: map<string, seq<string>>, rename: string -> string)
    requires j <= |keys| && Variables(keys[..j], cols, rename).Err?
    ensures Variables(keys, cols, rename) == Variables(keys[..j], cols, rename)
    decreases |keys|
  {
    if j < |keys| {
      var n := |keys| - 1;
      assert keys[..n][..j] == keys[..j];
      VariablesStops(keys[..n], j, cols, rename);
    } else {
      assert keys[..j] == keys;
    }
  }

  /** One netCDF file per launch: its path, its global attributes and its
      variables along the unlimited dimension. */
  datatype SondeOutput = SondeOutput(filename: string, attrs: map<string, string>, variables: seq<NcVariable>)

  /** The outcome of converting a file: the launch files written, in launch
      order, and the error that stopped the conversion, if any. */
  datatype Conversion = Conversion(written: seq<SondeOutput>, failure: Option<Error>)

  /** The launch loop: launches are converted in order, and the first
      launch that fails stops the conversion; the files of the launches
      before it stay written. */
  function ConvertAll(launches: seq<seq<string>>, convert: seq<string> -> Result<SondeOutput>): (c: Conversion)
    ensures |c.written| <= |launches|
    ensures forall i :: 0 <= i < |c.written| ==> convert(launches[i]) == Ok(c.written[i])
    ensures c.failure.None? <==> |c.written| == |launches|
    ensures c.failure.Some? ==> convert(launches[|c.written|]) == Err(c.failure.value)
    decreases |launches|
  {
    if |launches| == 0 then Conversion([], None)
    else
      var prev := ConvertAll(launches[..|launches| - 1], convert);
      if prev.failure.Some? then prev
      else match convert(launches[|launches| - 1]) {
        case Err(e) => Conversion(prev.written, Some(e))
        case Ok(o) => Conversion(prev.written + [o], None)
      }
  }

  /** A whole input file: grouping into launches, then the launch loop. */
  function ConvertFile(lines: seq<string>, convert: seq<string> -> Result<SondeOutput>): (c: Conversion)
    ensures Launches(lines).Err? ==> c == Conversion([], Some(IndexError))
    ensures Launches(lines).Ok? ==> |c.written| <= CountMarkers(lines)
  {
    match Launches(lines) {
      case Err(e) => Conversion([], Some(e))
      case Ok(launches) => ConvertAll(launches, convert)
    }
  }

  lemma {:induction false} ConvertAllStops(launches: seq<seq<string>>, i: nat, convert: seq<string> -> Result<SondeOutput>)
    requires i <= |launches| && ConvertAll(launches[..i], convert).failure.Some?
    ensures ConvertAll(launches, convert) == ConvertAll(launches[..i], convert)
    decreases |launches|
  {
    if i < |launches| {
      var n := |launches| - 1;
      assert launches[..n][..i] == launches[..i];
      ConvertAllStops(launches[..n], i, convert);
    } else {
      assert launches[..i] == launches;
    }
  }

  /** One more launch converted: its file is added, or its error stops the
      conversion. */
  lemma ConvertAllNext(launches: seq<seq<string>>, i: nat, convert: seq<string> -> Result<SondeOutput>, written: seq<SondeOutput>)
    requires i < |launches| && ConvertAll(launches[..i], convert) == Conversion(written, None)
    ensures convert(launches[i]).Ok? ==>
      ConvertAll(launches[..i + 1], convert) == Conversion(written + [convert(launches[i]).value], None)
    ensures convert(launches[i]).Err? ==>
      ConvertAll(launches, convert) == Conversion(written, Some(convert(launches[i]).error))
  {
    assert launches[..i + 1][..i] == launches[..i];
    if convert(launches[i]).Err? {
      ConvertAllStops(launches, i + 1, convert);
    }
  }

  lemma ConvertFileOf(lines: seq<string>, launches: seq<seq<string>>, convert: seq<string> -> Result<SondeOutput>)
    requires Launches(lines) == Ok(launches)
    ensures ConvertFile(lines, convert) == ConvertAll(launches, convert)
  {
  }

  /** The variables of a table read from rows: one per key of the first
      row, in its order, named by `rename`, with the first row's field as
      units and the key's fields from the third row on as values. */
  lemma {:induction false} TableVariables(rows: seq<Level>, rename: string -> string)
    requires AllDicts(rows) && Columns(rows).Ok?
    requires Variables(Columns(rows).value.keys, Columns(rows).value.columns, rename).Ok?
    ensures var vars := Variables(Columns(rows).value.keys, Columns(rows).value.columns, rename).value;
      (|rows| == 0 ==> vars == []) &&
      (|rows| > 0 ==>
        |vars| == |rows[0].keys| && Injective(rows[0].keys, rename) &&
        forall i :: 0 <= i < |vars| ==>
          vars[i] == NcVariable(rename(rows[0].keys[i]), rows[0].fields[rows[0].keys[i]], Drop(ColumnOf(rows, rows[0].keys[i]), 2)))
  {
    ColumnsSpec(rows);
    var t := Columns(rows).value;
    if |rows| > 0 {
      forall i | 0 <= i < |t.keys| ensures t.columns[t.keys[i]][0] == rows[0].fields[t.keys[i]] {
        ColumnOfFirst(rows, t.keys[i]);
      }
    }
  }
}
