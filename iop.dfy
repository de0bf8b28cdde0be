/** Model of lidar_to_iop.py: merges the netCDF files of every day of an
    intensive observation period (IOP) into one file, keeping only the
    records strictly inside the period.

    Datetimes are whole seconds since 1970-01-01 00:00 (naive, UTC); a
    date is a day number since 1970-01-01. The files a day's glob pattern
    finds are supplied by the parameter `glob`, already opened. */
module Iop {
  import opened Common
  import opened Text

  /** `FILL_VALUE`: the fill value of every new variable, and the entry a
      scalar variable gains per file. */
  const FILL_VALUE: real := -9999.0

  const SECONDS_PER_DAY: int := 86400

  // ---------------------------------------------------------------------
  // Days and times
  // ---------------------------------------------------------------------

  /** `date(t.year, t.month, t.day)` of a datetime, as a day number. */
  function Day(t: int): (d: int)
    ensures d * SECONDS_PER_DAY <= t < (d + 1) * SECONDS_PER_DAY
  {
    t / SECONDS_PER_DAY
  }

  /** `datetime(d.year, d.month, d.day)`: the midnight starting day d. */
  function Midnight(d: int): int {
    d * SECONDS_PER_DAY
  }

  /** The `days` list of process_files: every date from start's to end's,
      inclusive, ascending; empty when end's date comes first. */
  function Days(start: int, end: int): (days: seq<int>)
    ensures |days| == if Day(end) < Day(start) then 0 else Day(end) - Day(start) + 1
    ensures forall d :: d in days <==> Day(start) <= d <= Day(end)
    ensures forall i, j :: 0 <= i < j < |days| ==> days[i] < days[j]
    ensures |days| > 0 ==> days[0] == Day(start) && days[|days| - 1] == Day(end)
  {
    var n := Day(end) - Day(start) + 1;
    var days := seq(if n < 0 then 0 else n, x => Day(start) + x);
    forall d | Day(start) <= d <= Day(end)
      ensures d in days
    {
      assert days[d - Day(start)] == d;
    }
    days
  }

  /** hours_to_epoch_time: the epoch of each hour offset from the midnight
      of `date` (the datetimes it also returns are the same instants). */
  function HoursToEpochTime(date: int, hours: seq<real>): (epochs: seq<real>)
    ensures |epochs| == |hours|
    ensures forall i :: 0 <= i < |hours| ==> (epochs[i] - Midnight(Day(date)) as real) / 3600.0 == hours[i]
  {
    seq(|hours|, i requires 0 <= i < |hours| => Midnight(Day(date)) as real + 3600.0 * hours[i])
  }

  /** Hours within [0, 24) land on the day of `date`. */
  lemma HoursSameDay(date: int, hours: seq<real>)
    requires forall i :: 0 <= i < |hours| ==> 0.0 <= hours[i] < 24.0
    ensures var epochs := HoursToEpochTime(date, hours);
      forall i :: 0 <= i < |hours| ==>
        Midnight(Day(date)) as real <= epochs[i] < Midnight(Day(date) + 1) as real
  {
  }

  /** Later hours give later epochs. */
  lemma HoursOrdered(date: int, hours: seq<real>)
    requires forall i, j :: 0 <= i < j < |hours| ==> hours[i] < hours[j]
    ensures var epochs := HoursToEpochTime(date, hours);
      forall i, j :: 0 <= i < j < |hours| ==> epochs[i] < epochs[j]
  {
  }

  // ---------------------------------------------------------------------
  // Input files
  // ---------------------------------------------------------------------

  /** One record (one row along the first dimension) of a variable. */
  datatype Value = Num(x: real) | Vec(xs: seq<real>)

  /** A variable's data: a scalar (shape `()`) or records along its first
      dimension. */
  datatype NcVar = Scalar(x: real) | Array(rows: seq<Value>)

  datatype Named = Named(name: string, data: NcVar)

  /** An opened input file: its dimensions, its variables in file order,
      and its `base_time` and `time_offset` values. */
  datatype NcFile = NcFile(dims: map<string, nat>, vars: seq<Named>, baseTime: real, timeOffset: seq<real>)

  /** `nc[name]`: the variable of that name; netCDF4 raises IndexError for
      a name the file does not hold. */
  function Find(vars: seq<Named>, name: string): (r: Option<NcVar>)
    ensures r.Some? <==> exists i :: 0 <= i < |vars| && vars[i].name == name
    ensures r.Some? ==> exists i :: 0 <= i < |vars| && vars[i] == Named(name, r.value)
    decreases |vars|
  {
    if |vars| == 0 then None
    else if vars[0].name == name then Some(vars[0].data)
    else
      var r := Find(vars[1..], name);
      assert r.Some? ==> vars[1..][0..] == vars[1..];
      r
  }

  /** A variable setup_new_nc copies: its name mentions neither `time`
      nor `hour`. */
  predicate Selected(name: string) {
    !Contains(name, "time") && !Contains(name, "hour")
  }

  /** The names of the selected variables, in file order. */
  function Picked(vars: seq<Named>): (names: seq<string>)
    ensures |names| <= |vars|
    decreases |vars|
  {
    if |vars| == 0 then []
    else
      var last := vars[|vars| - 1];
      var front := Picked(vars[..|vars| - 1]);
      if Selected(last.name) then front + [last.name] else front
  }

  /** Exactly the selected names of the file are picked. */
  lemma {:induction false} PickedMembers(vars: seq<Named>)
    ensures forall n :: n in Picked(vars) <==> Selected(n) && exists i :: 0 <= i < |vars| && vars[i].name == n
    decreases |vars|
  {
    if |vars| > 0 {
      var front := vars[..|vars| - 1];
      PickedMembers(front);
      assert forall i :: 0 <= i < |vars| - 1 ==> front[i] == vars[i];
      forall n | Selected(n) && exists i :: 0 <= i < |vars| && vars[i].name == n
        ensures n in Picked(vars)
      {
        var i :| 0 <= i < |vars| && vars[i].name == n;
        if i < |vars| - 1 {
          assert front[i].name == n;
        }
      }
    }
  }

  // ---------------------------------------------------------------------
  // setup_new_nc
  // ---------------------------------------------------------------------

  /** The `variables` dict of lists, as its key order and its lists, with
      the new file's height size and the variables it created scalar. */
  datatype State = State(heightSize: nat, names: seq<string>, scalars: set<string>,
                         lists: map<string, seq<Value>>)

  /** Every key the loops visit has a list. */
  predicate Valid(st: State) {
    forall n :: n in st.names ==> n in st.lists
  }

  /** The names whose new variable is a scalar (copied from a scalar). */
  function ScalarsOf(vars: seq<Named>): (scalars: set<string>)
    ensures forall n :: n in scalars <==> n in Picked(vars) && Find(vars, n).Some? && Find(vars, n).value.Scalar?
  {
    set n | n in Picked(vars) && Find(vars, n).Some? && Find(vars, n).value.Scalar?
  }

  /** setup_new_nc: `epoch_time` first, then the selected variables in file
      order, each with an empty list; the file needs a `height` dimension. */
  function Setup(nc: NcFile): (r: Result<State>)
    ensures r.Err? <==> "height" !in nc.dims
    ensures r.Err? ==> r.error == KeyError("height")
    ensures r.Ok? ==> Valid(r.value) && r.value.heightSize == nc.dims["height"]
    ensures r.Ok? ==> forall n :: n in r.value.names <==>
      n == "epoch_time" || (Selected(n) && exists i :: 0 <= i < |nc.vars| && nc.vars[i].name == n)
    ensures r.Ok? ==> forall n :: n in r.value.lists ==> r.value.lists[n] == []
    ensures r.Ok? ==> forall n :: n in r.value.scalars ==> n in r.value.names && Find(nc.vars, n).Some? && Find(nc.vars, n).value.Scalar?
  {
    if "height" !in nc.dims then Err(KeyError("height"))
    else
      var names := ["epoch_time"] + Picked(nc.vars);
      PickedMembers(nc.vars);
      Ok(State(nc.dims["height"], names, ScalarsOf(nc.vars), EmptyLists(names)))
  }

  /** `variables[var] = []` for every key. */
  function EmptyLists(names: seq<string>): (lists: map<string, seq<Value>>)
    ensures forall n :: n in lists <==> n in names
    ensures forall n :: n in lists ==> lists[n] == []
  {
    map n | n in names :: []
  }

  lemma EmptyListsStep(names: seq<string>, name: string)
    ensures EmptyLists(names + [name]) == EmptyLists(names)[name := []]
  {
  }

  /** The loop of setup_new_nc over the file's variables. */
  method SetupNew(nc: NcFile) returns (r: Result<State>)
    ensures r == Setup(nc)
  {
    if "height" !in nc.dims {
      return Err(KeyError("height"));
    }
    var names := ["epoch_time"];
    var lists: map<string, seq<Value>> := map["epoch_time" := []];
    assert lists == EmptyLists(names);
    for i := 0 to |nc.vars|
      invariant names == ["epoch_time"] + Picked(nc.vars[..i])
      invariant lists == EmptyLists(names)
    {
      var v := nc.vars[i];
      PickedStep(nc.vars, i);
      if Selected(v.name) {
        EmptyListsStep(names, v.name);
        names := names + [v.name];
        lists := lists[v.name := []];
      }
    }
    assert nc.vars[..|nc.vars|] == nc.vars;
    return Ok(State(nc.dims["height"], names, ScalarsOf(nc.vars), lists));
  }

  /** Picking one more variable of the file. */
  lemma PickedStep(vars: seq<Named>, i: nat)
    requires i < |vars|
    ensures Picked(vars[..i + 1]) == Picked(vars[..i]) + if Selected(vars[i].name) then [vars[i].name] else []
  {
    assert vars[..i + 1][..i] == vars[..i];
  }

  // ---------------------------------------------------------------------
  // Selecting the records inside the period
  // ---------------------------------------------------------------------

  /** `epoch_list`: base_time plus each time offset. */
  function Epochs(nc: NcFile): (epochs: seq<real>)
    ensures |epochs| == |nc.timeOffset|
    ensures forall i :: 0 <= i < |epochs| ==> epochs[i] - nc.baseTime == nc.timeOffset[i]
  {
    seq(|nc.timeOffset|, i requires 0 <= i < |nc.timeOffset| => nc.baseTime + nc.timeOffset[i])
  }

  /** `ind`: which records lie strictly between start and end. */
  function Window(epochs: seq<real>, start: int, end: int): (ind: seq<bool>)
    ensures |ind| == |epochs|
    ensures forall i :: 0 <= i < |epochs| ==> (ind[i] <==> start as real < epochs[i] < end as real)
  {
    seq(|epochs|, i requires 0 <= i < |epochs| => start as real < epochs[i] && epochs[i] < end as real)
  }

  /** The positions a boolean index keeps, ascending. */
  function Chosen(ind: seq<bool>): (ks: seq<nat>)
    ensures forall k :: 0 <= k < |ks| ==> ks[k] < |ind| && ind[ks[k]]
    ensures forall i :: 0 <= i < |ind| && ind[i] ==> i in ks
    ensures forall k, l :: 0 <= k < l < |ks| ==> ks[k] < ks[l]
    decreases |ind|
  {
    if |ind| == 0 then []
    else
      var front := Chosen(ind[..|ind| - 1]);
      if ind[|ind| - 1] then front + [|ind| - 1] else front
  }

  /** numpy boolean indexing `rows[ind]` (lengths equal). */
  function Select<T>(rows: seq<T>, ind: seq<bool>): (r: seq<T>)
    requires |rows| == |ind|
    ensures |r| == |Chosen(ind)|
    ensures forall k :: 0 <= k < |r| ==> r[k] == rows[Chosen(ind)[k]]
    decreases |rows|
  {
    if |rows| == 0 then []
    else
      var n := |rows| - 1;
      var front := Select(rows[..n], ind[..n]);
      if ind[n] then front + [rows[n]] else front
  }

  function Nums(xs: seq<real>): (vs: seq<Value>)
    ensures |vs| == |xs| && forall i :: 0 <= i < |xs| ==> vs[i] == Num(xs[i])
  {
    seq(|xs|, i requires 0 <= i < |xs| => Num(xs[i]))
  }

  /** What the list of `name` gains from one file (the body of the loop
      over `variables.keys()`). */
  function Gain(name: string, nc: NcFile, start: int, end: int): (r: Result<seq<Value>>)
    ensures name == "epoch_time" ==> (r.Ok? &&
      forall v :: v in r.value <==>
        exists i :: 0 <= i < |nc.timeOffset| && v == Num(Epochs(nc)[i]) && start as real < Epochs(nc)[i] < end as real)
    ensures name != "epoch_time" && Find(nc.vars, name).None? ==> r == Err(IndexError)
    ensures name != "epoch_time" && Find(nc.vars, name).Some? ==>
      var v := Find(nc.vars, name).value;
      if name == "height" then r == (if v.Scalar? then Err(TypeError) else Ok(v.rows))
      else if v.Scalar? then r == Ok([Num(FILL_VALUE)])
      else if |v.rows| != |nc.timeOffset| then r == Err(IndexError)
      else r.Ok? && forall w :: w in r.value <==>
        exists i :: 0 <= i < |v.rows| && w == v.rows[i] && start as real < Epochs(nc)[i] < end as real
  {
    var epochs := Epochs(nc);
    var ind := Window(epochs, start, end);
    if name == "epoch_time" then
      var r := Select(Nums(epochs), ind);
      SelectMembers(Nums(epochs), ind);
      Ok(r)
    else match Find(nc.vars, name)
      case None => Err(IndexError)
      case Some(v) =>
        if name == "height" then (if v.Scalar? then Err(TypeError) else Ok(v.rows))
        else if v.Scalar? then Ok([Num(FILL_VALUE)])
        else if |v.rows| != |ind| then Err(IndexError)
        else
          SelectMembers(v.rows, ind);
          Ok(Select(v.rows, ind))
  }

  /** Boolean indexing keeps exactly the records whose flag is set. */
  lemma SelectMembers<T>(rows: seq<T>, ind: seq<bool>)
    requires |rows| == |ind|
    ensures forall w :: w in Select(rows, ind) <==> exists i :: 0 <= i < |rows| && w == rows[i] && ind[i]
  {
    var r := Select(rows, ind);
    var ks := Chosen(ind);
    forall w | w in r
      ensures exists i :: 0 <= i < |rows| && w == rows[i] && ind[i]
    {
      var k :| 0 <= k < |r| && r[k] == w;
      assert rows[ks[k]] == w && ind[ks[k]];
    }
    forall i | 0 <= i < |rows| && ind[i]
      ensures rows[i] in r
    {
      var k :| 0 <= k < |ks| && ks[k] == i;
      assert r[k] == rows[i];
    }
  }

  /** The in-period epochs keep their file order. */
  lemma EpochsKeepOrder(nc: NcFile, start: int, end: int)
    requires forall i, j :: 0 <= i < j < |nc.timeOffset| ==> nc.timeOffset[i] < nc.timeOffset[j]
    ensures var g := Gain("epoch_time", nc, start, end).value;
      forall k, l :: 0 <= k < l < |g| ==> g[k].Num? && g[l].Num? && g[k].x < g[l].x
  {
    var epochs := Epochs(nc);
    var ind := Window(epochs, start, end);
    var ks := Chosen(ind);
    var g := Select(Nums(epochs), ind);
    assert Gain("epoch_time", nc, start, end).value == g;
    forall k, l | 0 <= k < l < |g|
      ensures g[k].Num? && g[l].Num? && g[k].x < g[l].x
    {
      assert g[k] == Num(epochs[ks[k]]) && g[l] == Num(epochs[ks[l]]);
    }
  }

  // ---------------------------------------------------------------------
  // Accumulation
  // ---------------------------------------------------------------------

  /** The gains of one file, name by name. */
  function FileGain(nc: NcFile, start: int, end: int): string -> Result<seq<Value>> {
    (name: string) => Gain(name, nc, start, end)
  }

  /** The loop over `variables.keys()`: each list in turn gains its
      records; the first failing name stops the run. */
  function AddGains(names: seq<string>, lists: map<string, seq<Value>>,
                    gain: string -> Result<seq<Value>>): (r: Result<map<string, seq<Value>>>)
    requires forall n :: n in names ==> n in lists
    ensures r.Ok? <==> forall n :: n in names ==> gain(n).Ok?
    ensures r.Err? ==> exists n :: n in names && gain(n) == Err(r.error)
    ensures r.Ok? ==> r.value.Keys == lists.Keys
    ensures r.Ok? ==> forall n :: n in lists && n !in names ==> r.value[n] == lists[n]
    ensures r.Ok? ==> forall n :: n in names ==> lists[n] + gain(n).value <= r.value[n]
    decreases |names|
  {
    if |names| == 0 then Ok(lists)
    else
      var front := names[..|names| - 1];
      var n := names[|names| - 1];
      assert forall m :: m in front ==> m in names;
      assert forall m :: m in names ==> m in front || m == n;
      var m :- AddGains(front, lists, gain);
      var g :- gain(n);
      Ok(m[n := m[n] + g])
  }

  /** Names are the keys of a dict, so each appears once. */
  predicate Distinct(names: seq<string>) {
    forall i, j :: 0 <= i < j < |names| ==> names[i] != names[j]
  }

  /** With distinct keys each list gains exactly its own records, appended. */
  lemma {:induction false} AddGainsExact(names: seq<string>, lists: map<string, seq<Value>>,
                                         gain: string -> Result<seq<Value>>)
    requires forall n :: n in names ==> n in lists
    requires Distinct(names)
    requires AddGains(names, lists, gain).Ok?
    ensures forall n :: n in names ==> AddGains(names, lists, gain).value[n] == lists[n] + gain(n).value
    decreases |names|
  {
    if |names| > 0 {
      var front := names[..|names| - 1];
      var last := names[|names| - 1];
      assert forall m :: m in front ==> m in names;
      assert last !in front;
      AddGainsExact(front, lists, gain);
      assert forall m :: m in names ==> m in front || m == last;
    }
  }

  /** One file's accumulation (process_files, lines 112-129). */
  function AddFile(st: State, nc: NcFile, start: int, end: int): (r: Result<State>)
    requires Valid(st)
    ensures r.Ok? ==> Valid(r.value) && r.value.names == st.names && r.value.scalars == st.scalars
    ensures r.Ok? ==> r.value.heightSize == st.heightSize
  {
    var m :- AddGains(st.names, st.lists, FileGain(nc, start, end));
    Ok(st.(lists := m))
  }

  /** The loop over the keys, appending to the lists in place. */
  method Accumulate(st: State, nc: NcFile, start: int, end: int) returns (r: Result<State>)
    requires Valid(st)
    ensures r == AddFile(st, nc, start, end)
  {
    var gain := FileGain(nc, start, end);
    var lists := st.lists;
    for j := 0 to |st.names|
      invariant AddGains(st.names[..j], st.lists, gain) == Ok(lists)
    {
      var name := st.names[j];
      assert st.names[..j + 1][..j] == st.names[..j];
      var g := Gain(name, nc, start, end);
      if g.Err? {
        AddGainsStops(st.names, j, st.lists, gain);
        return Err(g.error);
      }
      lists := lists[name := lists[name] + g.value];
    }
    assert st.names[..|st.names|] == st.names;
    return Ok(st.(lists := lists));
  }

  /** The first failing name decides the error. */
  lemma {:induction false} AddGainsStops(names: seq<string>, j: nat, lists: map<string, seq<Value>>,
                                         gain: string -> Result<seq<Value>>)
    requires forall n :: n in names ==> n in lists
    requires j < |names| && AddGains(names[..j], lists, gain).Ok? && gain(names[j]).Err?
    ensures AddGains(names, lists, gain) == Err(gain(names[j]).error)
    decreases |names|
  {
    if j == |names| - 1 {
      assert names[..|names| - 1] == names[..j];
    } else {
      assert names[..|names| - 1][..j] == names[..j];
      AddGainsStops(names[..|names| - 1], j, lists, gain);
    }
  }

  // ---------------------------------------------------------------------
  // process_files
  // ---------------------------------------------------------------------

  /** One file: set up the new file and the dict on the first one
      (`first` is `st.None?`), then accumulate. */
  function Step(st: Option<State>, nc: NcFile, start: int, end: int): (r: Result<State>)
    requires st.Some? ==> Valid(st.value)
    ensures r.Ok? ==> Valid(r.value)
  {
    var s :- if st.None? then Setup(nc) else Ok(st.value);
    AddFile(s, nc, start, end)
  }

  /** The loop over one day's files. */
  function RunFiles(files: seq<NcFile>, st: Option<State>, start: int, end: int): (r: Result<Option<State>>)
    requires st.Some? ==> Valid(st.value)
    ensures r.Ok? ==> r.value.Some? ==> Valid(r.value.value)
    ensures r.Ok? && |files| > 0 ==> r.value.Some?
    decreases |files|
  {
    if |files| == 0 then Ok(st)
    else
      var s :- Step(st, files[0], start, end);
      RunFiles(files[1..], Some(s), start, end)
  }

  /** The loop over the days: a day without files raises
      `Exception("No files found!")`. */
  function RunDays(days: seq<int>, glob: int -> seq<NcFile>, st: Option<State>,
                   start: int, end: int): (r: Result<Option<State>>)
    requires st.Some? ==> Valid(st.value)
    ensures r.Ok? ==> r.value.Some? ==> Valid(r.value.value)
    decreases |days|
  {
    if |days| == 0 then Ok(st)
    else
      var files := glob(days[0]);
      if |files| == 0 then Err(NoFilesFound)
      else
        var s :- RunFiles(files, st, start, end);
        RunDays(days[1..], glob, s, start, end)
  }

  /** What write_variables leaves in a new variable: the whole list, or its
      first element when the whole assignment raised IndexError. */
  datatype Written = Whole(values: seq<Value>) | First(value: Value)

  datatype IopOutput = IopOutput(heightSize: nat, variables: map<string, Written>)

  /** write_variables over the keys: `rejects(name, values)` says whether
      netCDF4 raises IndexError for the whole assignment. */
  function Writes(names: seq<string>, lists: map<string, seq<Value>>,
                  rejects: (string, seq<Value>) -> bool): (r: Result<map<string, Written>>)
    requires forall n :: n in names ==> n in lists
    ensures r.Err? <==> exists n :: n in names && rejects(n, lists[n]) && lists[n] == []
    ensures r.Err? ==> r.error == IndexError
    ensures r.Ok? ==> r.value.Keys == set n | n in names
    ensures r.Ok? ==> forall n :: n in names ==>
      r.value[n] == if rejects(n, lists[n]) then First(lists[n][0]) else Whole(lists[n])
    decreases |names|
  {
    if |names| == 0 then Ok(map[])
    else
      var front := names[..|names| - 1];
      var n := names[|names| - 1];
      assert forall m :: m in front ==> m in names;
      assert forall m :: m in names ==> m in front || m == n;
      var out :- Writes(front, lists, rejects);
      if !rejects(n, lists[n]) then Ok(out[n := Whole(lists[n])])
      else if lists[n] == [] then Err(IndexError)
      else Ok(out[n := First(lists[n][0])])
  }

  /** The loop of write_variables. */
  method WriteVariables(st: State, rejects: (string, seq<Value>) -> bool) returns (r: Result<map<string, Written>>)
    requires Valid(st)
    ensures r == Writes(st.names, st.lists, rejects)
  {
    var out: map<string, Written> := map[];
    for j := 0 to |st.names|
      invariant Writes(st.names[..j], st.lists, rejects) == Ok(out)
    {
      var name := st.names[j];
      assert st.names[..j + 1][..j] == st.names[..j];
      if !rejects(name, st.lists[name]) {
        out := out[name := Whole(st.lists[name])];
      } else if st.lists[name] == [] {
        WritesStops(st.names, j, st.lists, rejects);
        return Err(IndexError);
      } else {
        out := out[name := First(st.lists[name][0])];
      }
    }
    assert st.names[..|st.names|] == st.names;
    return Ok(out);
  }

  /** The first name whose fallback finds an empty list decides the error. */
  lemma {:induction false} WritesStops(names: seq<string>, j: nat, lists: map<string, seq<Value>>,
                                       rejects: (string, seq<Value>) -> bool)
    requires forall n :: n in names ==> n in lists
    requires j < |names| && Writes(names[..j], lists, rejects).Ok?
    requires rejects(names[j], lists[names[j]]) && lists[names[j]] == []
    ensures Writes(names, lists, rejects) == Err(IndexError)
    decreases |names|
  {
    assert names[j] in names;
  }

  /** process_files: the whole run. With no day at all `new_nc` is never
      bound. */
  function ProcessFilesSpec(start: int, end: int, glob: int -> seq<NcFile>,
                            rejects: (string, seq<Value>) -> bool): Result<IopOutput>
  {
    var st :- RunDays(Days(start, end), glob, None, start, end);
    if st.None? then Err(Unbound)
    else
      var written :- Writes(st.value.names, st.value.lists, rejects);
      Ok(IopOutput(st.value.heightSize, written))
  }

  /** process_files with its loops over days and files and its `first` flag. */
  method ProcessFiles(start: int, end: int, glob: int -> seq<NcFile>,
                      rejects: (string, seq<Value>) -> bool) returns (r: Result<IopOutput>)
    ensures r == ProcessFilesSpec(start, end, glob, rejects)
  {
    var days := Days(start, end);
    var first := true;
    var st: State := State(0, [], {}, map[]);
    for i := 0 to |days|
      invariant !first ==> Valid(st)
      invariant RunDays(days, glob, None, start, end) ==
        RunDays(days[i..], glob, if first then None else Some(st), start, end)
    {
      var files := glob(days[i]);
      assert days[i..][1..] == days[i + 1..];
      if |files| == 0 {
        return Err(NoFilesFound);
      }
      ghost var before := if first then None else Some(st);
      for j := 0 to |files|
        invariant !first ==> Valid(st)
        invariant j > 0 ==> !first
        invariant RunFiles(files, before, start, end) ==
          RunFiles(files[j..], if first then None else Some(st), start, end)
      {
        var nc := files[j];
        assert files[j..][1..] == files[j + 1..];
        var s: State;
        if first {
          var setup := SetupNew(nc);
          if setup.Err? {
            return Err(setup.error);
          }
          s := setup.value;
          first := false;
        } else {
          s := st;
        }
        var acc := Accumulate(s, nc, start, end);
        if acc.Err? {
          return Err(acc.error);
        }
        st := acc.value;
      }
    }
    if first {
      return Err(Unbound);
    }
    var written := WriteVariables(st, rejects);
    if written.Err? {
      return Err(written.error);
    }
    return Ok(IopOutput(st.heightSize, written.value));
  }

  // ---------------------------------------------------------------------
  // Properties
  // ---------------------------------------------------------------------

  /** `epoch_time` contains `time`, so it is never also a copied variable. */
  lemma EpochTimeNotSelected()
    ensures !Selected("epoch_time")
  {
    assert "epoch_time"[6..][..4] == "time";
    assert Contains("epoch_time"[6..], "time");
    assert "epoch_time"[1..][1..][1..][1..][1..][1..] == "epoch_time"[6..];
  }

  /** The selected names of a file with distinct variable names are
      distinct. */
  lemma {:induction false} PickedDistinct(vars: seq<Named>)
    requires forall i, j :: 0 <= i < j < |vars| ==> vars[i].name != vars[j].name
    ensures Distinct(Picked(vars))
    decreases |vars|
  {
    if |vars| > 0 {
      var front := vars[..|vars| - 1];
      PickedDistinct(front);
      PickedMembers(front);
      assert forall i :: 0 <= i < |front| ==> front[i] == vars[i];
      assert forall n :: n in Picked(front) ==> n != vars[|vars| - 1].name;
    }
  }

  /** The keys setup_new_nc creates are distinct, as a dict's keys are. */
  lemma SetupDistinct(nc: NcFile)
    requires forall i, j :: 0 <= i < j < |nc.vars| ==> nc.vars[i].name != nc.vars[j].name
    requires Setup(nc).Ok?
    ensures Distinct(Setup(nc).value.names)
  {
    PickedDistinct(nc.vars);
    PickedMembers(nc.vars);
    EpochTimeNotSelected();
    var names := Setup(nc).value.names;
    assert names == ["epoch_time"] + Picked(nc.vars);
    assert "epoch_time" !in Picked(nc.vars);
  }

  /** A list only ever holds what it held before and the records its own
      name gained. */
  lemma {:induction false} AddGainsFrom(names: seq<string>, lists: map<string, seq<Value>>,
                                        gain: string -> Result<seq<Value>>)
    requires forall n :: n in names ==> n in lists
    requires AddGains(names, lists, gain).Ok?
    ensures forall n, v :: n in lists && v in AddGains(names, lists, gain).value[n] ==>
      v in lists[n] || (n in names && v in gain(n).value)
    decreases |names|
  {
    if |names| > 0 {
      var front := names[..|names| - 1];
      assert forall m :: m in front ==> m in names;
      AddGainsFrom(front, lists, gain);
    }
  }

  /** Per file, with distinct keys: every list gains exactly the records of
      its kind (process_files, lines 119-129). */
  lemma FileGainsExact(st: State, nc: NcFile, start: int, end: int)
    requires Valid(st) && Distinct(st.names)
    requires AddFile(st, nc, start, end).Ok?
    ensures forall n :: n in st.names ==>
      AddFile(st, nc, start, end).value.lists[n] == st.lists[n] + Gain(n, nc, start, end).value
  {
    AddGainsExact(st.names, st.lists, FileGain(nc, start, end));
  }

  /** Every value of a list is a record strictly inside the period. */
  predicate InPeriod(vs: seq<Value>, start: int, end: int) {
    forall v :: v in vs ==> v.Num? && start as real < v.x < end as real
  }

  /** The state invariant behind the window property. */
  predicate EpochsInPeriod(st: State, start: int, end: int) {
    Valid(st) && "epoch_time" in st.names && InPeriod(st.lists["epoch_time"], start, end)
  }

  lemma StepInPeriod(st: Option<State>, nc: NcFile, start: int, end: int)
    requires st.Some? ==> EpochsInPeriod(st.value, start, end)
    requires Step(st, nc, start, end).Ok?
    ensures EpochsInPeriod(Step(st, nc, start, end).value, start, end)
  {
    var s := if st.None? then Setup(nc).value else st.value;
    AddGainsFrom(s.names, s.lists, FileGain(nc, start, end));
  }

  lemma {:induction false} RunFilesInPeriod(files: seq<NcFile>, st: Option<State>, start: int, end: int)
    requires st.Some? ==> EpochsInPeriod(st.value, start, end)
    requires RunFiles(files, st, start, end).Ok?
    ensures var r := RunFiles(files, st, start, end).value; r.Some? ==> EpochsInPeriod(r.value, start, end)
    decreases |files|
  {
    if |files| > 0 {
      StepInPeriod(st, files[0], start, end);
      RunFilesInPeriod(files[1..], Some(Step(st, files[0], start, end).value), start, end);
    }
  }

  lemma {:induction false} RunDaysInPeriod(days: seq<int>, glob: int -> seq<NcFile>, st: Option<State>,
                                           start: int, end: int)
    requires st.Some? ==> EpochsInPeriod(st.value, start, end)
    requires RunDays(days, glob, st, start, end).Ok?
    ensures var r := RunDays(days, glob, st, start, end).value; r.Some? ==> EpochsInPeriod(r.value, start, end)
    decreases |days|
  {
    if |days| > 0 {
      var files := glob(days[0]);
      RunFilesInPeriod(files, st, start, end);
      RunDaysInPeriod(days[1..], glob, RunFiles(files, st, start, end).value, start, end);
    }
  }

  /** The time filter is strict on both ends: every epoch written lies
      strictly between start and end (process_files, line 117). */
  lemma EpochsStrictlyInside(start: int, end: int, glob: int -> seq<NcFile>,
                             rejects: (string, seq<Value>) -> bool)
    requires ProcessFilesSpec(start, end, glob, rejects).Ok?
    ensures var out := ProcessFilesSpec(start, end, glob, rejects).value;
      "epoch_time" in out.variables &&
      match out.variables["epoch_time"]
      case Whole(vs) => InPeriod(vs, start, end)
      case First(v) => v.Num? && start as real < v.x < end as real
  {
    RunDaysInPeriod(Days(start, end), glob, None, start, end);
    var st := RunDays(Days(start, end), glob, None, start, end).value.value;
    var written := Writes(st.names, st.lists, rejects).value;
    assert ProcessFilesSpec(start, end, glob, rejects).value.variables == written;
    assert "epoch_time" in st.names;
    var vs := st.lists["epoch_time"];
    assert written["epoch_time"] == if rejects("epoch_time", vs) then First(vs[0]) else Whole(vs);
    if rejects("epoch_time", vs) {
      assert vs[0] in vs;
    }
  }

  /** Lists only grow by appending, file after file; the keys, the scalar
      variables and the height size never change after the first file. */
  predicate Grows(s: State, t: State) {
    t.names == s.names && t.scalars == s.scalars && t.heightSize == s.heightSize &&
    t.lists.Keys == s.lists.Keys && forall n :: n in s.lists ==> s.lists[n] <= t.lists[n]
  }

  lemma StepGrows(s: State, nc: NcFile, start: int, end: int)
    requires Valid(s) && Step(Some(s), nc, start, end).Ok?
    ensures Grows(s, Step(Some(s), nc, start, end).value)
  {
  }

  lemma {:induction false} RunFilesGrows(files: seq<NcFile>, s: State, start: int, end: int)
    requires Valid(s) && RunFiles(files, Some(s), start, end).Ok?
    ensures var r := RunFiles(files, Some(s), start, end).value; r.Some? && Grows(s, r.value)
    decreases |files|
  {
    if |files| > 0 {
      var t := Step(Some(s), files[0], start, end).value;
      StepGrows(s, files[0], start, end);
      RunFilesGrows(files[1..], t, start, end);
    }
  }

  lemma {:induction false} RunDaysGrows(days: seq<int>, glob: int -> seq<NcFile>, s: State, start: int, end: int)
    requires Valid(s) && RunDays(days, glob, Some(s), start, end).Ok?
    ensures var r := RunDays(days, glob, Some(s), start, end).value; r.Some? && Grows(s, r.value)
    decreases |days|
  {
    if |days| > 0 {
      var files := glob(days[0]);
      RunFilesGrows(files, s, start, end);
      RunDaysGrows(days[1..], glob, RunFiles(files, Some(s), start, end).value.value, start, end);
    }
  }

  /** A day of the period without files makes the run fail. */
  lemma {:induction false} RunDaysEmptyDay(days: seq<int>, glob: int -> seq<NcFile>, st: Option<State>,
                                           start: int, end: int, k: nat)
    requires st.Some? ==> Valid(st.value)
    requires k < |days| && glob(days[k]) == []
    ensures RunDays(days, glob, st, start, end).Err?
    decreases |days|
  {
    if k > 0 && |glob(days[0])| > 0 {
      var r := RunFiles(glob(days[0]), st, start, end);
      if r.Ok? {
        RunDaysEmptyDay(days[1..], glob, r.value, start, end, k - 1);
      }
    }
  }

  /** `raise Exception("No files found!")`: a run whose period has a day
      without files never succeeds, and fails with that exception when the
      first day has none. */
  lemma NoFilesFails(start: int, end: int, glob: int -> seq<NcFile>,
                     rejects: (string, seq<Value>) -> bool, d: int)
    requires Day(start) <= d <= Day(end) && glob(d) == []
    ensures ProcessFilesSpec(start, end, glob, rejects).Err?
    ensures d == Day(start) ==> ProcessFilesSpec(start, end, glob, rejects) == Err(NoFilesFound)
  {
    var days := Days(start, end);
    assert days[d - Day(start)] == d;
    RunDaysEmptyDay(days, glob, None, start, end, d - Day(start));
  }

  /** Every scalar variable has at least the FILL_VALUE of the first file. */
  predicate ScalarsFilled(st: State) {
    forall n :: n in st.scalars ==> n in st.lists && |st.lists[n]| >= 1
  }

  lemma FirstStepFills(nc: NcFile, start: int, end: int)
    requires Step(None, nc, start, end).Ok?
    ensures ScalarsFilled(Step(None, nc, start, end).value)
  {
    var s := Setup(nc).value;
    var gain := FileGain(nc, start, end);
    EpochTimeNotSelected();
    forall n | n in s.scalars
      ensures n in s.names && gain(n) == Ok([Num(FILL_VALUE)])
    {
      assert n in Picked(nc.vars);
      PickedMembers(nc.vars);
      assert n != "epoch_time";
    }
  }

  lemma RunFilesFills(files: seq<NcFile>, st: Option<State>, start: int, end: int)
    requires st.Some? ==> Valid(st.value) && ScalarsFilled(st.value)
    requires RunFiles(files, st, start, end).Ok? && |files| > 0
    ensures ScalarsFilled(RunFiles(files, st, start, end).value.value)
  {
    var s := Step(st, files[0], start, end).value;
    if st.None? {
      FirstStepFills(files[0], start, end);
    } else {
      StepGrows(st.value, files[0], start, end);
    }
    RunFilesGrows(files[1..], s, start, end);
  }

  lemma {:induction false} RunDaysFills(days: seq<int>, glob: int -> seq<NcFile>, st: Option<State>,
                                        start: int, end: int)
    requires st.Some? ==> Valid(st.value) && ScalarsFilled(st.value)
    requires RunDays(days, glob, st, start, end).Ok?
    ensures var r := RunDays(days, glob, st, start, end).value; r.Some? ==> ScalarsFilled(r.value)
    decreases |days|
  {
    if |days| > 0 {
      var files := glob(days[0]);
      RunFilesFills(files, st, start, end);
      RunDaysFills(days[1..], glob, RunFiles(files, st, start, end).value, start, end);
    }
  }

  /** When netCDF rejects the whole assignment only for scalar variables,
      the first-element fallback of write_variables always finds an element:
      the write step cannot fail. */
  lemma ScalarFallbackSafe(start: int, end: int, glob: int -> seq<NcFile>,
                           rejects: (string, seq<Value>) -> bool)
    requires var r := RunDays(Days(start, end), glob, None, start, end); r.Ok? && r.value.Some?
    requires forall n, vs :: rejects(n, vs) ==> n in RunDays(Days(start, end), glob, None, start, end).value.value.scalars
    ensures ProcessFilesSpec(start, end, glob, rejects).Ok?
  {
    RunDaysFills(Days(start, end), glob, None, start, end);
  }
}
