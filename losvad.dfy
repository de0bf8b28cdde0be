/** The leo lidar's processing chain: lidar_los_to_netcdf.py converts a
    line-of-sight text file to netCDF, and lidar_to_vad.py with system
    'leo' reads that file back to fit wind profiles. This module connects
    the two models by the attribute and variable names the converter
    writes. */
module LosToVad {
  import opened Common
  import Los
  import Vad

  /** Every grid of a converted file has one row per time and one column per
      range. */
  ghost predicate Shaped(out: Los.LosOutput) {
    |out.azimuth| == |out.elevation| == |out.radialWind| == |out.dispersion| == |out.cnr| == |out.epochTime| &&
    forall t :: 0 <= t < |out.epochTime| ==>
      |out.azimuth[t]| == |out.elevation[t]| == |out.radialWind[t]| == |out.range| &&
      |out.dispersion[t]| == |out.cnr[t]| == |out.range|
  }

  /** A converted file as lidar_to_vad.py opens it: the time dimension, the
      global attributes and the variables under the names the converter
      gives them. */
  function AsDataset(out: Los.LosOutput): (ds: Vad.Dataset)
    ensures ds.attrs.Keys == Los.OUTPUT_ATTRIBUTES
    ensures ds.vars.Keys == Los.OUTPUT_VARIABLES
    ensures ds.times == |out.epochTime|
    ensures Shaped(out) ==> ds.Valid()
  {
    var a := out.attrs;
    var w := |out.range|;
    var times := seq(|out.epochTime|, t requires 0 <= t < |out.epochTime| => out.epochTime[t] as real);
    Vad.Dataset(|out.epochTime|,
      map[
        "lat" := Vad.Number(a.lat),
        "lon" := Vad.Number(a.lon),
        "direction_offset" := Vad.Number(a.directionOffset),
        "compass_heading" := Vad.Number(a.compassHeading),
        "pitch_angle" := Vad.Number(a.pitchAngle),
        "roll_angle" := Vad.Number(a.rollAngle),
        "full_header" := Vad.Text(a.fullHeader)],
      map[
        "epoch_time" := Vad.Vector(times),
        "range" := Vad.Vector(out.range),
        "azimuth" := Vad.Grid(w, out.azimuth),
        "elevation" := Vad.Grid(w, out.elevation),
        "radial_wind" := Vad.Grid(w, out.radialWind),
        "dispersion" := Vad.Grid(w, out.dispersion),
        "cnr" := Vad.Grid(w, out.cnr)])
  }

  /** A converted file with a `start_time` attribute added. */
  function WithStartTime(ds: Vad.Dataset, text: string): (r: Vad.Dataset)
    ensures r.times == ds.times && r.vars == ds.vars
    ensures r.attrs == ds.attrs["start_time" := Vad.Text(text)]
  {
    ds.(attrs := ds.attrs["start_time" := Vad.Text(text)])
  }

  /** The ring loop body reads only the time dimension and the variables,
      so adding an attribute leaves every ring's outcome unchanged. */
  lemma RingFitIgnoresAttrs(ds: Vad.Dataset, text: string, cfg: Vad.SystemConfig, range: real, i: nat,
                            reading: Vad.Reading, n: Vad.Numerics)
    requires ds.Valid()
    ensures WithStartTime(ds, text).Valid()
    ensures Vad.RingFit(WithStartTime(ds, text), cfg, range, i, reading, n) == Vad.RingFit(ds, cfg, range, i, reading, n)
  {
    var ds' := WithStartTime(ds, text);
    assert Vad.Column(ds', cfg.threshVar, i) == Vad.Column(ds, cfg.threshVar, i);
    assert Vad.Column(ds', cfg.vel, i) == Vad.Column(ds, cfg.vel, i);
    assert Vad.Column(ds', cfg.az, i) == Vad.Column(ds, cfg.az, i);
    assert Vad.Column(ds', cfg.elev, i) == Vad.Column(ds, cfg.elev, i);
  }

  /** Every file the converter produces is shaped. */
  lemma ConvertedShaped(data: seq<string>, inFile: string, outDir: string, prefix: string,
                        toEpoch: string -> Option<int>, date: int -> string)
    requires Los.ProcessFileSpec(data, inFile, outDir, prefix, toEpoch, date).Ok?
    ensures Shaped(Los.ProcessFileSpec(data, inFile, outDir, prefix, toEpoch, date).value)
    ensures |Los.ProcessFileSpec(data, inFile, outDir, prefix, toEpoch, date).value.epochTime| > 0
  {
    Los.OutputShape(data, inFile, outDir, prefix, toEpoch, date);
  }

  /** The converter writes no `start_time` attribute, and lidar_to_vad.py
      reads it before anything else: every converted file fails with
      AttributeError, for every system, height and reading. */
  lemma ConvertedFileLacksStartTime(out: Los.LosOutput, system: string, height: Option<real>,
                                    reading: Vad.Reading, strptime: string -> Option<int>, n: Vad.Numerics)
    requires Shaped(out)
    ensures "start_time" !in AsDataset(out).attrs
    ensures Vad.ProcessFileSpec(AsDataset(out), system, height, reading, strptime, n) == Err(AttributeError)
  {
    assert "start_time" !in Los.OUTPUT_ATTRIBUTES;
  }

  /** The ring loop body alone, with the table as written: the 'leo' entry
      asks for "elevaton", a name the converter never writes, so every ring
      of a converted file fails, after its metric, velocity and azimuth
      columns are read, with the IndexError of netCDF4's lookup. */
  lemma LeoAsWrittenFails(out: Los.LosOutput, range: real, i: nat, n: Vad.Numerics)
    requires Shaped(out) && i < |out.range|
    ensures Vad.VarLookupAsWritten("leo").Ok?
    ensures var ds, cfg := AsDataset(out), Vad.VarLookupAsWritten("leo").value;
      Vad.Column(ds, cfg.threshVar, i).Ok? && Vad.Column(ds, cfg.vel, i).Ok? && Vad.Column(ds, cfg.az, i).Ok? &&
      Vad.Column(ds, cfg.elev, i) == Err(IndexError) &&
      Vad.RingFit(ds, cfg, range, i, Vad.AsWritten, n) == Err(IndexError)
  {
    var ds := AsDataset(out);
    var cfg := Vad.VarLookupAsWritten("leo").value;
    assert "elevaton" !in Los.OUTPUT_VARIABLES;
    assert Vad.Column(ds, cfg.threshVar, i).Ok?;
    assert Vad.Column(ds, cfg.vel, i).Ok?;
    assert Vad.Column(ds, cfg.az, i).Ok?;
  }

  /** The ring loop body alone, with the corrected table: every name the
      'leo' entry asks for is one the converter writes, and every ring of a
      converted file with at least one time fits, with the file's
      elevations at that range. */
  lemma LeoCorrectedFits(out: Los.LosOutput, range: real, i: nat, n: Vad.Numerics)
    requires Shaped(out) && i < |out.range| && |out.epochTime| > 0
    ensures Vad.VarLookup("leo").Ok?
    ensures var cfg := Vad.VarLookup("leo").value;
      {cfg.vel, cfg.threshVar, cfg.az, cfg.elev, cfg.range} <= Los.OUTPUT_VARIABLES
    ensures var r := Vad.RingFit(AsDataset(out), Vad.VarLookup("leo").value, range, i, Vad.Corrected, n);
      r.Ok? && |r.value.elev| == |out.epochTime| &&
      forall t :: 0 <= t < |out.epochTime| ==> r.value.elev[t] == out.elevation[t][i]
  {
    var ds := AsDataset(out);
    var cfg := Vad.VarLookup("leo").value;
    assert Vad.Column(ds, cfg.threshVar, i).Ok?;
    assert Vad.Column(ds, cfg.vel, i).Ok?;
    assert Vad.Column(ds, cfg.az, i).Ok?;
    assert Vad.Column(ds, cfg.elev, i).Ok?;
  }

  /** The whole of `process_file` with system 'leo', as written, on a
      converted file that also has a readable `start_time`: ring 0 fails and
      the file fails with IndexError. */
  lemma LeoFileAsWrittenFails(out: Los.LosOutput, text: string, height: Option<real>,
                              strptime: string -> Option<int>, n: Vad.Numerics)
    requires Shaped(out) && |out.range| > 0 && strptime(text).Some?
    ensures Vad.StartTime(WithStartTime(AsDataset(out), text), strptime).Ok?
    ensures Vad.ProcessFileSpec(WithStartTime(AsDataset(out), text), "leo", height, Vad.AsWritten, strptime, n)
      == Err(IndexError)
  {
    var ds := WithStartTime(AsDataset(out), text);
    var cfg := Vad.VarLookupAsWritten("leo").value;
    var fitOf := Vad.RingFits(ds, cfg, out.range, Vad.AsWritten, n);
    LeoAsWrittenFails(out, out.range[0], 0, n);
    RingFitIgnoresAttrs(AsDataset(out), text, cfg, out.range[0], 0, Vad.AsWritten, n);
    assert fitOf(0) == Err(IndexError);
    Vad.FitsUpToAfterFailure(fitOf, 0, |out.range|);
  }

  /** Corrected, ring k of a converted file with a time and a `start_time`
      fits, with the file's elevations at range k. */
  lemma LeoRingFits(out: Los.LosOutput, text: string, k: nat, n: Vad.Numerics)
    requires Shaped(out) && k < |out.range| && |out.epochTime| > 0
    ensures WithStartTime(AsDataset(out), text).Valid()
    ensures var r := Vad.RingFit(WithStartTime(AsDataset(out), text), Vad.VarLookup("leo").value, out.range[k], k, Vad.Corrected, n);
      r.Ok? && |r.value.elev| == |out.epochTime| &&
      forall t :: 0 <= t < |out.epochTime| ==> r.value.elev[t] == out.elevation[t][k]
  {
    LeoCorrectedFits(out, out.range[k], k, n);
    RingFitIgnoresAttrs(AsDataset(out), text, Vad.VarLookup("leo").value, out.range[k], k, Vad.Corrected, n);
  }

  /** Corrected, every ring of a converted file with a time fits. */
  lemma LeoRingsFit(out: Los.LosOutput, text: string, n: Vad.Numerics)
    requires Shaped(out) && |out.range| > 0 && |out.epochTime| > 0
    ensures WithStartTime(AsDataset(out), text).Valid()
    ensures forall k :: 0 <= k < |out.range| ==>
      Vad.RingFit(WithStartTime(AsDataset(out), text), Vad.VarLookup("leo").value, out.range[k], k, Vad.Corrected, n).Ok?
  {
    forall k | 0 <= k < |out.range|
      ensures Vad.RingFit(WithStartTime(AsDataset(out), text), Vad.VarLookup("leo").value, out.range[k], k, Vad.Corrected, n).Ok?
    {
      LeoRingFits(out, text, k, n);
    }
  }

  /** The whole of `process_file` with system 'leo', corrected, on a
      converted file that also has a readable `start_time`: it succeeds,
      with that start time and the last range's elevations, and without a
      height it returns one profile entry per range. */
  lemma LeoFileCorrectedFits(out: Los.LosOutput, text: string, height: Option<real>,
                             strptime: string -> Option<int>, n: Vad.Numerics)
    requires Shaped(out) && |out.range| > 0 && |out.epochTime| > 0 && strptime(text).Some?
    ensures var r := Vad.ProcessFileSpec(WithStartTime(AsDataset(out), text), "leo", height, Vad.Corrected, strptime, n);
      r.Ok? && r.value.date == strptime(text).value &&
      |r.value.elev| == |out.epochTime| &&
      (forall t :: 0 <= t < |out.epochTime| ==> r.value.elev[t] == out.elevation[t][|out.range| - 1]) &&
      (height.None? ==> r.value.Whole? && |r.value.profile.u| == |out.range|)
  {
    var ds := WithStartTime(AsDataset(out), text);
    var cfg := Vad.VarLookup("leo").value;
    assert Vad.StartTime(ds, strptime) == Ok(strptime(text).value);
    assert Vad.Table(Vad.Corrected, "leo") == Ok(cfg);
    assert Vad.RangeValues(ds, cfg.range) == Ok(out.range);
    LeoRingsFit(out, text, n);
    LeoRingFits(out, text, |out.range| - 1, n);
    Vad.ProcessFileAllFit(ds, "leo", height, Vad.Corrected, strptime, n, cfg, out.range);
  }

  /** The chain end to end, for any text file the converter accepts with at
      least one range: the converted file itself fails for want of
      `start_time`; once a readable one is added, the as-written table
      fails with IndexError and the corrected one succeeds. */
  lemma ConvertedLeoFile(data: seq<string>, inFile: string, outDir: string, prefix: string,
                         toEpoch: string -> Option<int>, date: int -> string,
                         text: string, height: Option<real>, strptime: string -> Option<int>, n: Vad.Numerics)
    requires Los.ProcessFileSpec(data, inFile, outDir, prefix, toEpoch, date).Ok?
    requires |Los.ProcessFileSpec(data, inFile, outDir, prefix, toEpoch, date).value.range| > 0
    requires strptime(text).Some?
    ensures var ds := AsDataset(Los.ProcessFileSpec(data, inFile, outDir, prefix, toEpoch, date).value);
      ds.Valid() &&
      Vad.ProcessFileSpec(ds, "leo", height, Vad.AsWritten, strptime, n) == Err(AttributeError) &&
      Vad.ProcessFileSpec(WithStartTime(ds, text), "leo", height, Vad.AsWritten, strptime, n) == Err(IndexError) &&
      Vad.ProcessFileSpec(WithStartTime(ds, text), "leo", height, Vad.Corrected, strptime, n).Ok?
  {
    var out := Los.ProcessFileSpec(data, inFile, outDir, prefix, toEpoch, date).value;
    ConvertedShaped(data, inFile, outDir, prefix, toEpoch, date);
    ConvertedFileLacksStartTime(out, "leo", height, Vad.AsWritten, strptime, n);
    LeoFileAsWrittenFails(out, text, height, strptime, n);
    LeoFileCorrectedFits(out, text, height, strptime, n);
  }
}
