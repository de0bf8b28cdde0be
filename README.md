# CLAMPS lidar and radiosonde converters, modelled in Dafny

The CLAMPS scripts turn the raw output of a mobile boundary-layer
observing system into netCDF files:

- a Halo Photonics Doppler lidar `.hpl` decoder (`halo_dl_decode.py`);
- a Leosphere line-of-sight text converter (`lidar_los_to_netcdf.py`);
- a velocity-azimuth display (VAD) wind retrieval (`lidar_to_vad.py`);
- an aggregator that merges the files of an intensive observation period
  (IOP) (`lidar_to_iop.py`);
- two radiosonde text converters (`sonde_to_nc.py`,
  `perdigao_sonde_to_nc.py`).

This project models the logic of these scripts and proves what it
promises. That logic covers:

- fixed-layout text parsing and the index arithmetic that locates records;
- grouping a file into launches and a table into columns;
- header dictionaries and the scan-tag and file-name choices;
- the threshold masking, the normal-equation solve and the scoring of the
  wind fit;
- the selection of the nearest height;
- the day enumeration, the time window and the accumulation of the IOP
  aggregator.

Each script is a module. The Python exceptions a script raises or catches
are values of `Common.Error`, and an operation that can raise returns a
`Result`.

| module | file | models |
|---|---|---|
| `Common` | common.dfy | `Error`, `Option`, `Result` |
| `Text` | text.dfy | Python 2 `str` operations: `split`, `join`, `replace`, `lstrip`/`rstrip`/`strip`, `split()` on blanks, `lower`, `int()`, `float()`, `os.path.join` |
| `SondeFile` | sondefile.dfy | what both radiosonde scripts share: launch grouping, the column table, the attribute loop, the variable loop, the launch loop |
| `Sonde` | sonde.dfy | `sonde_to_nc.py` |
| `Perdigao` | perdigao.dfy | `perdigao_sonde_to_nc.py` |
| `Halo` | halo.dfy | `halo_dl_decode.py` |
| `Los` | los.dfy | `lidar_los_to_netcdf.py` |
| `Vad` | vad.dfy | `lidar_to_vad.py` |
| `LosToVad` | losvad.dfy | the `leo` chain: a file written by `lidar_los_to_netcdf.py` read back by `lidar_to_vad.py` |
| `Iop` | iop.dfy | `lidar_to_iop.py` |

The model keeps the form of the code:

- The loops that fill lists, dictionaries and numpy arrays are methods. The
  arrays are Dafny `array`/`array2` values, and the loops carry invariants.
- Each loop method is proved equal to a recursive specification function.
- The lemmas state the scripts' promises about those functions.

`lidar_to_vad.py` is modelled in two readings, `Vad.Reading`. `AsWritten`
follows the code: the `leo` entry names `elevaton`, the 3-D fit solves the
matrix as built, and the score is taken about the sum of the velocities.
`Corrected` fixes all three (see Findings).
`Vad.ProcessFile` takes the reading as a parameter, and the lemmas about
the ring loop and the return hold for both. The retrieval reads the
`start_time` attribute before anything else, and `lidar_los_to_netcdf.py`
writes no such attribute. So a converted file fails with AttributeError in
both readings (`LosToVad.ConvertedFileLacksStartTime`). The chain lemmas
that go further add a `start_time` to the converted file.

## Model

| member | source | states |
|---|---|---|
| Text.JoinSplit | halo_dl_decode.py:29 | `str.split(sep)` loses nothing: joining the fields with the separator gives the string back |
| Text.SplitJoin | lidar_los_to_netcdf.py:56 | splitting a join of separator-free fields at the separator gives the fields back |
| Text.SplitChar | lidar_los_to_netcdf.py:77 | splitting at a character gives one field more than the character's count, and no field holds it |
| Text.SplitFirst | sonde_to_nc.py:58 | a separator-free key followed by the separator splits into the key and the split of the rest |
| Text.ReplaceIsJoinSplit | sonde_to_nc.py:59 | `s.replace(pat, rep)` is splitting at `pat` and joining with `rep` |
| Text.ReplaceCharGone | sonde_to_nc.py:59 | after replacing a character with text free of it, the character no longer occurs |
| Text.LStrip | sonde_to_nc.py:59 | `lstrip()` keeps a suffix that starts with a non-blank and removes only blanks |
| Text.Words | halo_dl_decode.py:81 | `split()` yields only non-empty, blank-free words |
| Text.WordsOfJoin | halo_dl_decode.py:81 | `split()` of words joined by single spaces gives the words back |
| Text.LowerIsLower | perdigao_sonde_to_nc.py:110 | `lower()` leaves no upper-case letter and is idempotent |
| Text.ParseFormatInt | lidar_los_to_netcdf.py:40 | `int(str(n)) == n` for every integer |
| Text.ParseIntLineEnd | lidar_los_to_netcdf.py:40 | `int()` ignores trailing blanks such as the line end |
| Text.ParseRealExtendsParseInt | lidar_los_to_netcdf.py:58 | a numeral `int()` accepts is read by `float()` as the same number |
| Text.PathJoin | sonde_to_nc.py:67 | `os.path.join(dir, name)` ends with `name`; an absolute `name` replaces `dir` |
| SondeFile.Launches | sonde_to_nc.py:21-29 | grouping succeeds iff the file is empty or starts with a `Data Type` line, and raises IndexError otherwise; there is one launch per marker line; the launches concatenated give the lines back; each launch starts with its marker and holds no other marker |
| SondeFile.GroupLaunches | sonde_to_nc.py:21-29 | the `count`/`append` reading loop computes exactly `Launches` |
| SondeFile.LaunchesNext | sonde_to_nc.py:25-29 | one line of the loop: a marker opens a new launch, another line joins the latest launch, and another line with no launch yet makes the whole file fail with IndexError |
| SondeFile.Drop | sonde_to_nc.py:35 | `sonde[12:]` has the expected length and elements, and is empty for a shorter launch |
| SondeFile.EmptyColumns | sonde_to_nc.py:43-46 | the first row creates one empty list per key of that row |
| SondeFile.AppendRow | sonde_to_nc.py:51-52 | appending a row succeeds iff each of its keys has a list and a field; it keeps the set of lists and the lists of other keys; a failure is the KeyError of a missing key |
| SondeFile.AppendRowExact | sonde_to_nc.py:51-52 | for a row with distinct keys, each key's list gains exactly that row's field |
| SondeFile.AppendRowStops | sonde_to_nc.py:51-52 | the first missing key stops the row loop |
| SondeFile.ColumnsSpec | sonde_to_nc.py:39-52 | the table is built iff every row's keys are among the first row's keys; then it has the first row's keys in order, each with exactly its fields in row order; otherwise the error is the KeyError of a later row's key that the first row lacks |
| SondeFile.ColumnsStops | sonde_to_nc.py:41-52 | a row that fails stops the table |
| SondeFile.ColumnsNext | sonde_to_nc.py:41-52 | one more row keeps the table correct exactly when its keys are the first row's |
| SondeFile.ColumnsRow | sonde_to_nc.py:41-52 | one pass of the row loop: the `first` flag's empty lists, then the append or its KeyError |
| SondeFile.ColumnOfFull | sonde_to_nc.py:51-52 | a key present in every row has one entry per row, in row order |
| SondeFile.ColumnOfFirst | sonde_to_nc.py:79 | entry 0 of a column, the units, is the first row's field |
| SondeFile.ReadColumns | sonde_to_nc.py:39-52 | the nested row and key loops compute exactly `Columns` |
| SondeFile.AppendFields | sonde_to_nc.py:51-52 | the key loop of one row computes exactly `AppendRow` |
| SondeFile.Attrs | sonde_to_nc.py:55-59 | reading the attributes succeeds only when the launch has the header lines and every line is readable; a failure is some line's error; a short launch of readable lines raises IndexError |
| SondeFile.AttrsLastWins | sonde_to_nc.py:55-59 | the attribute names are exactly the names the lines give, each with the value of the last line giving it |
| SondeFile.AttrsStops | sonde_to_nc.py:56-59 | the first unreadable line stops the attribute loop |
| SondeFile.ReadAttrs | sonde_to_nc.py:55-59 | the `ncattrs` loop over the 11 header lines computes exactly `Attrs` |
| SondeFile.Variables | sonde_to_nc.py:77-80 | one variable per key in key order; its units are the column's entry 0 and its values the entries from 2 on; the names are pairwise distinct |
| SondeFile.VariablesOfGood | sonde_to_nc.py:77-80 | with distinct names and non-empty columns, writing the variables succeeds |
| SondeFile.VariablesOk | sonde_to_nc.py:77-80 | a table built from dictionary rows fails to write only on a name clash |
| SondeFile.VariablesStops | sonde_to_nc.py:77-80 | the first variable that fails stops the loop |
| SondeFile.WriteVariables | sonde_to_nc.py:77-80 | the `createVariable` loop computes exactly `Variables` |
| SondeFile.TableVariables | sonde_to_nc.py:39-80 | each written variable is the first row's key; its units are the first row's field, and its values are that key's column from entry 2 on |
| SondeFile.ConvertAll | sonde_to_nc.py:32 | launches are converted in order; the files written are the outputs of a prefix of the launches; the conversion finishes iff every launch converts; otherwise it stops at the launch that failed, with that launch's error |
| SondeFile.ConvertAllNext | sonde_to_nc.py:32 | one pass of the launch loop: it writes the launch's file, or stops with its error |
| SondeFile.ConvertAllStops | sonde_to_nc.py:32 | a failed launch stops the conversion |
| SondeFile.ConvertFile | sonde_to_nc.py:21-32 | a file that does not start with a marker writes nothing and raises IndexError; otherwise at most one file is written per marker line |
| SondeFile.ConvertFileOf | sonde_to_nc.py:21-32 | the whole file is the launch loop over the grouped launches |
| Sonde.EntryOfLine | sonde_to_nc.py:57-59 | `key: value` gives attribute `key` with the value left-stripped and free of newlines |
| Sonde.EntryWithoutSeparator | sonde_to_nc.py:58-59 | a header line with neither `/` nor `:` raises IndexError |
| Sonde.ShortHeader | sonde_to_nc.py:56-59 | a launch shorter than the 11 header lines raises IndexError |
| Sonde.ReleaseTime | sonde_to_nc.py:62-63 | the release time is read from line 11 without its newlines; a short launch raises IndexError; the time is read iff the parser accepts that line |
| Sonde.FileName | sonde_to_nc.py:66-67 | the path ends with `<prefix>_<stamp>.nc` |
| Sonde.ConvertLaunch | sonde_to_nc.py:35-80 | a launch of at most 11 lines is never converted |
| Sonde.LaunchTable | sonde_to_nc.py:35-80 | a converted launch's variables are those of its table |
| Sonde.LaunchVariables | sonde_to_nc.py:39-80 | a converted launch has one variable per column, named by its title, with the units from the row under the titles and the values from the rows after the dashes |
| Sonde.WriteLaunch | sonde_to_nc.py:32-83 | the body of the launch loop computes exactly `ConvertLaunch` |
| Sonde.SondeToNc | sonde_to_nc.py:11-83 | the whole conversion computes exactly `ConvertFile` |
| Perdigao.EntryOfLine | perdigao_sonde_to_nc.py:63-68 | `key: value` gives the name with `_` for spaces, which holds no space, and the value free of newlines |
| Perdigao.EntryWithoutSeparator | perdigao_sonde_to_nc.py:65-70 | a line without `:` is skipped, not an error |
| Perdigao.AttrsFailOnlyShort | perdigao_sonde_to_nc.py:62-70 | the attribute loop fails iff the launch is shorter than the header, and then with IndexError |
| Perdigao.LaunchTime | perdigao_sonde_to_nc.py:73-74 | the launch time is read from line 5 without `"\r\n"`; a short launch raises IndexError |
| Perdigao.Position | perdigao_sonde_to_nc.py:78-82 | the release longitude, latitude and altitude are free of newlines |
| Perdigao.PositionOfLine | perdigao_sonde_to_nc.py:78-82 | for line 4 of the form `title:lon,lat,alt`, the position is `(lon, lat, alt)` in that order, without newlines |
| Perdigao.NcNames | perdigao_sonde_to_nc.py:99-110 | a netCDF name has no upper-case letter; a column outside the rename table keeps its title, lower-cased |
| Perdigao.RenameClash | perdigao_sonde_to_nc.py:99-110 | columns `Temp` and `tdry` in one table both become `tdry`, and netCDF refuses the second |
| Perdigao.LaunchAttrs | perdigao_sonde_to_nc.py:75-82 | the attributes are the header's plus the release time and the three position entries, which overwrite header entries of the same name |
| Perdigao.ConvertLaunch | perdigao_sonde_to_nc.py:41-112 | a converted launch has at least the 11 header lines |
| Perdigao.LaunchTable | perdigao_sonde_to_nc.py:41-112 | a converted launch's variables are those of its table, renamed |
| Perdigao.LaunchVariables | perdigao_sonde_to_nc.py:45-112 | one variable per column with a distinct renamed name; its units are entry 0 and its values the entries from 2 on |
| Perdigao.WriteLaunch | perdigao_sonde_to_nc.py:38-115 | the body of the launch loop computes exactly `ConvertLaunch` |
| Perdigao.PerdigaoSondeToNc | perdigao_sonde_to_nc.py:17-115 | the whole conversion computes exactly `ConvertFile` |
| Halo.ScanType | halo_dl_decode.py:11-16 | a scan type maps to `vad` or `fp` iff it is one of the six table entries; any other raises KeyError |
| Halo.ScanTypeTags | halo_dl_decode.py:11-16 | exactly the two stepped stare and user-file-2 scans are `fp`; exactly the four others are `vad` |
| Halo.HeaderEntry | halo_dl_decode.py:29-30 | a header line is read iff it holds a tab, and raises IndexError otherwise; the key holds no `:` |
| Halo.HeaderEntryOfLine | halo_dl_decode.py:29-30 | the line `key:\tvalue\r\n` gives `(key, value)` |
| Halo.HeaderEntryIgnoresExtra | halo_dl_decode.py:29-30 | fields after the second tab field are ignored |
| Halo.DecodeHeader | halo_dl_decode.py:21-32 | the `decode_header` loop computes exactly `HeaderMap` |
| Halo.HeaderMapAfterFailure | halo_dl_decode.py:28-30 | the first line without a tab stops the decoding with IndexError |
| Halo.HeaderMapFails | halo_dl_decode.py:28-30 | decoding fails iff some line has no tab, and then with IndexError |
| Halo.HeaderMapKeys | halo_dl_decode.py:26-30 | every line has a tab, no key holds `:`, every line's key is present, and there are at most as many keys as lines |
| Halo.HeaderMapLastWins | halo_dl_decode.py:26-30 | a key repeated on later lines takes the value of the last of them |
| Halo.LayoutOrdered | halo_dl_decode.py:79-89 | the line indices of info and gate lines strictly increase in (ray, gate) order |
| Halo.LayoutInjective | halo_dl_decode.py:79-89 | no two (ray, gate) pairs share a line |
| Halo.LayoutCovers | halo_dl_decode.py:79-89 | every line from 17 on is the info line or a gate line of exactly one ray |
| Halo.Token | halo_dl_decode.py:81-92 | reading a token fails with IndexError past the end of the file or of the line's fields, and with ValueError otherwise |
| Halo.ReadInfoToken | halo_dl_decode.py:81-86 | one info value of a ray is stored as read, or stays 0 after a failure; the ray's other values and the other rays are untouched |
| Halo.InfoErrorNone | halo_dl_decode.py:81-92 | a ray's reading from an info value on has no error iff every remaining info value and every gate is read |
| Halo.ReadInfo | halo_dl_decode.py:81-86 | the five info values of a ray are stored as read; after the first failure the rest stay 0; other rays are untouched |
| Halo.ReadGate | halo_dl_decode.py:89-92 | the three values of a gate are stored as read; after the first failure the rest stay 0; other cells are untouched |
| Halo.ReadGateToken | halo_dl_decode.py:89-92 | one gate value is stored as read, or stays 0 after a failure; every other cell is untouched |
| Halo.GatesErrorNone | halo_dl_decode.py:88-92 | the gate reads from a given gate on have no error iff each of them succeeds |
| Halo.ReadGates | halo_dl_decode.py:88-92 | every gate of a ray in turn; the error is that of the first failing read |
| Halo.ReadRay | halo_dl_decode.py:79-92 | one ray: its info line, then its gates; the ray fails iff one of its reads fails; other rays are untouched |
| Halo.ReadRays | halo_dl_decode.py:67-95 | the arrays have `nrays` and `ngates × nrays` cells, even when a read fails; each cell holds the value read before the first failure and 0 after it; the loop ends without error iff every ray is read |
| Halo.RayErrorIff | halo_dl_decode.py:79-92 | a ray's error is absent iff every read of the ray succeeds |
| Halo.FillErrorIff | halo_dl_decode.py:78-95 | the reading stops without error iff every ray is read; otherwise its error is the first failing ray's |
| Halo.FillErrorIsARead | halo_dl_decode.py:78-95 | the error that stops the reading is one a read produced |
| Halo.FailingReadKind | halo_dl_decode.py:78-95 | a failing read is IndexError or ValueError, and ValueError needs a token of a data line (line 17 on) that `float()` rejects |
| Halo.RaysPastTheEnd | halo_dl_decode.py:67-95 | the rays of a file that ends early stay all 0 |
| Halo.ShortFileConverts | halo_dl_decode.py:55-95 | a file with a readable header and numeric tokens on its data lines (line 17 on) converts however short it is, since IndexError is caught |
| Halo.CompleteFileDecoded | halo_dl_decode.py:79-201 | for a file whose every ray is read, each output variable holds the tokens at their layout positions; backscatter is multiplied by 1000 and the grids are transposed to (time, range) |
| Halo.GateCentres | halo_dl_decode.py:72 | `rng` has one entry per gate, `(g + 0.5) × gate_length` |
| Halo.GateCentresSpacing | halo_dl_decode.py:72 | gate centres are one gate length apart, starting at half a gate |
| Halo.RangeKm | halo_dl_decode.py:157 | the range variable is the gate centres in km |
| Halo.Lookup | halo_dl_decode.py:57-61 | a header field is found iff its key is present, and raises KeyError otherwise |
| Halo.HeaderLines | halo_dl_decode.py:55 | `lines[0:11]` is the first 11 lines, or all lines of a shorter file |
| Halo.FileName | halo_dl_decode.py:116-124 | the file name ends with `<type>_<stamp>.nc`, or `<prefix>_<type>_<stamp>.nc` when there is a prefix |
| Halo.Trunc | halo_dl_decode.py:136-145 | the `i8` store truncates toward zero |
| Halo.InfoColumn | halo_dl_decode.py:148-181 | a per-ray variable has one value per ray, the one its array holds |
| Halo.TimeOffsets | halo_dl_decode.py:100-110 | one time offset per ray: the start time minus the ray's epoch, truncated |
| Halo.RayEpochs | halo_dl_decode.py:100-105 | the epoch loop gives each ray its midnight-plus-hours epoch |
| Halo.Grid | halo_dl_decode.py:188-201 | a transposed grid has one row per ray and one entry per gate, scaled |
| Halo.Transpose | halo_dl_decode.py:188-201 | the transpose of a filled array computes exactly `Grid` |
| Halo.Convert | halo_dl_decode.py:99-201 | the output built from the filled arrays computes exactly `Output` |
| Halo.ProcessFile | halo_dl_decode.py:39-208 | the whole conversion computes exactly `ProcessFileSpec` |
| Los.HeaderSize | lidar_los_to_netcdf.py:40 | the header size fails with IndexError on an empty file, and with ValueError otherwise |
| Los.HeaderSizeOfLine | lidar_los_to_netcdf.py:40 | a first line `key=<n>\r\n` gives header size n |
| Los.DropLast | lidar_los_to_netcdf.py:46-47 | `s[:-1]` drops exactly the last character |
| Los.Coordinate | lidar_los_to_netcdf.py:46-47 | a coordinate that cannot be read raises ValueError |
| Los.Setting | lidar_los_to_netcdf.py:50-53 | a compass setting that cannot be read raises ValueError |
| Los.Attributes | lidar_los_to_netcdf.py:43-61 | the attributes need 32 lines; the full header is the first `header_size` lines concatenated, with Python slice bounds |
| Los.SliceBound | lidar_los_to_netcdf.py:61 | Python's clamping of a slice bound, for negative and oversize values too |
| Los.RangeFields | lidar_los_to_netcdf.py:56 | the range fields are the tab fields after the last `=` without the first; there must be two fields or IndexError is raised |
| Los.RangeFieldsOfLine | lidar_los_to_netcdf.py:56-57 | a line `key=\t<r1>\t…\t<rn>\r\n` gives the n range strings, with `"\r\n"` removed from the last |
| Los.RangesOfLine | lidar_los_to_netcdf.py:56-58 | such a line 40 gives the ranges r1 … rn as numbers |
| Los.ParseAll | lidar_los_to_netcdf.py:58 | every field is read iff each one is; the error is one field's error |
| Los.Ranges | lidar_los_to_netcdf.py:56-58 | reading the ranges fails only with IndexError or ValueError |
| Los.Rows | lidar_los_to_netcdf.py:64 | the data rows are the lines after index `header_size`, one per row |
| Los.RowValues | lidar_los_to_netcdf.py:84-86 | a strided row that is read gives n values; a value that cannot be read raises ValueError |
| Los.ParseFormatted | lidar_los_to_netcdf.py:58 | numerals written by `str()` are read back as the same numbers |
| Los.Stride | lidar_los_to_netcdf.py:84-86 | `col[start::8]` is every eighth column from `start` to the end |
| Los.Broadcast | lidar_los_to_netcdf.py:82-86 | numpy's row assignment: a row of n values or one value broadcast to n; any other length is a ValueError |
| Los.StrideColumns | lidar_los_to_netcdf.py:84-86 | for range k, radial wind, dispersion and cnr come from columns 8+8k, 9+8k and 10+8k |
| Los.StrideValues | lidar_los_to_netcdf.py:84-86 | every value of a strided row is the number in its column |
| Los.AnglesPerRow | lidar_los_to_netcdf.py:82-83 | azimuth and elevation come from columns 6 and 7 and are the same for every range of the row |
| Los.Parts | lidar_los_to_netcdf.py:77-86 | the reads of a row: columns 6 and 7 raise IndexError iff the row is too short; the other reads fail only with ValueError |
| Los.RowOf | lidar_los_to_netcdf.py:79-88 | a row leaves n values in each of its five arrays; its only uncaught error is IndexError |
| Los.RowOfComplete | lidar_los_to_netcdf.py:79-86 | an unreported row holds every value it read |
| Los.BadTimeRow | lidar_los_to_netcdf.py:79-88 | a row whose time stamp is rejected is reported and left all 0 |
| Los.BadWindRow | lidar_los_to_netcdf.py:79-88 | a row whose radial winds are rejected is reported; it keeps its time and angles, and the rest stays 0 |
| Los.RowOfBadWind | lidar_los_to_netcdf.py:79-88 | the same for the row's reads |
| Los.ShortRow | lidar_los_to_netcdf.py:77-82 | a row with at most six columns raises IndexError |
| Los.SetRow | lidar_los_to_netcdf.py:82-86 | `a[i, :] = values` sets row i and leaves the other rows alone |
| Los.FillRow | lidar_los_to_netcdf.py:79-88 | the body of the row loop stores exactly what `RowOf` describes, and leaves other rows alone |
| Los.FillRows | lidar_los_to_netcdf.py:63-88 | the arrays have one row per data line and one column per range; each row holds its `RowOf` values; the loop fails iff a row is too short, and then with IndexError |
| Los.Snapshot | lidar_los_to_netcdf.py:116-146 | `a[:]` copies every cell of an array |
| Los.ScanTag | lidar_los_to_netcdf.py:92-97 | the tag is `_RHI` iff the name contains `RHI`; else `_PPI` iff it contains `PPI`; else empty |
| Los.LosFileName | lidar_los_to_netcdf.py:99-100 | the file name ends with `<prefix><tag>_<date>.nc` |
| Los.ReadRows | lidar_los_to_netcdf.py:75-88 | one row read per data line, in order |
| Los.Column | lidar_los_to_netcdf.py:123-146 | a (time, range) variable has one row per data row |
| Los.Write | lidar_los_to_netcdf.py:90-146 | writing the filled arrays computes exactly `Output` |
| Los.ProcessFile | lidar_los_to_netcdf.py:24-149 | the whole conversion computes exactly `ProcessFileSpec` |
| Los.OutputShape | lidar_los_to_netcdf.py:63-146 | a converted file has one time per data row, at least one row, and grids of one row per time and one column per range |
| Los.OutputGrids | lidar_los_to_netcdf.py:113-146 | the output has one time per row, holding that row's time in order, the header's ranges, and grids of one row per time and one column per range |
| Vad.ApplyThreshold | lidar_to_vad.py:226-227 | the ring keeps its length; a ray whose metric is at or below the threshold becomes FILL_VALUE, and every other ray is unchanged |
| Vad.ListToMaskedArray | lidar_to_vad.py:96-98 | the data is kept, and exactly the entries equal to the mask value are masked |
| Vad.MaskedRing | lidar_to_vad.py:226-230 | a ray is masked iff its metric fails the threshold or its value already was FILL_VALUE |
| Vad.MaskRing | lidar_to_vad.py:220-230 | a ray is left out iff its metric fails or its azimuth or velocity is FILL_VALUE; every other ray keeps its values |
| Vad.CalcVad | lidar_to_vad.py:159-193 | at most one ray, or a singular system, gives the FILL_VALUE triple; otherwise (u, v) solves B·u + E·v = A and C·u + F·v = D, and w is FILL_VALUE |
| Vad.Normal2 | lidar_to_vad.py:171-177 | the 2-by-2 system is symmetric (C = E) |
| Vad.Solve2 | lidar_to_vad.py:185-189 | the solution satisfies both equations |
| Vad.Solve2Unique | lidar_to_vad.py:185-189 | a non-singular system has only that solution |
| Vad.CalcVadRecovers | lidar_to_vad.py:159-193 | velocities generated without noise from a horizontal wind (u, v) give that wind back when the system is non-singular |
| Vad.SumVelSinOfHorizontal | lidar_to_vad.py:171 | for such velocities, A is the forward model applied to the sums |
| Vad.SumVelCosOfHorizontal | lidar_to_vad.py:175 | for such velocities, D is the forward model applied to the sums |
| Vad.NormalOfHorizontal | lidar_to_vad.py:171-181 | the true (u, v) then solves the normal equations |
| Vad.Normal3 | lidar_to_vad.py:113-126 | the 3-by-3 system has C = E |
| Vad.Solve3 | lidar_to_vad.py:129-139 | the solution satisfies all three equations |
| Vad.CramerSolves | lidar_to_vad.py:129-139 | Cramer's quotients solve the 3-by-3 system |
| Vad.CalcVad3d | lidar_to_vad.py:101-143 | at most one ray, or a singular system, gives the FILL_VALUE triple; otherwise (u, v, w) solves the system |
| Vad.SumLinear3 | lidar_to_vad.py:113-126 | a sum whose summand is a fixed combination of three others is that combination of their sums |
| Vad.Solve3Unique | lidar_to_vad.py:134-138 | a non-singular 3-by-3 system has only Cramer's solution |
| Vad.CramerOfRows | lidar_to_vad.py:134-138 | for any solution, each Cramer numerator is its unknown times the determinant |
| Vad.Normal3Intended | lidar_to_vad.py:128 | the system of the stated equations, A = uB + vC + wG, D = uE + vF + wH, W = uX + vY + wZ with Z the sum of sin(elev); it shares B, F, A and D with the system as written |
| Vad.CalcVad3dCorrected | lidar_to_vad.py:101-143 | corrected: at most one ray, or a singular system, gives the FILL_VALUE triple; otherwise (u, v, w) solves the stated equations |
| Vad.IntendedRow1 | lidar_to_vad.py:128 | for velocities that follow the 3-D forward model, A = uB + vC + wG holds of the sums |
| Vad.IntendedRow2 | lidar_to_vad.py:128 | for such velocities, D = uE + vF + wH holds |
| Vad.IntendedRow3 | lidar_to_vad.py:128 | for such velocities, W = uX + vY + wZ holds with Z the sum of sin(elev) |
| Vad.CalcVad3dCorrectedRecovers | lidar_to_vad.py:101-143 | corrected, velocities generated without noise from any wind (u, v, w) give that wind back when the system is non-singular |
| Vad.CalcVad3dMissesVertical | lidar_to_vad.py:126-129 | as written, four beams 90 degrees apart in a purely vertical wind of 1 m/s give a non-singular system whose solution is not that wind |
| Vad.CalcVad3dCorrectedFindsVertical | lidar_to_vad.py:126-129 | corrected, the same four beams give back the vertical wind |
| Vad.Homogeneity | lidar_to_vad.py:146-156 | the score is undefined iff there is no ray or the spread about the mean is 0; it is at most 1 |
| Vad.PerfectFitScoresOne | lidar_to_vad.py:146-156 | a derived velocity equal to the raw one scores 1, under both forms of the score |
| Vad.MeanPredictorScoresZero | lidar_to_vad.py:146-156 | predicting the mean scores 0 |
| Vad.VarLookup | lidar_to_vad.py:29-56 | the corrected table: the systems are exactly `leo`, `mp1` and `mp3`, and any other raises KeyError; every entry, `leo`'s included, names `elevation`, `azimuth` and `range`; `mp1` and `mp3` are as written |
| Vad.Column | lidar_to_vad.py:220-223 | `nc[name][:, i]` has one value per time, the grid's column i; a missing name, a non-grid or an out-of-range column raises IndexError |
| Vad.RangeValues | lidar_to_vad.py:217 | the ranges are the range vector; a missing name raises IndexError |
| Vad.StartTime | lidar_to_vad.py:208 | the start time is read iff the file has a text `start_time` that `strptime` accepts; a missing attribute raises AttributeError and unreadable text ValueError |
| Vad.Score | lidar_to_vad.py:146-156 | the score of either reading, when defined, is at most 1 |
| Vad.FitRing | lidar_to_vad.py:233-257 | in either reading: a ring fails with ZeroDivisionError iff it is empty; the wind is the reading's 3-D fit of the ring, the fit keeps the ring's elevations, its height is the ray height at the range and the first elevation, and a defined score is at most 1 |
| Vad.RingFit | lidar_to_vad.py:219-257 | a ring is fitted iff its four columns exist and there is a time; the errors come in the order the columns are read |
| Vad.ExactFitScoresPerfectly | lidar_to_vad.py:233-249 | in either reading, a ring the fit matches exactly has an RMSE of sqrt(0) and a score of 1 |
| Vad.NoiseFreeRingFitsPerfectly | lidar_to_vad.py:233-249 | corrected, a ring generated without noise from a wind fits with that wind, an RMSE of sqrt(0) and a score of 1 when the system is non-singular |
| Vad.FitsUpToSpec | lidar_to_vad.py:217-257 | the ring loop succeeds iff every ring does, with one fit per ring in order; otherwise it fails with the first failing ring's error |
| Vad.CollectFits | lidar_to_vad.py:210-257 | the loop appends exactly one entry per ring to each of the six lists, keeps the last ring's elevations, and raises the first failing ring's error |
| Vad.FitsUpToAfterFailure | lidar_to_vad.py:217-257 | the first ring that fails stops the loop with its error |
| Vad.SumSqResidual | lidar_to_vad.py:236-247 | the sum of squared residuals is never negative |
| Vad.ExactResidualZero | lidar_to_vad.py:236-247 | a ring the wind fits exactly has predictions equal to the observations and zero squared residual |
| Vad.SumSqDiffConst | lidar_to_vad.py:154-156 | comparing against a constant prediction is the spread about that constant |
| Vad.ProfileOf | lidar_to_vad.py:252-257 | the six lists have one entry per ring |
| Vad.NearestIndex | lidar_to_vad.py:260 | argmin of the distance: an empty profile raises ValueError; otherwise the index has the least distance and is the first one that does |
| Vad.WholeProfile | lidar_to_vad.py:217-295 | for any ring outcomes, so in either reading: without a height, the run succeeds iff there is a range and every ring fits; the profile has one entry per range, each from its ring's fit, with the start time and the last ring's elevations; no range leaves `elev` unbound; otherwise the first failing ring's error is raised |
| Vad.NearestProfile | lidar_to_vad.py:217-295 | for any ring outcomes, so in either reading: with a height, the run succeeds iff there is a range and every ring fits, and no range raises ValueError; the single values are those of the first ring nearest that height; `r_sq` stays whole; the start time and the last ring's elevations are returned |
| Vad.RunAllFit | lidar_to_vad.py:217-295 | when every ring fits, the run succeeds with the start time and the last ring's elevations, and without a height gives one entry per ring |
| Vad.ProcessFileAllFit | lidar_to_vad.py:207-295 | in either reading, a file whose start time, system and ranges are readable and whose every ring fits is processed, with its start time, the last ring's elevations and, without a height, one entry per range |
| Vad.ProcessFileSpec | lidar_to_vad.py:207-295 | `process_file` in a given reading: the start time is read first and its error raised before the system is looked up; an unknown system raises KeyError; a result carries the start time as `date` |
| Vad.ProcessFile | lidar_to_vad.py:196-295 | the whole of `process_file`, in a given reading, computes exactly `ProcessFileSpec` |
| Vad.CalcVadAsWritten | lidar_to_vad.py:159-193 | as written: at most one ray gives the FILL_VALUE triple |
| Vad.CalcVadArityDiffers | lidar_to_vad.py:189-193 | as written, a solvable ring returns two values and a one-ray ring three |
| Vad.HomogeneityAsWritten | lidar_to_vad.py:154-156 | as written, the score is undefined iff the spread about the SUM is 0, and otherwise at most 1 |
| Vad.HomogeneitySumNotMean | lidar_to_vad.py:154-156 | for raw (1, 3) and derived (2, 2) the as-written score is 0.8, while measured against the mean it is 0 |
| Vad.VarLookupAsWritten | lidar_to_vad.py:29-56 | as written, the `leo` entry names `elevaton` |
| LosToVad.AsDataset | lidar_los_to_netcdf.py:43-146 | a converted file opened by the VAD retrieval has exactly the seven attributes and the seven variables written, and one time per row |
| LosToVad.RingFitIgnoresAttrs | lidar_to_vad.py:219-257 | the ring loop body does not depend on the attributes |
| LosToVad.ConvertedShaped | lidar_los_to_netcdf.py:63-146 | every converted file is well shaped |
| LosToVad.ConvertedFileLacksStartTime | lidar_to_vad.py:207-208 | a converted file has no `start_time`, so `process_file` fails on it with AttributeError for every system, height and reading |
| LosToVad.LeoAsWrittenFails | lidar_to_vad.py:35 | the ring loop body alone, as written: every ring of a converted file reads its metric, velocity and azimuth, then fails with IndexError on `elevaton` |
| LosToVad.LeoCorrectedFits | lidar_to_vad.py:35 | the ring loop body alone, corrected: every name `leo` asks for is written, and every ring of a converted file fits, with the file's elevations |
| LosToVad.LeoFileAsWrittenFails | lidar_to_vad.py:207-257 | `process_file` as written on a converted `leo` file with a readable `start_time` fails with IndexError |
| LosToVad.LeoRingFits | lidar_to_vad.py:219-257 | corrected, ring k of a converted `leo` file with a time and a `start_time` fits, with the file's elevations at range k |
| LosToVad.LeoRingsFit | lidar_to_vad.py:217-257 | corrected, every ring of such a file fits |
| LosToVad.LeoFileCorrectedFits | lidar_to_vad.py:207-295 | `process_file` corrected on such a file succeeds, with its start time and its last range's elevations, and without a height gives one entry per range |
| LosToVad.ConvertedLeoFile | lidar_to_vad.py:207-257 | for any converted file with a range: it fails with AttributeError; with a readable `start_time` added, it fails as written with IndexError and succeeds corrected |
| Iop.Day | lidar_to_iop.py:88-89 | the date of a time: the day whose midnight starts at or before it, with the next midnight after it |
| Iop.Days | lidar_to_iop.py:88-91 | the days run from start's date to end's date inclusive, ascending, with `(end − start).days + 1` entries |
| Iop.HoursToEpochTime | lidar_to_iop.py:15-21 | one epoch per hour value, lying exactly that many hours after the date's midnight |
| Iop.HoursSameDay | lidar_to_iop.py:15-21 | hours in [0, 24) stay within the date |
| Iop.HoursOrdered | lidar_to_iop.py:15-21 | increasing hours give increasing epochs |
| Iop.Find | lidar_to_iop.py:125-127 | `nc[var]` finds a variable iff the file holds that name |
| Iop.PickedMembers | lidar_to_iop.py:52-54 | the copied variables are exactly those whose names contain neither `time` nor `hour` |
| Iop.Setup | lidar_to_iop.py:36-74 | setup fails iff the file has no `height` dimension (KeyError); the keys are `epoch_time` and the selected names, each with an empty list |
| Iop.SetupNew | lidar_to_iop.py:36-74 | the setup loop computes exactly `Setup` |
| Iop.EpochTimeNotSelected | lidar_to_iop.py:49-54 | `epoch_time` is never also a copied variable |
| Iop.SetupDistinct | lidar_to_iop.py:49-54 | the keys are distinct when the file's names are |
| Iop.Epochs | lidar_to_iop.py:112 | one epoch per time offset: `base_time + offset` |
| Iop.Window | lidar_to_iop.py:117 | the filter is strict at both ends: start < t < end |
| Iop.Chosen | lidar_to_iop.py:117 | the chosen indices are exactly the true ones, ascending |
| Iop.Select | lidar_to_iop.py:123-127 | `x[ind]` keeps exactly the rows at the chosen indices, in order |
| Iop.SelectMembers | lidar_to_iop.py:123-127 | a value is kept iff it is a row whose index passes the filter |
| Iop.Gain | lidar_to_iop.py:119-129 | `epoch_time` gains exactly the in-window epochs; `height` gains all its values, and a scalar `height` raises TypeError; another array gains exactly its in-window rows, and one of a length other than the times raises IndexError; a scalar gains exactly one FILL_VALUE; a missing variable raises IndexError |
| Iop.EpochsKeepOrder | lidar_to_iop.py:112-123 | for increasing offsets, the gained epochs are increasing |
| Iop.AddGains | lidar_to_iop.py:119-129 | one file succeeds iff every variable's gain does; every list keeps what it had as a prefix; other lists are unchanged |
| Iop.AddGainsExact | lidar_to_iop.py:119-129 | for distinct keys, each list is extended by exactly its gain |
| Iop.AddGainsFrom | lidar_to_iop.py:119-129 | everything in a list came from before or from that variable's gain |
| Iop.AddGainsStops | lidar_to_iop.py:119-129 | the first failing gain stops the file |
| Iop.AddFile | lidar_to_iop.py:111-129 | a file keeps the keys, the scalars and the height size |
| Iop.Accumulate | lidar_to_iop.py:119-129 | the loop over the keys computes exactly `AddFile` |
| Iop.FileGainsExact | lidar_to_iop.py:119-129 | each list grows by exactly that file's gain |
| Iop.StepGrows | lidar_to_iop.py:119-129 | lists only grow by appending |
| Iop.RunFilesGrows | lidar_to_iop.py:102-129 | lists only grow by appending, in file order |
| Iop.RunDaysGrows | lidar_to_iop.py:96-129 | lists only grow by appending, day after day |
| Iop.StepInPeriod | lidar_to_iop.py:117-123 | every epoch kept lies strictly inside the period |
| Iop.RunFilesInPeriod | lidar_to_iop.py:102-129 | every epoch kept lies strictly inside the period, over the files of a day |
| Iop.RunDaysInPeriod | lidar_to_iop.py:96-129 | every epoch kept lies strictly inside the period, over the days |
| Iop.EpochsStrictlyInside | lidar_to_iop.py:77-136 | the written `epoch_time` lies strictly inside the period |
| Iop.RunDaysEmptyDay | lidar_to_iop.py:96-99 | a day without files stops the run |
| Iop.NoFilesFails | lidar_to_iop.py:96-99 | a day of the period without files makes the run fail, with the "No files found!" error when it is the first day |
| Iop.Writes | lidar_to_iop.py:28-34 | each variable is written whole, or its first element when the whole assignment is refused; a refused empty list raises IndexError |
| Iop.WritesStops | lidar_to_iop.py:30-34 | a refused empty list stops the writing with IndexError |
| Iop.WriteVariables | lidar_to_iop.py:28-34 | the `write_variables` loop computes exactly `Writes` |
| Iop.FirstStepFills | lidar_to_iop.py:107-129 | after the first file every scalar's list has an entry |
| Iop.RunFilesFills | lidar_to_iop.py:102-129 | scalar lists stay non-empty over the files |
| Iop.RunDaysFills | lidar_to_iop.py:96-129 | scalar lists stay non-empty over the days |
| Iop.ScalarFallbackSafe | lidar_to_iop.py:28-34 | when only scalars are refused whole, writing never fails |
| Iop.ProcessFiles | lidar_to_iop.py:77-136 | the nested day and file loops with the `first` flag compute exactly `ProcessFilesSpec` |

## Left out

- Reading files, `os.makedirs`, creating and writing netCDF files (dimensions, attribute order, `setncattr` types, `f`/`f8`/`i8` storage) and closing them are not modelled. Each conversion returns its output as a record: file name, attributes and variables.
- `argparse`, `logging`, `print` and the `__main__` blocks are not modelled. This includes the sorted `in_files` loops, the file-name formatting of `lidar_to_vad.py`'s main, and the commented-out plotting.
- `lidar_to_vad.py`'s sin-fit plot (lines 267-290) and `write_to_nc` are not modelled. The latter is netCDF output with NaN replacement, which is floating-point behaviour.
- `iop_process.py` and `utils.py` are not part of this model. The first is a fixed-path driver of `process_files`; the second wraps `xarray.open_mfdataset`.
- Floating point is modelled by exact reals. `sin`, `cos`, `deg2rad` and `sqrt` are inputs: per-ray sines and cosines are supplied, and `sqrt` and `_ray_height` are parameters (`Vad.Numerics`). `np.linalg.solve` is exact Cramer's rule, singular exactly when the determinant is 0, so near-singular systems and NaN and inf are not modelled.
- `Vad.Homogeneity`: a zero denominator gives numpy's nan or inf; the model returns None instead.
- `Vad.MaskRing`: the model departs from the code here. Python's builtin `sum` over a masked array adds masked elements too; `0 + masked` is masked, so a ring with one masked ray gives masked sums, which `np.array` turns into 0 and the solve most likely finds singular. The model instead leaves the masked rays out of every sum. `vel.size` still counts masked rays, as in the source.
- `Vad.RangeValues`: a two-dimensional range variable is refused with TypeError. The code would iterate over its rows and go on with array-valued ranges; the model does not follow that.
- `datetime.strptime`, `strftime`, `isoformat` and `utcfromtimestamp` are parameters. Times are whole seconds since 1970 and dates are day numbers. Halo's `timedelta(hours=h)` is taken exactly, without its microsecond rounding.
- `Text.ParseReal` accepts finite decimal numerals with an optional exponent. `float()`'s `inf`, `nan` and hexadecimal forms are not modelled.
- `Text.LStrip` and `Text.Lower` are ASCII-only, as Python 2's `str` methods are.
- `csv.DictReader` tokenisation of a launch's table is a parameter, `reader`, that gives the rows as key sequences with field maps. Its `restkey`/`restval` handling of short and long rows is part of that parameter.
- Python 2 dictionary iteration order is modelled as insertion order. The real hash order only changes which error is reported first, and the order in which variables are created.
- Sonde field values stay strings. netCDF's conversion of the value strings to `f` is not modelled.
- `Sonde.FileName` and `Perdigao`'s file name: a `%` in the prefix would be read by `strftime` as a directive. The model treats the prefix as plain text.
- `Halo.FileName`: the prefix and the scan type go through `strftime`, so a `%` in the prefix would be read as a directive. The model treats the prefix as plain text.
- Halo: the data lines are read through the parameter `read` (by default `Reader(lines)`, which tokenises with `split()` and `float()`).
- `glob` is the parameter `glob`, which gives a day's opened files. netCDF's refusal of a whole-list assignment is the parameter `rejects`.
- Iop: `nc.close()` inside the day loop closes only the last file of the day. Open handles are not modelled.

## Findings

| source | as written | input that shows it | evidently intended | confidence | as-written member | corrected member |
|---|---|---|---|---|---|---|
| lidar_to_vad.py:189 | `calc_vad` returns `(u, v)` on success but a triple on failure, so a caller unpacking three values fails exactly when the fit works | rays due east and due north at elevation 0 (a non-singular system) | return `(u, v, FILL_VALUE)`, a triple on every path | not executed | Vad.CalcVadArityDiffers | Vad.CalcVad |
| lidar_to_vad.py:154 | the reference value `vr_bar` is computed with `np.sum`, so the score measures the spread about the sum, not the mean | raw (1, 3) and derived (2, 2): as written 0.8, while the mean predictor should score 0 | `vr_bar` as the mean of the raw velocities (Paschke et al. 2015, section 2.2.4) | not executed | Vad.HomogeneitySumNotMean | Vad.MeanPredictorScoresZero |
| lidar_to_vad.py:35 | the `leo` entry names the variable `elevaton`, which the line-of-sight converter never writes | a file written by `lidar_los_to_netcdf.py` with at least one range, given a `start_time` the retrieval can parse: as written it fails with IndexError | the `leo` entry names `elevation` | not executed | LosToVad.LeoFileAsWrittenFails | LosToVad.LeoFileCorrectedFits |
| lidar_to_vad.py:126-129 | `calc_vad_3d` builds its matrix with rows (B, E, X), (C, F, Y), (G, H, Z) and sums `az*sin(elev)` into Z, so it does not solve the equations its comment states | four beams at azimuths 0, 90, 180 and 270 degrees, elevation with sine 0.6, all velocities 0.6, from a vertical wind of 1 m/s: as written the solution is not (0, 0, 1) | rows (B, C, G), (E, F, H), (X, Y, Z) with Z the sum of `sin(elev)`, which recover any wind the velocities follow exactly | not executed | Vad.CalcVad3dMissesVertical | Vad.CalcVad3dCorrectedRecovers |
