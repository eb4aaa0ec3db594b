# PrecipPrediction data preparation, modelled in Dafny

PrecipPrediction builds a training table for precipitation-type prediction
at one upper-air station. The model covers the three steps that prepare that
table.

- **Surface reports** (`read_integrated_sfcobs.py`): `read_synoptic` filters the hourly
  surface archive. `process_temp` reads the temperature and dewpoint fields.
  `precip_type` maps the AW1–AW4 and MW1–MW6 present-weather slots through
  code tables to one category: -1 unknown, 0 rain, 1 mixed, 2 frozen.
- **Soundings** (`read_sounding_obs.py`): `read_sounding` groups the
  archive's lines into soundings at the station marker `#USM00072645`. It
  also slices each data line at fixed offsets. `filter` parses the levels
  and drops those at or above 600 hPa. `basic_final` reduces each sounding
  to temperature and dewpoint at the levels closest to 925 and 850 hPa.
- **The join** (`combine_snd_sfc.py`): `better_combine` sweeps forward over
  time-sorted surface observations. For each sounding it collects the
  observations within one hour, then picks the nearest usable temperature
  and the nearest usable dewpoint. The precipitation type comes from the
  set of types in that window.

Modules:

| file | module | form |
|---|---|---|
| `common.dfy` | `Common` | `Option`, `Result` (Python's uncaught `ValueError`/`IndexError`), the append-or-raise fold shared by the slot and row loops, sequence and set helpers |
| `text.dfy` | `Text` | Python `str.split()`, `split(',')`, `strip()`, slicing, `int()` |
| `surface_obs.dfy` | `SurfaceObs` | functions for the tables and filters; methods for the slot loops of `precip_type` |
| `sounding_obs.dfy` | `SoundingObs` | a method per loop of `read_sounding`, `filter` and `basic_final`, each proved equal to a fold function with its own lemmas |
| `combine.dfy` | `Combine` | methods for the sweep and the selection loop, proved equal to ghost specification functions; a brute-force reference join |

Units follow the archives' integers:
- Surface temperatures are in tenths of a degree. The source's missing-value test `< 500` °C becomes `< 5000`.
- Sounding pressure is in hundredths of a hPa: 600 hPa is `60000` and the sentinel -99.99 hPa is `-9999`.
- Sounding temperature, humidity and dewpoint depression are in tenths.
- Times in the join are whole minutes.

Where the code does something other than what its documentation describes, the model follows the code:
- AW code "02" and MW code "18" are in none of the code tables, so they decode to -1.
- `basic_final` uses a level's dewpoint depression in preference to its humidity. Across levels, though, the nearest level wins, even when it has only humidity and a farther one has a depression.
- `filter` does not skip unparsable fields: a field that fails both `int()` attempts raises `ValueError`. Its `except IndexError` can never fire.
- `read_synoptic` compares `REPORT_TYPE` with "SOD" before it strips whitespace.
- `read_sounding` never returns the last sounding of the file (see Findings).

## Model

| member | source | states |
|---|---|---|
| SurfaceObs.Lookup | read_integrated_sfcobs.py:45-52 | A code is rain iff it is in the rain table. It is mixed iff it is in the mixed table but not the rain table, and frozen likewise. Otherwise it is -1. |
| SurfaceObs.DecodeSlot | read_integrated_sfcobs.py:60-75 | A blank code contributes nothing. A non-blank slot without a comma raises IndexError, and that is its only error. A bad quality flag ("3", "7") gives -1. Any other slot gives the lookup of its code in its own scheme's tables (AW or MW). |
| Common.Gather | read_integrated_sfcobs.py:59-96 | The append-or-raise loop: it fails iff some result is an error, with the first such error. Otherwise it yields every present value, in order. |
| SurfaceObs.SlotCodes | read_integrated_sfcobs.py:59-96 | A run of slots fails iff some slot raises, and then with the first failing slot's IndexError. Otherwise it yields every slot's decoded category, in slot order, each in -1..2. |
| SurfaceObs.Reconcile | read_integrated_sfcobs.py:99-115 | Over the set of categories: -1 iff nothing other than -1 was seen. Exactly one informative category gives that category. Two or more give 1 (mixed). |
| SurfaceObs.PrecipTypeOf | read_integrated_sfcobs.py:44-115 | The automated slots are read first, then the manual ones. The result always lies in -1..2. |
| SurfaceObs.CollectSlots | read_integrated_sfcobs.py:59-96 | The slot loop fails exactly when SlotCodes fails, with the same error. Otherwise it appends exactly SlotCodes' categories to the list so far. |
| SurfaceObs.PrecipType | read_integrated_sfcobs.py:44-115 | The imperative precip_type returns PrecipTypeOf: both slot loops, then the case analysis on the set. |
| SurfaceObs.ReduceKinds | read_integrated_sfcobs.py:99-115 | The branch-by-branch case analysis (one element, none, -1 plus one more, otherwise mixed) computes Reconcile. |
| SurfaceObs.ReconcileSingleton | read_integrated_sfcobs.py:101-102 | A one-element set reconciles to its element. |
| SurfaceObs.ProcessTempReadsFirstToken | read_integrated_sfcobs.py:37-41 | For the archive form "+0123,q", process_temp reads the signed number before the comma, in tenths. |
| SurfaceObs.DecodeReport | read_integrated_sfcobs.py:124-138 | A row failing the filters is dropped. A retained row whose temperature, dewpoint and slots all decode is dropped when its type is -1. Otherwise it is kept, with the stripped date, both values and the type. It raises ValueError iff the temperature or dewpoint does not parse, else IndexError iff a slot raises. |
| SurfaceObs.ReadSynoptic | read_integrated_sfcobs.py:117-140 | The table fails iff some row raises, with the first such row's error. Otherwise the result is the kept rows' observations, each once and in file order, every type in 0..2. |
| SurfaceObs.DroppedRowsAreInert | read_integrated_sfcobs.py:125-127 | Deleting a row that fails the filters leaves the result unchanged, errors included. |
| SurfaceObs.AutomatedCode02IsUnknown | read_integrated_sfcobs.py:50-52 | A report whose only slot is AW "02,1" gets type -1, so the row is dropped. |
| SurfaceObs.ManualCode23IsRain | read_integrated_sfcobs.py:45-46 | MW code "23" is in the rain and mixed tables; rain wins. |
| Text.Words | read_sounding_obs.py:50 | str.split(): every token is non-empty and free of whitespace. |
| Text.WordsOfBlank | read_sounding_obs.py:50 | Text made only of whitespace has no tokens. |
| Text.WordsCons | read_sounding_obs.py:50 | After leading whitespace, a maximal run of non-whitespace is the first token, followed by the tokens of the rest. With WordsOfBlank this determines the tokens of every line. |
| Text.Split | read_integrated_sfcobs.py:38 | str.split(','): at least one piece and no piece holds a comma. |
| Text.SplitAtFirst | read_integrated_sfcobs.py:61 | Text without a comma, then a comma, is split off as the first piece. |
| Text.Slice | read_sounding_obs.py:61-69 | Python slicing clips at the end of the line and copies the characters in place. |
| Text.ParseFlaggedField | read_sounding_obs.py:124-127 | A padded number with a one-letter flag, such as "  20973B": the first int() fails and the retry yields the number. |
| SoundingObs.SliceLine | read_sounding_obs.py:61-70 | A full-length line yields fields of widths 2, 6, 8, 6, 6, 5, 6, 6, 6. |
| SoundingObs.SliceLineTiles | read_sounding_obs.py:61-70 | The nine fields laid end to end are exactly the first 51 characters: none skipped, none read twice. |
| SoundingObs.ReadSounding | read_sounding_obs.py:44-77 | The line loop returns Groups, the fold of Step over the lines. |
| SoundingObs.AppendSounding | read_sounding_obs.py:49-71 | Appending a sounding (a marker line with five or more tokens, then lines without the marker) to readable text adds one group to the corrected reader's result. Its head is the marker's tokens 1-4 and its levels are the following lines sliced, in order. read_sounding's result is the groups before it. |
| SoundingObs.ShortMarkerRaises | read_sounding_obs.py:50-57 | A marker line with fewer than five tokens raises IndexError, whatever follows it. |
| SoundingObs.ReadFailureSticks | read_sounding_obs.py:57 | Once a prefix raises, the whole file raises the same error. |
| SoundingObs.GroupCount | read_sounding_obs.py:44-77 | After any non-empty file a group is still open. The groups returned number one fewer than the groups started (markers, plus one for data before the first marker). |
| SoundingObs.SingleSoundingLost | read_sounding_obs.py:51-57 | A file with one marker line and its data lines yields no sounding at all. |
| SoundingObs.AllGroupsCount | read_sounding_obs.py:44-77 | The corrected reader returns one group per group started. read_sounding's result is that list without its last element. |
| SoundingObs.ProfilesPerSounding | read_sounding_obs.py:44-163 | Reading with the corrected reader and then filtering gives one profile per sounding the file starts. |
| SoundingObs.DecodeLevel | read_sounding_obs.py:122-151 | Any failure of the flagged-integer parses is a ValueError. |
| SoundingObs.Keep | read_sounding_obs.py:116-161 | An error is the error of some line. Kept levels number at most the lines, each below 600 hPa and not the sentinel. |
| SoundingObs.KeepComplete | read_sounding_obs.py:116-161 | A group decodes iff every line does. The kept levels are then exactly the decoded levels below 600 hPa with a real pressure, each once and in file order. |
| SoundingObs.KeepFailureSticks | read_sounding_obs.py:122-151 | After the first failing line the group's result is that failure. |
| SoundingObs.Collect | read_sounding_obs.py:109-163 | An error comes from some group. Otherwise there is one profile per group. |
| SoundingObs.CollectComplete | read_sounding_obs.py:109-163 | filter succeeds iff every group does, and then profile i is group i's. |
| SoundingObs.CollectFailureSticks | read_sounding_obs.py:109-163 | The first group that raises decides the error. |
| SoundingObs.DecodeLevels | read_sounding_obs.py:116-161 | The inner loop of filter returns KeptLevels, including its early exit on a parse error. |
| SoundingObs.Filter | read_sounding_obs.py:109-163 | The outer loop returns FilterAll: one profile per group, in order, or the first error. |
| SoundingObs.Closest | read_sounding_obs.py:242-265 | None iff no level qualifies (within 20 hPa, temperature above -200, depression or humidity usable). Otherwise the result is the nearest qualifying level, the first among equals. |
| SoundingObs.ClosestIsUnique | read_sounding_obs.py:242-265 | At most one level is the closest, so the choice is determined. |
| SoundingObs.ReduceMeaning | read_sounding_obs.py:219-269 | A sounding yields no row iff it has no candidate for 925 or none for 850. A row carries the date and each target's closest temperature and dewpoint. |
| SoundingObs.ReduceAll | read_sounding_obs.py:219-269 | Every sounding that reduces contributes its row, in sounding order, and nothing else is returned. |
| SoundingObs.PickStep | read_sounding_obs.py:242-265 | One step of the level loop: a level replaces the current choice iff it qualifies and nothing is chosen yet or it is strictly nearer. |
| SoundingObs.Offer | read_sounding_obs.py:242-265 | The per-target block replaces the choice and the running minimum exactly as PickStep says. The dewpoint is temperature minus depression, else dewCal(temperature, humidity). |
| SoundingObs.PickLevels | read_sounding_obs.py:228-265 | The level loop ends holding the closest level's (temperature, dewpoint) for each target. |
| SoundingObs.BasicFinal | read_sounding_obs.py:219-269 | The sounding loop returns ReduceAll: one row per sounding that has both targets, in order. |
| Combine.Relabel | combine_snd_sfc.py:22-23 | The type-1 observations are removed and type 2 becomes 1; every other observation stays. Labels in 0..2 become labels in 0..1. |
| Combine.RelabelKeepsOrder | combine_snd_sfc.py:22-25 | Re-coding keeps time-sorted observations sorted. |
| Combine.Window | combine_snd_sfc.py:43-47 | Window entries are at most the observations scanned, each at most one hour from the sounding. |
| Combine.WindowMembers | combine_snd_sfc.py:43-47 | An entry is in the window iff some scanned observation lies within one hour and gives that entry. |
| Combine.WindowSplit | combine_snd_sfc.py:37-47 | The window of a range is the window of its first part followed by that of the rest. |
| Combine.WindowEmpty | combine_snd_sfc.py:43-47 | A range with no observation within one hour contributes nothing. |
| Combine.FirstStop | combine_snd_sfc.py:51-53 | The first observation at least two hours after the sounding, or none. |
| Combine.LastNear | combine_snd_sfc.py:44-47 | The cursor lands on the last observation within one hour, or stays put. |
| Combine.ScanFrom | combine_snd_sfc.py:37-53 | The cursor never moves backwards. |
| Combine.CollectNear | combine_snd_sfc.py:37-53 | The inner loop returns ScanFrom's window and cursor, stopping at the first stopping observation. |
| Combine.Nearest | combine_snd_sfc.py:64-73 | None iff no entry is usable (within the two-hour gap and below 500 °C). Otherwise it returns the nearest usable entry, the first among equals. |
| Combine.Transition | combine_snd_sfc.py:81-86 | Several types in the window give 1. A single type gives that type. |
| Combine.HourOf | combine_snd_sfc.py:89 | The hour stamp is a whole hour, at or before the sounding and less than an hour before it. |
| Combine.EmitMeaning | combine_snd_sfc.py:60-90 | No row iff no usable temperature or no usable dewpoint. A row carries the sounding's hour and values, the nearest temperature, the nearest dewpoint (possibly from different observations) and the type from the set of types. |
| Combine.PickStep | combine_snd_sfc.py:66-72 | One step of the selection loop: an entry replaces the pick iff it is strictly closer and not missing. |
| Combine.KindsOfTypes | combine_snd_sfc.py:65 | The set of the collected types is the set of types in the window. |
| Combine.EmitByPick | combine_snd_sfc.py:74-90 | The row is determined by the two picks and the set of types. |
| Combine.PickNearest | combine_snd_sfc.py:59-90 | The selection loop yields Emit's row for the window. |
| Combine.Sweep | combine_snd_sfc.py:31-90 | One outcome per sounding from the cursor on. |
| Combine.SweepStep | combine_snd_sfc.py:31-90 | One sounding of the sweep appends its row, if any, at the seam. |
| Combine.BetterCombine | combine_snd_sfc.py:13-92 | better_combine returns Joined: the sweep's rows over the re-coded observations. |
| Combine.ScanSeesAll | combine_snd_sfc.py:37-53 | When everything before the cursor is over an hour early, the scan sees the whole window. The cursor then passes nothing at or beyond two hours after the sounding. |
| Combine.SweepIsBrute | combine_snd_sfc.py:27-53 | For sorted observations and soundings at least 3 hours apart, the forward sweep equals checking every sounding against every observation. |
| Combine.SpacingMatters | combine_snd_sfc.py:31-53 | For soundings at minutes 0 and 179, the sweep gives no row for the second where the exhaustive join gives one. |
| Combine.SweepRows | combine_snd_sfc.py:89-90 | Each outcome carries its own sounding's hour and upper-air values. |
| Combine.JoinedRows | combine_snd_sfc.py:89-91 | At most one row per sounding, each carrying some sounding's hour and values. |
| Combine.HourOfMonotone | combine_snd_sfc.py:89 | Later soundings never get an earlier hour stamp. |
| Combine.JoinedInOrder | combine_snd_sfc.py:19-32 | For soundings sorted by time, the rows' hours never decrease. |
| Combine.EmitLabel | combine_snd_sfc.py:81-86 | A window of 0/1 labels yields a 0/1 label. |
| Combine.ScanLabels | combine_snd_sfc.py:46 | A scan over 0/1-labelled observations collects only 0/1 labels. |
| Combine.SweepLabels | combine_snd_sfc.py:81-86 | Every sweep outcome over 0/1-labelled observations has label 0 or 1. |
| Combine.JoinedLabelsBinary | combine_snd_sfc.py:22-23 | With input labels in 0..2, every output label is 0 (rain) or 1 (mixed or frozen). |

## Left out

- Other code: interp_level, dewpoint_cal's formula, final_processing (it always returns 0), the `main` functions, plotting and the model-training files are not part of this model.
- dewpoint_cal is a parameter `dewCal(temperature, humidity)` in tenths. It also stands for the `round(., 1)` that basic_final applies when it writes the row.
- pandas reading and writing of CSV files is left out. So are `sort_values` and the text formatting of rows (`str`, `strftime`).
  - BetterCombine takes both streams in the order given.
  - SweepIsBrute requires the observations to be sorted.
  - JoinedInOrder requires the soundings to be sorted.
- Dates are left out of the join: each sounding and observation carries a time in whole minutes.
- Floating point is left out; values stay in the archives' integer units:
  - float() of the surface temperature is modelled as int() of its digits, which covers the archive's "+0123" form;
  - comparisons of `p/100` with 850 and 925 are exact comparisons of hundredths;
  - the `/10` scalings are dropped.
- basic_final in the source re-parses the text filter wrote (`str(float)`). The model passes filter's levels as structured values (`Profile`), so the str/float round trip is left out.
- Text: only ASCII whitespace and digits are recognised. Python's `int()` also accepts underscores and non-ASCII digits; the model does not.
- read_synoptic: pandas applies process_temp column by column, then precip_type. When several rows raise, the source reports the first failing column's error. The model (DecodeReport, ReadSynoptic) reports the first failing row's error. Which rows succeed is unchanged.
- SurfaceObs.ReadSynoptic: the DATE column is kept as stripped text; its parse happens in the join step, which works on minutes.

## Findings

| source | as written | input that shows it | evidently intended | confidence | as-written member | corrected member |
|---|---|---|---|---|---|---|
| read_sounding_obs.py:49-57, 77 | the open sounding is appended only when the next marker line arrives, and nothing appends it after the loop | a file holding one marker line followed by its data lines returns `[]` | every sounding in the file is returned, the last one included | not executed | SoundingObs.SingleSoundingLost | SoundingObs.ProfilesPerSounding |
