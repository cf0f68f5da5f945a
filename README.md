# propeller_design_tools in Dafny

This project models the deterministic core of `propeller_design_tools`. The package is a Python front end to two
external solvers: XFOIL, for airfoil polars, and XROTOR, for propeller design and analysis. Between the user and those
executables it builds command scripts, parses the text the solvers write, keeps an airfoil database and a propeller
database on disk, assembles blade geometry, and runs sweeps and optimisation grids. The executables, the file system
and the clock are inputs to the model: a solver run is an oracle that returns report text or raises an error, and a
folder is a list of file names or a map from paths to text.

The modules follow the package's source files:

- `SpinBox` covers `valid_float_string` (the float-literal recogniser) and the exponent rewriting of `format_float`.
- `Settings` covers the settings file: the `key: value` format with the `None`/`True`/`False` sentinels, and the
  new-old-default precedence. The settings file itself is the class `SettingsStore`.
- `FoilDatabase` covers airfoil file lookup and the polar merge. `CoordinateFile` covers the split of a coordinate
  contour into upper and lower surfaces and the trailing-edge gap blend.
- `PolarFiles` covers the XFOIL `.pacc` reader. `PolarArchive` covers the polar data file writer and reader.
- `XRotorReports` covers the XROTOR operating-point and slipstream report readers. `XRotorCommands` and
  `CreatePropeller` cover the command scripts, with the validation that precedes them. `CreatePropeller` also covers
  the propeller database folder, as the class `PropellerDatabase`.
- `Physics` covers the rotational Reynolds number and the XROTOR drag model.
- `MetaFile`, `RestartFile` and `Interp` cover the `.meta` file, the XROTOR restart file and the blade-profile
  interpolation indices. `Propellers` holds the `Propeller` object that ties these together.
- `ProfileMesh` and `StlGeometry` cover the 3D profile points, the ear-clipping triangulation and the STL triangle
  array.
- `Sweeps` covers the operating-point and slipstream datasets, as the class `SweepData`, and the result-file names.
  `Analysis` covers `analyze_sweep` and the `run_xrotor_oper` command list.
- `Optimization` covers the duty-cycle optimisation, as the class `DutyCycleOptimization`: folder-name keys, the
  parameter grid and its nested loop.
- `Wrappers`, `Text`, `Dicts`, `Numbers` and `Sorting` model the Python built-ins the code relies on: Option and
  Result, `str.split`/`strip`/`replace`, insertion-ordered dicts, `float()`/`int()` on text, and `sorted`.

Floats are Dafny `real`. NaN and the infinities appear only where the code creates them (`np.nan`, a division by zero
in `CL/CD`). Python exceptions are values of an `Exc` datatype naming the exception class, because several callers
catch only the package's own `Error` and let the rest propagate.

Where the package's documentation and its code disagree, the model follows the code:

- A `.polars` file with a field line that changes `re`, `mach` or `ncrit` after the header files the same dictionary
  under two text keys. The conversion loop then converts that dictionary twice in place, and the second pass raises
  `TypeError` (funcs.py:466-483, `PolarArchive.TwiceFiledRaises`).
- The dataset loader reads the `REx10^` exponent with `strip`, as `read_xrotor_op_file` does (funcs.py:543); the
  corrected prefix reading is kept beside it (see Findings).
- `read_xrotor_op_file` skips a line when `strip('-').strip('=').strip()` leaves nothing. A line such as `=-=` is
  therefore not skipped (funcs.py:513).
- `compute_profile_trimesh` on a closed list of three points gives one triangle, not none (funcs.py:1176-1211).
- `run_xfoil` and `run_xrotor_oper` do not remove their temporary files when the solver times out, because there is
  no `try`/`finally` around the run.
- `create_propeller` checks some of its arguments only after the propeller folder has been reset (funcs.py:812-900).
- `create_prop_grid` likewise rejects "both advs and rpms" only after the optimisation folder has been deleted and
  recreated (optimizations.py:75-87).
- `analyze_sweep` and `create_prop_grid` catch only the package `Error`. A timeout or a `ValueError` from a report
  ends the whole sweep.
- The message of `get_setting` for an unknown key is the literal `"" is not a known PDT setting`: it never names the
  key (settings.py:45-49).
- An optimisation folder written for a negative second value, such as `vel-10.00_cl-0.50_adv--1.000`, cannot be
  read back. The reader splits the last part at every `-`, so unpacking it raises `ValueError` (optimizations.py:47,
  `Optimization.OptNameNegative`).

## Model

| member | source | states |
|---|---|---|
| SpinBox.ValidFloatString | propeller_design_tools/science_spinbox_class.py:8-13 | a string is valid exactly when the float pattern matches the whole of it from its first character |
| SpinBox.SearchLeftmost | propeller_design_tools/science_spinbox_class.py:11-13 | `re.search` finds the leftmost match: no position before the one found matches, and when none is found no position matches |
| SpinBox.SpelledIsValid | propeller_design_tools/science_spinbox_class.py:8-13 | every well-formed literal (sign, digits, optional point and fraction, optional exponent) spells a valid float string |
| SpinBox.ValidIsSpelled | propeller_design_tools/science_spinbox_class.py:8-13 | conversely, every valid float string is the spelling of some well-formed literal |
| SpinBox.Unpadded | propeller_design_tools/science_spinbox_class.py:49 | dropping the exponent's leading zeros keeps a digit string with the same value and no leading zero |
| SpinBox.FormatFloatExponent | propeller_design_tools/science_spinbox_class.py:46-50 | on `{:g}` output with an exponent, `e+` becomes `e`, `e-` stays and the exponent digits lose their leading zeros |
| SpinBox.FormatFloatPlain | propeller_design_tools/science_spinbox_class.py:46-50 | `{:g}` output without an exponent is returned unchanged |
| SpinBox.FormatFloatKeepsValue | propeller_design_tools/science_spinbox_class.py:46-50 | the rewritten text parses as `float` to the same number as the `{:g}` text |
| Settings.RenderRead | propeller_design_tools/settings.py:120-142 | a value written as `{}` and read back is the same value, unless it is a path spelled like None/True/False; text read and written again is unchanged |
| Settings.ParseSettingLine | propeller_design_tools/settings.py:135-142 | a line splits at its first `': '` into key and value; a line without `': '` is a ValueError |
| Settings.ReadSettings | propeller_design_tools/settings.py:125-144 | the loop over the stripped, non-blank lines computes the settings dictionary of the text (later keys overwrite earlier ones), or the first line's error |
| Settings.Chosen | propeller_design_tools/settings.py:113-119 | the value saved for a key is the new one when given, else the old one when present, else the default |
| Settings.WriteSettings | propeller_design_tools/settings.py:112-120 | the loop writes one `key: value` line per default key, in the defaults' order, with the chosen value |
| Settings.SavedTextLines | propeller_design_tools/settings.py:96-122 | the saved file is exactly the airfoil line followed by the propeller line |
| Settings.ParseSavedLine | propeller_design_tools/settings.py:120-142 | a saved line parses back to its key and value when the key has no `:` and the value is not a sentinel-looking path |
| Settings.SaveReadRoundTrip | propeller_design_tools/settings.py:96-144 | reading back the two-line file `_save_settings` writes gives both settings with their values, in order |
| Settings.SetAirfoilReadBack | propeller_design_tools/settings.py:11-13 | after `set_airfoil_database(path)` the settings read back hold that path and the propeller setting chosen from the old file or the default |
| Settings.SetPropellerReadBack | propeller_design_tools/settings.py:16-18 | after `set_propeller_database(path)` the settings read back hold that path and the airfoil setting kept |
| Settings.SettingsStore.constructor | propeller_design_tools/settings.py:81-93 | a store starts from a given settings file (or none) and the two default database folders |
| Settings.SettingsStore.GetUserSettings | propeller_design_tools/settings.py:125-144 | reading the store's file gives its parsed settings; a missing file is a FileNotFoundError |
| Settings.SettingsStore.SaveSettings | propeller_design_tools/settings.py:96-122 | an existing file that does not parse raises its error and is left alone; otherwise the file becomes the text chosen from the new settings, the old ones (none when there was no file) and the defaults |
| Settings.SettingsStore.SetAirfoilDatabase | propeller_design_tools/settings.py:11-13 | saves the airfoil path, succeeding exactly when there is no file or it parses |
| Settings.SettingsStore.SetPropellerDatabase | propeller_design_tools/settings.py:16-18 | saves the propeller path, succeeding exactly when there is no file or it parses |
| Settings.GetSetting | propeller_design_tools/settings.py:45-49 | a known setting gives its value; an unknown one raises the package error whose message is the literal `"" is not a known PDT setting`: it never names the key |
| Settings.DatabaseFolder | propeller_design_tools/settings.py:21-42 | the user folder if it is a directory, else the default if it is one, else an error naming both; a missing key is a KeyError and a None value a TypeError |
| Settings.FoundFolderExists | propeller_design_tools/settings.py:21-42 | whenever `get_prop_db` or `get_foil_db` returns a folder, that folder is a directory |
| Physics.RotationalReFails | propeller_design_tools/funcs.py:1028-1037 | the package error is raised exactly when neither input set is complete; otherwise the only failure is division by zero (a zero `mu`, or a zero radius, advance ratio or `mu` on the second path) |
| Physics.RotationalReFromRpm | propeller_design_tools/funcs.py:1030-1031 | with rpm given, Re = rho · (2π·rpm/60) · radius · chord / mu |
| Physics.RotationalReFromAdvance | propeller_design_tools/funcs.py:1032-1034 | with velocity and advance ratio instead, Re = rho · vel · chord / (adv · mu): the radius cancels |
| Physics.DragModel | propeller_design_tools/funcs.py:1080-1082 | the drag polar is applied element by element and keeps the length of the CL array |
| Physics.DragAtLeastMin | propeller_design_tools/funcs.py:1080-1082 | with a non-negative curvature the drag never falls below CDmin |
| Physics.DragMinimum | propeller_design_tools/funcs.py:1080-1082 | with a positive curvature the drag equals CDmin exactly at CL = CLCDmin |
| Physics.DragSymmetric | propeller_design_tools/funcs.py:1080-1082 | the drag is symmetric about CLCDmin |
| Settings.ParseSettings | propeller_design_tools/settings.py:125-144 | the settings read from a file hold each key once and no more keys than setting lines; the only exception is ValueError, for a line without `': '` |
| Settings.SettingsFromKeys | propeller_design_tools/settings.py:135-142 | each line adds at most one key, a key read again replaces its value in place, and only ValueError is raised |
| Physics.RotationalRe | propeller_design_tools/funcs.py:1028-1037 | a result needs rho, radius, chord and a non-zero mu, and either an rpm or a velocity with a non-zero advance ratio and radius; the only failures are division by zero and the package error for missing inputs |
| SpinBox.FormatFloat | propeller_design_tools/science_spinbox_class.py:46-50 | `format_float` after `{:g}`: `e+` becomes `e` and the exponent loses its leading zeros; its properties are `FormatFloatExponent`, `FormatFloatPlain` and `FormatFloatKeepsValue` |
| Settings.GetPropDb | propeller_design_tools/settings.py:21-31 | `get_prop_db` passes on the failure to read the settings, and a folder it returns is a directory |
| Settings.GetFoilDb | propeller_design_tools/settings.py:33-43 | `get_foil_db` passes on the failure to read the settings, and a folder it returns is a directory |
| Settings.SavedText | propeller_design_tools/settings.py:96-122 | the text `_save_settings` writes is empty exactly when there are no default keys, one line being written per key |
| Physics.Drag | propeller_design_tools/funcs.py:1080-1082 | the drag polar gives CDmin at CL = CLCDmin and never less than CDmin for a non-negative curvature |
| FoilDatabase.Listing | propeller_design_tools/funcs.py:138-152 | the names kept are exactly those of listed entries that are files (or any entry with `include_dirs`) and contain all (or, with `contains_any`, any) of the search strings |
| FoilDatabase.SearchFiles | propeller_design_tools/funcs.py:124-154 | a missing folder raises the package error naming it; otherwise the result holds exactly the matching names, an empty search list acting as no filter |
| FoilDatabase.ListingDistinct | propeller_design_tools/funcs.py:138-152 | a listing of distinct names stays free of repeats |
| FoilDatabase.CandidateNames | propeller_design_tools/funcs.py:159 | the candidates of a lookup are exactly the files whose name contains the airfoil name |
| FoilDatabase.PickExact | propeller_design_tools/funcs.py:160-184 | with `exact_namematch` the lookup succeeds exactly when `<name>.dat` is among the candidates, and then returns it |
| FoilDatabase.PickAny | propeller_design_tools/funcs.py:162-178 | without `exact_namematch` the lookup succeeds exactly when there is one candidate, and returns it |
| FoilDatabase.LookupNoFolder | propeller_design_tools/funcs.py:135-136 | looking up in a database folder that does not exist raises the missing-folder error |
| FoilDatabase.LookupExactRules | propeller_design_tools/funcs.py:157-184 | an exact lookup succeeds exactly when the folder holds a file named `<name>.dat`, and returns that name |
| FoilDatabase.LookupAnyRules | propeller_design_tools/funcs.py:157-184 | a loose lookup returns the one file whose name contains the airfoil name; it fails only when there is none or there are two different ones |
| FoilDatabase.LastDot | propeller_design_tools/funcs.py:108 | finds the last '.' of a name, or reports that it has none |
| FoilDatabase.Extension | propeller_design_tools/funcs.py:108 | `os.path.splitext(name)[1]` is empty or a dot-led suffix of the name without further dots |
| FoilDatabase.ExtensionOfJoined | propeller_design_tools/funcs.py:108 | a base that is not all dots followed by an extension has that extension |
| FoilDatabase.HiddenHasNoExtension | propeller_design_tools/funcs.py:108 | a hidden name such as `.dat` has no extension |
| FoilDatabase.AirfoilFiles | propeller_design_tools/funcs.py:104-110 | the airfoil files are exactly the `.dat` and `.txt` names other than XFOIL's two scratch files |
| FoilDatabase.Retained | propeller_design_tools/funcs.py:193-204 | a saved polar is kept only when its key is not in the new data and it has the same fields as the new data's first polar |
| FoilDatabase.MergePolarDataDicts | propeller_design_tools/funcs.py:187-205 | with no saved data the new data is returned; with saved data but no new data the first-key lookup is an IndexError; otherwise the result is the new data followed by the retained saved polars |
| FoilDatabase.MergeKeepsNew | propeller_design_tools/funcs.py:192-204 | every key of the new data keeps its new polar in the merge |
| FoilDatabase.MergeOldOnly | propeller_design_tools/funcs.py:193-198 | a key only in the saved data keeps its saved polar when the fields agree and is dropped otherwise |
| FoilDatabase.NanRows | propeller_design_tools/funcs.py:209-215 | the rows to drop are exactly the indices where some array column holds a NaN |
| FoilDatabase.KeepRows | propeller_design_tools/funcs.py:219-223 | a scrubbed column lists, in order, the cells of the rows not dropped |
| FoilDatabase.CollectNanRows | propeller_design_tools/funcs.py:209-215 | the first loop collects exactly the NaN rows of every array column |
| FoilDatabase.ScrubColumns | propeller_design_tools/funcs.py:218-227 | the second loop rebuilds every column without the dropped rows and keeps scalars as they are, in key order |
| FoilDatabase.ScrubNans | propeller_design_tools/funcs.py:208-227 | `scrub_nans` keeps the keys and scrubs every column by the rows where any column has a NaN |
| FoilDatabase.ScrubbedHasNoNan | propeller_design_tools/funcs.py:208-227 | after scrubbing no array column holds a NaN |
| FoilDatabase.GetAirfoilFileFromDb | propeller_design_tools/funcs.py:157-184 | `get_airfoil_file_from_db` raises the missing-folder error when the database folder does not exist, and a file it returns is a regular file of that folder |
| FoilDatabase.PickFile | propeller_design_tools/funcs.py:160-184 | the chosen file is one of the candidates, and `<name>.dat` itself under `exact_namematch`; every refusal is the package error |
| CoordinateFile.ParseRow | propeller_design_tools/funcs.py:266-269 | a coordinate line that is not blank either gives its first and last numbers or is a ValueError |
| CoordinateFile.AtMostOne | propeller_design_tools/funcs.py:270-273 | only values not above 1 are kept, and a column with none above 1 is kept whole |
| CoordinateFile.ReadRows | propeller_design_tools/funcs.py:261-273 | the loop fails exactly when some data line does not parse, and otherwise builds the x and y columns, each filtered on its own |
| CoordinateFile.ReadLines | propeller_design_tools/funcs.py:260-273 | the first line, stripped of spaces, is the name; the other lines give the two columns |
| CoordinateFile.ColumnsStep | propeller_design_tools/funcs.py:270-273 | one more row adds its x to the x column and its y to the y column, each only when not above 1 |
| CoordinateFile.Directions | propeller_design_tools/funcs.py:277-278 | the direction list is the sign of each x step with the first one repeated |
| CoordinateFile.UpperEnd | propeller_design_tools/funcs.py:279 | the upper run ends at the first place the direction flips, and no flip comes before it |
| CoordinateFile.Runs | propeller_design_tools/funcs.py:276-289 | when the points split, both runs are non-empty; when the direction never flips the `[0][0]` lookup is an IndexError |
| CoordinateFile.RunsShape | propeller_design_tools/funcs.py:279-289 | the upper run is the points up to the first flip and the lower run the rest, each reversed when its direction calls for it |
| CoordinateFile.UpperRunDecreasing | propeller_design_tools/funcs.py:283-285 | when no x step is zero, the upper run is ordered with x decreasing |
| CoordinateFile.LowerRunIncreasing | propeller_design_tools/funcs.py:287-289 | when no x step is zero and the direction flips only once, the lower run is ordered with x increasing |
| CoordinateFile.RaiseRun | propeller_design_tools/funcs.py:297-302 | raising the upper run keeps every x and leaves the points at or before x = 0.7 unchanged |
| CoordinateFile.LowerRun | propeller_design_tools/funcs.py:304-309 | lowering the lower run keeps every x and leaves the points at or before x = 0.8 unchanged |
| CoordinateFile.RaiseUpper | propeller_design_tools/funcs.py:297-302 | the in-place loop over the upper array computes the raised run |
| CoordinateFile.LowerLower | propeller_design_tools/funcs.py:304-309 | the in-place loop over the lower array computes the lowered run |
| CoordinateFile.BlendTrailingEdge | propeller_design_tools/funcs.py:291-309 | the two arrays are blended in place only when the gap differs from the requested one |
| CoordinateFile.BlendSetsGap | propeller_design_tools/funcs.py:291-309 | when both runs end at x = 1, the blended trailing-edge gap is exactly the requested one |
| CoordinateFile.Rejoin | propeller_design_tools/funcs.py:314-318 | the runs are joined upper then lower, dropping the lower run's first point when it repeats the upper run's last one |
| CoordinateFile.BlendAndJoin | propeller_design_tools/funcs.py:291-318 | blending and joining give the rejoined blended runs |
| CoordinateFile.ReadAirfoilCoordinateFile | propeller_design_tools/funcs.py:231-321 | a line that does not parse is a ValueError; otherwise the result is the name and the x and y columns of the split, blended and rejoined contour, or the contour's IndexError |
| CoordinateFile.Blended | propeller_design_tools/funcs.py:291-309 | the blend keeps both runs' lengths and every x coordinate |
| CoordinateFile.Contour | propeller_design_tools/funcs.py:276-318 | the contour fails, with IndexError, exactly when the points do not split into two runs; otherwise it starts with the upper run's x coordinates, in order |
| PolarFiles.NamesLine | propeller_design_tools/funcs.py:411-414 | line 5 records the variable names and gives each an empty numbered list, leaving the named entries alone |
| PolarFiles.AppendFromOk | propeller_design_tools/funcs.py:416-419 | appending a data row succeeds exactly when every word is a number and has a list to go to |
| PolarFiles.AppendFromSpec | propeller_design_tools/funcs.py:416-419 | a row appended from column `c` on adds word `j` to list `j` for every `j >= c` and changes no other list |
| PolarFiles.AsWrittenKeepsRepeat | propeller_design_tools/funcs.py:418-419 | as written, a row whose angle is already in the angle list is appended again, so the angle list gets a repeat |
| PolarFiles.DedupeRow | propeller_design_tools/funcs.py:418-421 | with the intended test a row whose angle was already read is skipped, and any other row is appended as before |
| PolarFiles.DedupeRowDistinct | propeller_design_tools/funcs.py:418-421 | with the intended test a row keeps the angle list free of repeats |
| PolarFiles.DedupeLineDistinct | propeller_design_tools/funcs.py:402-421 | with the intended test every line keeps the angle list free of repeats |
| PolarFiles.DedupeDistinct | propeller_design_tools/funcs.py:402-421 | with the intended test the whole line loop ends with distinct angles |
| PolarFiles.FirstsOfSorted | propeller_design_tools/funcs.py:434 | sorting the (angle, value) pairs sorts the angles |
| PolarFiles.SortColumnRows | propeller_design_tools/funcs.py:432-435 | each sorted column has one entry per angle, and its entry `k` comes from a row whose angle is the `k`-th smallest |
| PolarFiles.RowsStayAligned | propeller_design_tools/funcs.py:432-435 | when the angles are distinct, two columns sorted on their own stay aligned: entry `k` of both comes from the same row |
| PolarFiles.RepeatMisaligns | propeller_design_tools/funcs.py:432-435 | with a repeated angle the tie is broken by the values, so two columns can be reordered differently and no row matches both |
| PolarFiles.DivideSpec | propeller_design_tools/funcs.py:438 | `CL / CD` is the quotient when CD is not zero; at zero it is NaN for 0/0 and an infinity otherwise |
| PolarFiles.NoRowsNone | propeller_design_tools/funcs.py:428-429 | a file whose variable lists are all empty gives None |
| PolarFiles.AppendRow | propeller_design_tools/funcs.py:417-419 | the column loop appends the row as specified |
| PolarFiles.ReadPaccRow | propeller_design_tools/funcs.py:415-421 | one data row, with the duplicate test as written or as intended |
| PolarFiles.ReadPaccLine | propeller_design_tools/funcs.py:402-421 | one non-blank line, dispatched on its position: name, conditions, names or data |
| PolarFiles.ReadPaccLines | propeller_design_tools/funcs.py:400-421 | the line loop computes the reader's state over all non-blank lines |
| PolarFiles.SortColumns | propeller_design_tools/funcs.py:432-435 | the sort loop reorders every named column by the copy of the angles |
| PolarFiles.ReadXfoilPaccFile | propeller_design_tools/funcs.py:390-444 | the file text gives None when there is no data row, else the polar with every column sorted by angle and `CL/CD` added, or the error the code raises |
| PolarArchive.NameText | propeller_design_tools/funcs.py:489-490 | a given non-empty name is written as it is; a missing or empty one becomes `unnamed airfoil` |
| PolarArchive.ArrayTexts | propeller_design_tools/funcs.py:497-499 | exactly the numpy array values are written, each as the texts of its elements |
| PolarArchive.WriteField | propeller_design_tools/funcs.py:498-499 | writing one field appends its `key: (..)` line, or nothing for a value that is not an array |
| PolarArchive.WriteFields | propeller_design_tools/funcs.py:497-499 | the field loop appends one line per array field, in the dictionary's order |
| PolarArchive.SavePolarDataFile | propeller_design_tools/funcs.py:488-500 | the text written is the name line followed, for each condition in order, by a blank line, the starred header and the field lines, every line ended by a newline |
| PolarArchive.ReadArchiveLine | propeller_design_tools/funcs.py:457-468 | one line: a starred header opens a new dictionary from the name and the header's assignments, a non-blank line adds a field to it, a blank line files it under its text key |
| PolarArchive.ReadPolarLines | propeller_design_tools/funcs.py:448-468 | the first loop reads the name from line 0, skips line 1 and steps through the rest |
| PolarArchive.ConvertDict | propeller_design_tools/funcs.py:473-480 | the conversion loop over one dictionary converts every value in place and stops at the first exception |
| PolarArchive.ConvertArchive | propeller_design_tools/funcs.py:471-483 | the loop computes the specified conversion: the filed entries in filing order, each converting in place the dictionary it refers to (a dictionary filed under two text keys is converted twice, and the second pass raises TypeError), then storing a copy under the numeric (Re, Mach, Ncrit) key; the first exception ends it |
| PolarArchive.ReadPolarDataFile | propeller_design_tools/funcs.py:447-485 | the reader computes the specified archive: the exception of the line loop, or the converted dictionaries keyed by (Re, Mach, Ncrit) with no condition twice; a file of one or two lines gives the empty archive |
| PolarArchive.ConvertFields | propeller_design_tools/funcs.py:473-480 | converting a dictionary keeps its keys and their order |
| PolarArchive.SplitItems | propeller_design_tools/funcs.py:475-499 | a tuple's comma-joined items split back at the commas into the first item and the others with their leading space |
| PolarArchive.TuplePieces | propeller_design_tools/funcs.py:475-499 | the pieces of `tuple(...)`'s text, stripped, are the element texts; a one-element tuple leaves an extra empty piece and an empty one a single empty piece |
| PolarArchive.TupleRoundTrip | propeller_design_tools/funcs.py:475-499 | an array of two or more elements written as a tuple is read back as the same floats; a one-element or empty one fails as written and is read back with the lenient reading |
| PolarArchive.HeaderRoundTrip | propeller_design_tools/funcs.py:458-496 | the header line is recognised by its stars and reads back as the name and the lower-cased `re`, `mach` and `ncrit` texts |
| PolarArchive.FieldStep | propeller_design_tools/funcs.py:464-499 | a written field line is read back as its key and its tuple text |
| PolarArchive.BlockScan | propeller_design_tools/funcs.py:457-499 | reading a header and its field lines opens one dictionary holding the header items and every array field's text |
| PolarArchive.BlankStep | propeller_design_tools/funcs.py:467-468 | a blank line files the open dictionary under the texts of its (re, mach, ncrit) |
| PolarArchive.TextKeyInjective | propeller_design_tools/funcs.py:468-496 | different conditions give different text keys, so no block overwrites another |
| PolarArchive.LoadAll | propeller_design_tools/funcs.py:454-468 | reading the blocks of the first `j` conditions files exactly those `j` dictionaries, in order |
| PolarArchive.SavedLines | propeller_design_tools/funcs.py:453-499 | splitting the saved text at newlines gives the name, an empty line 1, and each block followed by a blank line |
| PolarArchive.ReadSavedLines | propeller_design_tools/funcs.py:447-500 | reading the lines of a saved archive files one text dictionary per condition, in the order written |
| PolarArchive.ArrayReals | propeller_design_tools/funcs.py:475-476 | an array of finite values read back as floats: the reals themselves, or the finite quotients |
| PolarArchive.Restored | propeller_design_tools/funcs.py:471-483 | the archive read back keeps the conditions of the one written, in order |
| PolarArchive.NameConverts | propeller_design_tools/funcs.py:474-480 | a name without `(` stays text |
| PolarArchive.IntConverts | propeller_design_tools/funcs.py:477-478 | the `re` and `ncrit` texts convert back to the same integers |
| PolarArchive.MachConverts | propeller_design_tools/funcs.py:479-480 | the `mach` text converts back to the same float |
| PolarArchive.HeaderConverts | propeller_design_tools/funcs.py:473-480 | the four header items convert back to the name and the condition's three numbers |
| PolarArchive.FieldConverts | propeller_design_tools/funcs.py:474-476 | an array field converts back to the same floats when it has two or more elements or the reading is lenient |
| PolarArchive.ShortFieldFails | propeller_design_tools/funcs.py:474-499 | as written, a one-element or empty array cannot be read back: `float('')` is a ValueError |
| PolarArchive.NewKeyOfText | propeller_design_tools/funcs.py:481 | the text key converts back to the condition it was written from |
| PolarArchive.BlockConverts | propeller_design_tools/funcs.py:471-482 | one block's dictionary converts to the header values followed by the array fields |
| PolarArchive.ConvertLoaded | propeller_design_tools/funcs.py:471-483 | converting all filed dictionaries of a saved archive gives the restored archive |
| PolarArchive.ArchiveRoundTrip | propeller_design_tools/funcs.py:447-500 | reading back a saved archive gives, for every condition in order, its name, Re, Mach, Ncrit and every array field with the same values; non-array fields are not saved. It needs distinct conditions, a name without `(` or a newline, and two or more elements per array unless the reading is lenient |
| PolarArchive.ConvertAll | propeller_design_tools/funcs.py:471-483 | the conversion stores at most one polar per filed entry |
| PolarArchive.ConvertAllKeys | propeller_design_tools/funcs.py:471-483 | a condition met again replaces its polar, so the archive never holds a condition twice |
| PolarArchive.ReadArchive | propeller_design_tools/funcs.py:447-485 | what `read_polar_data_file` returns has no repeated condition, and a file without data lines gives the empty archive |
| PolarArchive.FiledTwice | propeller_design_tools/funcs.py:466-468 | one dictionary filed under two text keys (its `re` changed by a field line in between) is stored twice, as the same heap dictionary |
| PolarArchive.FirstConversion | propeller_design_tools/funcs.py:473-480 | the first conversion of a header dictionary leaves the name as text and makes `re` an integer |
| PolarArchive.ReconvertRaises | propeller_design_tools/funcs.py:473-478 | converting that dictionary again raises TypeError: the name passes, and then `'(' in val` is applied to the integer `re` |
| PolarArchive.RefiledRaises | propeller_design_tools/funcs.py:471-478 | an entry referring to a dictionary converted earlier in the loop raises TypeError |
| PolarArchive.TwiceFiledRaises | propeller_design_tools/funcs.py:466-483 | when the first two entries refer to the same dictionary, the whole conversion raises TypeError |
| XRotorReports.CellFor | propeller_design_tools/funcs.py:532-535 | a table entry is its float; one that is not a number becomes NaN in the operating-point listing and a ValueError in the slipstream listing (the slipstream reader does the same at funcs.py:794) |
| XRotorReports.AppendRowCells | propeller_design_tools/funcs.py:531-535 | the row loop appends each entry to the column of its header, stopping at the first exception (the slipstream reader does the same at funcs.py:793-794) |
| XRotorReports.AppendFromErrors | propeller_design_tools/funcs.py:531-535 | a row can only fail with IndexError (more entries than headers), KeyError, AttributeError or ValueError (the slipstream reader does the same at funcs.py:793-794) |
| XRotorReports.RowAppendsOk | propeller_design_tools/funcs.py:531-535 | with the columns in place, a row fails exactly when one of its entries is refused (the slipstream reader does the same at funcs.py:793-794) |
| XRotorReports.RowAppendsCells | propeller_design_tools/funcs.py:531-535 | a row that succeeds extends the column of each entry by exactly that entry and leaves every other key alone (the slipstream reader does the same at funcs.py:793-794) |
| XRotorReports.PairValue | propeller_design_tools/funcs.py:519-523 | a pair's value is a float when its first or second character is a digit, else the text; an empty or one-character non-digit value is an IndexError and an unparsable number a ValueError |
| XRotorReports.PairsOk | propeller_design_tools/funcs.py:516-523 | the pairs of a `:` line are stored exactly when every value is well formed |
| XRotorReports.PairsStore | propeller_design_tools/funcs.py:516-523 | each key of the line gets the value of its last pair and every other key is kept |
| XRotorReports.StorePairs | propeller_design_tools/funcs.py:516-523 | the pair loop stores the pairs of one line |
| XRotorReports.NewColumnsEmpty | propeller_design_tools/funcs.py:527-529 | the first table line gives every header an empty column and leaves other keys alone |
| XRotorReports.AddColumns | propeller_design_tools/funcs.py:528-529 | the loop that creates the columns |
| XRotorReports.HeadersFixedOnce | propeller_design_tools/funcs.py:512-529 | rule lines change nothing; only the first table line sets the headers, and no later line changes them |
| XRotorReports.ExponentAsWrittenSix | propeller_design_tools/funcs.py:541-544 | as written, the header `REx10^6` gives exponent 6 |
| XRotorReports.ExponentAsWrittenMisreadsTwelve | propeller_design_tools/funcs.py:543 | as written, the header `REx10^12` gives exponent 2, because `strip` drops the exponent's leading 1 |
| XRotorReports.ExponentAsWrittenRejectsTen | propeller_design_tools/funcs.py:543 | as written, the header `REx10^10` strips to nothing and `int` raises ValueError |
| XRotorReports.ExponentOfHeader | propeller_design_tools/funcs.py:541-544 | with the corrected reading, every header `REx10^k` gives exponent `k` |
| XRotorReports.ScaleCells | propeller_design_tools/funcs.py:544 | each number of the column is multiplied by the power of ten and NaN stays NaN |
| XRotorReports.ReynoldsColumnScaled | propeller_design_tools/funcs.py:541-544 | a `REx10^k` column is popped and stored as `RE` with each number times `10**k`; every other key keeps its value |
| XRotorReports.ConvertHeaders | propeller_design_tools/funcs.py:538-544 | the final loop computes the specified conversion: headers in order, a plain column kept, a `REx10^` column popped and stored as `RE` times ten to its exponent, read with `strip` as the code does (`asWritten`) or as the prefix; the first KeyError, ValueError or TypeError ends it |
| XRotorReports.ReadOpLine | propeller_design_tools/funcs.py:513-535 | one line: a rule is skipped, a line with `:` holds pairs, any other line is the header row or a table row |
| XRotorReports.ReadOpLines | propeller_design_tools/funcs.py:512-535 | the line loop of the operating-point reader |
| XRotorReports.ReadOpOutcomes | propeller_design_tools/funcs.py:503-546 | for either exponent reading: a report with the not-converged banner raises the package error; one with no table raises TypeError; otherwise the result is the dictionary with its Reynolds columns converted |
| XRotorReports.ReadXrotorOpFile | propeller_design_tools/funcs.py:503-546 | the reader computes the specified report; it raises the package error only on the not-converged banner and otherwise only TypeError, IndexError, KeyError, AttributeError or ValueError; the dataset loader calls it with the exponent read as written |
| XRotorReports.KeywordValue | propeller_design_tools/funcs.py:770-786 | the word after a keyword is its value; a keyword at the end is an IndexError; a non-number is a ValueError except for power and thrust, which become NaN |
| XRotorReports.KeywordPair | propeller_design_tools/funcs.py:770-786 | a keyword followed by its value stores that value under the keyword's name |
| XRotorReports.KeywordScan | propeller_design_tools/funcs.py:770-786 | the keyword loop of lines 3 and 4 |
| XRotorReports.KeywordsErrors | propeller_design_tools/funcs.py:770-786 | keyword lines fail only with IndexError or ValueError |
| XRotorReports.SetDefaultsKeep | propeller_design_tools/funcs.py:789-790 | `setdefault` keeps every present key, gives each missing header an empty column and adds nothing else |
| XRotorReports.SetDefaultColumns | propeller_design_tools/funcs.py:789-790 | the `setdefault` loop |
| XRotorReports.WVelHeadingLinesSkipped | propeller_design_tools/funcs.py:766-791 | lines 0 to 2 and 5 change nothing |
| XRotorReports.ReadXrotorWvelFile | propeller_design_tools/funcs.py:760-796 | the slipstream reader on the file's text; it fails only with IndexError, KeyError, AttributeError or ValueError |
| XRotorReports.ExponentAsWritten | propeller_design_tools/funcs.py:543 | when the text after `REx10^` neither starts nor ends with one of the stripped characters, `strip` removes exactly the prefix and the reading agrees with the corrected one |
| XRotorReports.StripPlain | propeller_design_tools/funcs.py:543 | such a header strips to the text after its prefix |
| XRotorReports.ConvertHeader | propeller_design_tools/funcs.py:539-544 | one header succeeds exactly when its column exists and, for a `REx10^` header, its exponent reads and the column is not text; it fails only with KeyError, ValueError or TypeError; a plain header changes nothing and a Reynolds header leaves an `RE` entry |
| XRotorReports.ConvertFromErrors | propeller_design_tools/funcs.py:538-544 | the header loop fails only with KeyError, ValueError or TypeError |
| XRotorReports.TwelveScaledAsWritten | propeller_design_tools/funcs.py:543 | as written, a `REx10^12` column is stored as `RE` scaled by 100 instead of 10^12 |
| XRotorReports.TenRejectedAsWritten | propeller_design_tools/funcs.py:543 | as written, a report with a `REx10^10` column raises ValueError |
| XRotorReports.ColumnScaledBy | propeller_design_tools/funcs.py:541-544 | a Reynolds column whose exponent reads as `e` is popped and stored as `RE` with every number times `10**e` |
| XRotorReports.PairsFromErrors | propeller_design_tools/funcs.py:516-523 | a `:` line fails only with IndexError or ValueError |
| XRotorReports.OpFromErrors | propeller_design_tools/funcs.py:512-535 | the line loop fails only with IndexError, KeyError, AttributeError or ValueError |
| XRotorReports.ReadOp | propeller_design_tools/funcs.py:503-546 | `read_xrotor_op_file` raises the package error only when the text holds the not-converged banner, and otherwise only TypeError, IndexError, KeyError, AttributeError or ValueError |
| XRotorReports.WVelLineErrors | propeller_design_tools/funcs.py:766-794 | one slipstream line fails only on a keyword value or a table row, and from line 6 on the headers are known |
| XRotorReports.WVelFrom | propeller_design_tools/funcs.py:766-794 | the slipstream line loop, started with the headers known from line 7 on, fails only with IndexError, KeyError, AttributeError or ValueError |
| XRotorReports.ReadWVel | propeller_design_tools/funcs.py:760-796 | `read_xrotor_wvel_file` raises only IndexError, KeyError, AttributeError or ValueError |
| XRotorCommands.PrepareOper | propeller_design_tools/funcs.py:664-716 | fails exactly on a vorform other than grad, pot or vrtx (any case) or on more than one setting given, with the package error for the first that applies; otherwise gives the command list, its newline-joined script and the timeout (25 s for vrtx, 10 s otherwise, unless one is given) |
| XRotorCommands.SingleSetting | propeller_design_tools/funcs.py:691-700 | one setting sends its keyword and value, and thrust, torque and power also send the `p` confirmation |
| XRotorCommands.OperLayout | propeller_design_tools/funcs.py:679-713 | the commands load the restart file, set the vorform, optionally the speed, then the one setting, then write both reports and quit, in that order |
| XRotorCommands.NoSetting | propeller_design_tools/funcs.py:679-713 | with no setting given the commands go straight from the speed to the report writing |
| XRotorCommands.WriteSweepLines | propeller_design_tools/funcs.py:361-366 | the sweep loop writes one `a<v>` or `cl<v>` line per value, in order |
| XRotorCommands.WriteXfoilScript | propeller_design_tools/funcs.py:324-370 | giving both or neither of `alpha` and `cl` raises the package error; otherwise the script is the fixed XFOIL preamble, the sorted sweep, the keypress block and the `pwrt` output to `polar_output.txt` unless another path is given |
| XRotorCommands.XfoilSweepOrdered | propeller_design_tools/funcs.py:340-366 | the script sweeps a sorted permutation of the values given |
| XRotorCommands.XfoilScriptOrderFree | propeller_design_tools/funcs.py:340-366 | the order in which the sweep values are given does not change the script |
| XRotorCommands.OperCommands | propeller_design_tools/funcs.py:679-713 | the command list is 7 entries plus the speed and setting blocks long; it starts by loading the restart file and choosing the vorform, sends `velo` first when a speed is given, and ends by writing both reports and quitting |
| XRotorCommands.XfoilHead | propeller_design_tools/funcs.py:350-360 | the XFOIL command file starts by loading the airfoil |
| XRotorCommands.XfoilTail | propeller_design_tools/funcs.py:365-369 | the command file ends by writing the polar to the output file and quitting |
| XRotorCommands.XfoilScript | propeller_design_tools/funcs.py:349-369 | the whole command file starts by loading the airfoil and ends by writing the polar to the output file and quitting, whatever is swept |
| CreatePropeller.BladeEntriesStep | propeller_design_tools/funcs.py:907-911 | one more blade-data key adds its `o`/`w` output commands at the end |
| CreatePropeller.BladeCommands | propeller_design_tools/funcs.py:904-911 | the blade-data loop builds the `plot 12` block with one output request per key, and records every key |
| CreatePropeller.ClTextAccepts | propeller_design_tools/funcs.py:880-901 | the `design_cl` dictionary is accepted exactly when its keys are `const`, `file`, or `root` and `tip`; anything else raises the package error |
| CreatePropeller.LinearCl | propeller_design_tools/funcs.py:891-895 | a root and tip CL give the `cl` command with both values |
| CreatePropeller.ThrustOverPower | propeller_design_tools/funcs.py:875-878 | a design thrust wins over a design power |
| CreatePropeller.SecondStageErrors | propeller_design_tools/funcs.py:858-901 | after the folder reset the package error is raised exactly for both adv and rpm given or a malformed `design_cl`; an unknown vorform or a missing adv/rpm or thrust/power leaves a variable unbound; otherwise the commands are built |
| CreatePropeller.SecondStageParts | propeller_design_tools/funcs.py:843-928 | an accepted design's command list holds the atmosphere, vorform, adv/rpm, thrust/power and CL answers in XROTOR's order |
| CreatePropeller.PropellerDatabase.constructor | propeller_design_tools/funcs.py:820 | a database starts from given folders and files |
| CreatePropeller.PropellerDatabase.CreatePropeller | propeller_design_tools/funcs.py:799-945 | a name over 38 characters or a missing altitude raises the package error before anything changes; otherwise the propeller's folder is reset to hold just `blade_profiles`, and the run either stops on the second-stage error leaving the section-parameter file behind, or hands XROTOR the command file (timeout 100 s for vrtx, else 30 s, unless given) and removes both temporary files |
| CreatePropeller.PropellerDatabase.RunDesign | propeller_design_tools/funcs.py:835-945 | the steps after the folder reset leave the folders alone and end as the second stage decides |
| CreatePropeller.PropellerDatabase.WriteAndRun | propeller_design_tools/funcs.py:838-946 | the section-parameter file is written first; on an error it stays; otherwise the command file is written, used and removed, then the section-parameter file is removed |
| CreatePropeller.WrittenThenRemoved | propeller_design_tools/funcs.py:840-946 | writing two temporary files and removing both leaves the other files as they were |
| CreatePropeller.SecondStage | propeller_design_tools/funcs.py:858-928 | adv and rpm together raise the package error; a design is accepted exactly when adv and rpm do not clash, `design_cl` has an accepted shape, the vorform is known and one of adv/rpm and one of thrust/power is given; other failures are UnboundLocalError or the package error; an accepted design gives 25 commands, starting with `aero`, with the blade-data block at entry 20 |
| CreatePropeller.FirstStageError | propeller_design_tools/funcs.py:811-817 | the checks before the folder is touched pass exactly when the name has at most 38 characters and `altitude_km` is given, the name being checked first |
| CreatePropeller.ClText | propeller_design_tools/funcs.py:880-901 | the `design_cl` answer exists exactly for a single `const` or `file` key or for exactly `root` and `tip`; otherwise the package error with the message for that shape |
| CreatePropeller.DesignCommands | propeller_design_tools/funcs.py:923-928 | the command list has 25 entries, with the CL answer and the blade-data block at positions 19 and 20; the other answers' positions are `SecondStageParts` |
| MetaFile.Items | propeller_design_tools/propeller.py:207-208 | every item of a dictionary text, once its braces and quotes are removed and it is split at `, ` and `: `, has at least one piece |
| MetaFile.NumberKeyed | propeller_design_tools/propeller.py:210-214 | when every key is numeric, a successful conversion gives one float-keyed pair per item |
| MetaFile.TextKeyed | propeller_design_tools/propeller.py:215-222 | text keys give one pair per item; an item without a value piece fails |
| MetaFile.FloatsOf | propeller_design_tools/propeller.py:192-193 | the float list of a `blade_data_` line has one value per comma-separated part |
| MetaFile.ParseEachOk | propeller_design_tools/propeller.py:192-193 | parts that each convert give exactly their values, in order |
| MetaFile.MetaLines | propeller_design_tools/propeller.py:183-185 | the stripped file text always splits into at least one line |
| MetaFile.ReadLinesNext | propeller_design_tools/propeller.py:190-225 | a line that reads cleanly advances the reading loop by exactly that line's effect |
| MetaFile.ReadLinesStops | propeller_design_tools/propeller.py:190-225 | the first failing line ends the loop with its exception; the attributes set before it stay set and later lines are never read |
| MetaFile.Saved | propeller_design_tools/propeller.py:334-341 | `save_meta_file` writes only save/load attributes that are not in the ignore list |
| MetaFile.BeforeAt | propeller_design_tools/propeller.py:338-346 | the attributes written before `blade_data` are exactly the prefix up to its first occurrence |
| MetaFile.BladeLines | propeller_design_tools/propeller.py:341-344 | `blade_data` is written as one line per key |
| MetaFile.WrittenLinesNext | propeller_design_tools/propeller.py:340-346 | each further attribute appends its one line, or the block of blade-data lines for `blade_data` |
| MetaFile.BladeLinesNext | propeller_design_tools/propeller.py:342-344 | the blade-data lines appear in the dictionary's key order |
| MetaFile.ItemsOfShown | propeller_design_tools/propeller.py:207-208 | the item splitter recovers exactly the key and value texts of `str(d)` for a non-empty dictionary whose texts hold no separators and nothing that `repr` escapes |
| MetaFile.NumberItemFits | propeller_design_tools/propeller.py:210-214 | a written float key reads back as the same float key |
| MetaFile.TextKeyedParts | propeller_design_tools/propeller.py:215-222 | text keys written by `str(d)` come back in order, paired with their value texts |
| MetaFile.EntryRoundTrip | propeller_design_tools/propeller.py:217-222 | a dictionary value written by `str` converts back to itself: None, a float, or the text |
| MetaFile.BuildPairs | propeller_design_tools/propeller.py:216-222 | filling a fresh dictionary with the pairs of a duplicate-free dictionary rebuilds it |
| MetaFile.KeyedParts | propeller_design_tools/propeller.py:207-214 | the numeric-keys test picks the same key kind that was written, for both kinds |
| MetaFile.DictRoundTrip | propeller_design_tools/propeller.py:205-222 | a non-empty dictionary written with `str` and read by the meta-file dictionary parser comes back equal, when its texts hold no separators and nothing that `repr` escapes |
| MetaFile.EscapedReadBack | propeller_design_tools/propeller.py:205-222 | a one-entry text dictionary written with `str` reads back holding the `repr`-escaped value, not the value; the two agree exactly when the value has nothing `repr` escapes (the writer is propeller.py:346) |
| MetaFile.BackslashReadDoubled | propeller_design_tools/propeller.py:205-222 | the value `a\\b` (one backslash) written with `str` reads back with two backslashes (the writer is propeller.py:346) |
| Text.ReprQuotesOnly | propeller_design_tools/propeller.py:346 | `repr` of a text is the text in single quotes exactly when it holds no quote, backslash, tab, newline, return or other non-printable character |
| Text.ReprDoublesBackslash | propeller_design_tools/propeller.py:346 | `repr` writes a backslash as two backslashes |
| MetaFile.EmptyDictUnreadable | propeller_design_tools/propeller.py:207-222 | an empty dictionary is written as `{}`, which the parser rejects with ValueError |
| MetaFile.IntTextNotNone | propeller_design_tools/propeller.py:199-202 | a written integer is never the text `None`, so it is not read back as None |
| MetaFile.ValueRoundTrip | propeller_design_tools/propeller.py:198-223 | every attribute value that fits its declared type converts back from its `str` text to itself, when its dictionary texts hold nothing that `repr` escapes |
| MetaFile.AttrStepSets | propeller_design_tools/propeller.py:196-224 | a written attribute line sets exactly that attribute to the written value, when its dictionary texts hold nothing that `repr` escapes |
| MetaFile.AttrLineRoundTrip | propeller_design_tools/propeller.py:190-224 | reading one written attribute line changes only that attribute, to the value written, when its dictionary texts hold nothing that `repr` escapes (the writer is propeller.py:345-346) |
| MetaFile.Reprs | propeller_design_tools/propeller.py:343 | each float is written with its own repr, in order |
| MetaFile.FloatsOfReprs | propeller_design_tools/propeller.py:192-193 | written floats convert back to the same list (the writer is propeller.py:343) |
| MetaFile.FloatsRoundTrip | propeller_design_tools/propeller.py:192-193 | a non-empty float list joined with `, ` and split again comes back equal (the writer is propeller.py:343) |
| MetaFile.NoBladeName | propeller_design_tools/propeller.py:196-197 | no save/load attribute starts with `blade_data_`, so blade lines never set an attribute |
| MetaFile.BladeStepsSet | propeller_design_tools/propeller.py:190-197 | a blade-data line sets its key in the blade dictionary, and neither the point-cloud nor the attribute step changes anything |
| MetaFile.BladeLineRoundTrip | propeller_design_tools/propeller.py:190-197 | reading one written blade-data line stores exactly that key's floats and changes nothing else (the writer is propeller.py:342-344) |
| MetaFile.ParseDict | propeller_design_tools/propeller.py:205-222 | a parsed dictionary holds each key once and has no more entries than items |
| MetaFile.BuildKeys | propeller_design_tools/propeller.py:216-222 | filling the dictionary pair by pair keeps every key once, a later pair replacing an earlier value |
| MetaFile.WrittenLines | propeller_design_tools/propeller.py:338-346 | without `blade_data` among the names, one `name: value` line is written per attribute, in order |
| RestartFile.Lines | propeller_design_tools/propeller.py:229-231 | the stripped restart text always splits into at least one line |
| RestartFile.Zipped | propeller_design_tools/propeller.py:233-236 | `dict(zip(keywords, values))` never holds a key twice |
| RestartFile.ZippedGet | propeller_design_tools/propeller.py:233-236 | a keyword maps to the value in its own column unless a later equal keyword overrides it; surplus keywords or values are dropped |
| RestartFile.Scalars | propeller_design_tools/propeller.py:257-260 | the design parameters are stored one float entry per key, in order |
| RestartFile.PutAllFails | propeller_design_tools/propeller.py:238-272 | merging a keyword/value line fails exactly when one of its values does not convert, and fails with that value's exception |
| RestartFile.PutAllSets | propeller_design_tools/propeller.py:238-272 | after a successful merge each keyword holds the conversion of its last value |
| RestartFile.PutAllKeeps | propeller_design_tools/propeller.py:238-272 | a merge leaves every key not on the line unchanged |
| RestartFile.SectionNamesDiffer | propeller_design_tools/propeller.py:264-265 | distinct section indices give distinct `Xisection_<i>` keys |
| RestartFile.SectionsFail | propeller_design_tools/propeller.py:262-265 | reading the aero sections succeeds exactly when every one of the `Naero` sections reads |
| RestartFile.SectionStored | propeller_design_tools/propeller.py:262-265 | section `k` is stored under `Xisection_k` as the dictionary read from line `10 (k + 1)` |
| RestartFile.SectionsKeep | propeller_design_tools/propeller.py:262-265 | storing the sections leaves every other key unchanged |
| RestartFile.Kept | propeller_design_tools/propeller.py:250-252 | the geometry rows kept are exactly those with one word per header |
| RestartFile.ColumnTexts | propeller_design_tools/propeller.py:252-253 | column `i` collects the `i`-th word of every kept row, in row order |
| RestartFile.EmptyColumnsGet | propeller_design_tools/propeller.py:247-249 | every header starts with an empty column |
| RestartFile.AppendCellsGrow | propeller_design_tools/propeller.py:252-253 | appending a row grows each remaining header's column by that row's converted cell |
| RestartFile.AppendCellsKeep | propeller_design_tools/propeller.py:252-253 | appending from column `i0` on leaves the earlier columns unchanged |
| RestartFile.GeoRowsColumns | propeller_design_tools/propeller.py:245-255 | after reading the rows, every header's column is the conversion of its cells in the rows whose width matches the header count |
| RestartFile.GeoStationsColumns | propeller_design_tools/propeller.py:245-255 | `read_geo_stations` gives, for distinct headers, one column per header built from every full-width row after the header line |
| RestartFile.PutColumnsGet | propeller_design_tools/propeller.py:274-280 | merging the geometry table replaces exactly the table's keys with array entries and keeps every other key |
| RestartFile.RestartWithoutNaero | propeller_design_tools/propeller.py:262 | a restart file whose design lines name no `Naero` raises KeyError |
| RestartFile.RestartWithoutSections | propeller_design_tools/propeller.py:262-268 | an `Naero` below one leaves the section list empty, and `xi_lines[-1]` raises IndexError |
| RestartFile.TableColumns | propeller_design_tools/propeller.py:274-280 | every geometry column appears in the result as its array |
| RestartFile.StoredOfColumns | propeller_design_tools/propeller.py:245-280 | the stored geometry arrays are the converted cells of the kept rows |
| RestartFile.RestartStages | propeller_design_tools/propeller.py:257-266 | a restart file is read as its design parameters as floats followed by the `Naero` aero sections and the later blocks |
| RestartFile.RestartGeometry | propeller_design_tools/propeller.py:266-280 | a successful read has its geometry header on line `10 Naero + 14` of the file, and the result holds that table's columns |
| RestartFile.MergePairs | propeller_design_tools/propeller.py:259-260 | the loop that converts and stores a keyword/value line computes the specified merge, including where it fails |
| RestartFile.Zip | propeller_design_tools/propeller.py:233-236 | the zip loop pairs keywords with values up to the shorter list |
| RestartFile.ReadLinePair | propeller_design_tools/propeller.py:233-236 | `read_line_pair` zips the keywords of a line (with `!` stripped) with the values on the next line; a missing line raises IndexError |
| RestartFile.ReadPairsAt | propeller_design_tools/propeller.py:238-260 | reading several keyword/value line pairs stops at the first failure |
| RestartFile.ReadSection | propeller_design_tools/propeller.py:238-243 | an aero section is the five line pairs starting at its index, as floats |
| RestartFile.ReadSections | propeller_design_tools/propeller.py:262-265 | the section loop stores each section in order and stops at the first failure |
| RestartFile.AppendRow | propeller_design_tools/propeller.py:252-253 | one full-width row appends its converted cells to the columns |
| RestartFile.ReadRows | propeller_design_tools/propeller.py:250-253 | the row loop skips rows of the wrong width and stops at the first cell that does not convert |
| RestartFile.ReadGeoStations | propeller_design_tools/propeller.py:245-255 | `read_geo_stations` as a loop computes the specified table |
| RestartFile.MergeColumns | propeller_design_tools/propeller.py:274-280 | the merge loop stores each geometry column as an array |
| RestartFile.ReadXrotorRestart | propeller_design_tools/propeller.py:228-282 | the whole reader computes the specified result: design floats, `Naero` sections, a text block, an integer block and the geometry arrays, or the first exception |
| RestartFile.ReadAfterDesign | propeller_design_tools/propeller.py:262-280 | the stages after the design block run in the source's order and stop at the first failure |
| RestartFile.RestartLength | propeller_design_tools/propeller.py:257-280 | a restart file that reads has at least one section, so it has more lines than the geometry header line of a one-section file (line 24) |
| RestartFile.ReadRestart | propeller_design_tools/propeller.py:228-282 | a restart file that reads has at least 25 lines |
| RestartFile.Sections | propeller_design_tools/propeller.py:263-266 | a failed read of the aero sections is the failure of one of the `Naero` sections |
| RestartFile.Restart | propeller_design_tools/propeller.py:228-282 | `read_xrotor_restart` with the text conversions as parameters: design parameters, then KeyError without `Naero`, then the later blocks; its properties are `RestartStages`, `RestartWithoutNaero` and `RestartWithoutSections` |
| Interp.Linspace | propeller_design_tools/propeller.py:422 | `np.linspace` gives exactly `n` samples and fails exactly for a negative count |
| Interp.LastSample | propeller_design_tools/propeller.py:422 | with two or more samples the last one is the end point itself |
| Interp.LinspaceSpacing | propeller_design_tools/propeller.py:422 | the samples start at `a`, end at `b`, and are evenly spaced by `(b - a) / (n - 1)` |
| Interp.LinspaceWithin | propeller_design_tools/propeller.py:422 | every sample lies between the two ends |
| Interp.NpInterp | propeller_design_tools/propeller.py:423-424 | `np.interp` fails exactly when the node and value arrays differ in length or are empty |
| Interp.InterpNodes | propeller_design_tools/propeller.py:423-424 | on strictly increasing nodes the interpolant passes through every node, and is held constant beyond both ends |
| Interp.InterpBetween | propeller_design_tools/propeller.py:423-424 | on increasing nodes every interpolated value lies between two neighbouring tabulated values |
| Interp.DegreesRoundTrip | propeller_design_tools/propeller.py:424 | converting radians to degrees and back is the identity (the conversion back is funcs.py:1118) |
| Interp.PlacementFailsAlike | propeller_design_tools/propeller.py:423-426 | whether a profile placement fails, and with which exception, does not depend on its `r/R` |
| Interp.PlacementsSpec | propeller_design_tools/propeller.py:422-430 | a successful run places one profile per station, each at its own `r/R` with chord `interp(CH) * radius`, pitch `rad2deg(interp(BE))`, skew `tot_skew * r/R` and radius `r/R * radius` |
| Interp.PlacementsFail | propeller_design_tools/propeller.py:422-430 | the profile loop fails exactly when the first placement fails, and with the same exception |
| Interp.Placements | propeller_design_tools/propeller.py:422-430 | a successful run gives one placement per station, and an empty station list cannot fail |
| Interp.PlacementAt | propeller_design_tools/propeller.py:422-427 | a profile placement raises KeyError without an `r/R` column and fails when the radius is None; a placed profile sits at its `r/R`, at radius `r/R * radius` with skew `tot_skew * r/R` |
| Interp.ProfileStations | propeller_design_tools/propeller.py:422 | the `r/R` values `np.linspace` gives are `n_profs` many, or KeyError without an `r/R` column, IndexError when it is empty, ValueError for a negative count |
| Propellers.PutAbsent | propeller_design_tools/propeller.py:58-61 | setting an attribute that is not yet set adds it at the end |
| Propellers.KwargsAccepted | propeller_design_tools/propeller.py:57-61 | keyword arguments that are all creation attributes, with distinct names, become exactly the attributes |
| Propellers.KwargsOk | propeller_design_tools/propeller.py:57-61 | the keyword loop succeeds exactly when every argument names a creation attribute |
| Propellers.KwargsRejected | propeller_design_tools/propeller.py:57-61 | the Error raised names the first argument that is not a creation attribute |
| Propellers.SetKwargsStops | propeller_design_tools/propeller.py:57-61 | once an argument is rejected the later ones change nothing |
| Propellers.FirstFails | propeller_design_tools/propeller.py:422-430 | when a profile placement fails it is the first one, and the whole loop fails with its exception |
| Propellers.BladeText | propeller_design_tools/propeller.py:341-344 | the blade-data loop writes one `blade_data_<key>: v, v, ...` line per key, in key order |
| Propellers.WriteMeta | propeller_design_tools/propeller.py:340-346 | the writing loop writes one line per attribute in order, expanding `blade_data`; with a `blade_data` of None the file ends before it and AttributeError is raised |
| Propellers.Propeller.constructor | propeller_design_tools/propeller.py:28-67 | a new propeller's name loses `.txt`, its restart file is `<name>.xrr`, its attributes are the accepted ones plus the name, `blade_data` and the profiles are None, and the `.oper` and `.wvel` datasets are built empty (propeller.py:65, 67); the loads `__init__` runs on them at propeller.py:66 and 68 are `Sweeps.SweepData.LoadSweepResults` |
| Propellers.Propeller.CheckKwargs | propeller_design_tools/propeller.py:38-61 | `__init__` raises Error without a propeller database, FileNotFoundError with no arguments and no meta-file, Error for an unknown argument, and otherwise accepts the arguments |
| Propellers.Propeller.ReadPdtMetafile | propeller_design_tools/propeller.py:181-226 | the attributes are set line by line as the reading specification says; a raising line leaves the attributes set before it and `blade_data` unchanged; a complete read sets `blade_data` to the gathered lists (blade data is stored through propeller.py:329-331) |
| Propellers.Propeller.SaveMetaFile | propeller_design_tools/propeller.py:333-346 | the file text is one line per saved attribute in declaration order, `blade_data` expanded per key, or stops before `blade_data` with AttributeError when it is None |
| Propellers.Propeller.InterpFoilProfiles | propeller_design_tools/propeller.py:403-430 | no station fails the assertion and more than one raises Error, both leaving the profiles alone; otherwise the profiles are replaced by `n_profs` placements evenly spaced over the blade's `r/R`, or left empty when placement fails |
| Propellers.Propeller.RunXrotorOper | propeller_design_tools/funcs.py:660-757 | one operating point runs as the run specification says: its two reports filed under the returned velocity and rpm, or the exception |
| Propellers.Propeller.SweepGrid | propeller_design_tools/propeller.py:976-993 | the nested loops produce the specified folders, failed points and counter values 1, 2, ... |
| Propellers.Propeller.AnalyzeSweep | propeller_design_tools/propeller.py:961-996 | an unknown sweep parameter raises Error and changes nothing; otherwise every point is run in order, failures of the package Error are reported and skipped, another exception propagates, and a completed sweep reloads the `.oper` and then the `.wvel` dataset |
| Propellers.Propeller.SweepRow | propeller_design_tools/propeller.py:977-993 | the inner loop advances the counter and the folders exactly as the specified row of steps |
| Optimization.NamePartsOf | propeller_design_tools/optimizations.py:44 | `name.split('_', 2)` of three parts joined by `_` gives the three parts back, the last one whole |
| Optimization.ParsePartsOf | propeller_design_tools/optimizations.py:45-49 | the three parts of a written folder name read back as speed, CL, second value and `design_<base>` |
| Optimization.StripPrefixes | propeller_design_tools/optimizations.py:45-46 | removing `vel-` and `cl-` leaves the two values' texts |
| Optimization.SplitLast | propeller_design_tools/optimizations.py:47 | the last part splits on `-` into the variable name and its value |
| Optimization.PrefixedPlain | propeller_design_tools/optimizations.py:44 | the `vel-` and `cl-` parts of a name add no `_` (the name is written at optimizations.py:127) |
| Optimization.NameRoundTrip | propeller_design_tools/optimizations.py:43-49 | a folder name assembled from parts that read back is read as those values |
| Optimization.OptNameRoundTrip | propeller_design_tools/optimizations.py:43-49 | a grid design's folder name `vel-{:.2f}_cl-{:.2f}_<base>-{:.3f}` reads back as its values rounded to 2, 2 and 3 places, when the second value is not negative (the name is written at optimizations.py:127) |
| Optimization.SplitNegative | propeller_design_tools/optimizations.py:47 | a last part whose value starts with `-` splits into more than two pieces |
| Optimization.NameNegative | propeller_design_tools/optimizations.py:47 | such a folder name fails to unpack with ValueError |
| Optimization.OptNameNegative | propeller_design_tools/optimizations.py:47 | a grid design with a negative second value is written under a name that `__init__` cannot read back (the name is written at optimizations.py:127) |
| Optimization.GoodVarOf | propeller_design_tools/optimizations.py:48 | a short plain name after `design_` survives the trip through a folder name (the name is written at optimizations.py:127) |
| Optimization.AdvRpmGood | propeller_design_tools/optimizations.py:107-117 | both `design_adv` and `design_rpm` survive the trip through a folder name |
| Optimization.AdvGood | propeller_design_tools/optimizations.py:108 | `design_adv` survives the trip through a folder name |
| Optimization.RpmGood | propeller_design_tools/optimizations.py:111 | `design_rpm` survives the trip through a folder name |
| Optimization.ValLoopNext | propeller_design_tools/optimizations.py:123-159 | one more second value is one more pass of the innermost body |
| Optimization.ValLoopStops | propeller_design_tools/optimizations.py:123-159 | once an exception escapes the innermost loop, later values change nothing |
| Optimization.ClLoopNext | propeller_design_tools/optimizations.py:122-159 | one more CL runs the innermost loop once more with that CL |
| Optimization.ClLoopStops | propeller_design_tools/optimizations.py:122-159 | once an exception escapes, later CLs change nothing |
| Optimization.VelLoopNext | propeller_design_tools/optimizations.py:121-159 | one more speed runs the CL loop once more with that speed |
| Optimization.VelLoopStops | propeller_design_tools/optimizations.py:121-159 | once an exception escapes, later speeds change nothing |
| Optimization.ExtendsTrans | propeller_design_tools/optimizations.py:121-159 | growth of the grid composes across successive passes |
| Optimization.RecordedLater | propeller_design_tools/optimizations.py:148-152 | a kept design that later passes leave alone stays recorded |
| Optimization.RecordedEarlier | propeller_design_tools/optimizations.py:148-152 | a folder moved in late was also moved in after any earlier point |
| Optimization.SameExtends | propeller_design_tools/optimizations.py:153-159 | a pass that keeps nothing and moves nothing leaves the grid as it grew |
| Optimization.RecordedNew | propeller_design_tools/optimizations.py:148-152 | a design kept in a newly moved folder whose name reads back as its key is recorded |
| Optimization.PutExtends | propeller_design_tools/optimizations.py:148-152 | keeping one design in a new folder whose name reads back is growth |
| Optimization.PutChanged | propeller_design_tools/optimizations.py:148-152 | the only key a kept design changes is recorded in the folder just moved in |
| Optimization.StepExtends | propeller_design_tools/optimizations.py:124-159 | one pass of the loop body, whatever `create_propeller` does, loses no design and keeps any new one under the key its folder name reads back as |
| Optimization.ValLoopExtends | propeller_design_tools/optimizations.py:123-159 | the innermost loop keeps that growth invariant |
| Optimization.ClLoopExtends | propeller_design_tools/optimizations.py:122-159 | the CL loop keeps that growth invariant |
| Optimization.VelLoopExtends | propeller_design_tools/optimizations.py:121-159 | the whole grid keeps that growth invariant |
| Optimization.Factored | propeller_design_tools/optimizations.py:91-117 | a default sweep has five values with the base value in the middle |
| Optimization.FactoredIncreasing | propeller_design_tools/optimizations.py:91-117 | around a positive base the default sweep is strictly increasing |
| Optimization.FactoredNonNeg | propeller_design_tools/optimizations.py:91-117 | around a base that is not negative no default value is negative |
| Optimization.Setup | propeller_design_tools/optimizations.py:85-117 | whenever the sweep values are found the second variable has been set |
| Optimization.SetupBoth | propeller_design_tools/optimizations.py:85-87 | giving both `advs` and `rpms` raises Error before anything is assigned |
| Optimization.SetupVar2 | propeller_design_tools/optimizations.py:107-116 | the second variable is the advance ratio when advs are given or when no rpms are given and the base design has an advance ratio, and the rpm otherwise |
| Optimization.SetupSweeps | propeller_design_tools/optimizations.py:89-117 | each sweep is the list given, or the five factors times the base design's value |
| Optimization.SetupFails | propeller_design_tools/optimizations.py:85-117 | the setup raises exactly for both lists, a missing base speed, a missing or non-`const` design CL, or a missing base value for the second variable |
| Optimization.SetupGood | propeller_design_tools/optimizations.py:107-117 | with non-negative inputs the second variable survives a folder name and no swept value is negative |
| Optimization.CreateGridBoth | propeller_design_tools/optimizations.py:75-87 | giving both lists raises Error only after the folder has been reset and made, and changes nothing else |
| Optimization.CreateGridGrows | propeller_design_tools/optimizations.py:75-159 | a grid with values that are not negative loses no design it had and keeps each new design in a moved-in folder whose name `__init__` reads back as the design's key |
| Optimization.GrewOf | propeller_design_tools/optimizations.py:121-159 | the loops' growth invariant is the grid's growth |
| Optimization.LoadAllNext | propeller_design_tools/optimizations.py:41-49 | one more folder is one more pass of the loading loop |
| Optimization.LoadAllStops | propeller_design_tools/optimizations.py:41-49 | a failing folder ends the loading loop |
| Optimization.AllLoadSnoc | propeller_design_tools/optimizations.py:41-49 | every folder loads and reads exactly when the earlier ones do and the last one does |
| Optimization.LoadAllOk | propeller_design_tools/optimizations.py:41-49 | loading succeeds exactly when every design loads and every folder name reads |
| Optimization.LoadAllKeys | propeller_design_tools/optimizations.py:41-49 | after a successful load every key read is kept, and every key kept was there before or was read |
| Optimization.LoadAllLast | propeller_design_tools/optimizations.py:41-49 | the last pass keeps the last design under its key and records its second variable |
| Optimization.LoadAllVar2 | propeller_design_tools/optimizations.py:48 | after a successful load the second variable is the one read from the last folder |
| Optimization.LoadAdded | propeller_design_tools/optimizations.py:49 | keeping one more design adds only the key read from its name |
| Optimization.LoadKept | propeller_design_tools/optimizations.py:49 | keeping one more design keeps every key already read |
| Optimization.DedupSpec | propeller_design_tools/optimizations.py:59-68 | `set(xs)` holds each value of `xs` exactly once |
| Optimization.UniqueValuesSpec | propeller_design_tools/optimizations.py:59-68 | `sorted(set(xs))` is strictly increasing and holds exactly the values of `xs` |
| Optimization.Column | propeller_design_tools/optimizations.py:59-68 | one key component of every kept design, in order |
| Optimization.UniqueColumn | propeller_design_tools/optimizations.py:59-68 | the unique values of a key component are increasing and are exactly the values the designs take |
| Optimization.DutyCycleOptimization.constructor | propeller_design_tools/optimizations.py:27-35 | a new optimisation keeps no design and has no second variable; its folder holds the folders listed, if it exists |
| Optimization.DutyCycleOptimization.LoadExisting | propeller_design_tools/optimizations.py:35-50 | when the folder exists every folder in it is loaded and keyed in order, and the first failure ends the loop |
| Optimization.DutyCycleOptimization.LoadFolder | propeller_design_tools/optimizations.py:42-49 | one folder is loaded, its name read into a key and its design kept under it |
| Optimization.DutyCycleOptimization.Var2Base | propeller_design_tools/optimizations.py:55-56 | `var2base` is `adv` or `rpm` for the two second variables and raises AttributeError while none is set |
| Optimization.DutyCycleOptimization.UniqueVels | propeller_design_tools/optimizations.py:59-60 | every design speed of a kept design, once, increasing |
| Optimization.DutyCycleOptimization.UniqueCls | propeller_design_tools/optimizations.py:63-64 | every design CL of a kept design, once, increasing |
| Optimization.DutyCycleOptimization.UniqueVar2s | propeller_design_tools/optimizations.py:67-68 | every second-variable value of a kept design, once, increasing |
| Optimization.DutyCycleOptimization.ValRow | propeller_design_tools/optimizations.py:123-159 | the innermost loop changes the designs and folders as the specified loop does |
| Optimization.DutyCycleOptimization.Visit | propeller_design_tools/optimizations.py:124-159 | one grid design is created, moved and kept under its rounded key, or reported on Error, as the specified step does |
| Optimization.DutyCycleOptimization.ClRow | propeller_design_tools/optimizations.py:122-159 | the CL loop changes the designs and folders as the specified loop does |
| Optimization.DutyCycleOptimization.VelGrid | propeller_design_tools/optimizations.py:121-159 | the three nested loops change the designs and folders as the specified grid does |
| Optimization.DutyCycleOptimization.CreatePropGrid | propeller_design_tools/optimizations.py:75-159 | `create_prop_grid` resets the folder, checks its arguments, sets the second variable and runs the grid, exactly as the specification function says |
| Optimization.OptName | propeller_design_tools/optimizations.py:127 | a grid design's folder name splits at its first two `_` into `vel-` and the speed to two decimals, `cl-` and the CL to two decimals, and the variable name, `-` and the value to three decimals |
| Optimization.ParseParts | propeller_design_tools/optimizations.py:45-49 | reading the three parts fails only with ValueError, and the second variable is `design_` followed by the text before the `-` |
| Optimization.ParseOptName | propeller_design_tools/optimizations.py:44-49 | reading a folder name fails only with ValueError; a name that reads has three `_`-separated parts and gives a second variable starting with `design_` |
| Optimization.CreateGrid | propeller_design_tools/optimizations.py:75-159 | `create_prop_grid` always leaves the optimisation folder in place; when the argument checks fail it raises their exception and keeps the designs it had, with the folder emptied unless `append`; it ends without an exception only when the checks pass |
| Optimization.Step | propeller_design_tools/optimizations.py:124-159 | after an escaped exception a pass changes nothing; otherwise it moves in at most one folder and keeps the folders there |
| Optimization.ValLoop | propeller_design_tools/optimizations.py:124-159 | the innermost loop moves in at most one folder per second value and keeps the folders there, changing nothing after an escaped exception |
| Optimization.ClLoop | propeller_design_tools/optimizations.py:123-159 | the CL loop keeps the folders there and changes nothing after an escaped exception |
| Optimization.VelLoop | propeller_design_tools/optimizations.py:122-159 | the speed loop keeps the folders there and changes nothing after an escaped exception |
| Optimization.Reset | propeller_design_tools/optimizations.py:77-83 | without `append` the optimisation folder is emptied; with `append` an existing folder keeps its designs; either way it exists afterwards and nothing else changes |
| Optimization.LoadAll | propeller_design_tools/optimizations.py:41-50 | the loading loop changes nothing after an exception and adds at most one design per folder, losing none |
| Optimization.StepStores | propeller_design_tools/optimizations.py:124-151 | a pass whose design converged into a new folder keeps that folder under the rounded key (speed and CL to 2 places, second value to 3); any other pass keeps the designs as they were |
| Optimization.ValLoopGains | propeller_design_tools/optimizations.py:124-159 | after the innermost loop the keys are the earlier ones plus exactly the keys of its converged passes |
| Optimization.ClLoopGains | propeller_design_tools/optimizations.py:123-159 | after the CL loop the keys are the earlier ones plus exactly the keys of its converged passes |
| Optimization.VelLoopGains | propeller_design_tools/optimizations.py:122-159 | after the whole grid the keys are the earlier ones plus exactly the keys of its converged passes |
| Optimization.CreateGridGains | propeller_design_tools/optimizations.py:75-159 | `create_prop_grid` ends with exactly the designs it had and the rounded keys of the grid points whose design converged into a new folder: each converged point is kept, and nothing else is added |
| Sweeps.ParseAll | propeller_design_tools/propeller.py:1050 | every piece of a result file name is converted, one result per piece |
| Sweeps.KeyOfNumbers | propeller_design_tools/propeller.py:1050-1051 | the key is found exactly when there are two numbers, the velocity being the first divided by 100; otherwise ValueError |
| Sweeps.FormatWhole | propeller_design_tools/funcs.py:743-749 | `'{:.0f}'` of a number is an optional minus sign followed by digits |
| Sweeps.StripFrame | propeller_design_tools/propeller.py:1050 | `str.strip(chars)` removes exactly a surrounding frame of those characters when the middle neither starts nor ends with one |
| Sweeps.SplitTwo | propeller_design_tools/propeller.py:1050 | splitting `a + '_rpm_' + b` gives back `a` and `b` when neither holds the separator's first character |
| Sweeps.StripsLeaveNumbers | propeller_design_tools/propeller.py:1050 | the character strips of `velo_` and the extension leave exactly `<v>_rpm_<n>` of a name built from two whole numbers (the slipstream loader repeats it at propeller.py:1175) |
| Sweeps.OperStrips | propeller_design_tools/propeller.py:1050 | stripping the characters of `velo_` and then of `.oper` from `velo_<core>.oper` leaves the core |
| Sweeps.WVelStrips | propeller_design_tools/propeller.py:1175 | stripping the characters of `velo_` and then of `.wvel` from `velo_<core>.wvel` leaves the core |
| Sweeps.ResultKeyRoundTrip | propeller_design_tools/funcs.py:743-749 | a result file named by `run_xrotor_oper` is keyed on load by its velocity rounded to hundredths and its rpm rounded to a whole number (the reader is propeller.py:1050-1051) |
| Sweeps.RenderedKey | propeller_design_tools/funcs.py:743 | the key of a result file is the value its name prints, with the velocity divided by 100 (the reader is propeller.py:1050-1051) |
| Sweeps.NameRoundTrip | propeller_design_tools/propeller.py:1050-1051 | a name `velo_<a>_rpm_<b>` with two printed whole numbers is keyed by `(a / 100, b)` |
| Sweeps.ParseKeyOf | propeller_design_tools/propeller.py:1050-1051 | a stripped name splitting into two numbers is keyed by the first over 100 and the second |
| Sweeps.ResultKeyExact | propeller_design_tools/funcs.py:743 | a velocity in whole hundredths and a whole rpm come back exactly as the key (the reader is propeller.py:1050-1051) |
| Sweeps.ResultFiles | propeller_design_tools/propeller.py:1037-1044 | the listing keeps exactly the files of the folder whose names end with the extension (the slipstream dataset repeats it at propeller.py:1162-1169) |
| Sweeps.LoadStops | propeller_design_tools/propeller.py:1046-1053 | a file whose name or contents do not read ends the load with that exception |
| Sweeps.LoadStep | propeller_design_tools/propeller.py:1046-1053 | a file that reads stores its report under its key and the load moves on |
| Sweeps.LoadSound | propeller_design_tools/propeller.py:1046-1053 | every loaded datapoint is the report of some listed file under that file's key, and no key is stored twice |
| Sweeps.PutFiled | propeller_design_tools/propeller.py:1051-1053 | storing one more file's report keeps every datapoint backed by a file |
| Sweeps.LoadComplete | propeller_design_tools/propeller.py:1046-1053 | a load that raises nothing has a datapoint for every listed file and keeps every earlier one |
| Sweeps.MatchingSpec | propeller_design_tools/propeller.py:1064-1069 | `get_datapoints_by_paramval` fails with KeyError exactly when a datapoint lacks the parameter, and otherwise returns, in order, exactly the datapoints whose value equals the given one |
| Sweeps.PosPrefix | propeller_design_tools/propeller.py:1022-1035 | the position of a parameter is the same in a prefix of the parameter list |
| Sweeps.PosLast | propeller_design_tools/propeller.py:1022-1035 | a parameter appearing only last sits at the last position |
| Sweeps.SweptFails | propeller_design_tools/propeller.py:1022-1035 | `get_swept_params` fails exactly when some parameter's first datapoint check fails, and always with KeyError |
| Sweeps.SweptMembers | propeller_design_tools/propeller.py:1022-1035 | a parameter is reported swept exactly when it is valid and more than two but not all datapoints share the first datapoint's value of it |
| Sweeps.SweptOrder | propeller_design_tools/propeller.py:1022-1035 | the swept parameters come in the order of the valid-parameter list, each once |
| Sweeps.SweptIn | propeller_design_tools/propeller.py:1022-1035 | every swept parameter is one of the valid ones |
| Sweeps.DecideFails | propeller_design_tools/propeller.py:1027-1069 | checking a parameter fails, with KeyError, exactly when some datapoint lacks it |
| Sweeps.DistinctCount | propeller_design_tools/propeller.py:1057-1062 | a list without repeats holds each value at most once |
| Sweeps.SortedDistinct | propeller_design_tools/propeller.py:1057-1062 | sorting a list without repeats gives a strictly increasing list |
| Sweeps.UniquesSpec | propeller_design_tools/propeller.py:1057-1061 | the collected values fail exactly when a datapoint lacks the parameter, and otherwise hold each value taken by some datapoint exactly once |
| Sweeps.UniqueParamSorted | propeller_design_tools/propeller.py:1057-1062 | `get_unique_param` raises KeyError exactly when a datapoint lacks the parameter, TypeError exactly when the values mix numbers and texts, and otherwise returns the values the datapoints take, strictly increasing (numbers by value, texts by code points) |
| Sweeps.UniquesSortable | propeller_design_tools/propeller.py:1057-1061 | the collected distinct values are all numbers or texts, as the datapoints' values are |
| Sweeps.UniqueParamOk | propeller_design_tools/propeller.py:1057-1062 | a successful `get_unique_param` is strictly increasing and holds exactly the values the datapoints take |
| Sweeps.UniqueParamMixed | propeller_design_tools/propeller.py:1062 | `sorted` raises TypeError exactly when some datapoint holds a number and some datapoint holds a text (text values come from funcs.py:520-523) |
| Sweeps.MixedWitnesses | propeller_design_tools/propeller.py:1062 | a failed sort had a number and a text among the datapoints' values |
| Sweeps.WitnessesMixed | propeller_design_tools/propeller.py:1062 | a number and a text among the values make the sort raise |
| Sweeps.SortNumbersAscending | propeller_design_tools/propeller.py:1062 | sorting distinct numbers gives a strictly increasing list holding the same values |
| Sweeps.SortTextsAscending | propeller_design_tools/propeller.py:1062 | sorting distinct texts gives a strictly increasing list, by code points, holding the same values |
| Sweeps.TextsSortedDistinct | propeller_design_tools/propeller.py:1062 | a list of texts that holds each text at most once has no repeats |
| Sorting.SortTextsSpec | propeller_design_tools/propeller.py:1062 | sorting texts gives a list sorted by code points that is a permutation of the input |
| Sweeps.CollectUniques | propeller_design_tools/propeller.py:1058-1061 | the collecting loop computes the specified distinct values in first-seen order |
| Sweeps.SweepData.constructor | propeller_design_tools/propeller.py:1014-1017 | a new dataset has no datapoints and the loader of its kind (the slipstream dataset repeats it at propeller.py:1154-1157) |
| Sweeps.SweepData.LoadSweepResults | propeller_design_tools/propeller.py:1046-1055 | the datapoints are reset and refilled from the folder's result files in listing order; a file that raises leaves the datapoints of the files before it (the slipstream dataset repeats it at propeller.py:1171-1180) |
| Sweeps.SweepData.DatapointsByParamVal | propeller_design_tools/propeller.py:1064-1069 | the loop returns the specified matching datapoints, or KeyError at the first datapoint lacking the parameter |
| Sweeps.SweepData.UniqueParam | propeller_design_tools/propeller.py:1057-1062 | `get_unique_param` over the stored datapoints is the specified result: the sorted distinct values, KeyError or TypeError |
| Sweeps.SweepData.SweptParams | propeller_design_tools/propeller.py:1022-1035 | `get_swept_params` over the valid plot parameters computes the specified swept list |
| Sweeps.SweepData.SweptAmong | propeller_design_tools/propeller.py:1025-1035 | the outer loop over the parameters computes the specified swept list |
| Sweeps.SweepData.SweepParam | propeller_design_tools/propeller.py:1026-1033 | the inner loop adds the parameter when its first datapoint says it is swept, avoids it otherwise, and raises what that check raises |
| Sweeps.MatchingPrefix | propeller_design_tools/propeller.py:1064-1069 | a datapoint lacking the parameter makes the whole lookup raise KeyError |
| Sweeps.UniquesPrefix | propeller_design_tools/propeller.py:1057-1061 | a datapoint lacking the parameter makes the collection raise KeyError |
| Sweeps.UniquesFails | propeller_design_tools/propeller.py:1057-1061 | the collection only ever fails with KeyError |
| Sweeps.SweptFailPrefix | propeller_design_tools/propeller.py:1025-1035 | once a parameter's check raises, the later parameters change nothing |
| Sweeps.ParseResultKey | propeller_design_tools/propeller.py:1050-1051 | a result file name gives a key exactly when, once stripped, it splits at `_rpm_` into two float texts, and the key's velocity is the first of them over 100; otherwise ValueError |
| Sweeps.LoaderOf | propeller_design_tools/propeller.py:1046-1053 | a name that does not give a key fails with ValueError; a report fails only with the package's not-converged error or a built-in TypeError, IndexError, KeyError, AttributeError or ValueError |
| Analysis.SweepKnobSpec | propeller_design_tools/propeller.py:963-964 | exactly the five names `adva`, `rpm`, `thrust`, `power` and `torque` are accepted, and each selects the XROTOR setting of the same name |
| Analysis.FiledStemName | propeller_design_tools/funcs.py:740-749 | for numeric results the copied reports are named `velo_<100 v>_rpm_<n>` with the extension, as the database listing expects |
| Analysis.FiledStemParses | propeller_design_tools/funcs.py:740-749 | the name a converged run files its report under parses back to its rounded velocity and rpm (the reader is propeller.py:1046-1055) |
| Analysis.RowNext | propeller_design_tools/propeller.py:977-993 | one more swept value at a velocity is one more step of the inner loop |
| Analysis.RowPoints | propeller_design_tools/propeller.py:977-978 | the inner loop visits `(velo, val)` for each swept value in order |
| Analysis.PointsIndex | propeller_design_tools/propeller.py:976-978 | the nested loops visit point `(velos[i], vals[j])` at position `i * len(vals) + j` |
| Analysis.PointsLength | propeller_design_tools/propeller.py:968-978 | the sweep visits `len(velo_vals) * len(sweep_vals)` points, the `total_pnts` it announces |
| Analysis.FoldConcat | propeller_design_tools/propeller.py:976-993 | running two runs of points one after the other is running their concatenation |
| Analysis.RowIsFold | propeller_design_tools/propeller.py:977-993 | the inner loop is the point-by-point run over its row of points |
| Analysis.GridIsFold | propeller_design_tools/propeller.py:976-993 | the nested loops are the point-by-point run over all points in visiting order |
| Analysis.FoldSpec | propeller_design_tools/propeller.py:976-993 | a run that raises nothing counts every point, lists exactly the points whose run raised the package Error, files every converged point's two reports, and keeps every earlier file |
| Analysis.StepKeeps | propeller_design_tools/propeller.py:986-988 | one point never removes a file from either folder, and a converged point adds its two reports (the file name comes from funcs.py:740-749) |
| Analysis.Upto | propeller_design_tools/propeller.py:978-980 | the progress counter takes the values 1, 2, ... in order |
| Analysis.RowRaised | propeller_design_tools/propeller.py:986-993 | once an exception other than the package Error has escaped, nothing further runs |
| Analysis.RowStays | propeller_design_tools/propeller.py:986-993 | an exception in the inner loop ends the row there |
| Analysis.GridStays | propeller_design_tools/propeller.py:976-993 | an exception ends the whole sweep there |
| Analysis.SweepSpec | propeller_design_tools/propeller.py:968-993 | a completed sweep ran `len(velo_vals) * len(sweep_vals)` points, reported exactly the failed ones in visiting order, filed every converged point and lost no file |
| Analysis.RunPoint | propeller_design_tools/propeller.py:986-987 | one sweep point raises AttributeError when the vortex formulation is None and the package error when it is unknown, before XROTOR runs |
| Analysis.Step | propeller_design_tools/propeller.py:977-994 | after an escaped exception a point changes nothing; otherwise the counter goes up by one, and the failed list only grows, by at most the point |
| Analysis.Row | propeller_design_tools/propeller.py:977-994 | the inner loop starts at most one run per swept value, keeps the failed list as a prefix and changes nothing after an escaped exception |
| Analysis.Grid | propeller_design_tools/propeller.py:976-994 | the nested loops never lower the counter or drop a failed point, and change nothing after an escaped exception |
| Analysis.Fold | propeller_design_tools/propeller.py:976-994 | running the points in order starts at most one run per point, keeps the failed list as a prefix and changes nothing after an escaped exception |
| ProfileMesh.ProfilePoints | propeller_design_tools/funcs.py:1106-1134 | `generate_3D_profile_points` gives one 3D point per profile point |
| ProfileMesh.ThetaIsArcOverRadius | propeller_design_tools/funcs.py:1124-1127 | the angle a point lands at is its pitched abscissa over the radius, less the skew in radians |
| ProfileMesh.ProfileOnCylinder | propeller_design_tools/funcs.py:1106-1134 | every wrapped point lies on the cylinder of the section's radius about the blade axis |
| ProfileMesh.PointOnCylinder | propeller_design_tools/funcs.py:1123-1132 | one wrapped point has `x^2 + y^2 = radius^2` |
| ProfileMesh.Pythagoras | propeller_design_tools/funcs.py:1130-1131 | a point at angle t on a circle of radius r is at distance r from the axis |
| ProfileMesh.PitchKeepsDistance | propeller_design_tools/funcs.py:1117-1120 | turning the section by the blade angle keeps every point's distance from the pitch axis |
| ProfileMesh.Rotation | propeller_design_tools/funcs.py:1119-1120 | the pitch rotation preserves length |
| ProfileMesh.UnpitchedHeight | propeller_design_tools/funcs.py:1114-1132 | with zero blade angle a point's height along the blade axis is its profile ordinate times the chord |
| ProfileMesh.Open | propeller_design_tools/funcs.py:1158-1159 | a closing point equal to the first is dropped, and nothing else changes |
| ProfileMesh.ComputePolygonAngles | propeller_design_tools/funcs.py:1157-1173 | an empty list raises IndexError; otherwise the closing point is dropped and there is one corner angle per remaining point, between the edges to its two cyclic neighbours |
| ProfileMesh.ArgMin | propeller_design_tools/funcs.py:1193 | `np.argmin` picks an index of the list |
| ProfileMesh.ArgMinSpec | propeller_design_tools/funcs.py:1193 | `np.argmin` picks the first NaN when there is one, and otherwise the first smallest angle |
| ProfileMesh.Clip | propeller_design_tools/funcs.py:1192-1208 | one clipping pass removes exactly one point, after dropping a closing duplicate |
| ProfileMesh.Zip3 | propeller_design_tools/funcs.py:1184 | `zip` stops at the shortest row |
| ProfileMesh.Zeros | propeller_design_tools/funcs.py:1182-1183 | a 2D profile gets a zero row of its length |
| ProfileMesh.ComputeProfileTrimesh | propeller_design_tools/funcs.py:1176-1211 | a profile with other than two or three rows raises ValueError; otherwise its zipped points are triangulated by ear clipping |
| ProfileMesh.ClipAll | propeller_design_tools/funcs.py:1191-1209 | the clipping loop emits exactly the triangulation the specification function gives |
| ProfileMesh.TrimeshShort | propeller_design_tools/funcs.py:1191 | fewer than three points give no triangle |
| ProfileMesh.TrimeshStep | propeller_design_tools/funcs.py:1191-1209 | each pass emits one triangle and continues on the remaining points |
| ProfileMesh.ClipOnce | propeller_design_tools/funcs.py:1192-1209 | one pass of the loop body emits the specified triangle, shrinks the list, and leaves the rest of the triangulation to the remaining points |
| ProfileMesh.RemoveDistinct | propeller_design_tools/funcs.py:1209 | removing a point from distinct points leaves them distinct |
| ProfileMesh.ClipDistinct | propeller_design_tools/funcs.py:1192-1209 | on distinct points a pass removes exactly one point and keeps them distinct |
| ProfileMesh.TrimeshCountDistinct | propeller_design_tools/funcs.py:1191-1211 | an open polygon of n distinct points gives n - 2 triangles |
| ProfileMesh.TrimeshCountClosed | propeller_design_tools/funcs.py:1157-1211 | a closed polygon of n points, the closing one repeating the first, gives n - 3 triangles, and 1 when n is 3 |
| ProfileMesh.TrimeshReverse | propeller_design_tools/funcs.py:1201-1204 | `reverse_order` gives the same triangles, each with its winding reversed |
| ProfileMesh.ClipFlip | propeller_design_tools/funcs.py:1201-1204 | one pass with `reverse_order` emits the flipped triangle and removes the same point |
| ProfileMesh.TrimeshVertices | propeller_design_tools/funcs.py:1197-1204 | every triangle corner is one of the profile's points |
| ProfileMesh.ProfilePoint | propeller_design_tools/funcs.py:1114-1132 | one profile point is mirrored, shifted and scaled by the chord, turned by the blade angle, and wrapped onto the cylinder at the angle arc length over radius minus the skew, its height being the turned ordinate |
| ProfileMesh.Trimesh | propeller_design_tools/funcs.py:1176-1211 | the ear-clipping loop of `compute_profile_trimesh`, one triangle per pass on the remaining points; its counts and corners are `TrimeshCountDistinct`, `TrimeshCountClosed` and `TrimeshVertices` |
| StlGeometry.Rows | propeller_design_tools/propeller.py:884-887 | a profile is stored as x, y and z rows, and column `i` is point `i` |
| StlGeometry.ZipRows | propeller_design_tools/funcs.py:1184 | zipping a profile's rows gives back its points |
| StlGeometry.PointCount | propeller_design_tools/propeller.py:858 | `np.max(np.shape(...))` of a (3, n) array is at least 3 and at least n |
| StlGeometry.CapSlots | propeller_design_tools/propeller.py:859-862 | the allocated count leaves at least the two caps' `2 (n_pts - 3)` slots |
| StlGeometry.Band | propeller_design_tools/propeller.py:886-903 | the surface between two neighbouring profiles has two triangles per pair of neighbouring points |
| StlGeometry.BandsLength | propeller_design_tools/propeller.py:882-903 | the surfaces of `k` profile pairs hold `k * 2 (n_pts - 1)` triangles |
| StlGeometry.Blank | propeller_design_tools/propeller.py:864 | slots the loops do not reach stay zero triangles |
| StlGeometry.Room | propeller_design_tools/propeller.py:859-903 | caps that fit their slots leave room for every surface triangle |
| StlGeometry.GenerateStlGeometry | propeller_design_tools/propeller.py:856-903 | the array filled through `tri_idx` holds the root cap, the reversed tip cap and the surfaces in that order, then zeros; or it raises TypeError while the profiles are None, KeyError without profile 0, or IndexError on an overrun or a short profile |
| StlGeometry.StlFails | propeller_design_tools/propeller.py:868-903 | caps that overrun their slots or a profile shorter than profile 0 raise IndexError |
| StlGeometry.StlFills | propeller_design_tools/propeller.py:868-903 | otherwise the array is the caps and surfaces followed by zero triangles |
| StlGeometry.FillBands | propeller_design_tools/propeller.py:882-903 | the surface loops write every band after the caps and advance the index by its length, or report the overrun |
| StlGeometry.FillCaps | propeller_design_tools/propeller.py:868-880 | the two cap loops write the root and tip caps from slot 0, and succeed exactly when they fit the array |
| StlGeometry.OverrunGrows | propeller_design_tools/propeller.py:886-903 | a surface write that overruns the array would still overrun after more surfaces |
| StlGeometry.FillCap | propeller_design_tools/propeller.py:870-880 | one cap loop writes its triangles at the running index and succeeds exactly when they fit |
| StlGeometry.FillBand | propeller_design_tools/propeller.py:886-903 | one profile pair writes its `2 (n_pts - 1)` triangles at the running index, or fails exactly when a profile is too short or the array too small |
| StlGeometry.WriteQuad | propeller_design_tools/propeller.py:889-903 | one inner pass writes the two triangles of a quad at the index and changes no other slot |
| StlGeometry.ClosedProfilesFillExactly | propeller_design_tools/propeller.py:856-903 | closed root and tip profiles of n >= 4 points, with every profile as long, fill exactly the allocated `n_tri` slots with caps and surfaces |
| StlGeometry.QuadWinding | propeller_design_tools/propeller.py:889-899 | the two triangles of a quad share the diagonal a-c in opposite directions and use only the quad's four corners |
| StlGeometry.TipCapFlipped | propeller_design_tools/propeller.py:868-880 | the tip cap is the tip profile's triangulation with every winding reversed, placed after the root cap |
| StlGeometry.StlTriangles | propeller_design_tools/propeller.py:856-903 | TypeError exactly when the profiles are still None (propeller.py:47), KeyError exactly when there is no profile, otherwise only IndexError; a filled array has exactly `n_tri` triangles and starts with the two caps |

## Left out

- Running XFOIL and XROTOR (`subprocess.run`), the `urllib` download of coordinate files and the `shutil`/`os`
  calls (`rmtree`, `copyfile`, `remove`, `listdir`, `mkdir`, `isdir`). A solver run is an oracle parameter; folders
  are lists of names or maps from path to text. The model states what is written and removed, not the disk itself.
- Temporary-file clean-up after a solver timeout is not modelled as file-system effect. The model only records that
  the code has no `finally` and so leaves the file behind.
- The Qt GUI, the `ScientificDoubleSpinBox` widget, the progress signals, all plotting, and the `Info`/`Warning`
  console messages. Messages are output only.
- The `Airfoil` and `RadialStation` classes and `user_io`. Their source is not part of this model; calls into them
  (`get_coords_closed_te`, `generate_txt_params`, `foil_polar`) are opaque parameters.
- Transcendental functions: `sin`, `cos`, `arccos`, `deg2rad` and `pi` are the uninterpreted `Trig` record and
  `AngleFn`. `standard_atmosphere` and `calc_ideal_eff` are not modelled, since they consist only of `exp`, powers and
  `sqrt`.
- Float rounding: arithmetic is exact over `real`, so the rounding of `np.linspace` and `np.interp` is not modelled.
- Float-to-text formatting: `{:g}`, `{:.0f}`, `{:.6f}` and numpy's `repr` of arrays and tuples enter as a `repr`
  function parameter or as digit strings that are already formatted. `SpinBox.FormatFloat` starts from the `{:g}`
  text.
- `float()` on `nan`, `inf` and `infinity` spellings: such text counts as not a number, so a report cell spelled that
  way takes the non-number path.
- `delete_after` in the solver wrappers. It only removes files.
- Aliasing: `read_airfoil_coordinate_file` rewrites numpy arrays that nothing else holds, so the model builds new
  sequences. Likewise the copy in `merge_polar_data_dicts` is a new map.
- PolarArchive.ArchiveRoundTrip: requires a polar name without `(` or a newline. A name with `(` is read back as a
  tuple, and reading it raises `ValueError`.
- MetaFile.AttrLineRoundTrip: keeps "the attribute is one of the save/load names" as a precondition. It does not
  prove this separately for each of the 21 literal names.
- What `create_propeller` does after the XROTOR design run: loading the result into a `Propeller` and plotting. The
  design run itself is the oracle.
- `interp_foil_profiles`: writing the profile files. The model keeps the index and interpolation logic and the
  profile list.
- `generate_stl_geometry`: saving the mesh with numpy-stl. The model covers the triangle array.
- `load_stl_geometry` and `plot_stl_mesh`: file loading and rendering.
- `clear_sweep_data`: only removes folders.
- `save_as_new` and `load_from_savefile`: copying and reloading through the file system. The model covers the
  readers they call (`read_pdt_metafile`, `read_xrotor_restart`).
- `set_stations`, `save_station_polars`, `get_blade_le_te`, `get_blade_chordlines` and `analyze_operating_point`:
  station fitting through `RadialStation`, plotting helpers, and a thin wrapper over `run_xrotor_oper`.
- The optimisation's `add_duty_cycle_point`, `thrust_eff`, `efficiency`, `var1_val` and `var2_val`. The first
  appends a `DutyCyclePoint` record that nothing in the optimisation reads. The others are single lookups into a stored
  propeller, used by the plots.
- Propellers.Propeller.constructor: stops once the two datasets are built empty (propeller.py:65, 67). `__init__`
  itself then loads them with `load_oper_sweep_results` and `load_wvel_sweep_results` (propeller.py:66, 68), and an
  exception there escapes `__init__`. The constructor does not make those calls; the load is modelled on its own as
  `Sweeps.SweepData.LoadSweepResults`. The `load_stl_geometry` call at propeller.py:71 is not modelled.
- Python's `int()` and `float()` on text are modelled for ASCII only (`Numbers.ParseInt` and `Numbers.ParseFloat`).
  Python also accepts `_` between digits (`1_000`) and non-ASCII Unicode digits; such text counts as not a number here.
- `str.isnumeric` is modelled as "non-empty and all ASCII digits" (`Text.IsNumeric`, `Text.IsDigit`). Python also
  accepts characters such as `²` and `½`.
- SpinBox.ValidFloatString: `\d` is modelled as the ASCII digits `0`-`9` (`Text.IsDigit`). Python's `re` on a `str`
  matches every Unicode decimal digit, so a text such as `'٣'` (Arabic-Indic three) is valid in Python and not in the
  model. `SpinBox.SpelledIsValid` and `SpinBox.ValidIsSpelled` relate validity to the ASCII literal grammar only.
- `str.lower` is modelled for ASCII letters only (`Text.Lower`). Python also lower-cases non-ASCII letters.
- Numbers.FormatFixed: `'{:.2f}'.format(x)` rounds the binary double nearest to `x`, so `2.675` prints as `2.67`. The model
  rounds the exact real, half to even (`Numbers.FormatFixed`, `Numbers.RoundTo`), which gives `2.68`.
- Optimization.OptNameRoundTrip: the rounding it states is that of `Numbers.RoundTo` on exact reals. Optimisation folder names
  whose values sit on a binary-rounding tie may differ from Python's in the last digit.
- MetaFile.DictRoundTrip: holds only for dictionaries whose texts are `Plain`. A text holding a backslash, a tab, a
  newline or another character that `repr` escapes is written escaped, and the reader never unescapes it, so it reads
  back changed (`MetaFile.EscapedReadBack`, `MetaFile.BackslashReadDoubled`).
- MetaFile.ItemsOfShown: holds only for `Plain` key and value texts, for the same reason.
- MetaFile.ValueRoundTrip: a dictionary value holds only when its texts are `Plain`, for the same reason.
- MetaFile.AttrStepSets: a dictionary value holds only when its texts are `Plain`, for the same reason.
- MetaFile.AttrLineRoundTrip: a dictionary value holds only when its texts are `Plain`, for the same reason.
- Text.StrRepr: characters above U+00FF are written as themselves. Python writes the non-printable ones as `\uXXXX`
  or `\UXXXXXXXX`.
- Sweeps.SweepData.UniqueParam: requires every value of the parameter to be a number or a text. A NaN value (the
  slipstream reports' power and thrust columns) and an array value are outside the model: Python's `in` then
  compares NaN by identity, and comparing arrays in `sorted` raises.
- Sweeps.CollectUniques: has the same requirement, for the same reason.
- FoilDatabase.ScrubNans: a `Column` holds only numbers and NaN, so a text or a tuple of texts cannot be stored in
  one. In Python such a value has `__len__`, and `np.isnan` on it raises `TypeError` (funcs.py:211-212); that
  error path is not modelled.
- The `tests/` scripts: they drive the solvers from fixed Windows paths and assert nothing.

## Findings

| source | as written | input that shows it | evidently intended | confidence | as-written member | corrected member |
|---|---|---|---|---|---|---|
| propeller_design_tools/funcs.py:418 | the duplicate-angle test compares the angle's text with the list of floats, so it is never true and a repeated row is appended again | a `.pacc` file listing the same alpha on two data rows | skip a row whose angle is already in the angle list, so that the per-column sorts at funcs.py:432-435 keep rows aligned | high (not executed) | PolarFiles.AsWrittenKeepsRepeat, PolarFiles.RepeatMisaligns | PolarFiles.DedupeDistinct, PolarFiles.RowsStayAligned |
| propeller_design_tools/funcs.py:475-499 | the writer prints a one-element array as `(x,)` and an empty one as `()`; the reader splits at `,` and calls `float('')`, which raises `ValueError` | a polar whose CL list holds one value | every saved polar reads back to the same values | high (not executed) | PolarArchive.ShortFieldFails | PolarArchive.TupleRoundTrip, PolarArchive.ArchiveRoundTrip |
| propeller_design_tools/funcs.py:543 | `h.strip('REx10^')` strips a set of characters from both ends, not the prefix, so digits 1 and 0 of the exponent go too | the header `REx10^12` gives exponent 2; `REx10^10` strips to the empty string and `int` raises `ValueError` | remove the `REx10^` prefix and read the rest as the exponent | high (not executed) | XRotorReports.ExponentAsWrittenMisreadsTwelve, XRotorReports.TwelveScaledAsWritten, XRotorReports.TenRejectedAsWritten | XRotorReports.ExponentOfHeader, XRotorReports.ReynoldsColumnScaled |
