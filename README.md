# Precipitation climatology script, modelled in Dafny

`plot_precipitation_climatology.py` reads a precipitation-flux cube, keeps the
time samples of one month, converts the values from kg m-2 s-1 to mm/day,
averages over time, optionally hides land or ocean cells using a
land-area-fraction grid, plots the result, writes a provenance log and saves
the figure. This project models the decisions the script makes itself:

- `errors.dfy` (`Errors`): the exceptions the modelled code raises, and the
  `Option`, `Result` and `Outcome` wrappers that carry them.
- `grid.dfy` (`Grid`): the numpy element-wise operations the script uses
  (`* 86400`, `< 50`, `>= 50`) and the time mean that `collapsed('time', MEAN)`
  computes, on flat time-major sequences of reals. `Tiled(n, steps, cells)`
  says that `n` values make up `steps` samples of `cells` cells.
- `precipitation.dfy` (`Precipitation`): the cube as a class whose fields
  `convert_pr_units` and `apply_mask` update in place, each method tied to a
  function on the cube's value (`Field`): `Converted`, `Masked`, `Collapsed`.
- `provenance.dfy` (`Provenance`): Python's `str.split` on one character and
  the log name `fname + '.txt'` taken from the two-way unpacking of
  `outfile.split('.')`.
- `pipeline.dfy` (`Pipeline`): `main` as a method over the cube `read_data`
  returned, tied to the function `Script`, which fixes the stage order and
  the files written, in order.

Values are Dafny `real`s, an exact stand-in for the floats. The files read
(the precipitation cube and the land-fraction cube) are parameters: `Run`
receives the cube `read_data` returned, `null` when `extract` matched no
sample, and a `MaskRequest` holding the land-fraction values already read.
Written files are recorded as a sequence of `Output`s, in the order written.

Three behaviours of the code differ from what a reader of the script might
expect; the model follows the code:

- `"my.map.png"` does not log to `"my.txt"` (a split on the first period):
  the code unpacks `outfile.split('.')` into exactly two names, so any name with no '.' or with more than one '.' raises, and nothing
  is written (`LogNameExamples`, `TwoPeriodsWriteNothing`).
- The input's history is not merely added to the provenance record when it
  is present: the code indexes `cube.attributes['history']`,
  which raises when it is absent; the same holds for `model_id` in the plot
  title. Both are modelled as `MissingAttribute` failures, before any file
  is written.
- The "land" and "ocean" masks have no exception at exactly 50: the code's
  `< 50` and `>= 50` make them complements at every value, 50 included
  (`MasksComplement`).

## Model

| member | source | states |
|---|---|---|
| `Grid.Scaled` | plot_precipitation_climatology.py:32 | the rescaled array has the same length and element i is k times old element i |
| `Grid.Below` | plot_precipitation_climatology.py:41 | element i of the boolean array is true exactly when element i is below the bound |
| `Grid.AtLeast` | plot_precipitation_climatology.py:43 | element i of the boolean array is true exactly when element i is at least the bound |
| `Grid.SeriesAt` | plot_precipitation_climatology.py:75 | the time series of one cell has one value per time sample |
| `Grid.SeriesAtIndex` | plot_precipitation_climatology.py:75 | element t of cell j's time series is the value at position t * cells + j of the time-major data, which lies inside the data |
| `Grid.SampleSum` | plot_precipitation_climatology.py:75 | summing the samples cell by cell gives one value per spatial cell |
| `Grid.SampleSumAt` | plot_precipitation_climatology.py:75 | the cell-by-cell sum at cell j is the sum of cell j's time series |
| `Grid.TimeMean` | plot_precipitation_climatology.py:75 | the mean has one value per cell, the sum of that cell's time series divided by the number of samples (equal weights) |
| `Grid.TimeMeanOfConstant` | plot_precipitation_climatology.py:75 | a field holding one value everywhere has that value as its time mean at every cell |
| `Precipitation.Converted` | plot_precipitation_climatology.py:27-35 | fails with the unit assertion exactly when the units are not "kg m-2 s-1"; otherwise every value is 86400 times the old one, the units are "mm/day", and mask, shape and attributes are kept |
| `Precipitation.Cube.ConvertPrUnits` | plot_precipitation_climatology.py:27-35 | fails exactly when the units are not "kg m-2 s-1" and then leaves the cube as it was; otherwise the cube becomes `Converted` of its old value |
| `Precipitation.HiddenCells` | plot_precipitation_climatology.py:40-43 | for realm "ocean" cell i is hidden exactly when its land fraction is below 50; for every other realm exactly when it is at least 50 |
| `Precipitation.UnknownRealmIsLand` | plot_precipitation_climatology.py:40-43 | any realm other than "ocean", misspellings included, gives the same mask as "land" |
| `Precipitation.MasksComplement` | plot_precipitation_climatology.py:40-43 | the "ocean" mask and any other realm's mask are pointwise complements; a fraction of exactly 50 is hidden by the non-ocean mask and visible in the ocean one |
| `Precipitation.Masked` | plot_precipitation_climatology.py:40-44 | the masked field keeps data, units, shape and attributes; its mask has one flag per land-fraction cell, hiding cell i exactly when the fraction is below 50 for "ocean" and at least 50 for any other realm |
| `Precipitation.MaskedIgnoresOldMask` | plot_precipitation_climatology.py:44 | the new mask does not depend on the mask the cube had before |
| `Precipitation.MaskedIdempotent` | plot_precipitation_climatology.py:44 | masking twice with the same inputs gives the same value as masking once |
| `Precipitation.Cube.ApplyMask` | plot_precipitation_climatology.py:37-46 | the cube's mask is replaced wholesale by the realm's mask and nothing else changes |
| `Precipitation.Collapsed` | plot_precipitation_climatology.py:75 | the collapsed field has one sample, the same grid, units and attributes, and cell j holds the mean of cell j's time series |
| `Precipitation.Cube.CollapsedTime` | plot_precipitation_climatology.py:75 | returns a new cube whose value is `Collapsed` of this cube's value; this cube is not changed |
| `Provenance.Split` | plot_precipitation_climatology.py:87 | the split gives one piece more than there are separators, and no piece holds the separator |
| `Provenance.JoinSplit` | plot_precipitation_climatology.py:87 | joining the pieces with the separator gives back the split string |
| `Provenance.SplitWithout` | plot_precipitation_climatology.py:87 | a string without the separator splits into itself alone |
| `Provenance.SplitAfter` | plot_precipitation_climatology.py:87 | after a separator-free prefix, the first separator ends the first piece |
| `Provenance.LogName` | plot_precipitation_climatology.py:87-88 | the log name exists exactly when the output name holds one '.'; otherwise the unpacking fails with the number of pieces (one more than the '.'s) |
| `Provenance.LogNameOf` | plot_precipitation_climatology.py:87-88 | for a name `fname.extension` with no other '.', the log is `fname.txt` |
| `Provenance.LogNameInverse` | plot_precipitation_climatology.py:87-88 | every produced log name comes from an output name made of two '.'-free parts around one '.', and is the first part followed by ".txt" |
| `Provenance.LogNameExamples` | plot_precipitation_climatology.py:87-88 | "map.png" logs to "map.txt"; "my.map.png" fails with three pieces and "map" with one |
| `Pipeline.Climatology` | plot_precipitation_climatology.py:73-79 | no extracted cube fails with `NothingExtracted`; units other than "kg m-2 s-1" fail with the unit assertion; otherwise the climatology is a well-shaped single sample in mm/day on the same grid with the same attributes |
| `Pipeline.Script` | plot_precipitation_climatology.py:70-89 | the run succeeds exactly when it writes files, and then writes the log (named by `LogName`) and then the figure; it reports the climatology exactly when that stage succeeded, and that stage's error when it failed |
| `Pipeline.Run` | plot_precipitation_climatology.py:70-89 | the run's report is `Script` of the cube read; the climatology is a new cube; the input cube ends converted, or unchanged when conversion failed |
| `Pipeline.FigureFollowsLog` | plot_precipitation_climatology.py:86-89 | the figure is saved exactly when the climatology succeeds, both attributes exist and the output name holds one '.'; whatever is written is the log and then the figure; a bad output name writes nothing |
| `Pipeline.TwoPeriodsWriteNothing` | plot_precipitation_climatology.py:87-89 | an output name such as "my.map.png" makes the run fail with no file written |
| `Pipeline.ClimatologyStages` | plot_precipitation_climatology.py:73-79 | with the right units, the climatology is in mm/day, has one value per cell equal to the time mean of the converted values, and its mask is the realm's mask when one is asked for and all visible otherwise |
| `Pipeline.WrongUnitsStopRun` | plot_precipitation_climatology.py:74 | units other than "kg m-2 s-1" end the run with the unit assertion, no climatology and no file |
| `Pipeline.NoSampleStopsRun` | plot_precipitation_climatology.py:22 | when no sample matched the month, the run fails and writes nothing |
| `Pipeline.ConstantClimatology` | plot_precipitation_climatology.py:73-79 | an unmasked field of constant value c kg m-2 s-1 gives a climatology of constant value 86400 c mm/day with nothing hidden |
| `Pipeline.TwoJanuarySamples` | plot_precipitation_climatology.py:73-79 | two samples on a 3 x 3 grid, all 1.0 kg m-2 s-1, give 86400.0 mm/day at every cell |

## Left out

- Reading files and extracting the month (`iris.load_cube`, `add_month`, `extract`, lines 19-22 and 78): library I/O. The cube read and the land-fraction values are parameters; an `extract` that matches nothing is the `null` cube, on which the script fails when `convert_pr_units` reads its units.
- Precipitation.Cube.ConvertPrUnits: compares the unit string for exact equality, whereas the cf_units comparison in the script parses the string, so spellings of the same unit (for example "kg/m2/s") would also pass there.
- Precipitation.Converted: the same exact string comparison; a cube in "kg/m2/s" is refused here but converted by the script.
- Pipeline.Climatology: the same exact string comparison; equivalent spellings of kg m-2 s-1 end the run here but not in the script.
- Pipeline.WrongUnitsStopRun: the same exact string comparison; it covers every string other than "kg m-2 s-1", including spellings the script accepts.
- Precipitation.Collapsed: the mean of the library's reduction is modelled as the plain equally weighted mean; how it treats masked input values and coordinate bounds is not modelled, and its result is taken to hide nothing. When exactly one sample matches the month, `extract` may leave time as a scalar coordinate, and whether the library then collapses it is not known from the script; the model averages the one sample.
- Plotting (`plot_data`, `plt.savefig`, lines 48-67 and 89): rendering is not modelled; only the plot's read of the `model_id` attribute and the position of the save in the order of written files are.
- The content of the provenance record and the writing of files (`cmdprov.new_log`, `cmdprov.write_log`, lines 86-88): only the read of the `history` attribute, the name of the log and its place before the figure are modelled.
- Command-line parsing, the warnings filter and the `pdb` import (lines 1, 13-14, 92-112): process plumbing.
- Floating-point rounding of the scaling and the mean, and NaN: `real` is an exact abstraction. A NaN land fraction makes both `< 50` and `>= 50` false, so neither mask hides that cell; the complement of the two masks (`MasksComplement`) holds only for the non-NaN values the model has.
- Pipeline.Run: requires the land-fraction grid to have as many cells as the climatology; what numpy does with a mask of another shape, or with a mask assigned to a plain, unmasked array, is not modelled.
