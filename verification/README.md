# nanonis_reader report builder, modelled in Dafny

`nanonis_reader/util.py` holds two classes.

- `NanonisData` turns a base path, a file number and an optional keyword into
  one loaded Nanonis file (`.sxm` scan, `.dat` spectrum or `.3ds` grid).
- `DataToPPT` walks a range of file numbers and builds a PowerPoint deck with
  one slide per file: a title, up to three images (two or three for `.sxm`
  and `.dat`, none for `.3ds`), and a caption made from the header
  parameters.

This project models the decision logic of both. The parsers, the filesystem
and the plotting are parameters, so what is modelled is the string, path
and selection logic and the batch loop:

- `dates.dfy`: the two nested `format_date` helpers.
- `resolver.dfy`: `NanonisData.__init__`. It covers `str(n).zfill(4)`, the
  glob pattern, picking the first match, `os.path.splitext`, and dispatch
  through `file_handlers`.
- `parameters.dfy`: `get_scan_parameters`, `get_sxm_parameters` and
  `get_dat_parameters`. Each dict display is evaluated left to right. The
  first missing header key raises `KeyError`, and a name listed twice
  keeps its later value.
- `report.dfy`: the image counts, `add_slide` and `generate_ppt`.
  - The specification function `RunTo` defines the loop's outcome over a
    number range.
  - The class `DataToPPT` holds the deck in a `prs` field that its methods
    extend.
  - `ProcessRange` is the loop, with its invariants.
  - `GeneratePpt` is proved to leave `prs` and its result exactly as
    `RunTo` says.
- `text.dfy`: Python's `str.split` with an explicit separator, `join` and
  `endswith`. `wrappers.dfy` holds `Option`/`Result`. `records.dfy` holds the
  loaded record: the file name, the header map, and the signal names.

Behaviour of util.py worth noting:

- With several glob matches, the file used is the first one in the order
  `glob.glob` returns, not the lexicographically first. That order is part
  of the `glob` parameter.
- Only a `ValueError` skips a file number in the batch. Any other exception,
  such as the `KeyError` of a missing header key, ends `generate_ppt` before
  the deck is saved.
- A `ValueError` raised anywhere in `add_slide` also skips to the next
  number. The slide `add_slide` already appended stays in the deck, possibly
  without pictures or caption.
- The deck is saved under `base_path + 'PPT/' + output_filename`. This is a
  plain concatenation, so no separator is inserted after `base_path`.
- A `.dat` slide takes its parameters from `get_dat_parameters` directly,
  not through `get_scan_parameters`.
- A name with none of the three suffixes reaches the text box with no
  position computed, and raises `UnboundLocalError`. That is not a
  `ValueError`, so it ends the run.

## Model

| member | source | states |
|---|---|---|
| Dates.FormatSxmDate | nanonis_reader/util.py:101-109 | the sxm date helper only moves pieces: the result has exactly the input's characters |
| Dates.SxmDateOfParts | nanonis_reader/util.py:105-107 | "D.M.Y" with dot-free pieces becomes "Y.M.D" |
| Dates.SxmDateCases | nanonis_reader/util.py:105-109 | without exactly two dots the input is returned unchanged; with two dots the input is "D.M.Y" with dot-free pieces and the result is "Y.M.D" |
| Dates.SxmDateInvolution | nanonis_reader/util.py:105-109 | applying the sxm helper twice gives back the input |
| Dates.SxmDateExample | nanonis_reader/util.py:105-107 | "05.03.2024" becomes "2024.03.05" |
| Dates.FormatDatDate | nanonis_reader/util.py:130-145 | the dat helper keeps the input's length |
| Dates.DatDateOfParts | nanonis_reader/util.py:134-143 | "D.M.Y time" with pieces free of '.' and ' ' becomes "Y.M.D_time" |
| Dates.DatDateCases | nanonis_reader/util.py:134-145 | an input without exactly one space is returned unchanged; whenever the input changes, it was "D.M.Y time" and becomes "Y.M.D_time" |
| Dates.DatDateIdempotent | nanonis_reader/util.py:130-145 | applying the dat helper twice is the same as applying it once |
| Dates.DatDateExample | nanonis_reader/util.py:134-143 | "05.03.2024 13:45:00" becomes "2024.03.05_13:45:00" |
| Text.Split | nanonis_reader/util.py:106 | `str.split` on one separator gives one more piece than there are separators; no piece holds the separator, and every character of a piece comes from the input |
| Text.EndsWith | nanonis_reader/util.py:87-91 | no contract of its own: `SuffixesExclusive` states that at most one of the suffix tests of `get_scan_parameters` and `add_slide` holds, and `ScanParametersDispatch` what each leads to |
| Resolver.Digits | nanonis_reader/util.py:28 | `str(n)` of a non-negative number is a non-empty string of decimal digits, starting with '0' only for 0 |
| Resolver.DecimalString | nanonis_reader/util.py:28 | no contract of its own: `PaddedNumber` and `PaddedNegative` state `str(n)` for a non-negative and a negative number |
| Resolver.NumberStr | nanonis_reader/util.py:26-28 | no contract of its own: `PaddedNumber`, `PaddedNegative` and `ZFill` state what `str(file_number).zfill(4)` gives |
| Resolver.ZFill | nanonis_reader/util.py:28 | `zfill` returns a string of length max(len, width): the input itself when already that long, otherwise the input with zeros in front of it, after a leading '+' or '-' |
| Resolver.PaddedNumber | nanonis_reader/util.py:26-28 | a non-negative number pads to its digits with zeros in front, max(4, digit count) long, and reads back as the number |
| Resolver.PaddedNumberInjective | nanonis_reader/util.py:28 | distinct non-negative file numbers give distinct padded strings |
| Resolver.PaddedNegative | nanonis_reader/util.py:28 | a negative number keeps its '-' first, with the zeros after it |
| Resolver.PathJoin | nanonis_reader/util.py:32-34 | no contract of its own: `PatternForm` states the joined pattern |
| Resolver.NamePattern | nanonis_reader/util.py:30-34 | no contract of its own: `PatternForm` states both f-strings, chosen by the keyword's truthiness |
| Resolver.Pattern | nanonis_reader/util.py:31-34 | no contract of its own: `PatternForm` and `PatternShape` state its exact form |
| Resolver.PatternForm | nanonis_reader/util.py:31-34 | the pattern is exactly the base path, a '/' unless the base path is empty or ends in one, then `*{keyword}*_{number}.*` for a truthy keyword and `*_{number}.*` otherwise |
| Resolver.PatternShape | nanonis_reader/util.py:31-34 | the pattern starts with the base path and ends with `*_{number}.*`, or with `*{keyword}*_{number}.*` for a truthy keyword; an empty keyword gives the same pattern as none |
| Resolver.NotFoundMessage | nanonis_reader/util.py:38-42 | no contract of its own: `ResolvePath` states that an empty match list raises ValueError with this message, which names the keyword exactly when it is truthy |
| Resolver.ResolvePath | nanonis_reader/util.py:26-52 | with no int or str number, the path is the base path; otherwise an empty match list is a ValueError with the not-found message, and any other list resolves to its first entry |
| Resolver.Extension | nanonis_reader/util.py:55 | no contract of its own: `ExtensionShape`, `ExtensionSplit`, `ExtensionOfFile`, `ExtensionNoDot` and `ExtensionLeadingDots` state when `splitext` finds an extension and what it is |
| Resolver.ExtensionShape | nanonis_reader/util.py:55 | `splitext`'s extension is empty, or a '.' followed by neither '.' nor '/' that ends the path |
| Resolver.SplitPoints | nanonis_reader/util.py:55 | in `<dir><stem>.<ext>` the last '/' ends `<dir>` and the last '.' is the one before `<ext>` |
| Resolver.ExtensionSplit | nanonis_reader/util.py:55 | `<dir><stem>.<ext>` has extension `.<ext>` exactly when the stem has a character other than '.', and none otherwise |
| Resolver.ExtensionOfFile | nanonis_reader/util.py:55 | `<dir><name>.<ext>`, with a name that is not all dots, has extension `.<ext>` |
| Resolver.ExtensionNoDot | nanonis_reader/util.py:55 | a file name with no '.' has no extension |
| Resolver.ExtensionLeadingDots | nanonis_reader/util.py:55 | a name that is only dots before its last '.', such as `dir/.sxm`, has no extension, so `NanonisData` rejects it as unsupported |
| Resolver.FormatOf | nanonis_reader/util.py:19-23 | a registered parser is found only for its own extension |
| Resolver.FormatOfExtension | nanonis_reader/util.py:19-23 | each of `.sxm`, `.dat`, `.3ds` leads to its own parser |
| Resolver.ResolveDispatch | nanonis_reader/util.py:55-65 | a parser runs exactly when the path was found with a registered extension, and it is that extension's parser; otherwise the result is a ValueError that does not depend on the parsers |
| Resolver.Resolve | nanonis_reader/util.py:12-65 | no contract of its own: `ResolvePath` and `ResolveDispatch` state which path is used, which parser runs, and when a ValueError is raised |
| Parameters.Extract | nanonis_reader/util.py:111-120 | a dict display succeeds exactly when every key is in the header, binds exactly the listed names, and otherwise raises KeyError |
| Parameters.Convert | nanonis_reader/util.py:101-109 | a value that is not a string comes back unchanged, as the bare `except:` returns it; a string stays a string; an entry without a date helper keeps its header value. `SxmParametersContent` and `DatZBranch` state that `scan_date` and `saved_date` pass through the date helpers |
| Parameters.ExtractFirstMissing | nanonis_reader/util.py:148-157 | the KeyError names the leftmost missing key |
| Parameters.ExtractLastWins | nanonis_reader/util.py:151-154 | a name's value comes from the last entry that carries it |
| Parameters.SxmParameters | nanonis_reader/util.py:96-123 | no contract of its own: `SxmParametersContent` and `Extract` state its dict and its KeyError |
| Parameters.SxmParametersContent | nanonis_reader/util.py:111-120 | the sxm dict binds exactly its eight names, each to its header value, with `scan_date` the `rec_date` value passed through the sxm helper |
| Parameters.SxmFields | nanonis_reader/util.py:111-120 | the eight entries of the sxm dict display; `SxmParametersContent` and `SxmNamesDistinct` state what it binds |
| Parameters.DatParameters | nanonis_reader/util.py:125-169 | no contract of its own: `DatZBranch`, `DatBiasBranch` and `DatZNeedsBiasSweepCount` state both branches |
| Parameters.DatZBranch | nanonis_reader/util.py:147-158 | with a `Z rel (m)` signal: `sweep_z` is present, `sweep_num` is the Z-spectroscopy count, there are no sweep bounds, the bias-sweep count is still required, and the saved date goes through the dat helper |
| Parameters.DatZFields | nanonis_reader/util.py:148-157 | the eight entries of the Z-sweep dict display, `sweep_num` twice; `DatZBranch`, `DatZField` and `DatZLacksBiasBounds` state what it binds |
| Parameters.DatZNeedsBiasSweepCount | nanonis_reader/util.py:148-151 | a Z-sweep header without the bias-sweep count raises KeyError for it, although that value is overwritten |
| Parameters.DatBiasBranch | nanonis_reader/util.py:159-169 | without a `Z rel (m)` signal: the sweep start, end and count come from the bias-sweep keys, and `sweep_z` is absent |
| Parameters.DatBiasFields | nanonis_reader/util.py:160-168 | the seven entries of the bias-sweep dict display; `DatBiasBranch`, `DatBiasField` and `DatBiasLacksZ` state what it binds |
| Parameters.DatZLacksBiasBounds | nanonis_reader/util.py:148-157 | the Z-sweep dict binds neither `sweep_start` nor `sweep_end` |
| Parameters.DatBiasLacksZ | nanonis_reader/util.py:160-168 | the bias-sweep dict has no `sweep_z` |
| Parameters.ScanParameters | nanonis_reader/util.py:83-94 | no contract of its own: `ScanParametersDispatch` states which parameter function each suffix reaches, and the errors |
| Parameters.SuffixesExclusive | nanonis_reader/util.py:87-94 | no name ends in two of `.sxm`, `.dat` and `.3ds`, so the order of the suffix tests does not matter |
| Parameters.ScanParametersDispatch | nanonis_reader/util.py:83-94 | ValueError exactly for a name with none of the three suffixes; `.sxm` reaches `get_sxm_parameters` on the header, `.dat` reaches `get_dat_parameters`, `.3ds` gets the empty dict; every other failure is a KeyError |
| Report.DatImageCountBySignal | nanonis_reader/util.py:468-478 | a .dat file gets 2 images exactly when it has a `Z rel (m)` signal, otherwise 3 |
| Report.SxmImageCount | nanonis_reader/util.py:306-328 | no contract of its own: `SxmSlideImages` states the count placed |
| Report.DatImageCount | nanonis_reader/util.py:468-478 | no contract of its own: `DatImageCountBySignal` and `DatSlideImages` state the count |
| Report.SlideFor | nanonis_reader/util.py:419-494 | the slide is titled `File: <name>`, and it gets its caption exactly when nothing was raised |
| Report.SxmSlideImages | nanonis_reader/util.py:440-455 | a completed .sxm slide has 3 images exactly when `LI_Demod_1_X` is a signal, otherwise 2 |
| Report.DatSlideImages | nanonis_reader/util.py:460-478 | a completed .dat slide has 2 images for a Z sweep and 3 otherwise |
| Report.SxmSlideCaption | nanonis_reader/util.py:431-458 | an .sxm slide whose parameters cannot be read stays bare and `add_slide` raises their KeyError; a drawing failure places no picture, a caption failure places the pictures without a caption; the slide completes exactly when both succeed, with its caption made from the sxm parameters |
| Report.DatSlideCaption | nanonis_reader/util.py:460-481 | the same for a .dat slide with the parameters of `get_dat_parameters` |
| Report.GridSlide | nanonis_reader/util.py:483-494 | a .3ds slide has no image; unless drawing raised, it carries the fixed "3DS file parameters" caption |
| Report.UnknownSuffixSlide | nanonis_reader/util.py:489-494 | any other name leaves a bare titled slide and raises UnboundLocalError |
| Report.BatchStep | nanonis_reader/util.py:503-510 | one number adds at most one slide, and adds one exactly when its file was loaded; a failed load's error is what the step raises; for a loaded file, the slide and the exception are those of `add_slide` (`SlideFor`) |
| Report.RunTo | nanonis_reader/util.py:502-513 | the exception that ends a run is never a ValueError |
| Report.RunEmpty | nanonis_reader/util.py:502 | an empty range (`end_num < start_num`) gives no slides and no exception |
| Report.RunAbortSticks | nanonis_reader/util.py:502-513 | once an exception has ended the run, later numbers change nothing |
| Report.RunNoAbort | nanonis_reader/util.py:502-513 | when no number raises an uncaught exception, the run completes |
| Report.RunFirstAbort | nanonis_reader/util.py:502-513 | the run ends at the first number that raises an uncaught exception, keeping the slides before it and that number's own slide |
| Report.SxmMissingKeyEndsRun | nanonis_reader/util.py:502-513 | a loaded .sxm file whose header lacks an sxm key ends the run with that KeyError, after its bare slide, when no earlier number aborted |
| Report.RunSlides | nanonis_reader/util.py:502-513 | a run with no uncaught exception holds exactly one slide per number that appended one, in ascending order |
| Report.SuccessfulIndicesSpec | nanonis_reader/util.py:502-513 | the numbers kept are exactly those in the range that appended a slide, in ascending order |
| Report.JobSlides | nanonis_reader/util.py:502-513 | with only ValueErrors, the deck holds one slide per loaded file number, in ascending order, each the slide `add_slide` makes for that file |
| Report.MissingFileSkipped | nanonis_reader/util.py:38-42 | a number with no matching file adds no slide and is skipped with the not-found ValueError |
| Report.MiddleFileMissing | nanonis_reader/util.py:502-513 | numbers 10..12 with 11 missing give two slides, for files 10 and 12 in that order, and the run completes |
| Report.ThreeNumbers | nanonis_reader/util.py:502-513 | three numbers that raise nothing uncaught contribute their slides in ascending order |
| Report.DataToPPT.constructor | nanonis_reader/util.py:68-81 | stores the settings and starts with an empty presentation |
| Report.DataToPPT.AddSlide | nanonis_reader/util.py:419-494 | appends the file's slide to `prs` even when filling it raises, and returns what was raised |
| Report.DataToPPT.LoadAndAdd | nanonis_reader/util.py:503-510 | loads file number `i` and, when that succeeds, appends its slide, as `BatchStep` says |
| Report.DataToPPT.ProcessRange | nanonis_reader/util.py:502-513 | the loop over the object's own `start_num..end_num`, `base_path` and `keyword` appends to `prs` exactly the slides of `RunTo` and returns its uncaught exception |
| Report.DataToPPT.GeneratePpt | nanonis_reader/util.py:496-518 | `prs` grows by the run's slides; the result is the uncaught exception, or the deck saved under `base_path + "PPT/" + output_filename` |

## Left out

- `glob.glob` and the order of its matches are a parameter (`Env.glob`), and so are the parsers `nanonis_sxm/dat/3ds.Load` (`Env.load`). Their source is not part of this model.
- Copying the loaded object's public attributes onto `self` with `dir`/`setattr` is not modelled. The loaded record is the value `LoadedFile`, holding the file name, the header and the signal names.
- matplotlib and python-pptx are not modelled: plotting, PNG buffers, slide layouts and picture, textbox and inch positions. What reaches the deck is kept: the title, the number of pictures placed, and the caption. Whether drawing or captioning raised is the parameter `Env.render`.
- Report.SlideFor: does not model a failure inside `add_picture` that would leave some but not all pictures placed. Drawing either fails before any picture is placed or not at all.
- Floating point is not modelled. This covers `aspect_ratio` (line 121) and the `ZeroDivisionError` it can raise, `get_3sigma_limits`, and the nA/pA scaling and number formatting of the captions. A caption is represented by the parameters it is built from (`InfoText`).
- Parameters.SxmParametersContent: leaves out the `aspect_ratio` entry that line 121 adds.
- The `.3ds` stubs `get_3ds_parameters`, `get_3ds_info_text` and `process_3ds_file` appear only through their visible effects: an empty dict, the fixed caption, and no picture placed.
- Console output is not modelled: the `print` calls, including the warning for several matches.
- Report.DataToPPT.GeneratePpt: does not model `prs.save` failing. The saved result is the path and the deck.
- Default argument values (`keyword=None`, `output_filename='output.pptx'`) are not modelled; every argument is passed explicitly.
- Resolver.PaddedNumber: states the padding for non-negative numbers only. Negative numbers are covered by `PaddedNegative`, and string file numbers by `ZFill`'s contract.
- Paths follow the POSIX rules of `os.path` (`posixpath`): `PathJoin` and `Extension` treat only '/' as a separator. On Windows, `ntpath` also accepts '\\', and drive letters are not modelled.
- A `bool` file number passes the `isinstance(file_number, (int, str))` test and pads as "True" or "False". `FileNumber` has no such case; `generate_ppt` passes only ints.
