# pathaia dataset helpers in Dafny

A model of the dataset helpers of a pathaia project,
`pathaia/util/management.py`. A pathaia project folder holds one
sub-folder per whole-slide image, and each sub-folder holds the patch
table `patches.csv` of its slide. A separate slide folder holds the
`.mrxs` slide files. The helpers cover five steps:

- locate a slide's patch table (`get_patch_csv_from_patch_folder`);
- walk the slide folders of a project, skipping excluded names
  (`get_patch_folders_in_project`);
- locate the `.mrxs` file of a slide (`get_slide_file`);
- read the patches of one pyramid level, with a label column, from a patch
  table (`handle_labeled_patches`);
- assemble the labelled patch dataset of a whole project
  (`PathaiaHandler.list_patches`). This step turns the per-slide exceptions
  into warnings and skips those slides.

The model is built from these modules:

| file | module | contents |
|---|---|---|
| `wrappers.dfy` | `Wrappers` | `Option` and `Result`. Exceptions become `Failure` values, and `:-` propagates them the way an uncaught exception leaves a call. |
| `seqs.dfy` | `Seqs` | `Select`: the eager, order-preserving form of a generator that filters and transforms. Also `Filter`, `Map`, and the lemma that `Select` keeps exactly the satisfying positions, in order. |
| `paths.dfy` | `Paths` | The POSIX `os.path.join` and `os.path.splitext` rules. Also `str.startswith`, `str.endswith`, `str.rfind` and the substring test `sub in s`. |
| `tables.dfy` | `Tables` | A pandas frame as a set of columns plus rows keyed by exactly those columns, and the level filter `df[df["level"] == level]`. |
| `filesystem.dfy` | `FileSystem` | The file system as a map from paths to directories (with their listing order), patch tables and other files. |
| `management.dfy` | `Management` | The exceptions and the five operations. `ListPatches` is a method whose loop mirrors the Python loop. `Assemble` is the functional reference that the method provably computes. |
| `management_lemmas.dfy` | `ManagementLemmas` | Properties that relate several calls: walk order, slide-file lookup by name, level selection, concatenation, skipping and aborting. |
| `scenario.dfy` | `Scenario` | A worked project, proved end to end. |

Each generator (`yield`) becomes an eager sequence in the same order.

- **Where project walking can fail.** `get_patch_folders_in_project`
  raises `EmptyProjectError` lazily, on the first `next()`. That call
  happens in the header of the loop in `list_patches`, outside the `try`
  block, so the error reaches the caller.
- **Where label reading can fail.** `handle_labeled_patches` raises
  `UnknownColumnError` before it yields anything. That happens inside the
  `try` block, so no patch of that slide has been appended yet.

Both failure points stay where the source puts them.

Error kinds:

- The custom exceptions are the constructors of `Management.Error`.
- The extra kind `Unreadable` stands for `pandas.read_csv` failing on a
  path that is missing or is not a patch table. `list_patches` does not catch
  that failure, so assembly ends with it.

The slide file is looked up before the patch table
(`management.py:214-215`), so a slide with no `.mrxs` file is reported as
`SlideNotFoundError` whatever its patch folder holds
(`Scenario.ScenarioSlideB`).

## Model

| member | source | states |
|---|---|---|
| Management.GetPatchCsv | pathaia/util/management.py:73-95 | If the patch folder is not a directory, the result is SlideNotFound for that folder. If it is a directory without `patches.csv`, the result is PatchesNotFound. Success happens exactly when both exist, and the returned path is the joined table path, which exists. |
| Management.GetPatchFoldersInProject | pathaia/util/management.py:98-123 | Fails, with EmptyProject for the project path, exactly when the project is not a directory. Every yielded entry is a listed name containing no exclusion string, paired with its joined path, which is a directory. Every listed name that passes both tests is yielded. |
| ManagementLemmas.WalkInListingOrder | pathaia/util/management.py:115-123 | The walk's entries are the kept listing entries, at strictly increasing listing positions. A listing position is walked if and only if its name is kept and is a directory. |
| ManagementLemmas.KeptIff | pathaia/util/management.py:116-120 | A name is kept if and only if no exclusion string occurs in it at any position (the semantics of Python's `ex in name`). |
| ManagementLemmas.DefaultWalkSkipsAnnotations | pathaia/util/management.py:98 | With the default exclusion list, no walked slide name contains "annotation". |
| Paths.ContainsIff | pathaia/util/management.py:118 | The scan used for `ex in name` agrees with "`ex` occurs at some position of `name`". |
| Management.FirstSlideFile | pathaia/util/management.py:143-147 | Returns the first listing position whose name is a non-hidden `.mrxs` file with base name `slide`. No earlier name qualifies. If no position is returned, no name qualifies. |
| Management.GetSlideFile | pathaia/util/management.py:126-151 | If the slide folder is not a directory, the result is SlideNotFound with no slide name. Otherwise it fails, with SlideNotFound naming the slide and the folder, exactly when no listed name is a slide file for the slide. On success, the result is the slide folder joined with the first listed name that is one. |
| Paths.SplitExtOfSuffix | pathaia/util/management.py:145 | `os.path.splitext` of a separator-free name that does not start with `.` and ends with a dot-extension strips exactly that extension. |
| ManagementLemmas.SlideFileIff | pathaia/util/management.py:144-146 | A separator-free name is accepted for a slide if and only if it equals the slide name plus `.mrxs`, and the slide name is non-empty and does not start with `.`. |
| ManagementLemmas.GetSlideFileByName | pathaia/util/management.py:139-151 | In a slide folder of plain names, the lookup succeeds if and only if `<slide>.mrxs` is listed and the slide name is non-empty and not hidden. The result is then the folder joined with that name. |
| Management.HandleLabeledPatches | pathaia/util/management.py:154-176 | An unreadable table fails with Unreadable. A readable one fails, with UnknownColumn naming the column and the file, exactly when the label column is absent. On success, every item is the `(x, y, label)` of some row at the level, and every row at the level gives an item. |
| ManagementLemmas.ExtractSelectsLevelRows | pathaia/util/management.py:169-176 | On success, the items are the `(x, y, label)` triples of the rows at the level, at strictly increasing row positions. A row position is used if and only if its row is at the level. |
| Management.ProcessSlide | pathaia/util/management.py:213-217 | Looks up the slide file first, then the patch table, then reads the items. The first failure is the result. Every failure is one of the three caught exceptions, or an unreadable table. On success, the slide path is the slide-file lookup's result, and the items are what the extractor reads from `<patch folder>/patches.csv`. |
| Management.ReadPatchFolder | pathaia/util/management.py:215-217 | The patch-table lookup comes first: when it fails (SlideNotFound or PatchesNotFound, both caught), that failure is the result. When it succeeds, the result is the extractor's result on the table it found. On success, the items are the extractor's result on `<patch folder>/patches.csv`. Every failure is SlideNotFound, PatchesNotFound, UnknownColumn or an unreadable table. |
| Management.Outcomes | pathaia/util/management.py:212-222 | One outcome per walked slide, in walk order, each the outcome of that slide's `try` block. Every failing outcome is a caught exception or an unreadable table. |
| FileSystem.ReadCsv | pathaia/util/management.py:169 | `pd.read_csv` yields a table exactly when the path exists and holds a patch table, and then it is that table. Otherwise the read fails, which the extractor reports as Unreadable. |
| Tables.LevelView | pathaia/util/management.py:170 | `df[df["level"] == level]` keeps the frame's columns, and its rows are exactly the table's rows whose level is `level`. |
| Tables.LevelViewOrdered | pathaia/util/management.py:170 | The view's k-th row is the table's row at position `idx[k]`. The positions strictly increase, and they are exactly the positions of rows at `level`, so row order and repeated rows are kept. |
| Paths.SplitExt | pathaia/util/management.py:145 | `os.path.splitext` splits a path into a root and an extension that concatenate back to the path. The extension is empty or starts with `.`, and holds no further `.` or `/`. |
| Paths.Join | pathaia/util/management.py:121 | `os.path.join(a, b)` ends with `b`, and it starts with `a` when `b` is relative. |
| Paths.JoinRelative | pathaia/util/management.py:87 | Joining a relative name onto a path that does not end with `/` inserts exactly one `/` (as at lines 87, 121 and 147). |
| Management.AppendPatches | pathaia/util/management.py:217-222 | The inner loop appends one descriptor `{slide, x, y, level, dimensions}` per item, and one label per item, in item order. |
| Management.Step | pathaia/util/management.py:213-224 | One slide extends both lists by the same number of entries, all at the requested level and dimensions. It aborts only with an error that is not caught, and that error is the slide's own. |
| Management.AssembleFrom | pathaia/util/management.py:212-225 | Accumulation keeps the earlier entries as a prefix and keeps the two lists the same length. Every new descriptor has the requested level and dimensions. An abort carries an uncaught error raised by one of the slides. |
| Management.Assemble | pathaia/util/management.py:210-225 | On success, the two lists have equal length and every descriptor has the requested level and dimensions. On failure, the error is an unreadable table. |
| Management.ListPatches | pathaia/util/management.py:198-225 | The method fails with EmptyProject exactly when the project folder is not a directory. Otherwise its result equals the functional assembly of the walked slides. Failures are EmptyProject or an unreadable table. On success, the lists have equal length, and every descriptor has the requested level and dimensions. |
| ManagementLemmas.AssembleConcatenates | pathaia/util/management.py:210-225 | The returned lists are the in-order concatenations, over the walked slides, of the descriptors and labels of every slide whose `try` block succeeded. |
| ManagementLemmas.AssembleFromConcatenates | pathaia/util/management.py:210-225 | From any starting lists, the accumulation appends exactly the slides' contributions, in order. |
| ManagementLemmas.AllPatchesLength | pathaia/util/management.py:218-222 | The concatenated descriptors and labels have equal length. |
| ManagementLemmas.AllPatchesAligned | pathaia/util/management.py:217-222 | The k-th descriptor and the k-th label come from the same item of the same successful slide. |
| ManagementLemmas.LabelBelongsToPatch | pathaia/util/management.py:212-222 | The k-th descriptor of the dataset names the slide file of some walked slide, and the x and y of one of its items. The k-th label is that same item's label. |
| ManagementLemmas.AssembleFromWarnings | pathaia/util/management.py:223-224 | On success, the warnings are the errors of the skipped slides, one per slide, in walk order. |
| ManagementLemmas.AssembleFromAppend | pathaia/util/management.py:212-224 | Accumulating over a concatenation of slides is accumulating over the first part and then, unless it aborted, over the second part. |
| ManagementLemmas.WarningsDoNotMatter | pathaia/util/management.py:223-224 | The warnings already reported do not influence the patches, the labels or the abort. |
| ManagementLemmas.OutcomesAppend | pathaia/util/management.py:212-217 | The slides' outcomes over a concatenation of walks are the concatenation of the outcomes. |
| ManagementLemmas.SkippedOutcomeContributesNothing | pathaia/util/management.py:223-224 | Inserting a slide whose `try` block raised a caught exception changes neither the descriptors, nor the labels, nor whether or how the assembly aborts. |
| ManagementLemmas.SkippedSlideContributesNothing | pathaia/util/management.py:212-224 | For any walk, the same holds for a slide entry whose processing raised a caught exception. |
| ManagementLemmas.AssembleFromFailsIff | pathaia/util/management.py:212-225 | Accumulation aborts if and only if some slide raised an uncaught exception. |
| ManagementLemmas.AssembleFromFailsAtFirstAbort | pathaia/util/management.py:212-225 | The abort carries exactly the error of the first slide that raised an uncaught exception. |
| ManagementLemmas.AssembleFailsIff | pathaia/util/management.py:210-225 | Assembly aborts if and only if some walked slide raises an uncaught exception, and such an exception is always an unreadable table. |
| Seqs.SelectIsOrdered | pathaia/util/management.py:115-123 | The eager filter-and-transform behind the walker and the extractor keeps exactly the satisfying positions, in increasing order, with their images. |
| Seqs.SelectMembers | pathaia/util/management.py:115-123 | The selection contains the image of every satisfying element and nothing else. |
| Seqs.MapFilter | pathaia/util/management.py:170-176 | Filtering the rows and then mapping every survivor equals selecting with the same predicate and map. |
| Scenario.ScenarioWalk | pathaia/util/management.py:98-123 | In the worked project, the default walk yields `slideA` then `slideB`, and skips `annotation_notes`. |
| Scenario.ScenarioPatchesA | pathaia/util/management.py:154-176 | The level-0 rows of `slideA`'s table yield the one item `(1, 2, "yes")`. |
| Scenario.ScenarioSlideA | pathaia/util/management.py:213-217 | `slideA`'s `try` block yields its slide path `S/slideA.mrxs` and its one item. |
| Scenario.ScenarioSlideB | pathaia/util/management.py:213-214 | `slideB` has no `.mrxs` file in `S`, so its `try` block raises SlideNotFound for `slideB` in `S`. |
| Scenario.ScenarioDataset | pathaia/util/management.py:198-225 | The level-0 dataset of the worked project labelled by "tumor" is the single descriptor of `slideA` at (1, 2), labelled "yes", with one warning, for `slideB`. |

## Left out

- I/O: the file system is a value passed in. `os.listdir` order is taken
  to be the stored listing order, which in reality depends on the file
  system.
- Warnings: `warnings.warn(str(e))` becomes a list of the caught errors
  returned with the dataset. Python's warning filters, which may suppress
  repeated messages, are not modelled. Error messages are modelled only as
  the paths and names they report. When assembly ends with `Unreadable`,
  the `Failure` result carries only that error. The warnings for the
  slides skipped before it, which Python has already emitted, are not
  part of the result.
- CSV parsing: `pandas.read_csv` is not modelled. A patch table is given
  as a parsed frame whose rows all carry every column, including `level`,
  `x` and `y`.
- Missing columns: a table without a `level` column would make
  `df["level"]` raise `KeyError`. The table type excludes this case.
- Number types: `iterrows` upcasting integer cells to floats in
  mixed-type rows is not modelled. Cells keep their parsed value.
- Laziness: partial consumption of the generators is not modelled. Only
  `list_patches` consumes them, and it does so fully.
- LevelNotFoundError, and the base class `Error`, are declared but never
  raised, so they have no constructor of their own.
- Mutable default: the default `exclude` list is a mutable default
  argument that is never mutated. It is modelled as the constant
  `DefaultExclude`.
- Management.ListPatches: the dataset is returned as `(patches, labels)`
  with the warnings alongside. The source returns only the two lists and
  emits the warnings as a side effect.
