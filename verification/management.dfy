/** The dataset helpers of a pathaia project: locating a slide's patch table,
    walking the slide folders of a project, locating a slide's `.mrxs` file,
    extracting the labelled patches of one level from a patch table, and
    assembling the labelled patch dataset of a whole project, skipping the
    slides whose data is missing.

    Exceptions become `Result` values; generators become eager sequences in
    the same order. */
module Management {
  import opened Wrappers
  import opened Seqs
  import opened Paths
  import opened Tables
  import opened FileSystem

  /** The custom exceptions that the helpers raise, with the paths and names
      their messages report. */
  datatype Error =
    | EmptyProject(project: string)
      // The slide's patch folder or the slide folder is not a directory
      // (`slide` is None), or the slide folder holds no file for `slide`.
    | SlideNotFound(folder: string, slide: Option<string>)
    | PatchesNotFound(patchFolder: string)
    | UnknownColumn(column: string, patchFile: string)
      // `pandas.read_csv` failed: the path is missing or is not a patch
      // table. This is not one of the custom exceptions.
    | Unreadable(path: string)

  /** The exceptions the dataset assembler catches and turns into warnings. */
  predicate Skippable(e: Error)
  {
    e.SlideNotFound? || e.PatchesNotFound? || e.UnknownColumn?
  }

  /** The conventional name of a slide's patch table. */
  const PatchesFile: string := "patches.csv"

  /** The default exclusion list of the project walker. */
  const DefaultExclude: seq<string> := ["annotation"]

  /** The extension of the slide files the locator accepts. */
  const SlideExtension: string := ".mrxs"

  /** Names starting with this are hidden files. */
  const HiddenMarker: char := '.'

  /** A slide folder of a project: the slide's name and its folder's path. */
  datatype SlideEntry = SlideEntry(name: string, folder: string)

  /** One patch of a patch table with its label. */
  datatype Labeled = Labeled(x: Value, y: Value, labelValue: Value)

  /** Patch width and height in pixels. */
  type Dimensions = (int, int)

  /** The record `{"slide", "x", "y", "level", "dimensions"}` describing one
      patch of the dataset. */
  datatype Descriptor = Descriptor(slide: string, x: Value, y: Value, level: int, dimensions: Dimensions)

  /** The two parallel lists `list_patches` returns, with the skipped
      slides' errors that it reports as warnings. */
  datatype Dataset = Dataset(patches: seq<Descriptor>, labels: seq<Value>, warnings: seq<Error>)

  /** `PathaiaHandler(project_folder, slide_folder)` */
  datatype Handler = Handler(projectFolder: string, slideFolder: string)

  // ---------------------------------------------------------------------
  // get_patch_csv_from_patch_folder

  /** The path of the patch table of the slide whose patch folder is
      `patchFolder`. */
  function GetPatchCsv(fs: FileSystem, patchFolder: string): (r: Result<string, Error>)
    ensures !IsDir(fs, patchFolder) ==> r == Failure(SlideNotFound(patchFolder, None))
    ensures IsDir(fs, patchFolder) && !Exists(fs, Join(patchFolder, PatchesFile)) ==>
              r == Failure(PatchesNotFound(patchFolder))
    ensures r.Success? <==> IsDir(fs, patchFolder) && Exists(fs, Join(patchFolder, PatchesFile))
    ensures r.Success? ==> r.value == Join(patchFolder, PatchesFile) && Exists(fs, r.value)
  {
    if IsDir(fs, patchFolder) then
      var patchFile := Join(patchFolder, PatchesFile);
      if Exists(fs, patchFile) then Success(patchFile)
      else Failure(PatchesNotFound(patchFolder))
    else
      Failure(SlideNotFound(patchFolder, None))
  }

  // ---------------------------------------------------------------------
  // get_patch_folders_in_project

  /** No exclusion string occurs in `name` (case-sensitive; an empty
      exclusion string occurs in every name). */
  predicate Kept(name: string, exclude: seq<string>)
  {
    forall ex :: ex in exclude ==> !Contains(name, ex)
  }

  /** The listing entry `name` of `project` is walked: it is not excluded
      and names a directory. */
  predicate IsPatchFolder(fs: FileSystem, project: string, exclude: seq<string>, name: string)
  {
    Kept(name, exclude) && IsDir(fs, Join(project, name))
  }

  /** The slide folders of a project, in listing order, each with its path. */
  function GetPatchFoldersInProject(fs: FileSystem, project: string, exclude: seq<string>)
    : (r: Result<seq<SlideEntry>, Error>)
    ensures r.Failure? <==> !IsDir(fs, project)
    ensures r.Failure? ==> r.error == EmptyProject(project)
    ensures r.Success? ==> forall e :: e in r.value ==>
              && e.name in ListDir(fs, project)
              && Kept(e.name, exclude)
              && e.folder == Join(project, e.name)
              && IsDir(fs, e.folder)
    ensures r.Success? ==> forall n :: n in ListDir(fs, project) && IsPatchFolder(fs, project, exclude, n) ==>
              SlideEntry(n, Join(project, n)) in r.value
  {
    if !IsDir(fs, project) then
      Failure(EmptyProject(project))
    else
      SelectMembers(n => IsPatchFolder(fs, project, exclude, n),
                    n => SlideEntry(n, Join(project, n)),
                    ListDir(fs, project));
      Success(Select(n => IsPatchFolder(fs, project, exclude, n),
                     n => SlideEntry(n, Join(project, n)),
                     ListDir(fs, project)))
  }

  // ---------------------------------------------------------------------
  // get_slide_file

  /** The directory entry `name` is the slide file of `slide`: an `.mrxs`
      file, not hidden, whose name without its extension is `slide`. */
  predicate IsSlideFileFor(name: string, slide: string)
  {
    && EndsWith(name, SlideExtension)
    && !StartsWith(name, [HiddenMarker])
    && SplitExt(name).0 == slide
  }

  /** The position of the first slide file of `slide` in `names`. */
  function FirstSlideFile(names: seq<string>, slide: string): (r: Option<nat>)
    ensures r.Some? ==> r.value < |names| && IsSlideFileFor(names[r.value], slide)
    ensures r.Some? ==> forall j :: 0 <= j < r.value ==> !IsSlideFileFor(names[j], slide)
    ensures r.None? ==> forall j :: 0 <= j < |names| ==> !IsSlideFileFor(names[j], slide)
    decreases |names|
  {
    if |names| == 0 then None
    else if IsSlideFileFor(names[0], slide) then Some(0)
    else match FirstSlideFile(names[1..], slide)
      case None => None
      case Some(i) => Some(i + 1)
  }

  /** The path of the slide file of `slide` in `slideFolder`. */
  function GetSlideFile(fs: FileSystem, slideFolder: string, slide: string): (r: Result<string, Error>)
    ensures !IsDir(fs, slideFolder) ==> r == Failure(SlideNotFound(slideFolder, None))
    ensures IsDir(fs, slideFolder) ==>
              var names := ListDir(fs, slideFolder);
              && (r.Failure? <==> forall j :: 0 <= j < |names| ==> !IsSlideFileFor(names[j], slide))
              && (r.Failure? ==> r.error == SlideNotFound(slideFolder, Some(slide)))
    ensures r.Success? ==> (
              && IsDir(fs, slideFolder)
              && var names := ListDir(fs, slideFolder);
                 exists i :: && 0 <= i < |names|
                             && IsSlideFileFor(names[i], slide)
                             && r.value == Join(slideFolder, names[i])
                             && forall j :: 0 <= j < i ==> !IsSlideFileFor(names[j], slide))
  {
    if !IsDir(fs, slideFolder) then
      Failure(SlideNotFound(slideFolder, None))
    else
      var names := ListDir(fs, slideFolder);
      match FirstSlideFile(names, slide)
      case Some(i) => Success(Join(slideFolder, names[i]))
      case None => Failure(SlideNotFound(slideFolder, Some(slide)))
  }

  // ---------------------------------------------------------------------
  // handle_labeled_patches

  /** The `(x, y, row[column])` triple of a row. */
  function LabelRow(column: string, row: Row): Labeled
  {
    Labeled(Cell(row, XColumn), Cell(row, YColumn), Cell(row, column))
  }

  /** The patches of the table at `patchFile` at `level`, each with its
      value in the label column `column`. */
  function HandleLabeledPatches(fs: FileSystem, patchFile: string, level: int, column: string)
    : (r: Result<seq<Labeled>, Error>)
    ensures ReadCsv(fs, patchFile).None? ==> r == Failure(Unreadable(patchFile))
    ensures ReadCsv(fs, patchFile).Some? ==>
              var t := ReadCsv(fs, patchFile).value;
              && (r.Failure? <==> column !in t.columns)
              && (r.Failure? ==> r.error == UnknownColumn(column, patchFile))
    ensures r.Success? ==> (
              && ReadCsv(fs, patchFile).Some?
              && var t := ReadCsv(fs, patchFile).value;
                 && (forall it :: it in r.value ==>
                       exists row :: row in t.rows && AtLevel(level, row) &&
                                     it == Labeled(row[XColumn], row[YColumn], row[column]))
                 && (forall row :: row in t.rows && AtLevel(level, row) ==>
                       Labeled(row[XColumn], row[YColumn], row[column]) in r.value))
  {
    match ReadCsv(fs, patchFile)
    case None => Failure(Unreadable(patchFile))
    case Some(df) =>
      var levelDf := LevelView(df, level);
      if column !in levelDf.columns then
        Failure(UnknownColumn(column, patchFile))
      else
        MapFilter(row => AtLevel(level, row), row => LabelRow(column, row), df.rows);
        Success(Map(row => LabelRow(column, row), levelDf.rows))
  }

  // ---------------------------------------------------------------------
  // PathaiaHandler.list_patches

  /** The body of the `try` block for one slide: its slide file and its
      labelled patches, or the first exception raised. */
  function ProcessSlide(fs: FileSystem, slideFolder: string, e: SlideEntry, level: int, column: string)
    : (r: Result<(string, seq<Labeled>), Error>)
    ensures r.Success? ==> GetSlideFile(fs, slideFolder, e.name) == Success(r.value.0)
    ensures r.Success? ==> HandleLabeledPatches(fs, Join(e.folder, PatchesFile), level, column) == Success(r.value.1)
    ensures r.Failure? ==> Skippable(r.error) || r.error.Unreadable?
    ensures var slideFile := GetSlideFile(fs, slideFolder, e.name);
            var patchFile := GetPatchCsv(fs, e.folder);
            && (slideFile.Failure? ==> r == Failure(slideFile.error))
            && (slideFile.Success? && patchFile.Failure? ==> r == Failure(patchFile.error))
            && (slideFile.Success? && patchFile.Success? ==>
                  var items := HandleLabeledPatches(fs, patchFile.value, level, column);
                  && (items.Failure? ==> r == Failure(items.error))
                  && (items.Success? ==> r == Success((slideFile.value, items.value))))
  {
    var slidePath :- GetSlideFile(fs, slideFolder, e.name);
    var items :- ReadPatchFolder(fs, e.folder, level, column);
    Success((slidePath, items))
  }

  /** The second half of the `try` block: the patch table of a patch folder
      and its labelled patches at `level`. */
  function ReadPatchFolder(fs: FileSystem, patchFolder: string, level: int, column: string)
    : (r: Result<seq<Labeled>, Error>)
    ensures r.Success? ==> HandleLabeledPatches(fs, Join(patchFolder, PatchesFile), level, column) == r
    ensures r.Failure? ==> Skippable(r.error) || r.error.Unreadable?
    ensures GetPatchCsv(fs, patchFolder).Failure? ==> r == Failure(GetPatchCsv(fs, patchFolder).error)
    ensures GetPatchCsv(fs, patchFolder).Success? ==>
              r == HandleLabeledPatches(fs, GetPatchCsv(fs, patchFolder).value, level, column)
  {
    var patchFile :- GetPatchCsv(fs, patchFolder);
    HandleLabeledPatches(fs, patchFile, level, column)
  }

  /** The descriptors of a slide's patches. */
  function Describe(slidePath: string, items: seq<Labeled>, level: int, dim: Dimensions): seq<Descriptor>
  {
    Map((it: Labeled) => Descriptor(slidePath, it.x, it.y, level, dim), items)
  }

  /** The labels of a slide's patches. */
  function LabelsOf(items: seq<Labeled>): seq<Value>
  {
    Map((it: Labeled) => it.labelValue, items)
  }

  /** The empty dataset `list_patches` starts from. */
  const Empty: Dataset := Dataset([], [], [])

  /** What the `try` block of one slide produces: its slide path and its
      labelled patches, or the exception it raised. */
  type Outcome = Result<(string, seq<Labeled>), Error>

  /** The outcomes of the `try` blocks of the slide entries `es`, in order. */
  function Outcomes(fs: FileSystem, slideFolder: string, es: seq<SlideEntry>, level: int, column: string)
    : (r: seq<Outcome>)
    ensures |r| == |es|
    ensures forall j :: 0 <= j < |es| ==> r[j] == ProcessSlide(fs, slideFolder, es[j], level, column)
    ensures forall o :: o in r && o.Failure? ==> Skippable(o.error) || o.error.Unreadable?
  {
    Map((e: SlideEntry) => ProcessSlide(fs, slideFolder, e, level, column), es)
  }

  /** The accumulators after one slide: its patches appended on success,
      its error appended to the warnings when it is skipped, and the error
      propagated otherwise. */
  function Step(d: Dataset, res: Outcome, level: int, dim: Dimensions): (r: Result<Dataset, Error>)
    ensures r.Success? ==>
              && d.patches <= r.value.patches
              && d.labels <= r.value.labels
              && |r.value.patches| - |d.patches| == |r.value.labels| - |d.labels|
              && forall i :: |d.patches| <= i < |r.value.patches| ==>
                   r.value.patches[i].level == level && r.value.patches[i].dimensions == dim
    ensures r.Failure? ==> res == Failure(r.error) && !Skippable(r.error)
  {
    match res
    case Success((slidePath, items)) =>
      Success(Dataset(d.patches + Describe(slidePath, items, level, dim),
                      d.labels + LabelsOf(items),
                      d.warnings))
    case Failure(e) =>
      if Skippable(e) then Success(Dataset(d.patches, d.labels, d.warnings + [e]))
      else Failure(e)
  }

  /** Accumulates the outcomes `outs` in order, starting from `d`; the
      first uncaught exception ends the accumulation. */
  function AssembleFrom(d: Dataset, outs: seq<Outcome>, level: int, dim: Dimensions)
    : (r: Result<Dataset, Error>)
    ensures r.Success? ==>
              && d.patches <= r.value.patches
              && d.labels <= r.value.labels
              && |r.value.patches| - |d.patches| == |r.value.labels| - |d.labels|
    ensures r.Success? ==> forall i :: |d.patches| <= i < |r.value.patches| ==>
              r.value.patches[i].level == level && r.value.patches[i].dimensions == dim
    ensures r.Failure? ==> Failure(r.error) in outs && !Skippable(r.error)
    decreases |outs|
  {
    if |outs| == 0 then Success(d)
    else match Step(d, outs[0], level, dim)
      case Failure(e) => Failure(e)
      case Success(d') => AssembleFrom(d', outs[1..], level, dim)
  }

  /** The dataset of the slide entries `es`, processed in order. */
  function Assemble(fs: FileSystem, slideFolder: string, es: seq<SlideEntry>,
                    level: int, dim: Dimensions, column: string): (r: Result<Dataset, Error>)
    ensures r.Success? ==> |r.value.patches| == |r.value.labels|
    ensures r.Success? ==> forall p :: p in r.value.patches ==> p.level == level && p.dimensions == dim
    ensures r.Failure? ==> r.error.Unreadable?
  {
    AssembleFrom(Empty, Outcomes(fs, slideFolder, es, level, column), level, dim)
  }

  /** The inner loop of `list_patches`: appends one descriptor and one
      label per patch of a slide, keeping the two lists index-aligned. */
  method AppendPatches(patchList: seq<Descriptor>, labels: seq<Value>, slidePath: string,
                       items: seq<Labeled>, level: int, dim: Dimensions)
    returns (patchList': seq<Descriptor>, labels': seq<Value>)
    ensures patchList' == patchList + Describe(slidePath, items, level, dim)
    ensures labels' == labels + LabelsOf(items)
  {
    patchList', labels' := patchList, labels;
    var k := 0;
    while k < |items|
      invariant 0 <= k <= |items|
      invariant patchList' == patchList + Describe(slidePath, items[..k], level, dim)
      invariant labels' == labels + LabelsOf(items[..k])
    {
      patchList' := patchList' + [Descriptor(slidePath, items[k].x, items[k].y, level, dim)];
      labels' := labels' + [items[k].labelValue];
      assert items[..k + 1] == items[..k] + [items[k]];
      k := k + 1;
    }
    assert items[..k] == items;
  }

  /** `PathaiaHandler.list_patches(level, dim, label)`: walks the project
      with the default exclusions and accumulates, slide after slide, the
      descriptor and the label of every patch at `level`. */
  method ListPatches(h: Handler, fs: FileSystem, level: int, dim: Dimensions, column: string)
    returns (r: Result<Dataset, Error>)
    ensures r.Success? ==> |r.value.patches| == |r.value.labels|
    ensures r.Success? ==> forall p :: p in r.value.patches ==> p.level == level && p.dimensions == dim
    ensures r.Failure? ==> r.error.EmptyProject? || r.error.Unreadable?
    ensures !IsDir(fs, h.projectFolder) ==> r == Failure(EmptyProject(h.projectFolder))
    ensures var walk := GetPatchFoldersInProject(fs, h.projectFolder, DefaultExclude);
            walk.Success? ==> r == Assemble(fs, h.slideFolder, walk.value, level, dim, column)
  {
    var walk := GetPatchFoldersInProject(fs, h.projectFolder, DefaultExclude);
    if walk.Failure? {
      return Failure(walk.error);
    }
    var entries := walk.value;
    var patchList: seq<Descriptor> := [];
    var labels: seq<Value> := [];
    var warnings: seq<Error> := [];
    ghost var outs := Outcomes(fs, h.slideFolder, entries, level, column);
    var i := 0;
    while i < |entries|
      invariant 0 <= i <= |entries|
      invariant AssembleFrom(Dataset(patchList, labels, warnings), outs[i..], level, dim)
                == Assemble(fs, h.slideFolder, entries, level, dim, column)
    {
      var res := ProcessSlide(fs, h.slideFolder, entries[i], level, column);
      match res {
        case Success((slidePath, items)) =>
          patchList, labels := AppendPatches(patchList, labels, slidePath, items, level, dim);
        case Failure(e) =>
          if Skippable(e) {
            warnings := warnings + [e];
          } else {
            return Failure(e);
          }
      }
      assert outs[i..][0] == res;
      assert outs[i..][1..] == outs[i + 1..];
      i := i + 1;
    }
    return Success(Dataset(patchList, labels, warnings));
  }
}
