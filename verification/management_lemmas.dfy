/** Properties of the dataset helpers that relate several calls or give an
    independent description of what a helper computes. */
module ManagementLemmas {
  import opened Wrappers
  import opened Seqs
  import opened Paths
  import opened Tables
  import opened FileSystem
  import opened Management

  // ---------------------------------------------------------------------
  // Project walker

  /** The walker yields exactly the listing entries that are not excluded
      and are directories, in listing order, each with its joined path. */
  lemma WalkInListingOrder(fs: FileSystem, project: string, exclude: seq<string>)
    returns (idx: seq<int>)
    requires IsDir(fs, project)
    ensures GetPatchFoldersInProject(fs, project, exclude).Success?
    ensures var names := ListDir(fs, project);
            var walk := GetPatchFoldersInProject(fs, project, exclude).value;
            && |idx| == |walk|
            && Increasing(idx)
            && (forall k :: 0 <= k < |idx| ==>
                  && 0 <= idx[k] < |names|
                  && walk[k] == SlideEntry(names[idx[k]], Join(project, names[idx[k]])))
            && (forall i :: 0 <= i < |names| ==>
                  (IsPatchFolder(fs, project, exclude, names[i]) <==> i in idx))
  {
    idx := SelectIsOrdered(n => IsPatchFolder(fs, project, exclude, n),
                           n => SlideEntry(n, Join(project, n)),
                           ListDir(fs, project));
  }

  /** A name is kept exactly when no exclusion string occurs at any
      position of it. */
  lemma KeptIff(name: string, exclude: seq<string>)
    ensures Kept(name, exclude) <==>
            forall ex, i :: ex in exclude ==> !OccursAt(name, ex, i)
  {
    forall ex | ex in exclude {
      ContainsIff(name, ex);
    }
  }

  /** With the default exclusions, no walked slide has "annotation" anywhere
      in its name. */
  lemma DefaultWalkSkipsAnnotations(fs: FileSystem, project: string, e: SlideEntry, i: int)
    requires IsDir(fs, project)
    requires e in GetPatchFoldersInProject(fs, project, DefaultExclude).value
    ensures !OccursAt(e.name, "annotation", i)
  {
    KeptIff(e.name, DefaultExclude);
    assert "annotation" in DefaultExclude;
  }

  // ---------------------------------------------------------------------
  // Slide-file locator

  /** For a directory entry (which holds no separator), being the slide file
      of `slide` means being named `slide + ".mrxs"`, for a non-empty slide
      name that does not start with a dot. */
  lemma SlideFileIff(name: string, slide: string)
    requires Sep !in name
    ensures IsSlideFileFor(name, slide) <==>
            name == slide + SlideExtension && |slide| > 0 && slide[0] != HiddenMarker
  {
    var n := |SlideExtension|;
    if EndsWith(name, SlideExtension) && !StartsWith(name, [HiddenMarker]) {
      SplitExtOfSuffix(name, SlideExtension);
      assert name == name[..|name| - n] + SlideExtension;
      assert name[..|name| - n][0] == name[0];
    }
    if name == slide + SlideExtension && |slide| > 0 && slide[0] != HiddenMarker {
      assert name[|name| - n..] == SlideExtension;
      assert name[0] == slide[0];
      assert !StartsWith(name, [HiddenMarker]);
      SplitExtOfSuffix(name, SlideExtension);
      assert name[..|name| - n] == slide;
    }
  }

  /** When no entry of the slide folder holds a separator, the locator
      succeeds exactly when `slide + ".mrxs"` is listed (for a usable slide
      name), and then returns that file's path. */
  lemma GetSlideFileByName(fs: FileSystem, slideFolder: string, slide: string)
    requires IsDir(fs, slideFolder)
    requires forall n :: n in ListDir(fs, slideFolder) ==> Sep !in n
    ensures GetSlideFile(fs, slideFolder, slide).Success? <==>
            slide + SlideExtension in ListDir(fs, slideFolder) && |slide| > 0 && slide[0] != HiddenMarker
    ensures GetSlideFile(fs, slideFolder, slide).Success? ==>
            GetSlideFile(fs, slideFolder, slide).value == Join(slideFolder, slide + SlideExtension)
  {
    var names := ListDir(fs, slideFolder);
    forall j | 0 <= j < |names| {
      SlideFileIff(names[j], slide);
    }
    if slide + SlideExtension in names && |slide| > 0 && slide[0] != HiddenMarker {
      var j :| 0 <= j < |names| && names[j] == slide + SlideExtension;
      assert IsSlideFileFor(names[j], slide);
    }
  }

  // ---------------------------------------------------------------------
  // Labelled-patch extractor

  /** The extractor yields one triple per row at `level`, in table order,
      and nothing for rows at other levels. */
  lemma ExtractSelectsLevelRows(fs: FileSystem, patchFile: string, level: int, column: string)
    returns (idx: seq<int>)
    requires HandleLabeledPatches(fs, patchFile, level, column).Success?
    ensures ReadCsv(fs, patchFile).Some?
    ensures var t := ReadCsv(fs, patchFile).value;
            var out := HandleLabeledPatches(fs, patchFile, level, column).value;
            && column in t.columns
            && |idx| == |out|
            && Increasing(idx)
            && (forall k :: 0 <= k < |idx| ==>
                  && 0 <= idx[k] < |t.rows|
                  && AtLevel(level, t.rows[idx[k]])
                  && out[k] == Labeled(t.rows[idx[k]][XColumn], t.rows[idx[k]][YColumn],
                                       t.rows[idx[k]][column]))
            && (forall i :: 0 <= i < |t.rows| ==> (AtLevel(level, t.rows[i]) <==> i in idx))
  {
    var t := ReadCsv(fs, patchFile).value;
    var p := (row: Row) => AtLevel(level, row);
    var f := (row: Row) => LabelRow(column, row);
    MapFilter(p, f, t.rows);
    idx := SelectIsOrdered(p, f, t.rows);
    forall k | 0 <= k < |idx|
      ensures t.rows[idx[k]] in t.rows
    {
    }
  }

  // ---------------------------------------------------------------------
  // Dataset assembler

  /** The descriptors a slide contributes: those of its patches when its
      `try` block succeeds, none otherwise. */
  function SlidePatches(o: Outcome, level: int, dim: Dimensions): seq<Descriptor>
  {
    match o
    case Success((slidePath, items)) => Describe(slidePath, items, level, dim)
    case Failure(_) => []
  }

  /** The labels a slide contributes. */
  function SlideLabels(o: Outcome): seq<Value>
  {
    match o
    case Success((_, items)) => LabelsOf(items)
    case Failure(_) => []
  }

  /** The concatenation, in order, of the slides' descriptors. */
  function AllPatches(outs: seq<Outcome>, level: int, dim: Dimensions): seq<Descriptor>
    decreases |outs|
  {
    if |outs| == 0 then []
    else SlidePatches(outs[0], level, dim) + AllPatches(outs[1..], level, dim)
  }

  /** The concatenation, in order, of the slides' labels. */
  function AllLabels(outs: seq<Outcome>): seq<Value>
    decreases |outs|
  {
    if |outs| == 0 then []
    else SlideLabels(outs[0]) + AllLabels(outs[1..])
  }

  /** The slide's `try` block raised an exception that is not caught. */
  predicate Aborts(o: Outcome)
  {
    o.Failure? && !Skippable(o.error)
  }

  /** The accumulated lists are the in-order concatenations of the slides'
      contributions, whatever the accumulators held before. */
  lemma {:induction false} AssembleFromConcatenates(d: Dataset, outs: seq<Outcome>, level: int, dim: Dimensions)
    requires AssembleFrom(d, outs, level, dim).Success?
    ensures var r := AssembleFrom(d, outs, level, dim).value;
            && r.patches == d.patches + AllPatches(outs, level, dim)
            && r.labels == d.labels + AllLabels(outs)
    decreases |outs|
  {
    if |outs| > 0 {
      var d' := Step(d, outs[0], level, dim).value;
      assert d'.patches == d.patches + SlidePatches(outs[0], level, dim);
      assert d'.labels == d.labels + SlideLabels(outs[0]);
      AssembleFromConcatenates(d', outs[1..], level, dim);
    }
  }

  /** The errors of the skipped slides, in order. */
  function SkippedErrors(outs: seq<Outcome>): seq<Error>
    decreases |outs|
  {
    if |outs| == 0 then []
    else (if outs[0].Failure? then [outs[0].error] else []) + SkippedErrors(outs[1..])
  }

  /** On success, one warning is reported per skipped slide, in walk
      order, carrying the exception that slide raised. */
  lemma {:induction false} AssembleFromWarnings(d: Dataset, outs: seq<Outcome>, level: int, dim: Dimensions)
    requires AssembleFrom(d, outs, level, dim).Success?
    ensures AssembleFrom(d, outs, level, dim).value.warnings == d.warnings + SkippedErrors(outs)
    decreases |outs|
  {
    if |outs| > 0 {
      var step := Step(d, outs[0], level, dim);
      assert step.Success?;
      var d' := step.value;
      assert AssembleFrom(d, outs, level, dim) == AssembleFrom(d', outs[1..], level, dim);
      var w := if outs[0].Failure? then [outs[0].error] else [];
      StepWarnings(d, outs[0], level, dim);
      AssembleFromWarnings(d', outs[1..], level, dim);
      assert SkippedErrors(outs) == w + SkippedErrors(outs[1..]);
    }
  }

  /** A step that does not abort adds the slide's error, if any, to the
      warnings. */
  lemma StepWarnings(d: Dataset, o: Outcome, level: int, dim: Dimensions)
    requires Step(d, o, level, dim).Success?
    ensures Step(d, o, level, dim).value.warnings == d.warnings + (if o.Failure? then [o.error] else [])
  {
    if o.Success? {
      assert d.warnings + [] == d.warnings;
    }
  }

  /** The assembled dataset is the in-order concatenation, over the walked
      slides, of the patches and labels of every slide that succeeded. */
  lemma AssembleConcatenates(fs: FileSystem, slideFolder: string, es: seq<SlideEntry>,
                             level: int, dim: Dimensions, column: string)
    requires Assemble(fs, slideFolder, es, level, dim, column).Success?
    ensures var r := Assemble(fs, slideFolder, es, level, dim, column).value;
            var outs := Outcomes(fs, slideFolder, es, level, column);
            && r.patches == AllPatches(outs, level, dim)
            && r.labels == AllLabels(outs)
  {
    AssembleFromConcatenates(Empty, Outcomes(fs, slideFolder, es, level, column), level, dim);
  }

  /** The concatenated lists have equal lengths. */
  lemma {:induction false} AllPatchesLength(outs: seq<Outcome>, level: int, dim: Dimensions)
    ensures |AllPatches(outs, level, dim)| == |AllLabels(outs)|
    decreases |outs|
  {
    if |outs| > 0 {
      AllPatchesLength(outs[1..], level, dim);
    }
  }

  /** Position `k` of the concatenated lists is patch `m` of slide `j`. */
  lemma {:induction false} AllPatchesAligned(outs: seq<Outcome>, level: int, dim: Dimensions, k: int)
    returns (j: int, m: int)
    requires 0 <= k < |AllPatches(outs, level, dim)|
    ensures 0 <= j < |outs| && outs[j].Success?
    ensures var (slidePath, items) := outs[j].value;
            && 0 <= m < |items|
            && k < |AllLabels(outs)|
            && AllPatches(outs, level, dim)[k] == Descriptor(slidePath, items[m].x, items[m].y, level, dim)
            && AllLabels(outs)[k] == items[m].labelValue
    decreases |outs|
  {
    AllPatchesLength(outs, level, dim);
    var head := SlidePatches(outs[0], level, dim);
    assert |head| == |SlideLabels(outs[0])|;
    if k < |head| {
      j, m := 0, k;
    } else {
      var j', m' := AllPatchesAligned(outs[1..], level, dim, k - |head|);
      j, m := j' + 1, m';
      assert outs[1..][j'] == outs[j];
    }
  }

  /** `labels[k]` is the label of the patch `patch_list[k]` describes: both
      come from the same patch of the same walked slide, and the descriptor
      names that slide's file. */
  lemma LabelBelongsToPatch(fs: FileSystem, slideFolder: string, es: seq<SlideEntry>,
                            level: int, dim: Dimensions, column: string, k: int)
    returns (j: int, m: int)
    requires Assemble(fs, slideFolder, es, level, dim, column).Success?
    requires 0 <= k < |Assemble(fs, slideFolder, es, level, dim, column).value.patches|
    ensures 0 <= j < |es|
    ensures ProcessSlide(fs, slideFolder, es[j], level, column).Success?
    ensures GetSlideFile(fs, slideFolder, es[j].name).Success?
    ensures var d := Assemble(fs, slideFolder, es, level, dim, column).value;
            var items := ProcessSlide(fs, slideFolder, es[j], level, column).value.1;
            && 0 <= m < |items|
            && d.patches[k] == Descriptor(GetSlideFile(fs, slideFolder, es[j].name).value,
                                          items[m].x, items[m].y, level, dim)
            && d.labels[k] == items[m].labelValue
  {
    var outs := Outcomes(fs, slideFolder, es, level, column);
    AssembleConcatenates(fs, slideFolder, es, level, dim, column);
    j, m := AllPatchesAligned(outs, level, dim, k);
    assert outs[j] == ProcessSlide(fs, slideFolder, es[j], level, column);
  }

  /** Accumulating a concatenation is accumulating its halves one after
      the other. */
  lemma {:induction false} AssembleFromAppend(d: Dataset, a: seq<Outcome>, b: seq<Outcome>,
                                             level: int, dim: Dimensions)
    ensures AssembleFrom(d, a + b, level, dim)
            == match AssembleFrom(d, a, level, dim)
               case Failure(e) => Failure(e)
               case Success(d') => AssembleFrom(d', b, level, dim)
    decreases |a|
  {
    if |a| == 0 {
      assert a + b == b;
    } else {
      assert (a + b)[0] == a[0];
      assert (a + b)[1..] == a[1..] + b;
      match Step(d, a[0], level, dim)
      case Failure(e) =>
      case Success(d') =>
        AssembleFromAppend(d', a[1..], b, level, dim);
    }
  }

  /** The warnings gathered so far have no influence on the patches, the
      labels, or the propagated error. */
  lemma {:induction false} WarningsDoNotMatter(d1: Dataset, d2: Dataset, outs: seq<Outcome>,
                                              level: int, dim: Dimensions)
    requires d1.patches == d2.patches && d1.labels == d2.labels
    ensures var r1 := AssembleFrom(d1, outs, level, dim);
            var r2 := AssembleFrom(d2, outs, level, dim);
            && r1.Success? == r2.Success?
            && (r1.Success? ==> r1.value.patches == r2.value.patches && r1.value.labels == r2.value.labels)
            && (r1.Failure? ==> r1.error == r2.error)
    decreases |outs|
  {
    if |outs| > 0 {
      var s1 := Step(d1, outs[0], level, dim);
      var s2 := Step(d2, outs[0], level, dim);
      if s1.Success? {
        WarningsDoNotMatter(s1.value, s2.value, outs[1..], level, dim);
      }
    }
  }

  /** The outcomes of a walk split the way the walk does. */
  lemma OutcomesAppend(fs: FileSystem, slideFolder: string, a: seq<SlideEntry>, b: seq<SlideEntry>,
                       level: int, column: string)
    ensures Outcomes(fs, slideFolder, a + b, level, column)
            == Outcomes(fs, slideFolder, a, level, column) + Outcomes(fs, slideFolder, b, level, column)
  {
    var whole := Outcomes(fs, slideFolder, a + b, level, column);
    var parts := Outcomes(fs, slideFolder, a, level, column) + Outcomes(fs, slideFolder, b, level, column);
    forall j | 0 <= j < |whole|
      ensures whole[j] == parts[j]
    {
      if j >= |a| {
        assert (a + b)[j] == b[j - |a|];
      }
    }
  }

  /** Accumulating a caught failure between two runs of outcomes changes
      neither the patches, nor the labels, nor whether and how the
      accumulation fails. */
  lemma SkippedOutcomeContributesNothing(a: seq<Outcome>, o: Outcome, b: seq<Outcome>,
                                         level: int, dim: Dimensions)
    requires o.Failure? && Skippable(o.error)
    ensures var with := AssembleFrom(Empty, a + [o] + b, level, dim);
            var without := AssembleFrom(Empty, a + b, level, dim);
            && with.Success? == without.Success?
            && (with.Success? ==> with.value.patches == without.value.patches
                                  && with.value.labels == without.value.labels)
            && (with.Failure? ==> with.error == without.error)
  {
    assert a + [o] + b == a + ([o] + b);
    AssembleFromAppend(Empty, a, [o] + b, level, dim);
    AssembleFromAppend(Empty, a, b, level, dim);
    var prefix := AssembleFrom(Empty, a, level, dim);
    if prefix.Success? {
      var d := prefix.value;
      assert ([o] + b)[0] == o;
      assert ([o] + b)[1..] == b;
      var d' := Dataset(d.patches, d.labels, d.warnings + [o.error]);
      assert AssembleFrom(d, [o] + b, level, dim) == AssembleFrom(d', b, level, dim);
      WarningsDoNotMatter(d', d, b, level, dim);
    }
  }

  /** A slide whose `try` block fails with one of the caught exceptions
      contributes nothing: removing it from the walk changes neither the
      patches, nor the labels, nor whether and how assembly fails. */
  lemma SkippedSlideContributesNothing(fs: FileSystem, slideFolder: string, a: seq<SlideEntry>,
                                       e: SlideEntry, b: seq<SlideEntry>,
                                       level: int, dim: Dimensions, column: string)
    requires ProcessSlide(fs, slideFolder, e, level, column).Failure?
    requires Skippable(ProcessSlide(fs, slideFolder, e, level, column).error)
    ensures var with := Assemble(fs, slideFolder, a + [e] + b, level, dim, column);
            var without := Assemble(fs, slideFolder, a + b, level, dim, column);
            && with.Success? == without.Success?
            && (with.Success? ==> with.value.patches == without.value.patches
                                  && with.value.labels == without.value.labels)
            && (with.Failure? ==> with.error == without.error)
  {
    var o := ProcessSlide(fs, slideFolder, e, level, column);
    var outsA := Outcomes(fs, slideFolder, a, level, column);
    var outsB := Outcomes(fs, slideFolder, b, level, column);
    OutcomesAppend(fs, slideFolder, a + [e], b, level, column);
    OutcomesAppend(fs, slideFolder, a, [e], level, column);
    OutcomesAppend(fs, slideFolder, a, b, level, column);
    assert Outcomes(fs, slideFolder, [e], level, column) == [o];
    assert Outcomes(fs, slideFolder, a + [e] + b, level, column) == outsA + [o] + outsB;
    SkippedOutcomeContributesNothing(outsA, o, outsB, level, dim);
  }

  /** Accumulation fails exactly when some slide raised an exception that
      is not caught. */
  lemma {:induction false} AssembleFromFailsIff(d: Dataset, outs: seq<Outcome>, level: int, dim: Dimensions)
    ensures AssembleFrom(d, outs, level, dim).Failure? <==>
            exists j :: 0 <= j < |outs| && Aborts(outs[j])
    decreases |outs|
  {
    if |outs| > 0 {
      var s := Step(d, outs[0], level, dim);
      if s.Success? {
        AssembleFromFailsIff(s.value, outs[1..], level, dim);
        if exists j :: 0 <= j < |outs| && Aborts(outs[j]) {
          var j :| 0 <= j < |outs| && Aborts(outs[j]);
          assert outs[1..][j - 1] == outs[j];
        }
      }
    }
  }

  /** When slide `j` is the first whose exception is not caught, assembly
      fails with exactly that exception. */
  lemma {:induction false} AssembleFromFailsAtFirstAbort(d: Dataset, outs: seq<Outcome>, level: int,
                                                        dim: Dimensions, j: int)
    requires 0 <= j < |outs| && Aborts(outs[j])
    requires forall i :: 0 <= i < j ==> !Aborts(outs[i])
    ensures AssembleFrom(d, outs, level, dim) == Failure(outs[j].error)
    decreases j
  {
    if j > 0 {
      var s := Step(d, outs[0], level, dim);
      assert !Aborts(outs[0]);
      forall i | 0 <= i < j - 1
        ensures !Aborts(outs[1..][i])
      {
        assert outs[1..][i] == outs[i + 1];
      }
      AssembleFromFailsAtFirstAbort(s.value, outs[1..], level, dim, j - 1);
    }
  }

  /** Assembly over a walk fails exactly when some slide's `try` block
      raised an exception that is not caught, which can only be a failure
      to read a patch table. */
  lemma AssembleFailsIff(fs: FileSystem, slideFolder: string, es: seq<SlideEntry>,
                         level: int, dim: Dimensions, column: string)
    ensures Assemble(fs, slideFolder, es, level, dim, column).Failure? <==>
            exists j :: 0 <= j < |es| && Aborts(ProcessSlide(fs, slideFolder, es[j], level, column))
    ensures forall e :: Aborts(ProcessSlide(fs, slideFolder, e, level, column)) ==>
              ProcessSlide(fs, slideFolder, e, level, column).error.Unreadable?
  {
    var outs := Outcomes(fs, slideFolder, es, level, column);
    AssembleFromFailsIff(Empty, outs, level, dim);
    if exists j :: 0 <= j < |es| && Aborts(ProcessSlide(fs, slideFolder, es[j], level, column)) {
      var j :| 0 <= j < |es| && Aborts(ProcessSlide(fs, slideFolder, es[j], level, column));
      assert Aborts(outs[j]);
    }
  }
}
