/** A worked project: `P` holds the slide folders `slideA` (with a patch
    table), `slideB` (without one) and `annotation_notes` (excluded by
    default); the slide folder `S` holds `slideA.mrxs` only. */
module Scenario {
  import opened Wrappers
  import opened Seqs
  import opened Paths
  import opened Tables
  import opened FileSystem
  import opened Management
  import opened ManagementLemmas

  const RowA0: Row := map[LevelColumn := Num(0), XColumn := Num(1), YColumn := Num(2), "tumor" := Text("yes")]
  const RowA1: Row := map[LevelColumn := Num(1), XColumn := Num(0), YColumn := Num(0), "tumor" := Text("no")]

  const TableA: Table := Frame({LevelColumn, XColumn, YColumn, "tumor"}, [RowA0, RowA1])

  const Project: FileSystem := map[
    "P" := Dir(["slideA", "slideB", "annotation_notes"]),
    "P/slideA" := Dir(["patches.csv"]),
    "P/slideA/patches.csv" := TableFile(TableA),
    "P/slideB" := Dir([]),
    "P/annotation_notes" := Dir([]),
    "S" := Dir(["slideA.mrxs"]),
    "S/slideA.mrxs" := OtherFile
  ]

  const EntryA := SlideEntry("slideA", "P/slideA")
  const EntryB := SlideEntry("slideB", "P/slideB")

  /** A string shorter than `sub` does not contain it. */
  lemma {:induction false} ShorterDoesNotContain(s: string, sub: string)
    requires |s| < |sub|
    ensures !Contains(s, sub)
    decreases |s|
  {
    if |s| > 0 {
      ShorterDoesNotContain(s[1..], sub);
    }
  }

  /** The paths the scenario joins. */
  lemma ScenarioJoins()
    ensures Join("P", "slideA") == "P/slideA"
    ensures Join("P", "slideB") == "P/slideB"
    ensures Join("P/slideA", PatchesFile) == "P/slideA/patches.csv"
    ensures Join("S", "slideA.mrxs") == "S/slideA.mrxs"
  {
    JoinRelative("P", "slideA");
    assert "P" + [Sep] + "slideA" == "P/slideA";
    JoinRelative("P", "slideB");
    assert "P" + [Sep] + "slideB" == "P/slideB";
    JoinRelative("P/slideA", PatchesFile);
    assert "P/slideA" + [Sep] + PatchesFile == "P/slideA/patches.csv";
    JoinRelative("S", "slideA.mrxs");
    assert "S" + [Sep] + "slideA.mrxs" == "S/slideA.mrxs";
  }

  /** `slideA` is walked. */
  lemma ScenarioKeptA()
    ensures IsPatchFolder(Project, "P", DefaultExclude, "slideA")
  {
    ScenarioJoins();
    ShorterDoesNotContain("slideA", "annotation");
    assert DefaultExclude == ["annotation"];
    assert Kept("slideA", DefaultExclude);
    assert "P/slideA" in Project && Project["P/slideA"].Dir?;
  }

  /** `slideB` is walked. */
  lemma ScenarioKeptB()
    ensures IsPatchFolder(Project, "P", DefaultExclude, "slideB")
  {
    ScenarioJoins();
    ShorterDoesNotContain("slideB", "annotation");
    assert DefaultExclude == ["annotation"];
    assert Kept("slideB", DefaultExclude);
    assert "P/slideB" in Project && Project["P/slideB"].Dir?;
  }

  /** `annotation_notes` is excluded by default. */
  lemma ScenarioExcluded()
    ensures !IsPatchFolder(Project, "P", DefaultExclude, "annotation_notes")
  {
    assert Contains("annotation_notes", "annotation") by {
      assert "annotation_notes"[..10] == "annotation";
    }
    assert DefaultExclude[0] == "annotation";
  }

  /** Selecting the listing of `P` with any filter that keeps `slideA` and
      `slideB` and drops `annotation_notes`. */
  lemma ScenarioSelect(p: string -> bool, f: string -> SlideEntry)
    requires p("slideA") && p("slideB") && !p("annotation_notes")
    requires f("slideA") == EntryA && f("slideB") == EntryB
    ensures Select(p, f, ["slideA", "slideB", "annotation_notes"]) == [EntryA, EntryB]
  {
    assert Select(p, f, ["annotation_notes"]) == [];
    assert Select(p, f, ["slideB", "annotation_notes"]) == [EntryB] by {
      assert ["slideB", "annotation_notes"][1..] == ["annotation_notes"];
    }
    assert ["slideA", "slideB", "annotation_notes"][1..] == ["slideB", "annotation_notes"];
  }

  /** The default walk of `P` visits `slideA` then `slideB`. */
  lemma ScenarioWalk()
    ensures GetPatchFoldersInProject(Project, "P", DefaultExclude) == Success([EntryA, EntryB])
  {
    var p := (n: string) => IsPatchFolder(Project, "P", DefaultExclude, n);
    var f := (n: string) => SlideEntry(n, Join("P", n));
    assert ListDir(Project, "P") == ["slideA", "slideB", "annotation_notes"];
    assert IsDir(Project, "P");
    ScenarioKeptA();
    ScenarioKeptB();
    ScenarioExcluded();
    ScenarioJoins();
    ScenarioSelect(p, f);
  }

  /** The patch table of `slideA` is found. */
  lemma ScenarioPatchCsvA()
    ensures GetPatchCsv(Project, "P/slideA") == Success("P/slideA/patches.csv")
  {
    ScenarioJoins();
  }

  /** The slide file of `slideA` is found. */
  lemma ScenarioSlideFileA()
    ensures GetSlideFile(Project, "S", "slideA") == Success("S/slideA.mrxs")
  {
    assert ListDir(Project, "S") == ["slideA.mrxs"];
    GetSlideFileByName(Project, "S", "slideA");
    assert "slideA" + SlideExtension == "slideA.mrxs";
    ScenarioJoins();
  }

  /** Level 0 of the table of `slideA` is its first row. */
  lemma ScenarioLevelZero()
    ensures LevelView(TableA, 0).rows == [RowA0]
  {
    var p := (r: Row) => AtLevel(0, r);
    assert AtLevel(0, RowA0) && !AtLevel(0, RowA1);
    assert [RowA0, RowA1][1..] == [RowA1];
    assert Filter(p, [RowA1]) == [];
  }

  /** The patch table of `slideA` is readable. */
  lemma ScenarioReadA()
    ensures ReadCsv(Project, "P/slideA/patches.csv") == Some(TableA)
  {
    assert "P/slideA/patches.csv" in Project;
    assert Project["P/slideA/patches.csv"] == TableFile(TableA);
  }

  /** The level-0 patch of `slideA` reads as (1, 2) labelled "yes". */
  lemma ScenarioRowA0()
    ensures LabelRow("tumor", RowA0) == Labeled(Num(1), Num(2), Text("yes"))
  {
    assert RowA0[XColumn] == Num(1);
    assert RowA0[YColumn] == Num(2);
    assert RowA0["tumor"] == Text("yes");
  }

  /** The extractor reads the one level-0 patch of `slideA`. */
  lemma ScenarioPatchesA()
    ensures HandleLabeledPatches(Project, "P/slideA/patches.csv", 0, "tumor")
            == Success([Labeled(Num(1), Num(2), Text("yes"))])
  {
    ScenarioReadA();
    ScenarioLevelZero();
    ScenarioRowA0();
    var v := LevelView(TableA, 0);
    assert "tumor" in v.columns;
    var r := HandleLabeledPatches(Project, "P/slideA/patches.csv", 0, "tumor");
    assert r == Success(Map(row => LabelRow("tumor", row), v.rows));
    assert |r.value| == 1;
    assert r.value[0] == LabelRow("tumor", RowA0);
    assert r.value == [Labeled(Num(1), Num(2), Text("yes"))];
  }

  /** `slideA` yields its one level-0 patch, labelled "yes". */
  lemma ScenarioSlideA()
    ensures ProcessSlide(Project, "S", EntryA, 0, "tumor")
            == Success(("S/slideA.mrxs", [Labeled(Num(1), Num(2), Text("yes"))]))
  {
    ScenarioSlideFileA();
    ScenarioPatchCsvA();
    ScenarioPatchesA();
  }

  /** `slideB` has no slide file in `S`, so its `try` block raises
      SlideNotFoundError for `slideB` in `S` before its patch folder is
      looked at. */
  lemma ScenarioSlideB()
    ensures ProcessSlide(Project, "S", EntryB, 0, "tumor") == Failure(SlideNotFound("S", Some("slideB")))
  {
    assert ListDir(Project, "S") == ["slideA.mrxs"];
    GetSlideFileByName(Project, "S", "slideB");
    assert "slideB" + SlideExtension != "slideA.mrxs" by {
      assert ("slideB" + SlideExtension)[5] != "slideA.mrxs"[5];
    }
  }

  /** What the `try` blocks of `slideA` and `slideB` produce. */
  const OutcomeA: Outcome := Success(("S/slideA.mrxs", [Labeled(Num(1), Num(2), Text("yes"))]))
  const OutcomeB: Outcome := Failure(SlideNotFound("S", Some("slideB")))

  const DescriptorA := Descriptor("S/slideA.mrxs", Num(1), Num(2), 0, (256, 256))

  lemma ScenarioOutcomes()
    ensures var o := Outcomes(Project, "S", [EntryA, EntryB], 0, "tumor");
            |o| == 2 && o[0] == OutcomeA && o[1] == OutcomeB
  {
    var o := Outcomes(Project, "S", [EntryA, EntryB], 0, "tumor");
    assert o[0] == ProcessSlide(Project, "S", EntryA, 0, "tumor") by {
      assert [EntryA, EntryB][0] == EntryA;
    }
    assert o[1] == ProcessSlide(Project, "S", EntryB, 0, "tumor") by {
      assert [EntryA, EntryB][1] == EntryB;
    }
    ScenarioSlideA();
    ScenarioSlideB();
  }

  /** Folding the two outcomes keeps the patch of `slideA` and turns the
      failure of `slideB` into a warning. */
  lemma ScenarioFold(outs: seq<Outcome>)
    requires |outs| == 2 && outs[0] == OutcomeA && outs[1] == OutcomeB
    ensures AssembleFrom(Empty, outs, 0, (256, 256))
            == Success(Dataset([DescriptorA], [Text("yes")], [SlideNotFound("S", Some("slideB"))]))
  {
    var items := [Labeled(Num(1), Num(2), Text("yes"))];
    assert Describe("S/slideA.mrxs", items, 0, (256, 256)) == [DescriptorA];
    assert LabelsOf(items) == [Text("yes")];
    var d := Dataset([DescriptorA], [Text("yes")], []);
    assert Empty.patches + [DescriptorA] == [DescriptorA];
    assert Empty.labels + [Text("yes")] == [Text("yes")];
    assert OutcomeA.value == ("S/slideA.mrxs", items);
    assert Step(Empty, OutcomeA, 0, (256, 256)) == Success(d);
    assert Skippable(SlideNotFound("S", Some("slideB")));
    assert OutcomeB.error == SlideNotFound("S", Some("slideB"));
    assert d.warnings + [SlideNotFound("S", Some("slideB"))] == [SlideNotFound("S", Some("slideB"))];
    var d' := Dataset([DescriptorA], [Text("yes")], [SlideNotFound("S", Some("slideB"))]);
    assert Step(d, OutcomeB, 0, (256, 256)) == Success(d');
    assert outs[1..] == [OutcomeB];
    assert AssembleFrom(d', [], 0, (256, 256)) == Success(d');
    assert AssembleFrom(d, [OutcomeB], 0, (256, 256)) == Success(d');
  }

  /** Level 0 of the project labelled by "tumor" is the single level-0 patch
      of `slideA`; `slideB` is skipped with a warning naming it and the
      slide folder, and `annotation_notes` is never visited. */
  lemma ScenarioDataset()
    ensures Assemble(Project, "S", GetPatchFoldersInProject(Project, "P", DefaultExclude).value,
                     0, (256, 256), "tumor")
            == Success(Dataset([DescriptorA], [Text("yes")], [SlideNotFound("S", Some("slideB"))]))
  {
    ScenarioWalk();
    ScenarioOutcomes();
    ScenarioFold(Outcomes(Project, "S", [EntryA, EntryB], 0, "tumor"));
  }
}
