/**
 * The build function of main.go: connect to the engine, then for each Go
 * version prepare one golang container with the project mounted at /src, fork
 * one build per (GOOS, GOARCH) from it, collect every build's output
 * directory into one tree, and export that tree to the host once.
 *
 * The engine's answers that the program cannot compute (whether connecting
 * and exporting succeed) are parameters. The run is returned as a trace of
 * its calls that the engine acts on: the connect, one Exec per cell, the
 * export and the close. The handle-building calls (From, WithMountedDirectory,
 * WithWorkdir, WithEnvVariable, Directory, WithDirectory) are not trace
 * entries; they are recorded inside the container and tree values.
 */
module Pipeline {
  import opened Backend
  import opened Matrix
  import opened Outputs

  /** An error reported by the engine, as Go's error value. */
  type Error = string

  /** An entry of a run's trace: a call on the client that the engine acts on. */
  datatype Event =
    | ConnectCall
    | ExecCall(container: Container)
    | ExportCall(tree: Tree, destination: string)
    | CloseCall

  const SourceDir: string := "/src"
  const ExportDestination: string := "."

  /** The command each cell runs, writing its binary under `path`. */
  function BuildArgs(path: string): seq<string>
  {
    ["go", "build", "-o", path]
  }

  /**
   * The container shared by every cell of one version: the golang image of
   * that version with the host's working directory mounted at /src and used
   * as working directory; its chain sets no variable and runs nothing yet.
   */
  function BaseContainer(version: string): (base: Container)
    ensures Image(base) == ImageTag(version)
    ensures Env(base) == map[]
    ensures Mounts(base) == map[SourceDir := HostWorkdir]
    ensures Workdir(base) == Some(SourceDir)
    ensures Commands(base) == []
  {
    var image := From(ImageTag(version));
    var mounted := WithMountedDirectory(image, SourceDir, HostWorkdir);
    assert Image(mounted) == Image(image) && Env(mounted) == Env(image) == map[];
    assert Mounts(mounted) == Mounts(image)[SourceDir := HostWorkdir];
    assert Workdir(mounted) == None && Commands(mounted) == Commands(image) == [];
    WithWorkdir(mounted, SourceDir)
  }

  /**
   * The container a cell builds in, forked from its version's base. Its chain
   * sets exactly GOOS and GOARCH of this cell (nothing from a sibling cell
   * forked from the same base) and runs the one build command.
   */
  function CellContainer(cell: Cell): (c: Container)
    ensures Image(c) == ImageTag(cell.version)
    ensures Env(c) == map["GOOS" := cell.os, "GOARCH" := cell.arch]
    ensures Mounts(c) == map[SourceDir := HostWorkdir]
    ensures Workdir(c) == Some(SourceDir)
    ensures Commands(c) == [["go", "build", "-o", OutputPath(cell.os, cell.arch)]]
  {
    var path := OutputPath(cell.os, cell.arch);
    var withOs := WithEnvVariable(BaseContainer(cell.version), "GOOS", cell.os);
    var withArch := WithEnvVariable(withOs, "GOARCH", cell.arch);
    assert Image(withArch) == Image(withOs) == ImageTag(cell.version);
    assert Env(withArch) == Env(withOs)["GOARCH" := cell.arch];
    assert Mounts(withArch) == Mounts(withOs) == map[SourceDir := HostWorkdir];
    assert Workdir(withArch) == Workdir(withOs) == Some(SourceDir);
    assert Commands(withArch) == Commands(withOs) == [];
    Exec(withArch, BuildArgs(path))
  }

  /** What a cell adds to the output tree: its container's output directory, at its output path. */
  function CellWrite(cell: Cell): Write<Directory>
  {
    var path := OutputPath(cell.os, cell.arch);
    Write(path, ContainerDirectory(CellContainer(cell), path))
  }

  function Writes(cells: seq<Cell>): seq<Write<Directory>>
  {
    seq(|cells|, i requires 0 <= i < |cells| => CellWrite(cells[i]))
  }

  function Execs(cells: seq<Cell>): seq<Event>
  {
    seq(|cells|, i requires 0 <= i < |cells| => ExecCall(CellContainer(cells[i])))
  }

  /** The output paths of a list of cells. */
  function Paths(cells: seq<Cell>): set<string>
  {
    set c | c in cells :: OutputPath(c.os, c.arch)
  }

  /** The output paths of every (os, arch) pair of the two lists. */
  function PlatformPaths(oses: seq<string>, arches: seq<string>): set<string>
  {
    set o, a | o in oses && a in arches :: OutputPath(o, a)
  }

  /**
   * The tree exported at the end of a run over the three lists: it holds
   * exactly the output paths of the cells the loops visit.
   */
  function OutputTree(versions: seq<string>, oses: seq<string>, arches: seq<string>): (tree: Tree)
    ensures tree.Keys == Paths(Expand(versions, oses, arches))
  {
    OverlayKeys(Writes(Expand(versions, oses, arches)));
    WrittenPaths(Expand(versions, oses, arches));
    Overlay(Writes(Expand(versions, oses, arches)))
  }

  /**
   * One run of the build. If connecting fails, that error is returned and
   * nothing else happens. Otherwise one Exec call per cell is made in matrix
   * order (the engine runs the builds lazily, when the tree is exported), the
   * collected tree is exported once to ".", the export's error (or none) is
   * returned, and the deferred Close runs last.
   */
  method Build(versions: seq<string>, oses: seq<string>, arches: seq<string>,
               connectError: Option<Error>, exportError: Option<Error>)
    returns (err: Option<Error>, events: seq<Event>)
    ensures connectError.Some? ==> err == connectError && events == [ConnectCall]
    ensures connectError.None? ==> err == exportError
    ensures connectError.None? ==>
      events == [ConnectCall] + Execs(Expand(versions, oses, arches))
                + [ExportCall(OutputTree(versions, oses, arches), ExportDestination), CloseCall]
    ensures connectError.None? ==> |events| == |versions| * |oses| * |arches| + 3
    ensures forall i :: 0 <= i < |events| ==> (events[i].ExportCall? <==> connectError.None? && i == |events| - 2)
    ensures forall i :: 0 <= i < |events| ==> (events[i].CloseCall? <==> connectError.None? && i == |events| - 1)
  {
    events := [ConnectCall];
    if connectError.Some? {
      return connectError, events;
    }
    var src := HostWorkdir;
    var outputs: Tree := map[];
    ghost var done: seq<Cell> := [];
    for i := 0 to |versions|
      invariant done == Expand(versions[..i], oses, arches)
      invariant Recorded(done, outputs, events)
    {
      var version := versions[i];
      var imageTag := ImageTag(version);
      var golang := From(imageTag);
      golang := WithWorkdir(WithMountedDirectory(golang, SourceDir, src), SourceDir);
      assert golang == BaseContainer(version);
      ghost var before := Expand(versions[..i], oses, arches);
      for j := 0 to |oses|
        invariant done == before + Row(version, oses[..j], arches)
        invariant Recorded(done, outputs, events)
      {
        var goos := oses[j];
        ghost var upTo := before + Row(version, oses[..j], arches);
        for k := 0 to |arches|
          invariant done == upTo + Line(version, goos, arches[..k])
          invariant Recorded(done, outputs, events)
        {
          var goarch := arches[k];
          var path := OutputPath(goos, goarch);
          var build := WithEnvVariable(golang, "GOOS", goos);
          build := WithEnvVariable(build, "GOARCH", goarch);
          build := Exec(build, BuildArgs(path));
          ghost var cell := Cell(version, goos, goarch);
          CellStep(upTo, done, outputs, events, golang, version, goos, arches, k);
          events := events + [ExecCall(build)];
          outputs := outputs[path := ContainerDirectory(build, path)];
          done := done + [cell];
        }
        assert arches[..|arches|] == arches;
        RowStep(version, oses, arches, j);
        AppendAssoc(before, Row(version, oses[..j], arches), Line(version, goos, arches));
      }
      assert oses[..|oses|] == oses;
      ExpandStep(versions, oses, arches, i);
    }
    assert versions[..|versions|] == versions;
    assert outputs == OutputTree(versions, oses, arches);
    ExpandLength(versions, oses, arches);
    MulAssoc(|versions|, |oses|, |arches|);
    RunShape(Expand(versions, oses, arches), outputs);
    events := events + [ExportCall(outputs, ExportDestination)];
    if exportError.Some? {
      err := exportError;
    } else {
      err := None;
    }
    // the Close deferred after a successful connect runs on either return
    events := events + [CloseCall];
  }

  /** One pass of the innermost loop body keeps the loop's invariant. */
  lemma CellStep(upTo: seq<Cell>, done: seq<Cell>, outputs: Tree, events: seq<Event>,
                 golang: Container, version: string, goos: string, arches: seq<string>, k: nat)
    requires k < |arches| && golang == BaseContainer(version)
    requires done == upTo + Line(version, goos, arches[..k]) && Recorded(done, outputs, events)
    ensures var cell := Cell(version, goos, arches[k]);
      var path := OutputPath(goos, arches[k]);
      var build := Exec(WithEnvVariable(WithEnvVariable(golang, "GOOS", goos), "GOARCH", arches[k]), BuildArgs(path));
      && done + [cell] == upTo + Line(version, goos, arches[..k + 1])
      && Recorded(done + [cell], outputs[path := ContainerDirectory(build, path)], events + [ExecCall(build)])
  {
    var cell := Cell(version, goos, arches[k]);
    var path := OutputPath(goos, arches[k]);
    var build := Exec(WithEnvVariable(WithEnvVariable(golang, "GOOS", goos), "GOARCH", arches[k]), BuildArgs(path));
    CellChain(golang, cell);
    RecordedStep(done, outputs, events, cell, build, path);
    LineStep(version, goos, arches, k);
    AppendAssoc(upTo, Line(version, goos, arches[..k]), [cell]);
  }

  lemma AppendAssoc<T>(a: seq<T>, b: seq<T>, c: seq<T>)
    ensures (a + b) + c == a + (b + c)
  {
  }

  /** In a run that connected, the export is the one call before last and the close the last one. */
  lemma RunShape(cells: seq<Cell>, tree: Tree)
    ensures var events := [ConnectCall] + Execs(cells) + [ExportCall(tree, ExportDestination), CloseCall];
      && |events| == |cells| + 3
      && (forall i :: 0 <= i < |events| ==> (events[i].ExportCall? <==> i == |events| - 2))
      && (forall i :: 0 <= i < |events| ==> (events[i].CloseCall? <==> i == |events| - 1))
  {
  }

  /** The chain the inner loop applies to its version's base container is that cell's container. */
  lemma CellChain(golang: Container, cell: Cell)
    requires golang == BaseContainer(cell.version)
    ensures Exec(WithEnvVariable(WithEnvVariable(golang, "GOOS", cell.os), "GOARCH", cell.arch),
                 BuildArgs(OutputPath(cell.os, cell.arch))) == CellContainer(cell)
  {
  }

  /** The run so far has built the cells `done`: the tree and the calls record exactly them. */
  ghost predicate Recorded(done: seq<Cell>, outputs: Tree, events: seq<Event>)
  {
    outputs == Overlay(Writes(done)) && events == [ConnectCall] + Execs(done)
  }

  lemma RecordedStep(done: seq<Cell>, outputs: Tree, events: seq<Event>, cell: Cell, build: Container, path: string)
    requires Recorded(done, outputs, events)
    requires build == CellContainer(cell) && path == OutputPath(cell.os, cell.arch)
    ensures Recorded(done + [cell], outputs[path := ContainerDirectory(build, path)], events + [ExecCall(build)])
  {
    WritesSnoc(done, cell);
    ExecsSnoc(done, cell);
  }

  lemma WritesSnoc(cells: seq<Cell>, cell: Cell)
    ensures Overlay(Writes(cells + [cell])) == Overlay(Writes(cells))[CellWrite(cell).path := CellWrite(cell).dir]
  {
    assert Writes(cells + [cell]) == Writes(cells) + [CellWrite(cell)];
    assert (Writes(cells) + [CellWrite(cell)])[..|cells|] == Writes(cells);
  }

  lemma ExecsSnoc(cells: seq<Cell>, cell: Cell)
    ensures Execs(cells + [cell]) == Execs(cells) + [ExecCall(CellContainer(cell))]
  {
  }

  lemma WritesAppend(xs: seq<Cell>, ys: seq<Cell>)
    ensures Writes(xs + ys) == Writes(xs) + Writes(ys)
  {
  }

  /** The paths written by a list of cells are the output paths of its cells. */
  lemma WrittenPaths(cells: seq<Cell>)
    ensures (set w | w in Writes(cells) :: w.path) == Paths(cells)
  {
    forall w | w in Writes(cells) ensures exists c :: c in cells && w.path == OutputPath(c.os, c.arch) {
      var i :| 0 <= i < |cells| && Writes(cells)[i] == w;
      assert cells[i] in cells;
    }
    forall c | c in cells ensures exists w :: w in Writes(cells) && w.path == OutputPath(c.os, c.arch) {
      var i :| 0 <= i < |cells| && cells[i] == c;
      assert Writes(cells)[i] in Writes(cells);
    }
  }

  /** After the loops the tree has exactly one entry per (os, arch) pair, whichever the versions. */
  lemma OutputTreeKeys(versions: seq<string>, oses: seq<string>, arches: seq<string>)
    requires versions != []
    ensures OutputTree(versions, oses, arches).Keys == PlatformPaths(oses, arches)
  {
    var e := Expand(versions, oses, arches);
    var tree := OutputTree(versions, oses, arches);
    var last := versions[|versions| - 1];
    var pairs := PlatformPaths(oses, arches);
    forall p | p in tree ensures p in pairs {
      var c :| c in e && p == OutputPath(c.os, c.arch);
      ExpandMembers(versions, oses, arches, c);
    }
    forall o, a | o in oses && a in arches ensures OutputPath(o, a) in tree {
      ExpandMembers(versions, oses, arches, Cell(last, o, a));
    }
  }

  /**
   * The entry at an (os, arch) pair's path is the output of the LAST Go
   * version's cell for that pair: the path does not name the version, so each
   * later version replaces the earlier one.
   */
  lemma {:induction false} LastVersionWins(versions: seq<string>, oses: seq<string>, arches: seq<string>, os: string, arch: string)
    requires versions != [] && SlashFree(oses)
    requires os in oses && arch in arches
    ensures OutputPath(os, arch) in OutputTree(versions, oses, arches)
    ensures OutputTree(versions, oses, arches)[OutputPath(os, arch)]
      == ContainerDirectory(CellContainer(Cell(versions[|versions| - 1], os, arch)), OutputPath(os, arch))
  {
    var k := |versions|;
    var last := versions[k - 1];
    var row := Row(last, oses, arches);
    var early := Writes(Expand(versions[..k - 1], oses, arches));
    var w := Writes(row);
    assert Expand(versions, oses, arches) == Expand(versions[..k - 1], oses, arches) + row;
    WritesAppend(Expand(versions[..k - 1], oses, arches), row);
    OverlayAppend(early, w);
    assert OutputTree(versions, oses, arches) == Overlay(early) + Overlay(w);
    RowEntry(last, oses, arches, os, arch);
  }

  /** Within one version's row, the entry at a pair's path is that pair's cell output. */
  lemma RowEntry(version: string, oses: seq<string>, arches: seq<string>, os: string, arch: string)
    requires SlashFree(oses)
    requires os in oses && arch in arches
    ensures OutputPath(os, arch) in Overlay(Writes(Row(version, oses, arches)))
    ensures Overlay(Writes(Row(version, oses, arches)))[OutputPath(os, arch)]
      == ContainerDirectory(CellContainer(Cell(version, os, arch)), OutputPath(os, arch))
  {
    var row := Row(version, oses, arches);
    var w := Writes(row);
    var p := OutputPath(os, arch);
    OverlayKeys(w);
    WrittenPaths(row);
    RowMembers(version, oses, arches, Cell(version, os, arch));
    assert p in Overlay(w);
    OverlayFrom(w, p);
    var i :| 0 <= i < |w| && w[i] == Write(p, Overlay(w)[p]);
    var c := row[i];
    RowMembers(version, oses, arches, c);
    OutputPathInjective(c.os, c.arch, os, arch);
    assert c == Cell(version, os, arch);
  }

  lemma PathsSnoc(cells: seq<Cell>, last: Cell)
    ensures Paths(cells + [last]) == Paths(cells) + {OutputPath(last.os, last.arch)}
  {
  }

  /** Distinct cells of one version have distinct output paths. */
  lemma {:induction false} DistinctPaths(version: string, cells: seq<Cell>)
    requires Distinct(cells)
    requires forall c :: c in cells ==> c.version == version && NoSlash(c.os)
    ensures |Paths(cells)| == |cells|
  {
    if cells != [] {
      var init := cells[..|cells| - 1];
      var last := cells[|cells| - 1];
      assert cells == init + [last];
      assert Distinct(init) by {
        forall i, j | 0 <= i < j < |init| ensures init[i] != init[j] {
          assert init[i] == cells[i] && init[j] == cells[j];
        }
      }
      DistinctPaths(version, init);
      var p := OutputPath(last.os, last.arch);
      forall c | c in init ensures OutputPath(c.os, c.arch) != p {
        var i :| 0 <= i < |init| && init[i] == c;
        OutputPathInjective(c.os, c.arch, last.os, last.arch);
        assert cells[i] == c && cells[|cells| - 1] == last;
      }
      PathsSnoc(init, last);
    }
  }

  /** With no repeated os or arch, the exported tree has exactly |oses| * |arches| entries. */
  lemma OutputTreeSize(versions: seq<string>, oses: seq<string>, arches: seq<string>)
    requires versions != [] && SlashFree(oses)
    requires Distinct(oses) && Distinct(arches)
    ensures |OutputTree(versions, oses, arches)| == |oses| * |arches|
  {
    var last := versions[|versions| - 1];
    var row := Row(last, oses, arches);
    OutputTreeKeys(versions, oses, arches);
    RowLength(last, oses, arches);
    RowDistinct(last, oses, arches);
    forall c | c in row ensures c.version == last && NoSlash(c.os) {
      RowMembers(last, oses, arches, c);
    }
    DistinctPaths(last, row);
    var pairs := PlatformPaths(oses, arches);
    var rowPaths := Paths(row);
    forall p | p in pairs ensures p in rowPaths {
      var o, a :| o in oses && a in arches && p == OutputPath(o, a);
      RowMembers(last, oses, arches, Cell(last, o, a));
    }
    forall p | p in rowPaths ensures p in pairs {
      var c :| c in row && p == OutputPath(c.os, c.arch);
      RowMembers(last, oses, arches, c);
    }
    assert OutputTree(versions, oses, arches).Keys == rowPaths;
  }

  lemma DefaultLine(version: string, os: string)
    ensures Line(version, os, DefaultArches) == [Cell(version, os, "amd64"), Cell(version, os, "arm64")]
  {
    var first: seq<string> := ["amd64"];
    assert DefaultArches[..1] == first && first[..0] == [];
    assert Line(version, os, first) == Line(version, os, []) + [Cell(version, os, "amd64")];
    assert Line(version, os, DefaultArches) == Line(version, os, first) + [Cell(version, os, "arm64")];
  }

  lemma DefaultRow(version: string)
    ensures Row(version, DefaultOses, DefaultArches) == [
      Cell(version, "linux", "amd64"), Cell(version, "linux", "arm64"),
      Cell(version, "darwin", "amd64"), Cell(version, "darwin", "arm64")]
  {
    DefaultLine(version, "linux");
    DefaultLine(version, "darwin");
    var first: seq<string> := ["linux"];
    assert DefaultOses[..1] == first && first[..0] == [];
    assert Row(version, first, DefaultArches) == Row(version, [], DefaultArches) + Line(version, "linux", DefaultArches);
    assert Row(version, DefaultOses, DefaultArches) == Row(version, first, DefaultArches) + Line(version, "darwin", DefaultArches);
  }

  /** The lists main.go hard-codes give eight cells, version-major. */
  lemma DefaultCells()
    ensures Expand(DefaultVersions, DefaultOses, DefaultArches) == [
      Cell("1.18", "linux", "amd64"), Cell("1.18", "linux", "arm64"),
      Cell("1.18", "darwin", "amd64"), Cell("1.18", "darwin", "arm64"),
      Cell("1.19.2", "linux", "amd64"), Cell("1.19.2", "linux", "arm64"),
      Cell("1.19.2", "darwin", "amd64"), Cell("1.19.2", "darwin", "arm64")]
  {
    DefaultRow("1.18");
    DefaultRow("1.19.2");
    var first: seq<string> := ["1.18"];
    assert DefaultVersions[..1] == first && first[..0] == [];
    assert Expand(first, DefaultOses, DefaultArches) == Expand([], DefaultOses, DefaultArches) + Row("1.18", DefaultOses, DefaultArches);
    assert Expand(DefaultVersions, DefaultOses, DefaultArches)
      == Expand(first, DefaultOses, DefaultArches) + Row("1.19.2", DefaultOses, DefaultArches);
  }

  lemma DefaultListsWellFormed()
    ensures SlashFree(DefaultOses) && SlashFree(DefaultArches)
    ensures Distinct(DefaultOses) && Distinct(DefaultArches)
  {
  }

  /** The four output paths of the hard-coded lists, spelled out. */
  lemma DefaultPaths()
    ensures OutputPath("linux", "amd64") == "build/linux/amd64/"
    ensures OutputPath("linux", "arm64") == "build/linux/arm64/"
    ensures OutputPath("darwin", "amd64") == "build/darwin/amd64/"
    ensures OutputPath("darwin", "arm64") == "build/darwin/arm64/"
  {
  }

  /** The (os, arch) paths of two oses and two arches. */
  lemma PairPaths(o1: string, o2: string, a1: string, a2: string)
    ensures PlatformPaths([o1, o2], [a1, a2])
      == {OutputPath(o1, a1), OutputPath(o1, a2), OutputPath(o2, a1), OutputPath(o2, a2)}
  {
  }

  lemma DefaultTreePairs()
    ensures OutputTree(DefaultVersions, DefaultOses, DefaultArches).Keys
      == {OutputPath("linux", "amd64"), OutputPath("linux", "arm64"), OutputPath("darwin", "amd64"), OutputPath("darwin", "arm64")}
  {
    OutputTreeKeys(DefaultVersions, DefaultOses, DefaultArches);
    PairPaths("linux", "darwin", "amd64", "arm64");
  }

  /** With the hard-coded lists the exported tree has these four paths. */
  lemma DefaultTreeKeys()
    ensures OutputTree(DefaultVersions, DefaultOses, DefaultArches).Keys
      == {"build/linux/amd64/", "build/linux/arm64/", "build/darwin/amd64/", "build/darwin/arm64/"}
  {
    DefaultTreePairs();
    DefaultPaths();
  }

  /** With the hard-coded lists the exported tree has four entries. */
  lemma DefaultTreeSize()
    ensures |OutputTree(DefaultVersions, DefaultOses, DefaultArches)| == 4
  {
    DefaultListsWellFormed();
    OutputTreeSize(DefaultVersions, DefaultOses, DefaultArches);
  }

  /** With the hard-coded lists every path of the exported tree holds the output of Go 1.19.2. */
  lemma DefaultTreeLastVersion(os: string, arch: string)
    requires os in DefaultOses && arch in DefaultArches
    ensures OutputPath(os, arch) in OutputTree(DefaultVersions, DefaultOses, DefaultArches)
    ensures OutputTree(DefaultVersions, DefaultOses, DefaultArches)[OutputPath(os, arch)]
      == ContainerDirectory(CellContainer(Cell("1.19.2", os, arch)), OutputPath(os, arch))
  {
    DefaultListsWellFormed();
    LastVersionWins(DefaultVersions, DefaultOses, DefaultArches, os, arch);
  }
}
