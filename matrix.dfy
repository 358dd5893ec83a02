/**
 * The build matrix of main.go: the cells (Go version, GOOS, GOARCH) that the
 * three nested loops visit, in their order, and the two strings each cell
 * derives, the image tag and the output path.
 */
module Matrix {

  /** One build cell: a Go toolchain version and a target platform. */
  datatype Cell = Cell(version: string, os: string, arch: string)

  /** The lists hard-coded in main.go. */
  const DefaultOses: seq<string> := ["linux", "darwin"]
  const DefaultArches: seq<string> := ["amd64", "arm64"]
  const DefaultVersions: seq<string> := ["1.18", "1.19.2"]

  const TagPrefix: string := "golang:"

  /** The image a version builds in: "golang:" followed by the version. */
  function ImageTag(version: string): (tag: string)
    ensures |tag| == |TagPrefix| + |version|
    ensures tag[..|TagPrefix|] == TagPrefix && tag[|TagPrefix|..] == version
  {
    TagPrefix + version
  }

  /** Distinct versions are built in distinct images. */
  lemma ImageTagInjective(v1: string, v2: string)
    ensures ImageTag(v1) == ImageTag(v2) <==> v1 == v2
  {
  }

  /** The directory a cell writes its binaries to: build/<os>/<arch>/. */
  function OutputPath(os: string, arch: string): string
  {
    "build/" + os + "/" + arch + "/"
  }

  /**
   * An output path reads "build/", then the os, a slash, the arch and a
   * closing slash: given the length of the os, both names can be read back
   * from it (without that, see OutputPathInjective and OutputPathCollision).
   */
  lemma OutputPathParts(os: string, arch: string)
    ensures var path := OutputPath(os, arch);
      && |path| == 6 + |os| + 1 + |arch| + 1
      && path[..6] == "build/" && path[6..6 + |os|] == os && path[6 + |os|] == '/'
      && path[7 + |os|..|path| - 1] == arch && path[|path| - 1] == '/'
  {
  }

  predicate NoSlash(s: string)
  {
    forall i :: 0 <= i < |s| ==> s[i] != '/'
  }

  /** No name in the list contains a slash. */
  predicate SlashFree(names: seq<string>)
  {
    forall s :: s in names ==> NoSlash(s)
  }

  /** In a + "/" + x with no slash in a, the first slash sits at index |a|. */
  lemma SlashAt(a: string, x: string)
    requires NoSlash(a)
    ensures (a + "/" + x)[|a|] == '/'
    ensures forall i :: 0 <= i < |a| ==> (a + "/" + x)[i] != '/'
  {
  }

  /** If a + "/" is a prefix of b + "/" + ..., and neither a nor b holds a slash, then a == b. */
  lemma {:induction false} SlashTerminatedPrefix(a: string, b: string, x: string, y: string)
    requires NoSlash(a) && NoSlash(b)
    requires a + "/" + x == b + "/" + y
    ensures a == b && x == y
  {
    var s := a + "/" + x;
    if |a| != |b| {
      SlashAt(a, x);
      SlashAt(b, y);
      assert false;
    }
    assert a == s[..|a|] == b;
    assert x == s[|a| + 1..] == y;
  }

  /**
   * Output paths are distinct for distinct (os, arch) pairs, as long as the
   * os names contain no slash (the arch names may).
   */
  lemma OutputPathInjective(os1: string, arch1: string, os2: string, arch2: string)
    requires NoSlash(os1) && NoSlash(os2)
    ensures OutputPath(os1, arch1) == OutputPath(os2, arch2) <==> os1 == os2 && arch1 == arch2
  {
    if OutputPath(os1, arch1) == OutputPath(os2, arch2) {
      var p := OutputPath(os1, arch1);
      assert p[6..] == os1 + "/" + (arch1 + "/");
      assert p[6..] == os2 + "/" + (arch2 + "/");
      SlashTerminatedPrefix(os1, os2, arch1 + "/", arch2 + "/");
      assert arch1 == (arch1 + "/")[..|arch1|];
      assert arch2 == (arch2 + "/")[..|arch2|];
    }
  }

  /** Without the no-slash condition two different pairs can share a path. */
  lemma OutputPathCollision()
    ensures OutputPath("a/b", "c") == OutputPath("a", "b/c")
  {
  }

  /** The cells of the innermost loop: one version, one os, every arch in order. */
  function Line(version: string, os: string, arches: seq<string>): seq<Cell>
  {
    if arches == [] then []
    else Line(version, os, arches[..|arches| - 1]) + [Cell(version, os, arches[|arches| - 1])]
  }

  /** The cells of one version: every os in order, and for each the line of arches. */
  function Row(version: string, oses: seq<string>, arches: seq<string>): seq<Cell>
  {
    if oses == [] then []
    else Row(version, oses[..|oses| - 1], arches) + Line(version, oses[|oses| - 1], arches)
  }

  /** Every cell the build visits, version-major, then os, then arch. */
  function Expand(versions: seq<string>, oses: seq<string>, arches: seq<string>): seq<Cell>
  {
    if versions == [] then []
    else Expand(versions[..|versions| - 1], oses, arches) + Row(versions[|versions| - 1], oses, arches)
  }

  /** One more arch extends a line by one cell; the inner loop's step. */
  lemma LineStep(version: string, os: string, arches: seq<string>, k: nat)
    requires k < |arches|
    ensures Line(version, os, arches[..k + 1]) == Line(version, os, arches[..k]) + [Cell(version, os, arches[k])]
  {
    assert arches[..k + 1][..k] == arches[..k];
  }

  /** One more os extends a row by that os's line; the middle loop's step. */
  lemma RowStep(version: string, oses: seq<string>, arches: seq<string>, j: nat)
    requires j < |oses|
    ensures Row(version, oses[..j + 1], arches) == Row(version, oses[..j], arches) + Line(version, oses[j], arches)
  {
    assert oses[..j + 1][..j] == oses[..j];
  }

  /** One more version extends the matrix by that version's row; the outer loop's step. */
  lemma ExpandStep(versions: seq<string>, oses: seq<string>, arches: seq<string>, i: nat)
    requires i < |versions|
    ensures Expand(versions[..i + 1], oses, arches) == Expand(versions[..i], oses, arches) + Row(versions[i], oses, arches)
  {
    assert versions[..i + 1][..i] == versions[..i];
  }

  lemma {:induction false} LineIndex(version: string, os: string, arches: seq<string>)
    ensures |Line(version, os, arches)| == |arches|
    ensures forall c :: 0 <= c < |arches| ==> Line(version, os, arches)[c] == Cell(version, os, arches[c])
  {
    if arches != [] {
      LineIndex(version, os, arches[..|arches| - 1]);
    }
  }

  /** a * L + r lies inside block a of a sequence of q blocks of length L. */
  lemma BlockBound(a: nat, q: nat, L: nat, r: nat)
    requires a < q && r < L
    ensures a * L + r < q * L
  {
    assert (a + 1) * L <= q * L;
    assert (a + 1) * L == a * L + L;
  }

  lemma MulPred(k: nat, l: nat)
    requires k > 0
    ensures (k - 1) * l + l == k * l
  {
  }

  lemma {:induction false} RowLength(version: string, oses: seq<string>, arches: seq<string>)
    ensures |Row(version, oses, arches)| == |oses| * |arches|
  {
    if oses != [] {
      var m, n := |oses|, |arches|;
      RowLength(version, oses[..m - 1], arches);
      LineIndex(version, oses[m - 1], arches);
      MulPred(m, n);
    }
  }

  lemma {:induction false} RowAt(version: string, oses: seq<string>, arches: seq<string>, b: nat, c: nat)
    requires b < |oses| && c < |arches|
    ensures b * |arches| + c < |Row(version, oses, arches)|
    ensures Row(version, oses, arches)[b * |arches| + c] == Cell(version, oses[b], arches[c])
  {
    var m, n := |oses|, |arches|;
    var init := oses[..m - 1];
    var i := b * n + c;
    RowLength(version, init, arches);
    LineIndex(version, oses[m - 1], arches);
    RowLength(version, oses, arches);
    BlockBound(b, m, n, c);
    if b < m - 1 {
      RowAt(version, init, arches, b, c);
      BlockBound(b, m - 1, n, c);
      assert init[b] == oses[b];
    } else {
      assert i == (m - 1) * n + c;
    }
  }

  lemma MulAssoc(k: nat, m: nat, n: nat)
    ensures k * (m * n) == k * m * n
  {
  }

  lemma {:induction false} ExpandLength(versions: seq<string>, oses: seq<string>, arches: seq<string>)
    ensures |Expand(versions, oses, arches)| == |versions| * (|oses| * |arches|)
  {
    if versions != [] {
      var k, l := |versions|, |oses| * |arches|;
      ExpandLength(versions[..k - 1], oses, arches);
      RowLength(versions[k - 1], oses, arches);
      MulPred(k, l);
    }
  }

  lemma {:induction false} ExpandAt(versions: seq<string>, oses: seq<string>, arches: seq<string>, a: nat, r: nat)
    requires a < |versions| && r < |oses| * |arches|
    ensures a * (|oses| * |arches|) + r < |Expand(versions, oses, arches)|
    ensures r < |Row(versions[a], oses, arches)|
    ensures Expand(versions, oses, arches)[a * (|oses| * |arches|) + r] == Row(versions[a], oses, arches)[r]
  {
    var k, l := |versions|, |oses| * |arches|;
    var init := versions[..k - 1];
    ExpandLength(init, oses, arches);
    ExpandLength(versions, oses, arches);
    RowLength(versions[k - 1], oses, arches);
    RowLength(versions[a], oses, arches);
    BlockBound(a, k, l, r);
    if a < k - 1 {
      ExpandAt(init, oses, arches, a, r);
      BlockBound(a, k - 1, l, r);
      assert init[a] == versions[a];
    } else {
      assert a * l + r == (k - 1) * l + r;
    }
  }

  lemma {:induction false} ExpandCell(versions: seq<string>, oses: seq<string>, arches: seq<string>, a: nat, b: nat, c: nat)
    requires a < |versions| && b < |oses| && c < |arches|
    ensures a * (|oses| * |arches|) + b * |arches| + c < |Expand(versions, oses, arches)|
    ensures Expand(versions, oses, arches)[a * (|oses| * |arches|) + b * |arches| + c] == Cell(versions[a], oses[b], arches[c])
  {
    RowAt(versions[a], oses, arches, b, c);
    RowLength(versions[a], oses, arches);
    ExpandAt(versions, oses, arches, a, b * |arches| + c);
  }

  /**
   * The loops visit exactly |versions| * |oses| * |arches| cells, and the cell
   * at position a * (|oses| * |arches|) + b * |arches| + c is
   * (versions[a], oses[b], arches[c]): version-major, os second, arch minor,
   * none skipped.
   */
  lemma {:induction false} ExpandIndex(versions: seq<string>, oses: seq<string>, arches: seq<string>)
    ensures |Expand(versions, oses, arches)| == |versions| * |oses| * |arches|
    ensures forall a, b, c :: 0 <= a < |versions| && 0 <= b < |oses| && 0 <= c < |arches| ==>
      var i := a * (|oses| * |arches|) + b * |arches| + c;
      i < |Expand(versions, oses, arches)| && Expand(versions, oses, arches)[i] == Cell(versions[a], oses[b], arches[c])
  {
    ExpandLength(versions, oses, arches);
    MulAssoc(|versions|, |oses|, |arches|);
    forall a, b, c | 0 <= a < |versions| && 0 <= b < |oses| && 0 <= c < |arches| {
      ExpandCell(versions, oses, arches, a, b, c);
    }
  }

  lemma {:induction false} LineMembers(version: string, os: string, arches: seq<string>, cell: Cell)
    ensures cell in Line(version, os, arches) <==> cell.version == version && cell.os == os && cell.arch in arches
  {
    if arches != [] {
      LineMembers(version, os, arches[..|arches| - 1], cell);
      assert arches == arches[..|arches| - 1] + [arches[|arches| - 1]];
    }
  }

  lemma {:induction false} RowMembers(version: string, oses: seq<string>, arches: seq<string>, cell: Cell)
    ensures cell in Row(version, oses, arches) <==> cell.version == version && cell.os in oses && cell.arch in arches
  {
    if oses != [] {
      RowMembers(version, oses[..|oses| - 1], arches, cell);
      LineMembers(version, oses[|oses| - 1], arches, cell);
      assert oses == oses[..|oses| - 1] + [oses[|oses| - 1]];
    }
  }

  /** A cell is visited exactly when its version, os and arch are all in their lists. */
  lemma {:induction false} ExpandMembers(versions: seq<string>, oses: seq<string>, arches: seq<string>, cell: Cell)
    ensures cell in Expand(versions, oses, arches) <==> cell.version in versions && cell.os in oses && cell.arch in arches
  {
    if versions != [] {
      ExpandMembers(versions[..|versions| - 1], oses, arches, cell);
      RowMembers(versions[|versions| - 1], oses, arches, cell);
      assert versions == versions[..|versions| - 1] + [versions[|versions| - 1]];
    }
  }

  predicate Distinct<T(==)>(s: seq<T>)
  {
    forall i, j :: 0 <= i < j < |s| ==> s[i] != s[j]
  }

  lemma DistinctConcat<T>(xs: seq<T>, ys: seq<T>)
    requires Distinct(xs) && Distinct(ys)
    requires forall x :: x in xs ==> x !in ys
    ensures Distinct(xs + ys)
  {
    var s := xs + ys;
    forall i, j | 0 <= i < j < |s| ensures s[i] != s[j] {
      if i < |xs| && |xs| <= j {
        assert s[i] in xs && s[j] == ys[j - |xs|];
      }
    }
  }

  lemma {:induction false} LineDistinct(version: string, os: string, arches: seq<string>)
    requires Distinct(arches)
    ensures Distinct(Line(version, os, arches))
  {
    if arches != [] {
      var init := arches[..|arches| - 1];
      var last := arches[|arches| - 1];
      LineDistinct(version, os, init);
      forall x | x in Line(version, os, init) ensures x !in [Cell(version, os, last)] {
        LineMembers(version, os, init, x);
      }
      DistinctConcat(Line(version, os, init), [Cell(version, os, last)]);
    }
  }

  lemma {:induction false} RowDistinct(version: string, oses: seq<string>, arches: seq<string>)
    requires Distinct(oses) && Distinct(arches)
    ensures Distinct(Row(version, oses, arches))
  {
    if oses != [] {
      var init := oses[..|oses| - 1];
      var last := oses[|oses| - 1];
      RowDistinct(version, init, arches);
      LineDistinct(version, last, arches);
      forall x | x in Row(version, init, arches) ensures x !in Line(version, last, arches) {
        RowMembers(version, init, arches, x);
        LineMembers(version, last, arches, x);
      }
      DistinctConcat(Row(version, init, arches), Line(version, last, arches));
    }
  }

  /** When no list repeats a value, no cell is visited twice. */
  lemma {:induction false} ExpandDistinct(versions: seq<string>, oses: seq<string>, arches: seq<string>)
    requires Distinct(versions) && Distinct(oses) && Distinct(arches)
    ensures Distinct(Expand(versions, oses, arches))
  {
    if versions != [] {
      var init := versions[..|versions| - 1];
      var last := versions[|versions| - 1];
      ExpandDistinct(init, oses, arches);
      RowDistinct(last, oses, arches);
      forall x | x in Expand(init, oses, arches) ensures x !in Row(last, oses, arches) {
        ExpandMembers(init, oses, arches, x);
        RowMembers(last, oses, arches, x);
      }
      DistinctConcat(Expand(init, oses, arches), Row(last, oses, arches));
    }
  }
}
