# Cross-platform Go build matrix on Dagger, modelled in Dafny

The program builds a Go project for every combination of Go toolchain version,
target OS and target architecture. It does this inside containers run by the
Dagger engine. `build` in `main.go` connects a Dagger client, mounts the host's
working directory at `/src` in one `golang:<version>` container per version, and
from that container forks one build per (GOOS, GOARCH) pair. Each build runs
`go build -o build/<os>/<arch>/`. The build collects each output directory into
a single directory tree and exports that tree to `.` on the host.

The model has four modules:

- `Backend` (backend.dfy): the Dagger client's handles as immutable values. A
  container handle is the chain of calls that built it (`From`,
  `WithMountedDirectory`, `WithWorkdir`, `WithEnvVariable`, `Exec`). A
  directory handle is either the host's working directory or a path inside a
  container. Observation functions (`Image`, `Env`, `Mounts`, `Workdir`,
  `Commands`) read what a chain configures. A later `WithEnvVariable` of the
  same name replaces the earlier value.
- `Matrix` (matrix.dfy): the build cells, the image tag `golang:<version>`, and
  the output path `build/<os>/<arch>/`. It also holds the cell order produced
  by the three nested loops (`Line` for the arch loop, `Row` for the os loop,
  `Expand` for the version loop).
- `Outputs` (outputs.dfy): the output tree as a map from path to the directory
  handle attached there, built by a sequence of `WithDirectory` writes. A later
  write to the same path takes the place of the earlier one in the map. The
  merging of directory contents is not modelled (see "Left out").
- `Pipeline` (pipeline.dfy): `Build`, the imperative model of `build` with its
  three nested loops. The three lists are parameters. The engine's answers to
  connect and export are parameters too. The run is returned as a trace of the
  calls the engine acts on: `ConnectCall`, one `ExecCall` per cell, `ExportCall`
  and `CloseCall`. The calls that only build handles (`From`,
  `WithMountedDirectory`, `WithWorkdir`, `WithEnvVariable`, `Directory`,
  `WithDirectory`, `Host().Workdir()`) are not trace entries; they are recorded
  inside the container and tree values. The lemmas beside `Build` state what
  that run produces.

## Model

| member | source | states |
|---|---|---|
| `Matrix.ImageTag` | main.go:38 | the image tag is the prefix `golang:` followed by exactly the version string |
| `Matrix.ImageTagInjective` | main.go:38 | two versions get the same image tag if and only if they are the same version |
| `Matrix.OutputPathParts` | main.go:49 | an output path reads `build/`, the os, a slash, the arch and a closing slash; given the length of the os both names can be read back from it (without that, see `Matrix.OutputPathInjective`) |
| `Matrix.OutputPathInjective` | main.go:49 | when no os name contains `/` (arch names may), two cells share `build/<os>/<arch>/` if and only if their os and arch are equal |
| `Matrix.OutputPathCollision` | main.go:49 | without that condition the path is not injective: (`a/b`, `c`) and (`a`, `b/c`) both give `build/a/b/c/` |
| `Matrix.ExpandIndex` | main.go:37-64 | `Expand`, the cells in loop order: the loops visit exactly versions·oses·arches cells, and the cell at position a·(oses·arches) + b·arches + c is (versions[a], oses[b], arches[c]): version-major, os second, arch minor |
| `Matrix.ExpandMembers` | main.go:37-64 | a cell is visited if and only if its version, os and arch each occur in their list |
| `Matrix.ExpandDistinct` | main.go:37-64 | when no list repeats a value, no cell is visited twice |
| `Outputs.OverlayKeys` | main.go:35-61 | the tree holds exactly the paths written with `WithDirectory` |
| `Outputs.OverlayLastWins` | main.go:61 | a write that no later write to the same path overrides is what the tree holds at that path |
| `Outputs.OverlayFrom` | main.go:61 | whatever the tree holds at a path was written to that path by some write |
| `Outputs.OverlayAppend` | main.go:61 | writing ys after xs gives the tree of xs overridden by the tree of ys |
| `Pipeline.Build` | main.go:16-72 | a failed connect returns its error, and the connect is the only call. Otherwise one `Exec` call per cell is made in matrix order (the engine runs the builds lazily, when the tree is exported), the collected tree is exported once to `.`, the export's error (or none) is returned, and the deferred `Close` is the last call. The trace records the connect, one `Exec` per cell, the export and the close: versions·oses·arches + 3 entries |
| `Pipeline.RunShape` | main.go:67-71 | in the trace of a connected run, the export is the entry just before the last one and the close is the last one |
| `Pipeline.BaseContainer` | main.go:37-44 | the container shared by one version's cells starts from `golang:<version>`, has the host's working directory mounted at `/src` and uses `/src` as working directory; its chain sets no variable and runs no command yet |
| `Pipeline.CellContainer` | main.go:46-58 | each cell's container starts from `golang:<version>` with the host directory mounted at `/src` as workdir. The variables its chain sets are exactly GOOS=os and GOARCH=arch, so it carries nothing from a sibling cell forked from the same base. It runs exactly `go build -o build/<os>/<arch>/` |
| `Pipeline.OutputTree` | main.go:35-64 | the exported tree holds exactly the output paths of the cells the loops visit |
| `Pipeline.OutputTreeKeys` | main.go:35-63 | with at least one version, the exported tree has an entry for each (os, arch) pair and for nothing else |
| `Pipeline.LastVersionWins` | main.go:37-63 | when os names contain no `/`, the entry at each pair's path is the output directory of the LAST Go version's cell for that pair |
| `Pipeline.DistinctPaths` | main.go:49 | distinct cells of one version whose os names contain no `/` write to pairwise different paths |
| `Pipeline.OutputTreeSize` | main.go:35-63 | with slash-free os names and repetition-free lists, the exported tree has exactly oses·arches entries |
| `Pipeline.DefaultCells` | main.go:20-22 | the hard-coded lists give the eight cells (1.18, linux, amd64) … (1.19.2, darwin, arm64) in that order |
| `Pipeline.DefaultListsWellFormed` | main.go:20-21 | the hard-coded oses and arches contain no `/` and no repeats |
| `Pipeline.DefaultTreeKeys` | main.go:20-61 | with the hard-coded lists the exported tree's paths are exactly `build/linux/amd64/`, `build/linux/arm64/`, `build/darwin/amd64/`, `build/darwin/arm64/` |
| `Pipeline.DefaultTreeSize` | main.go:20-61 | with the hard-coded lists the exported tree has 4 entries |
| `Pipeline.DefaultTreeLastVersion` | main.go:22 | with the hard-coded lists every exported path holds the output of the Go 1.19.2 build |

## Left out

- Dagger library internals are not modelled: connecting, pulling images, running `go build`, reading a container directory and writing the export to the host. These are foreign calls. Handles are values built from the calls, and the observation functions in `Backend` are the model's reading of what a chain configures.
- Connecting and exporting can each succeed or fail. That outcome is a parameter (`connectError`, `exportError`), because the engine decides it.
- The error of the deferred `client.Close()` is discarded by the source, so the model records only that `Close` is called.
- Failures of `From` or `Exec` in a cell are not modelled separately. `build` checks no error per cell: the engine evaluates lazily, so such failures reach it only through the error `Export` returns (main.go:67-70), which the model takes as a parameter.
- `Outputs.Overlay`: `WithDirectory` merges the contents of the attached directory into the tree at that path. The model keeps only the handle last attached at each path and does not model directory contents. So `Pipeline.LastVersionWins` states which handle the tree holds at a path; files that only an earlier version's build wrote under the same path, which a merge would keep, are not modelled.
- The program's printed output is left out: `"Building with Dagger"` (main.go:17), `main`'s printing of the error, after which it returns normally so the process exits with status 0 even when the build failed (main.go:10-14), and the client's log output (main.go:25). This is output plumbing.
- `context.Background()` and cancellation are left out. The source defines no behaviour for them.
- Real execution, timing and host filesystem effects are left out. They are I/O with no logic the program defines.
