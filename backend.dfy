/**
 * The Dagger client library, seen from the build program as immutable handle
 * values. Every call on a container or directory handle returns a new handle;
 * here a handle IS the chain of calls that produced it, so two handles are
 * equal exactly when they were built by the same calls with the same
 * arguments. The observation functions below say what a chain means for the
 * build: which image it starts from, which environment variables, mounts and
 * working directory it carries, and which commands it runs.
 */
module Backend {

  datatype Option<T> = None | Some(value: T)

  /** A directory handle: the host's working directory, or a path inside a container. */
  datatype Directory =
    | HostWorkdir
    | ContainerDirectory(container: Container, path: string)

  /** A container handle, as the chain of client calls that built it. */
  datatype Container =
    | From(image: string)
    | WithMountedDirectory(base: Container, at: string, source: Directory)
    | WithWorkdir(base: Container, dir: string)
    | WithEnvVariable(base: Container, name: string, value: string)
    | Exec(base: Container, args: seq<string>)

  /** The directory tree that is finally exported: path to subtree. */
  type Tree = map<string, Directory>

  /** The image a container chain starts from. */
  function Image(c: Container): string
  {
    match c
    case From(image) => image
    case WithMountedDirectory(base, _, _) => Image(base)
    case WithWorkdir(base, _) => Image(base)
    case WithEnvVariable(base, _, _) => Image(base)
    case Exec(base, _) => Image(base)
  }

  /** The environment variables set on a chain; a later setting of a name replaces an earlier one. */
  function Env(c: Container): map<string, string>
  {
    match c
    case From(_) => map[]
    case WithMountedDirectory(base, _, _) => Env(base)
    case WithWorkdir(base, _) => Env(base)
    case WithEnvVariable(base, name, value) => Env(base)[name := value]
    case Exec(base, _) => Env(base)
  }

  /** The directories mounted on a chain, by mount point. */
  function Mounts(c: Container): map<string, Directory>
  {
    match c
    case From(_) => map[]
    case WithMountedDirectory(base, at, source) => Mounts(base)[at := source]
    case WithWorkdir(base, _) => Mounts(base)
    case WithEnvVariable(base, _, _) => Mounts(base)
    case Exec(base, _) => Mounts(base)
  }

  /** The working directory set on a chain, or None when the image's own default applies. */
  function Workdir(c: Container): Option<string>
  {
    match c
    case From(_) => None
    case WithMountedDirectory(base, _, _) => Workdir(base)
    case WithWorkdir(_, dir) => Some(dir)
    case WithEnvVariable(base, _, _) => Workdir(base)
    case Exec(base, _) => Workdir(base)
  }

  /** The commands a chain runs, oldest first. */
  function Commands(c: Container): seq<seq<string>>
  {
    match c
    case From(_) => []
    case WithMountedDirectory(base, _, _) => Commands(base)
    case WithWorkdir(base, _) => Commands(base)
    case WithEnvVariable(base, _, _) => Commands(base)
    case Exec(base, args) => Commands(base) + [args]
  }
}
