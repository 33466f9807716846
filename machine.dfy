/** What the CLI observes of the machine it runs on. Every field stands for a
    call into the operating system or Go's `path/filepath` whose result the
    model does not compute; each is a fixed function of its arguments. */
module Machine {
  import opened Wrappers

  datatype Machine = Machine(
    /** `exec.LookPath(name)`: the resolved executable, or an error. */
    lookPath: string -> Option<string>,
    /** `fileExists(path)` (cli/main.go:656): `os.Stat` finds it and it is not a directory. */
    fileExists: string -> bool,
    /** `filepath.Abs(path)`, or an error. */
    abs: string -> Option<string>,
    /** `filepath.Base(path)` */
    base: string -> string,
    /** `filepath.Join(dir, name)` */
    join: (string, string) -> string,
    /** `filepath.Rel(basepath, targpath)`, or an error. */
    rel: (string, string) -> Option<string>,
    /** `filepath.IsAbs(path)` */
    isAbs: string -> bool,
    /** `copyFile(src, dst) == nil` (cli/main.go:686-701). */
    copyFile: (string, string) -> bool
  )
}
