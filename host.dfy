/**
 * What the collector observes of the machine it runs on. Each command run,
 * path check, directory listing and file read is a total function from its
 * argument to what the program sees, so every parser becomes a function of
 * these observations. Running the same command twice in one scan therefore
 * sees the same output.
 */
module Host {
  import opened Wrappers

  datatype Machine = Machine(
    /**
     * Whether the executable `argv[0]` is found. When it is not, `subprocess.check_output`
     * raises `FileNotFoundError` (an `OSError`, not a `SubprocessError`) and `run` is not consulted.
     */
    installed: string -> bool,
    /**
     * `subprocess.check_output(argv, universal_newlines=True)` of a found executable: the
     * output, decoded without error, or the `SubprocessError` raised.
     */
    run: seq<string> -> Outcome<string>,
    /** `os.path.exists(path)`. */
    pathExists: string -> bool,
    /** `os.listdir(path)`: the entry names, or the exception raised. */
    listDir: string -> Outcome<seq<string>>,
    /** `open(path, 'r').read()`: the content, or the `OSError` raised. */
    readFile: string -> Outcome<string>)

  /** `str(e)` of the `FileNotFoundError` raised on a POSIX system for an executable that is not found. */
  function NotFoundReason(exe: string): string
  {
    "[Errno 2] No such file or directory: '" + exe + "'"
  }

  /** `str(e)` of the `FileNotFoundError` raised on Windows, where `CreateProcess` does not find the executable. */
  const WindowsNotFoundReason := "[WinError 2] The system cannot find the file specified"
}
