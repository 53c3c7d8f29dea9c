# launchR interpreter locator, modelled in Dafny

launchR finds an installed R on Windows and runs `Rscript` for Python callers.
An `Interpreter` does four things:

- It looks up the R install directory and version in the registry. It tries
  `HKEY_LOCAL_MACHINE` first and `HKEY_CURRENT_USER` second, under
  `Software\R-core\R` or under `Software\R-core\R\<version>` when a version was
  asked for.
- It derives the per-user package library folder from that version.
- It runs scripts, setting `R_LIBS_USER` first unless the environment already
  has it.
- It installs CRAN packages through one `Rscript -e "install.packages(...)"` call.

The model replaces the outside world with values:

- The registry is a snapshot: a set of existing keys and a map from
  `(root, key path, value name)` to strings. A failed `OpenKey` or
  `QueryValueEx` is a missing entry.
- `os.environ` is an `Environ` object holding a `map<string, string>`, which
  `run` changes in place.
- A child process is a function from the command line and the environment to an
  exit code and the merged output.

Modules:

- `Wrappers`: `Option`, `Result`, `Outcome`.
- `PyStr`: `str.split`, `sep.join` and `str.replace`.
- `NtPath`: Windows `os.path.join`.
- `Registry`: `_get_versions_from_reg`.
- `InstallExpr`: the `install.packages` expression, plus decoders that read it back.
- `LaunchR`: the exceptions, the environment and the `Interpreter` class.

The class's fields `executable`, `version` and `userLibrary` are `const`. They
are assigned once, by the constructor. The Python constructor can raise, so the
static method `Interpreter.Open` stands for `Interpreter(version)` and returns
either a fresh interpreter or the exception.

Python truthiness is modelled exactly. A requested version of `None` or `""`
counts as "not supplied" (`Registry.Supplied`). A `library` of `None` or `""`
falls back to the user library (`LaunchR.TargetLibrary`).

Three further behaviours of the code:

- The package folder starts at the `USERPROFILE` environment variable; a
  missing variable raises `KeyError`.
- The generated expression puts `dependencies=TRUE` before `lib=...`.
- A failing script raises `subprocess.CalledProcessError` unchanged.

## Model

| member | source | states |
|---|---|---|
| `Registry.KeyPath` | launchR/__init__.py:47-51 | the key opened always starts with `Software\R-core\R` and is longer than it exactly when a version was supplied |
| `Registry.KeyPathRoundTrip` | launchR/__init__.py:47-51 | the suffix after `R\` reads back as the supplied version verbatim; with no supplied version (None or "") there is no suffix |
| `Registry.LookupIn` | launchR/__init__.py:45-63 | one root's lookup succeeds iff the key, its InstallPath and (unless a version was supplied) its "Current Version" all exist; it returns that InstallPath, and the supplied version verbatim or else the registry's current version; "Current Version" is never queried when a version was supplied; the first access opens the key, and every access stays on that root and key |
| `LaunchR.FirstFound` | launchR/__init__.py:72-76 | the local-machine entry wins whenever it is complete; the current-user entry is used only when it is not; nothing is found iff neither root is complete |
| `LaunchR.GetRExecutable` | launchR/__init__.py:66-84 | succeeds iff some root is complete, returning `Rscript.exe` for the first complete root's install path and its version; otherwise raises WindowsError with the "specified version" message when a version was supplied and the "Make sure R is installed" message when not; the first registry access is on HKLM, and HKCU is touched iff the HKLM lookup failed |
| `LaunchR.ExecutablePathShape` | launchR/__init__.py:84 | the executable is the install path, a `\` unless it already ends in a separator or is empty or a bare drive, then `bin\Rscript.exe` |
| `NtPath.Join` | launchR/__init__.py:84 | `os.path.join` always ends with the last component; a relative component is appended to the first path directly when that path is empty, a bare drive or ends in a separator, and after one `\` otherwise |
| `PyStr.Split` | launchR/__init__.py:88 | `split(".")` yields one more part than there are dots, and no part contains a dot |
| `PyStr.JoinSplit` | launchR/__init__.py:88 | rejoining the parts with "." gives back the version string |
| `LaunchR.MajorMinorPrefix` | launchR/__init__.py:88-89 | for a three-part version, `major.minor` is the version with its last part cut off, and it contains exactly one dot |
| `LaunchR.LibraryFolderShape` | launchR/__init__.py:90 | when `major.minor` does not start with a separator, the folder is `<USERPROFILE>` (plus a `\` where needed) followed by `Documents\R\win-library\<major.minor>` |
| `LaunchR.UserPackagesFolderShape` | launchR/__init__.py:87-92 | for a three-part version with USERPROFILE set and a `major.minor` not starting with a separator, the call succeeds with exactly `<USERPROFILE>[\]Documents\R\win-library\<major.minor>` |
| `LaunchR.UserPackagesFolder` | launchR/__init__.py:87-92 | succeeds iff the version has exactly two dots and USERPROFILE is set; a version with a different number of dots is a ValueError carrying the part count, and this is checked before the KeyError for a missing USERPROFILE; the result is the win-library folder for `major.minor` |
| `PyStr.ReplaceCharLength` | launchR/__init__.py:104 | `replace` grows the string by the replacement length minus one for each occurrence of the pattern |
| `InstallExpr.DoubledLength` | launchR/__init__.py:104 | the embedded library path is the original length plus one per backslash |
| `InstallExpr.ReadEscapedDoubled` | launchR/__init__.py:104 | un-doubling the embedded library path up to its closing `\"` recovers the original path exactly, whatever characters it contains |
| `InstallExpr.QuoteAll` | launchR/__init__.py:102 | the comprehension keeps the list's length, and item i becomes name i between `\"` and `\"` |
| `InstallExpr.ReadNamesQuoted` | launchR/__init__.py:102-104 | the `, `-joined quoted names read back as the same names in the same order, with the text after the list untouched, when no name contains `"` |
| `InstallExpr.ExpressionRoundTrip` | launchR/__init__.py:102-104 | the `install.packages(c(...), dependencies=TRUE, lib=\"...\", repos=\"http://cran.us.r-project.org\");` expression determines its package list and library path: parsing it back yields exactly those |
| `LaunchR.SetDefault` | launchR/__init__.py:109-110 | afterwards the key is present; an environment that already had the key is unchanged; otherwise the key maps to the new value and every other variable keeps its value |
| `LaunchR.SetDefaultIdempotent` | launchR/__init__.py:109-110 | setting the default again changes nothing: the first value set, or the caller's, stays |
| `LaunchR.Interpreter.Run` | launchR/__init__.py:108-115 | the environment afterwards is the old one with R_LIBS_USER defaulted to the user library; Rscript runs as `[executable, script] + args` in that environment; the call passes iff the exit code is 0, and otherwise raises CalledProcessError carrying the same exit code and output |
| `LaunchR.Interpreter.InstallPackages` | launchR/__init__.py:94-106 | runs `[executable, "-e", expression]` with the given library, or the user library when it is None or ""; a non-zero exit becomes PackageInstallError with the same return code and output; the environment changes as `run` changes it |
| `LaunchR.Interpreter.constructor` | launchR/__init__.py:33-36 | the three fields hold the resolved executable, version and user library |
| `LaunchR.Interpreter.Open` | launchR/__init__.py:33-36 | no complete registry root raises the WindowsError chosen by `GetRExecutable`; otherwise a package-folder error propagates unchanged; success yields a fresh interpreter whose executable and version come from the first complete root and whose user library is the folder for that version |

## Left out

- Windows registry access (`ConnectRegistry`, `OpenKey`, `QueryValueEx`, `CloseKey`). It is a foreign OS API and is replaced by a snapshot. Not modelled: handle closing, non-string value types, case-insensitive key names, and failures other than a missing key or value.
- Process execution (`subprocess.check_output`) is external I/O. Its result is an arbitrary function of the command line and the environment. A failure to start the executable at all (an `OSError`) is not modelled.
- Directory creation in `install_packages` (`os.path.exists` / `os.makedirs`, launchR/__init__.py:99-100) is a filesystem side effect. The model does not record that the library folder is created before the call, and it does not model a `makedirs` failure.
- Logging (launchR/__init__.py:9-13, 28, 82, 95), including `PackageInstallError.__str__`, which only logs. It has no behaviour to verify.
- The `winreg`/`_winreg` import shim (launchR/__init__.py:15-18) and setup.py. They are environment plumbing and packaging metadata.
- NtPath.Join: does not model a component that carries its own drive (`X:...`), or a rooted component after a UNC share. The components joined here are constants and `major.minor`; only an unusual registry version string could make them drive-carrying.
- On Windows, `os.environ` matches variable names case-insensitively. The model's environment is an exact-match map, so `R_LIBS_USER` and `USERPROFILE` must be spelled exactly.
- LaunchR.UserPackagesFolder: the ValueError records how many parts the version split into, not the Python message text.
- InstallExpr.ExpressionRoundTrip: holds only for package names without a `"`. With a `"` in a name, the generated R expression is ambiguous.
