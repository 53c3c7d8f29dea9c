/** `launchR.Interpreter`: locating Rscript through the registry, the per-user
    package library, running scripts and installing packages. */
module LaunchR {
  import opened Wrappers
  import opened PyStr
  import opened Registry
  import NtPath
  import InstallExpr

  /** The exceptions the Python code raises or lets through. */
  datatype Error =
    | WindowsError(message: string)
      /** unpacking `version.split(".")` into three names met `parts` pieces */
    | ValueError(parts: nat)
    | KeyError(key: string)
    | CalledProcessError(returnCode: int, output: string)
    | PackageInstallError(returnCode: int, message: string)

  const VersionNotFound: string := "Unable to find the specified version of R in the registry"
  const NotInstalled: string := "Unable to get R path - Make sure R is installed on this machine!"
  const LibsUserVar: string := "R_LIBS_USER"
  const UserProfileVar: string := "USERPROFILE"

  /** The message raised when neither registry root has an entry. */
  function NotFoundMessage(version: Option<string>): string
  {
    if Supplied(version) then VersionNotFound else NotInstalled
  }

  // ---- Locating the interpreter ---------------------------------------------

  /** `os.path.join(install_path, "bin", "Rscript.exe")`. */
  function ExecutablePath(installPath: string): string
  {
    NtPath.Join(NtPath.Join(installPath, "bin"), "Rscript.exe")
  }

  /** The executable is the install directory followed by `bin\Rscript.exe`. */
  lemma ExecutablePathShape(installPath: string)
    ensures ExecutablePath(installPath) == installPath + NtPath.Glue(installPath) + "bin\\Rscript.exe"
  {
    ExecutableJoin(installPath);
    BinRscript(installPath + NtPath.Glue(installPath));
  }

  lemma ExecutableJoin(installPath: string)
    ensures ExecutablePath(installPath) == installPath + NtPath.Glue(installPath) + "bin" + [NtPath.Sep] + "Rscript.exe"
  {
    assert NtPath.Drive("bin") == "" by { assert "bin"[1] == 'i'; }
    assert !NtPath.IsSep("bin"[2]) && !NtPath.Rooted("bin") && !NtPath.Rooted("Rscript.exe");
    NtPath.JoinRelative(installPath, "bin", "Rscript.exe");
  }

  lemma BinRscript(x: string)
    ensures x + "bin" + [NtPath.Sep] + "Rscript.exe" == x + "bin\\Rscript.exe"
  {
  }

  /** The location and version complete registry data under `root` describe. */
  function Entry(reg: Store, root: Root, version: Option<string>): Located
    requires Complete(reg, root, version)
  {
    var path := KeyPath(version);
    Located(reg.values[(root, path, InstallPathName)],
            if Supplied(version) then version.value else reg.values[(root, path, CurrentVersionName)])
  }

  /** What `_get_r_executable` settles on: the local-machine entry when it is
      complete, the current-user entry otherwise, and nothing when neither is. */
  function FirstFound(reg: Store, version: Option<string>): (found: Option<Located>)
    ensures Complete(reg, LocalMachine, version) ==> found == Some(Entry(reg, LocalMachine, version))
    ensures !Complete(reg, LocalMachine, version) && Complete(reg, CurrentUser, version) ==>
              found == Some(Entry(reg, CurrentUser, version))
    ensures found.None? <==> !Complete(reg, LocalMachine, version) && !Complete(reg, CurrentUser, version)
  {
    var machine := LookupIn(reg, LocalMachine, version).found;
    if machine.Some? then machine else LookupIn(reg, CurrentUser, version).found
  }

  /** The pair `_get_r_executable` returns. */
  datatype Resolved = Resolved(executable: string, version: string)

  /** `_get_r_executable`: try the local-machine root, fall back to the current-user
      root, and raise with a message that depends on whether a version was asked for. */
  method GetRExecutable(reg: Store, version: Option<string>) returns (r: Result<Resolved, Error>, accesses: seq<Access>)
    ensures r.Ok? <==> Complete(reg, LocalMachine, version) || Complete(reg, CurrentUser, version)
    ensures r.Ok? ==> (FirstFound(reg, version).Some? &&
                       r.value == Resolved(ExecutablePath(FirstFound(reg, version).value.installPath),
                                           FirstFound(reg, version).value.version))
    ensures r.Err? ==> r.error == WindowsError(NotFoundMessage(version))
    ensures accesses == LookupIn(reg, LocalMachine, version).accesses +
              if Complete(reg, LocalMachine, version) then [] else LookupIn(reg, CurrentUser, version).accesses
    ensures |accesses| > 0 && accesses[0] == OpenKey(LocalMachine, KeyPath(version))
    ensures (exists i :: 0 <= i < |accesses| && accesses[i].root == CurrentUser) <==> !Complete(reg, LocalMachine, version)
  {
    var machine := LookupIn(reg, LocalMachine, version);
    accesses := machine.accesses;
    var found := machine.found;
    if found.None? {
      var user := LookupIn(reg, CurrentUser, version);
      accesses := accesses + user.accesses;
      found := user.found;
      assert accesses[|machine.accesses|].root == CurrentUser;
      if found.None? {
        r := Err(WindowsError(NotFoundMessage(version)));
        return;
      }
    }
    r := Ok(Resolved(ExecutablePath(found.value.installPath), found.value.version));
  }

  // ---- The per-user package library -----------------------------------------

  /** `"{}.{}".format(major, minor)` of a three-part version. */
  function MajorMinor(version: string): string
    requires Count(version, '.') == 2
  {
    var parts := Split(version, '.');
    parts[0] + "." + parts[1]
  }

  /** `major.minor` is the version with its last dot-separated part cut off. */
  lemma MajorMinorPrefix(version: string)
    requires Count(version, '.') == 2
    ensures var parts := Split(version, '.');
            version == MajorMinor(version) + "." + parts[2] && '.' !in parts[2]
    ensures Count(MajorMinor(version), '.') == 1
  {
    var parts := Split(version, '.');
    JoinSplit(version, '.');
    assert Join(".", parts[1..]) == parts[1] + "." + Join(".", parts[2..]);
    assert Join(".", parts[2..]) == parts[2];
    assert MajorMinor(version) == parts[0] + ("." + parts[1]);
    CountConcat(parts[0], "." + parts[1], '.');
    CountConcat(".", parts[1], '.');
    assert Count(".", '.') == 1 by { assert "."[1..] == ""; }
    assert Count(parts[0], '.') == 0 && Count(parts[1], '.') == 0 by {
      CountAbsent(parts[0], '.');
      CountAbsent(parts[1], '.');
    }
  }

  lemma {:induction false} CountAbsent(s: string, c: char)
    requires c !in s
    ensures Count(s, c) == 0
  {
    if s != [] {
      CountAbsent(s[1..], c);
    }
  }

  /** `os.path.join(profile, "Documents", "R", "win-library", packagesVersion)`. */
  function LibraryFolder(profile: string, packagesVersion: string): string
  {
    NtPath.Join(NtPath.Join(NtPath.Join(NtPath.Join(profile, "Documents"), "R"), "win-library"), packagesVersion)
  }

  /** The library folder is `<profile>\Documents\R\win-library\<major.minor>`. */
  lemma LibraryFolderShape(profile: string, packagesVersion: string)
    requires !NtPath.Rooted(packagesVersion)
    ensures LibraryFolder(profile, packagesVersion) ==
              profile + NtPath.Glue(profile) + "Documents\\R\\win-library\\" + packagesVersion
  {
    LibraryJoin(profile, packagesVersion);
    LibraryText(profile + NtPath.Glue(profile), packagesVersion);
  }

  lemma LibraryJoin(profile: string, packagesVersion: string)
    requires !NtPath.Rooted(packagesVersion)
    ensures LibraryFolder(profile, packagesVersion) ==
              profile + NtPath.Glue(profile) + "Documents" + [NtPath.Sep] + "R" + [NtPath.Sep] + "win-library" + [NtPath.Sep] + packagesVersion
  {
    assert NtPath.Drive("Documents") == "" by { assert "Documents"[1] == 'o'; }
    assert !NtPath.IsSep("Documents"[8]) && !NtPath.Rooted("Documents") && !NtPath.Rooted("R");
    NtPath.JoinRelative(profile, "Documents", "R");
    var documentsR := profile + NtPath.Glue(profile) + "Documents" + [NtPath.Sep] + "R";
    assert documentsR[|documentsR| - 1] == 'R';
    assert !NtPath.Rooted("win-library");
    NtPath.JoinPlain(documentsR, "win-library");
    var winLibrary := documentsR + [NtPath.Sep] + "win-library";
    assert winLibrary[|winLibrary| - 1] == 'y';
    NtPath.JoinPlain(winLibrary, packagesVersion);
  }

  lemma LibraryText(x: string, packagesVersion: string)
    ensures x + "Documents" + [NtPath.Sep] + "R" + [NtPath.Sep] + "win-library" + [NtPath.Sep] + packagesVersion ==
            x + "Documents\\R\\win-library\\" + packagesVersion
  {
  }

  /** `_get_user_packages_folder`: fails on a version that is not three dot-separated
      parts, then on a missing USERPROFILE; otherwise the win-library folder for `major.minor`. */
  function UserPackagesFolder(version: string, environ: map<string, string>): (r: Result<string, Error>)
    ensures r.Ok? <==> Count(version, '.') == 2 && UserProfileVar in environ
    ensures Count(version, '.') != 2 ==> r == Err(ValueError(Count(version, '.') + 1))
    ensures Count(version, '.') == 2 && UserProfileVar !in environ ==> r == Err(KeyError(UserProfileVar))
    ensures r.Ok? ==> r.value == LibraryFolder(environ[UserProfileVar], MajorMinor(version))
  {
    var parts := Split(version, '.');
    if |parts| != 3 then Err(ValueError(|parts|))
    else if UserProfileVar !in environ then Err(KeyError(UserProfileVar))
    else Ok(LibraryFolder(environ[UserProfileVar], parts[0] + "." + parts[1]))
  }

  /** A three-part version with USERPROFILE set yields
      `<USERPROFILE>\Documents\R\win-library\<major.minor>`, unless `major` starts with a separator. */
  lemma UserPackagesFolderShape(version: string, environ: map<string, string>)
    requires Count(version, '.') == 2 && UserProfileVar in environ
    requires !NtPath.Rooted(MajorMinor(version))
    ensures var profile := environ[UserProfileVar];
            UserPackagesFolder(version, environ) ==
              Ok(profile + NtPath.Glue(profile) + "Documents\\R\\win-library\\" + MajorMinor(version))
  {
    LibraryFolderShape(environ[UserProfileVar], MajorMinor(version));
  }

  // ---- Environment and child processes --------------------------------------

  /** `os.environ`, which `run` changes in place. */
  class Environ {
    var vars: map<string, string>

    constructor (vars: map<string, string>)
      ensures this.vars == vars
    {
      this.vars := vars;
    }
  }

  /** The environment after `if key not in env: env[key] = value`. */
  function SetDefault(vars: map<string, string>, key: string, value: string): (r: map<string, string>)
    ensures r.Keys == vars.Keys + {key}
    ensures key in vars ==> r == vars
    ensures key !in vars ==> r[key] == value
    ensures forall k :: k in vars ==> r[k] == vars[k]
  {
    if key in vars then vars else vars[key := value]
  }

  /** Setting a default a second time changes nothing: the first value stays. */
  lemma SetDefaultIdempotent(vars: map<string, string>, key: string, value: string, other: string)
    ensures SetDefault(SetDefault(vars, key, value), key, other) == SetDefault(vars, key, value)
    ensures SetDefault(vars, key, value)[key] == if key in vars then vars[key] else value
  {
  }

  /** How a child process ended: its exit code and its merged stdout/stderr. */
  datatype Completed = Completed(returnCode: int, output: string)

  /** The operating system running a command line in an environment. */
  type Child = (seq<string>, map<string, string>) -> Completed

  /** `subprocess.check_output`: a non-zero exit code raises `CalledProcessError`. */
  function CheckOutput(c: Completed): (o: Outcome<Error>)
    ensures o.Pass? <==> c.returnCode == 0
    ensures o.Fail? ==> o.error == CalledProcessError(c.returnCode, c.output)
  {
    if c.returnCode == 0 then Pass else Fail(CalledProcessError(c.returnCode, c.output))
  }

  /** `install_packages` falls back to the user library when `library` is None or "". */
  function TargetLibrary(library: Option<string>, userLibrary: string): string
  {
    if library.Some? && library.value != "" then library.value else userLibrary
  }

  // ---- The interpreter ------------------------------------------------------

  class Interpreter {
    const executable: string
    const version: string
    const userLibrary: string

    /** The field assignments of `__init__`, once every lookup has succeeded. */
    constructor (executable: string, version: string, userLibrary: string)
      ensures this.executable == executable && this.version == version && this.userLibrary == userLibrary
    {
      this.executable := executable;
      this.version := version;
      this.userLibrary := userLibrary;
    }

    /** `Interpreter(version)`: locate Rscript, then the package folder for the
        version found; any failure means no interpreter exists. */
    static method Open(requested: Option<string>, reg: Store, env: Environ) returns (r: Result<Interpreter, Error>)
      ensures FirstFound(reg, requested).None? ==> r == Err(WindowsError(NotFoundMessage(requested)))
      ensures FirstFound(reg, requested).Some? ==>
                var found := FirstFound(reg, requested).value;
                var lib := UserPackagesFolder(found.version, env.vars);
                (lib.Err? ==> r == Err(lib.error)) &&
                (lib.Ok? ==> r.Ok? && fresh(r.value) &&
                             r.value.executable == ExecutablePath(found.installPath) &&
                             r.value.version == found.version &&
                             r.value.userLibrary == lib.value)
    {
      var resolved, _ := GetRExecutable(reg, requested);
      if resolved.Err? {
        return Err(resolved.error);
      }
      var lib := UserPackagesFolder(resolved.value.version, env.vars);
      if lib.Err? {
        return Err(lib.error);
      }
      var it := new Interpreter(resolved.value.executable, resolved.value.version, lib.value);
      r := Ok(it);
    }

    /** `run(script, *args)`: advertise the user library unless the caller already
        set R_LIBS_USER, then run Rscript with the script and its arguments. */
    method Run(env: Environ, child: Child, script: string, args: seq<string>) returns (o: Outcome<Error>)
      modifies env
      ensures env.vars == SetDefault(old(env.vars), LibsUserVar, userLibrary)
      ensures var c := child([executable, script] + args, env.vars);
              (o.Pass? <==> c.returnCode == 0) && (o.Fail? ==> o.error == CalledProcessError(c.returnCode, c.output))
    {
      if LibsUserVar !in env.vars {
        env.vars := env.vars[LibsUserVar := userLibrary];
      }
      o := CheckOutput(child([executable, script] + args, env.vars));
    }

    /** `install_packages(package_list, library)`: one `Rscript -e` call with the
        install expression; a failing process becomes `PackageInstallError`. */
    method InstallPackages(env: Environ, child: Child, packages: seq<string>, library: Option<string>)
      returns (o: Outcome<Error>)
      modifies env
      ensures env.vars == SetDefault(old(env.vars), LibsUserVar, userLibrary)
      ensures var c := child([executable, "-e", InstallExpr.Expression(packages, TargetLibrary(library, userLibrary))], env.vars);
              o == if c.returnCode == 0 then Pass else Fail(PackageInstallError(c.returnCode, c.output))
    {
      var lib := TargetLibrary(library, userLibrary);
      var ran := Run(env, child, "-e", [InstallExpr.Expression(packages, lib)]);
      assert [executable, "-e"] + [InstallExpr.Expression(packages, lib)] ==
             [executable, "-e", InstallExpr.Expression(packages, lib)];
      match ran
      case Pass => o := Pass;
      case Fail(CalledProcessError(code, output)) => o := Fail(PackageInstallError(code, output));
      case Fail(_) => o := ran;
    }
  }
}
