/** The registry reads of `Interpreter._get_versions_from_reg`, over a snapshot
    of the Windows registry instead of the live `winreg` API. */
module Registry {
  import opened Wrappers

  datatype Root = LocalMachine | CurrentUser

  /** The keys that exist under each root, and the string values stored in them,
      addressed by (root, key path, value name). */
  datatype Store = Store(keys: set<(Root, string)>, values: map<(Root, string, string), string>)

  /** One registry call, in the order it is made. */
  datatype Access = OpenKey(root: Root, path: string) | QueryValue(root: Root, path: string, name: string)

  /** What a successful lookup returns: the install directory and the version. */
  datatype Located = Located(installPath: string, version: string)

  /** The accesses a lookup makes, and what it found (None where the source raises). */
  datatype Lookup = Lookup(found: Option<Located>, accesses: seq<Access>)

  const RKey: string := "Software\\R-core\\R"
  const InstallPathName: string := "InstallPath"
  const CurrentVersionName: string := "Current Version"

  /** Python truthiness of the requested version: None and "" both mean "not supplied". */
  predicate Supplied(version: Option<string>)
  {
    version.Some? && version.value != ""
  }

  /** The key opened: the R key, with `\<version>` appended when a version was supplied. */
  function KeyPath(version: Option<string>): (path: string)
    ensures |RKey| <= |path| && path[..|RKey|] == RKey
    ensures Supplied(version) <==> |path| > |RKey|
  {
    if Supplied(version) then RKey + "\\" + version.value else RKey
  }

  /** Reads back the version suffix of a key path; partner of `KeyPath`. */
  function VersionOfKeyPath(path: string): Option<string>
  {
    if |path| > |RKey| + 1 && path[..|RKey| + 1] == RKey + "\\" then Some(path[|RKey| + 1..]) else None
  }

  /** The key path determines the supplied version: the suffix after `R\` is it verbatim,
      and without a supplied version there is no suffix at all. */
  lemma KeyPathRoundTrip(version: Option<string>)
    ensures VersionOfKeyPath(KeyPath(version)) == if Supplied(version) then version else None
  {
  }

  /** The registry holds everything one lookup under `root` needs: the key, its
      install path, and its current version unless a version was supplied. */
  predicate Complete(reg: Store, root: Root, version: Option<string>)
  {
    var path := KeyPath(version);
    (root, path) in reg.keys && (root, path, InstallPathName) in reg.values &&
    (Supplied(version) || (root, path, CurrentVersionName) in reg.values)
  }

  /** `_get_versions_from_reg(base_key=root)`: open the key, read "InstallPath", and
      take the version either from the caller or from "Current Version". */
  function LookupIn(reg: Store, root: Root, version: Option<string>): (l: Lookup)
    ensures l.found.Some? <==> Complete(reg, root, version)
    ensures l.found.Some? ==> l.found.value.installPath == reg.values[(root, KeyPath(version), InstallPathName)]
    ensures l.found.Some? && Supplied(version) ==> l.found.value.version == version.value
    ensures l.found.Some? && !Supplied(version) ==>
              l.found.value.version == reg.values[(root, KeyPath(version), CurrentVersionName)]
    ensures Supplied(version) ==> QueryValue(root, KeyPath(version), CurrentVersionName) !in l.accesses
    ensures |l.accesses| > 0 && l.accesses[0] == OpenKey(root, KeyPath(version))
    ensures forall i :: 0 <= i < |l.accesses| ==> l.accesses[i].root == root && l.accesses[i].path == KeyPath(version)
  {
    var path := KeyPath(version);
    var open := [OpenKey(root, path)];
    if (root, path) !in reg.keys then Lookup(None, open)
    else
      var queried := open + [QueryValue(root, path, InstallPathName)];
      if (root, path, InstallPathName) !in reg.values then Lookup(None, queried)
      else
        var installPath := reg.values[(root, path, InstallPathName)];
        if Supplied(version) then Lookup(Some(Located(installPath, version.value)), queried)
        else
          var all := queried + [QueryValue(root, path, CurrentVersionName)];
          if (root, path, CurrentVersionName) !in reg.values then Lookup(None, all)
          else Lookup(Some(Located(installPath, reg.values[(root, path, CurrentVersionName)])), all)
  }
}
