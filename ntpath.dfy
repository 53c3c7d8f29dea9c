/** `os.path.join` as it behaves on Windows (`ntpath`), for two components,
    with `\` as the separator it inserts. */
module NtPath {

  const Sep: char := '\\'

  /** Both `\` and `/` separate path components on Windows. */
  predicate IsSep(c: char)
  {
    c == '\\' || c == '/'
  }

  /** A component that starts with a separator is rooted: it replaces what came before it. */
  predicate Rooted(p: string)
  {
    |p| > 0 && IsSep(p[0])
  }

  /** The drive-letter prefix (`C:`) of a path, or "" when there is none. */
  function Drive(p: string): (d: string)
    ensures |d| <= |p| && d == p[..|d|]
  {
    if |p| >= 2 && !IsSep(p[0]) && p[1] == ':' then p[..2] else ""
  }

  /** `os.path.join(a, b)`: a rooted `b` keeps only the drive of `a`; otherwise a
      separator is inserted unless `a` is empty, a bare drive, or already ends in one. */
  function Join(a: string, b: string): (r: string)
    ensures |b| <= |r| && r[|r| - |b|..] == b
    ensures !Rooted(b) ==> |a| <= |r| && r[..|a|] == a
    ensures !Rooted(b) ==> r == a + b || r == a + [Sep] + b
    ensures !Rooted(b) && a != Drive(a) && !IsSep(a[|a| - 1]) ==> r == a + [Sep] + b
    ensures !Rooted(b) && (a == Drive(a) || IsSep(a[|a| - 1])) ==> r == a + b
  {
    if Rooted(b) then Drive(a) + b
    else if a == Drive(a) || IsSep(a[|a| - 1]) then a + b
    else a + [Sep] + b
  }

  /** The separator `Join` puts between `a` and a relative component. */
  function Glue(a: string): string
  {
    if a == Drive(a) || IsSep(a[|a| - 1]) then "" else [Sep]
  }

  /** Past a bare drive, a relative component always gets a separator of its own. */
  lemma JoinPlain(a: string, b: string)
    requires |a| > 2 && !IsSep(a[|a| - 1]) && !Rooted(b)
    ensures Join(a, b) == a + [Sep] + b
  {
  }

  /** Joining relative components one after the other is the same as writing
      them out with `\` between them, after the glue the first component needs. */
  lemma JoinRelative(a: string, b: string, c: string)
    requires b != [] && !Rooted(b) && Drive(b) == "" && !IsSep(b[|b| - 1]) && !Rooted(c)
    ensures Join(Join(a, b), c) == a + Glue(a) + b + [Sep] + c
  {
    var ab := Join(a, b);
    assert ab == a + Glue(a) + b;
    assert ab[|ab| - 1] == b[|b| - 1];
  }
}
