/** The R expression `Interpreter.install_packages` passes to `Rscript -e`, and
    decoders that read it back, proving the quoting loses nothing. */
module InstallExpr {
  import opened Wrappers
  import opened PyStr

  const Repos: string := "http://cran.us.r-project.org"

  /** The two characters `\"` that open and close every embedded string. */
  const EscQuote: string := "\\\""

  /** Everything after the closing quote of the library path. */
  const Tail: string := ", repos=\\\"" + Repos + "\\\");"

  /** Text between the closing `)` of the package vector and the library path. */
  const Middle: string := "), dependencies=TRUE, lib=\\\""

  const Head: string := "install.packages(c("

  /** One package name as the list comprehension formats it: between `\"` and `\"`. */
  function Quote(name: string): string
  {
    EscQuote + name + EscQuote
  }

  /** `['\\"{}\\"'.format(p) for p in packages]`. */
  function QuoteAll(packages: seq<string>): (quoted: seq<string>)
    ensures |quoted| == |packages|
    ensures forall i :: 0 <= i < |packages| ==> quoted[i] == Quote(packages[i])
  {
    if packages == [] then [] else [Quote(packages[0])] + QuoteAll(packages[1..])
  }

  /** `", ".join(...)` of the quoted names. */
  function QuotedList(packages: seq<string>): string
  {
    Join(", ", QuoteAll(packages))
  }

  /** `library.replace("\\", "\\\\")`. */
  function DoubleBackslashes(lib: string): string
  {
    ReplaceChar(lib, '\\', "\\\\")
  }

  /** The whole expression handed to `-e`. */
  function Expression(packages: seq<string>, lib: string): string
  {
    Head + (QuotedList(packages) + (Middle + (DoubleBackslashes(lib) + (EscQuote + Tail))))
  }

  /** The escaped library path is longer by exactly one character per backslash. */
  lemma DoubledLength(lib: string)
    ensures |DoubleBackslashes(lib)| == |lib| + Count(lib, '\\')
  {
    ReplaceCharLength(lib, '\\', "\\\\");
  }

  // ---- Decoders ------------------------------------------------------------

  /** Reads a package name up to the closing `\"`; a bare `"` inside is rejected. */
  function ReadName(s: string): (r: Option<(string, string)>)
    ensures r.Some? ==> |r.value.1| <= |s| - 2
  {
    if |s| >= 2 && s[0] == '\\' && s[1] == '"' then Some(("", s[2..]))
    else if s == [] || s[0] == '"' then None
    else match ReadName(s[1..])
      case None => None
      case Some((n, rest)) => Some(([s[0]] + n, rest))
  }

  /** Reads a `, `-separated run of quoted names; returns the names and what follows them. */
  function ReadNames(s: string): Option<(seq<string>, string)>
    decreases |s|
  {
    if !(|s| >= 2 && s[0] == '\\' && s[1] == '"') then Some(([], s))
    else match ReadName(s[2..])
      case None => None
      case Some((n, rest)) =>
        if |rest| >= 2 && rest[0] == ',' && rest[1] == ' ' then
          match ReadNames(rest[2..])
          case None => None
          case Some((ns, t)) => Some(([n] + ns, t))
        else Some(([n], rest))
  }

  /** Un-doubles backslashes up to the closing `\"`; returns the path and what follows it. */
  function ReadEscaped(s: string): Option<(string, string)>
  {
    if s == [] then None
    else if s[0] != '\\' then
      match ReadEscaped(s[1..])
      case None => None
      case Some((v, rest)) => Some(([s[0]] + v, rest))
    else if |s| >= 2 && s[1] == '\\' then
      match ReadEscaped(s[2..])
      case None => None
      case Some((v, rest)) => Some(("\\" + v, rest))
    else if |s| >= 2 && s[1] == '"' then Some(("", s[2..]))
    else None
  }

  /** What follows `prefix` in `s`, when `s` starts with it. */
  function StripPrefix(prefix: string, s: string): (r: Option<string>)
    ensures r.Some? ==> s == prefix + r.value
  {
    if |s| >= |prefix| && s[..|prefix|] == prefix then Some(s[|prefix|..]) else None
  }

  lemma StripPrefixOf(prefix: string, rest: string)
    ensures StripPrefix(prefix, prefix + rest) == Some(rest)
  {
    assert (prefix + rest)[..|prefix|] == prefix;
    assert (prefix + rest)[|prefix|..] == rest;
  }

  /** Reads an install expression back into its package names and library path. */
  function ParseExpression(e: string): Option<(seq<string>, string)>
  {
    match StripPrefix(Head, e)
    case None => None
    case Some(afterHead) =>
      match ReadNames(afterHead)
      case None => None
      case Some((packages, rest)) =>
        match StripPrefix(Middle, rest)
        case None => None
        case Some(escaped) =>
          match ReadEscaped(escaped)
          case None => None
          case Some((lib, tail)) => if tail == Tail then Some((packages, lib)) else None
  }

  /** Names the quoting carries unambiguously: none contains a `"`. */
  predicate QuoteFree(packages: seq<string>)
  {
    forall i :: 0 <= i < |packages| ==> '"' !in packages[i]
  }

  /** A quote-free name followed by the closing `\"` reads back as itself. */
  lemma {:induction false} ReadNameQuoted(n: string, t: string)
    requires '"' !in n
    ensures ReadName(n + EscQuote + t) == Some((n, t))
  {
    var s := n + EscQuote + t;
    if n == [] {
      assert s == EscQuote + t;
    } else {
      assert s[0] == n[0] && s[0] != '"';
      assert s[1] == if |n| > 1 then n[1] else '\\';
      assert s[1..] == n[1..] + EscQuote + t;
      ReadNameQuoted(n[1..], t);
      assert [s[0]] + n[1..] == n;
    }
  }

  /** The quoted list reads back as the same names, in the same order, leaving
      the text that follows it, as long as no name contains a `"`. */
  lemma {:induction false} ReadNamesQuoted(packages: seq<string>, t: string)
    requires QuoteFree(packages)
    requires |t| > 0 && t[0] == ')'
    ensures ReadNames(QuotedList(packages) + t) == Some((packages, t))
  {
    if packages == [] {
      assert QuotedList(packages) + t == t;
    } else if |packages| == 1 {
      ReadLastName(packages, t);
    } else {
      var n := packages[0];
      assert '"' !in n by { assert 0 < |packages|; }
      var u := QuotedList(packages[1..]) + t;
      QuotedListFirst(packages, t);
      ReadNameQuoted(n, ", " + u);
      ReadNamesQuoted(packages[1..], t);
      ReadNamesMore(n, packages[1..], u, t);
      assert [n] + packages[1..] == packages;
    }
  }

  /** A one-name list reads back as that name, stopping at the `)` after it. */
  lemma ReadLastName(packages: seq<string>, t: string)
    requires |packages| == 1 && QuoteFree(packages)
    requires |t| > 0 && t[0] == ')'
    ensures ReadNames(QuotedList(packages) + t) == Some((packages, t))
  {
    var n := packages[0];
    assert '"' !in n;
    assert QuotedList(packages) + t == EscQuote + (n + EscQuote + t);
    ReadNameQuoted(n, t);
    ReadNamesLast(n, t);
    assert packages == [n];
  }

  /** The quoted list opens with the first name, then `, ` and the rest. */
  lemma QuotedListFirst(packages: seq<string>, t: string)
    requires |packages| > 1
    ensures QuotedList(packages) + t == EscQuote + (packages[0] + EscQuote + (", " + (QuotedList(packages[1..]) + t)))
  {
  }

  /** `ReadNames` on a last quoted name, with no `, ` after it. */
  lemma ReadNamesLast(n: string, t: string)
    requires ReadName(n + EscQuote + t) == Some((n, t))
    requires !(|t| >= 2 && t[0] == ',' && t[1] == ' ')
    ensures ReadNames(EscQuote + (n + EscQuote + t)) == Some(([n], t))
  {
    var s := EscQuote + (n + EscQuote + t);
    assert s[0] == '\\' && s[1] == '"' && s[2..] == n + EscQuote + t;
  }

  /** `ReadNames` on a quoted name followed by `, ` and more names. */
  lemma ReadNamesMore(n: string, ns: seq<string>, u: string, t: string)
    requires ReadName(n + EscQuote + (", " + u)) == Some((n, ", " + u))
    requires ReadNames(u) == Some((ns, t))
    ensures ReadNames(EscQuote + (n + EscQuote + (", " + u))) == Some(([n] + ns, t))
  {
    var s := EscQuote + (n + EscQuote + (", " + u));
    assert s[0] == '\\' && s[1] == '"' && s[2..] == n + EscQuote + (", " + u);
    var more := ", " + u;
    assert more[0] == ',' && more[1] == ' ' && more[2..] == u;
  }

  /** Un-doubling the escaped path gives back the path, whatever it contains. */
  lemma {:induction false} ReadEscapedDoubled(lib: string, t: string)
    ensures ReadEscaped(DoubleBackslashes(lib) + (EscQuote + t)) == Some((lib, t))
  {
    var closing := EscQuote + t;
    var s := DoubleBackslashes(lib) + closing;
    if lib == [] {
      assert s == closing;
    } else {
      ReadEscapedDoubled(lib[1..], t);
      if lib[0] == '\\' {
        assert s == "\\\\" + (DoubleBackslashes(lib[1..]) + closing);
        assert s[2..] == DoubleBackslashes(lib[1..]) + closing;
      } else {
        assert s == [lib[0]] + (DoubleBackslashes(lib[1..]) + closing);
        assert s[1..] == DoubleBackslashes(lib[1..]) + closing;
      }
      assert [lib[0]] + lib[1..] == lib;
    }
  }

  /** The expression determines its packages (in order) and its library path. */
  lemma ExpressionRoundTrip(packages: seq<string>, lib: string)
    requires QuoteFree(packages)
    ensures ParseExpression(Expression(packages, lib)) == Some((packages, lib))
  {
    var escaped := DoubleBackslashes(lib) + (EscQuote + Tail);
    var afterNames := Middle + escaped;
    var afterHead := QuotedList(packages) + afterNames;
    StripPrefixOf(Head, afterHead);
    ReadNamesQuoted(packages, afterNames);
    StripPrefixOf(Middle, escaped);
    ReadEscapedDoubled(lib, Tail);
    ParseSteps(Expression(packages, lib), afterHead, packages, afterNames, escaped, lib);
  }

  /** `ParseExpression` succeeds when each of its four steps does. */
  lemma ParseSteps(e: string, afterHead: string, packages: seq<string>, afterNames: string, escaped: string, lib: string)
    requires StripPrefix(Head, e) == Some(afterHead)
    requires ReadNames(afterHead) == Some((packages, afterNames))
    requires StripPrefix(Middle, afterNames) == Some(escaped)
    requires ReadEscaped(escaped) == Some((lib, Tail))
    ensures ParseExpression(e) == Some((packages, lib))
  {
  }
}
