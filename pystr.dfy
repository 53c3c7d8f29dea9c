/** The Python string built-ins the interpreter locator relies on. */
module PyStr {

  /** Number of occurrences of `c` in `s`. */
  function Count(s: string, c: char): nat
  {
    if s == [] then 0 else (if s[0] == c then 1 else 0) + Count(s[1..], c)
  }

  /** Counting distributes over concatenation. */
  lemma {:induction false} CountConcat(a: string, b: string, c: char)
    ensures Count(a + b, c) == Count(a, c) + Count(b, c)
  {
    if a != [] {
      assert (a + b)[0] == a[0] && (a + b)[1..] == a[1..] + b;
      CountConcat(a[1..], b, c);
    } else {
      assert a + b == b;
    }
  }

  /** `s.split(sep)` for a one-character separator: every occurrence cuts, so
      the parts are one more than the separators and none contains one. */
  function Split(s: string, sep: char): (parts: seq<string>)
    ensures |parts| == Count(s, sep) + 1
    ensures forall i :: 0 <= i < |parts| ==> sep !in parts[i]
  {
    if s == [] then [""]
    else
      var rest := Split(s[1..], sep);
      if s[0] == sep then [""] + rest
      else
        assert sep !in [s[0]] + rest[0];
        [[s[0]] + rest[0]] + rest[1..]
  }

  /** `sep.join(parts)`. */
  function Join(sep: string, parts: seq<string>): string
  {
    if parts == [] then ""
    else if |parts| == 1 then parts[0]
    else parts[0] + sep + Join(sep, parts[1..])
  }

  /** Joining the parts of a split with the separator gives back the string. */
  lemma {:induction false} JoinSplit(s: string, sep: char)
    ensures Join([sep], Split(s, sep)) == s
  {
    if s != [] {
      var rest := Split(s[1..], sep);
      JoinSplit(s[1..], sep);
      if s[0] != sep && |rest| > 1 {
        assert Split(s, sep)[1..] == rest[1..];
        assert Join([sep], rest) == rest[0] + [sep] + Join([sep], rest[1..]);
        assert s == [s[0]] + s[1..];
      } else if s[0] == sep {
        assert Split(s, sep)[1..] == rest;
      }
    }
  }

  /** `s.replace(c, repl)` for a one-character pattern: each `c`, left to right, becomes `repl`. */
  function ReplaceChar(s: string, c: char, repl: string): string
  {
    if s == [] then "" else (if s[0] == c then repl else [s[0]]) + ReplaceChar(s[1..], c, repl)
  }

  /** Every occurrence of `c` grows by `|repl| - 1` characters; the others are kept. */
  lemma {:induction false} ReplaceCharLength(s: string, c: char, repl: string)
    ensures |ReplaceChar(s, c, repl)| + Count(s, c) == |s| + Count(s, c) * |repl|
  {
    if s != [] {
      ReplaceCharLength(s[1..], c, repl);
      if s[0] == c {
        assert Count(s, c) * |repl| == Count(s[1..], c) * |repl| + |repl|;
      }
    }
  }
}
