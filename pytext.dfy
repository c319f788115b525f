/** The few Python string operations the story formatter relies on:
    `' ' * n`, `str.strip()`, `str.startswith`, `str.split('\n')`, and the
    `%` operator applied to a format string whose only conversions are `%s`. */
module PyText {

  /** The Python exceptions the formatter can raise or catch. */
  datatype PyError = IndexError | ValueError | TypeError | NameError

  /** A computation that either returns a value or raises a Python exception. */
  datatype Result<T> = Ok(value: T) | Err(error: PyError)

  /** Python's `' ' * n`. */
  function Spaces(n: nat): (r: string)
    ensures |r| == n
    ensures forall k :: 0 <= k < n ==> r[k] == ' '
  {
    if n == 0 then "" else Spaces(n - 1) + " "
  }

  /** `str.isspace()` for one character: the characters Python's `str.strip()`
      removes when called without arguments. */
  predicate IsSpace(c: char)
  {
    c == ' ' || c == '\t' || c == '\n' || c == '\r' || c == '\U{000B}' || c == '\U{000C}'
    || ('\U{001C}' <= c <= '\U{001F}') || c == '\U{0085}' || c == '\U{00A0}' || c == '\U{1680}'
    || ('\U{2000}' <= c <= '\U{200A}') || c == '\U{2028}' || c == '\U{2029}' || c == '\U{202F}'
    || c == '\U{205F}' || c == '\U{3000}'
  }

  /** `str.lstrip()`. */
  function TrimLeft(s: string): string
  {
    if s != [] && IsSpace(s[0]) then TrimLeft(s[1..]) else s
  }

  /** `lstrip()` keeps the longest suffix of `s` that does not start with
      whitespace: everything it cuts off is whitespace. */
  lemma {:induction false} TrimLeftSpec(s: string)
    ensures |TrimLeft(s)| <= |s| && TrimLeft(s) == s[|s| - |TrimLeft(s)|..]
    ensures TrimLeft(s) == [] || !IsSpace(TrimLeft(s)[0])
    ensures forall k :: 0 <= k < |s| - |TrimLeft(s)| ==> IsSpace(s[k])
  {
    if s != [] && IsSpace(s[0]) {
      TrimLeftSpec(s[1..]);
      assert s[1..][|s| - 1 - |TrimLeft(s)|..] == s[|s| - |TrimLeft(s)|..];
      forall k | 0 <= k < |s| - |TrimLeft(s)|
        ensures IsSpace(s[k])
      {
        if k > 0 { assert s[k] == s[1..][k - 1]; }
      }
    }
  }

  /** `str.rstrip()`. */
  function TrimRight(s: string): string
  {
    if s != [] && IsSpace(s[|s| - 1]) then TrimRight(s[..|s| - 1]) else s
  }

  /** `rstrip()` keeps the longest prefix of `s` that does not end with
      whitespace: everything it cuts off is whitespace. */
  lemma {:induction false} TrimRightSpec(s: string)
    ensures |TrimRight(s)| <= |s| && TrimRight(s) == s[..|TrimRight(s)|]
    ensures TrimRight(s) == [] || !IsSpace(TrimRight(s)[|TrimRight(s)| - 1])
    ensures forall k :: |TrimRight(s)| <= k < |s| ==> IsSpace(s[k])
  {
    if s != [] && IsSpace(s[|s| - 1]) {
      TrimRightSpec(s[..|s| - 1]);
      assert s[..|s| - 1][..|TrimRight(s)|] == s[..|TrimRight(s)|];
      forall k | |TrimRight(s)| <= k < |s|
        ensures IsSpace(s[k])
      {
        if k < |s| - 1 { assert s[k] == s[..|s| - 1][k]; }
      }
    }
  }

  /** `str.strip()`. */
  function Strip(s: string): string
  {
    TrimRight(TrimLeft(s))
  }

  /** `s.startswith(p)`; the empty prefix starts every string. */
  predicate StartsWith(s: string, p: string)
  {
    p <= s
  }

  /** Index of the first occurrence of `c` in `s`. */
  function IndexOf(s: string, c: char): (i: nat)
    requires c in s
    ensures i < |s| && s[i] == c && c !in s[..i]
  {
    if s[0] == c then 0 else 1 + IndexOf(s[1..], c)
  }

  /** `sep.join(parts)` for a one-character separator. */
  function Join(parts: seq<string>, sep: char): string
  {
    if |parts| == 0 then ""
    else if |parts| == 1 then parts[0]
    else parts[0] + [sep] + Join(parts[1..], sep)
  }

  /** `s.split(sep)` for a one-character separator: never empty, the pieces
      hold no separator, and joining them back gives `s`. */
  function Split(s: string, sep: char): (r: seq<string>)
    ensures |r| >= 1
    ensures forall k :: 0 <= k < |r| ==> sep !in r[k]
    ensures Join(r, sep) == s
  {
    if sep !in s then [s]
    else
      var i := IndexOf(s, sep);
      assert s == s[..i] + [sep] + s[i + 1..];
      [s[..i]] + Split(s[i + 1..], sep)
  }

  /** Splitting is the inverse of joining separator-free pieces, so the
      pieces `Split` returns are the only ones its ensures allow. */
  lemma {:induction false} SplitJoin(parts: seq<string>, sep: char)
    requires |parts| >= 1
    requires forall k :: 0 <= k < |parts| ==> sep !in parts[k]
    ensures Split(Join(parts, sep), sep) == parts
  {
    if |parts| > 1 {
      var s := Join(parts, sep);
      var rest := Join(parts[1..], sep);
      assert s == parts[0] + [sep] + rest;
      assert sep in s by { assert s[|parts[0]|] == sep; }
      var i := IndexOf(s, sep);
      assert forall j :: 0 <= j < |parts[0]| ==> s[j] == parts[0][j];
      assert forall j :: 0 <= j < i ==> s[..i][j] == s[j];
      assert i == |parts[0]|;
      assert s[..i] == parts[0];
      assert s[i + 1..] == rest;
      SplitJoin(parts[1..], sep);
    }
  }

  /** Number of `%` characters in `s`. */
  function Holes(s: string): (n: nat)
    ensures n <= |s|
    ensures n == 0 <==> '%' !in s
  {
    if s == [] then 0 else Holes(s[..|s| - 1]) + (if s[|s| - 1] == '%' then 1 else 0)
  }

  lemma {:induction false} HolesConcat(a: string, b: string)
    ensures Holes(a + b) == Holes(a) + Holes(b)
  {
    if b != [] {
      assert (a + b)[..|a + b| - 1] == a + b[..|b| - 1];
      HolesConcat(a, b[..|b| - 1]);
    } else {
      assert a + b == a;
    }
  }

  /** The hole itself holds one `%`. */
  lemma HoleHoles()
    ensures Holes("%s") == 1
  {
    assert "%s"[..1] == "%";
  }

  predicate NoPercent(s: string)
  {
    '%' !in s
  }

  /** Every `%` in `s` starts a `%s` conversion: the only shape of format
      string the formatter ever hands to the `%` operator. */
  predicate HolesOnly(s: string)
  {
    forall i :: 0 <= i < |s| && s[i] == '%' ==> i + 1 < |s| && s[i + 1] == 's'
  }

  lemma HolesOnlyConcat(a: string, b: string)
    requires HolesOnly(a) && HolesOnly(b)
    ensures HolesOnly(a + b)
  {
    forall i | 0 <= i < |a + b| && (a + b)[i] == '%'
      ensures i + 1 < |a + b| && (a + b)[i + 1] == 's'
    {
      if i < |a| {
        assert a[i] == '%';
      } else {
        assert b[i - |a|] == '%';
      }
    }
  }

  /** `s % arg` for a string argument, where every `%` of `s` begins `%s`:
      the sole `%s` is replaced by `arg`; with no conversion Python raises
      TypeError ("not all arguments converted"), with two or more it raises
      TypeError ("not enough arguments"). */
  function Interpolate(s: string, arg: string): (r: Result<string>)
    requires HolesOnly(s)
    ensures r.Ok? <==> Holes(s) == 1
    ensures r.Err? ==> r.error == TypeError
  {
    if Holes(s) != 1 then Err(TypeError)
    else
      var i := IndexOf(s, '%');
      Ok(s[..i] + arg + s[i + 2..])
  }

  /** The one `%s` hole is replaced and everything around it is kept verbatim. */
  lemma InterpolateHole(pre: string, post: string, arg: string)
    requires NoPercent(pre) && NoPercent(post)
    ensures HolesOnly(pre + "%s" + post)
    ensures Interpolate(pre + "%s" + post, arg) == Ok(pre + arg + post)
  {
    var s := pre + "%s" + post;
    HolesOnlyConcat(pre, "%s");
    HolesOnlyConcat(pre + "%s", post);
    HolesConcat(pre, "%s");
    HolesConcat(pre + "%s", post);
    assert "%s"[..1] == "%";
    assert Holes("%s") == 1;
    assert s[|pre|] == '%';
    var i := IndexOf(s, '%');
    assert forall j :: 0 <= j < |pre| ==> s[j] == pre[j];
    assert i == |pre|;
    assert s[..i] == pre;
    assert s[i + 2..] == post;
  }
}
