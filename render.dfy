/** The rendering half of the formatter, shared by both copies: the describe
    rows folded from the last (innermost) to the first (outermost) around a
    `%s` hole, the it rows rendered one per line, and the final `%` that puts
    the it block into the hole. */
module Render {
  import opened PyText
  import opened Templates

  /** `WITH_SPACE_LENGTH`: spaces per nesting level. */
  const IndentUnit := 2

  /** No describe row holds a `%` (the `%` operator would read it as a conversion). */
  predicate RowsClean(rows: seq<string>)
  {
    forall k :: 0 <= k < |rows| ==> NoPercent(rows[k])
  }

  /** How the block nested inside describe row `i` is passed to row `i`'s template. */
  function Wrap(i: nat, inner: string): string
  {
    ("\n" + Spaces(IndentUnit * (i + 1))) + inner + ("\n" + Spaces(IndentUnit * i))
  }

  /** `describe_rst` once the loop has processed rows `i` to the last. */
  function Nest(t: Template, rows: seq<string>, i: nat): Result<string>
    requires i < |rows|
    decreases |rows| - i
  {
    if i == |rows| - 1 then Format(t, [rows[i], "%s"])
    else
      match Nest(t, rows, i + 1)
      case Err(e) => Err(e)
      case Ok(inner) => Format(t, [rows[i], Wrap(i, inner)])
  }

  /** The result of `proccesing_describe_list`: the empty string for no rows. */
  function Skeleton(t: Template, rows: seq<string>): Result<string>
  {
    if rows == [] then Ok("") else Nest(t, rows, 0)
  }

  /** An exception raised at an inner level propagates unchanged to every outer level. */
  lemma {:induction false} NestErrPropagates(t: Template, rows: seq<string>, j: nat, i: nat)
    requires j <= i < |rows| && Nest(t, rows, i).Err?
    ensures Nest(t, rows, j) == Nest(t, rows, i)
    decreases i - j
  {
    if j < i {
      NestErrPropagates(t, rows, j + 1, i);
    }
  }

  /** Every `%` of the skeleton starts a `%s`. */
  lemma {:induction false} NestHolesOnly(t: Template, rows: seq<string>, i: nat)
    requires i < |rows| && LiteralsClean(t.pieces) && RowsClean(rows)
    requires Nest(t, rows, i).Ok?
    ensures HolesOnly(Nest(t, rows, i).value)
    decreases |rows| - i
  {
    if i == |rows| - 1 {
      NestLast(t, rows);
      SubstHolesOnly(t.pieces, rows[i], "%s");
    } else {
      NestStep(t, rows, i);
      NestHolesOnly(t, rows, i + 1);
      var inner := Nest(t, rows, i + 1).value;
      WrapHolesOnly(i, inner);
      SubstHolesOnly(t.pieces, rows[i], Wrap(i, inner));
    }
  }

  lemma WrapHolesOnly(i: nat, inner: string)
    requires HolesOnly(inner)
    ensures HolesOnly(Wrap(i, inner))
  {
    var pre, post := "\n" + Spaces(IndentUnit * (i + 1)), "\n" + Spaces(IndentUnit * i);
    assert '%' !in pre && '%' !in post;
    HolesOnlyConcat(pre, inner);
    HolesOnlyConcat(pre + inner, post);
  }

  lemma SkeletonHolesOnly(t: Template, rows: seq<string>)
    requires LiteralsClean(t.pieces) && RowsClean(rows) && Skeleton(t, rows).Ok?
    ensures HolesOnly(Skeleton(t, rows).value)
  {
    if rows != [] {
      NestHolesOnly(t, rows, 0);
    }
  }

  function Pow(b: nat, e: nat): nat
  {
    if e == 0 then 1 else b * Pow(b, e - 1)
  }

  lemma {:induction false} PowIsOne(b: nat, e: nat)
    requires e > 0
    ensures Pow(b, e) == 1 <==> b == 1
  {
    if b == 0 {
      assert Pow(b, e) == 0;
    } else if b == 1 {
      PowOfOne(e);
    } else {
      PowGrows(b, e);
    }
  }

  lemma {:induction false} PowOfOne(e: nat)
    ensures Pow(1, e) == 1
  {
    if e > 0 { PowOfOne(e - 1); }
  }

  lemma {:induction false} PowGrows(b: nat, e: nat)
    requires b >= 2 && e > 0
    ensures Pow(b, e) >= 2
  {
    if e > 1 {
      PowGrows(b, e - 1);
      assert b * Pow(b, e - 1) >= Pow(b, e - 1);
    }
  }

  /** One level of the fold, unfolded. */
  lemma NestStep(t: Template, rows: seq<string>, i: nat)
    requires i < |rows| - 1 && Nest(t, rows, i).Ok?
    ensures Nest(t, rows, i + 1).Ok?
    ensures Nest(t, rows, i) == Subst(t.pieces, [rows[i], Wrap(i, Nest(t, rows, i + 1).value)])
  {
  }

  lemma NestLast(t: Template, rows: seq<string>)
    requires |rows| > 0 && Nest(t, rows, |rows| - 1).Ok?
    ensures Nest(t, rows, |rows| - 1) == Subst(t.pieces, [rows[|rows| - 1], "%s"])
  {
  }

  /** Each level multiplies the number of holes by the number of times the
      template uses `{1}`, so the skeleton of `n` rows has `u^n` of them. */
  lemma {:induction false} NestHoleCount(t: Template, rows: seq<string>, i: nat)
    requires i < |rows| && LiteralsClean(t.pieces) && RowsClean(rows)
    requires Nest(t, rows, i).Ok?
    ensures Holes(Nest(t, rows, i).value) == Pow(Uses(t.pieces, 1), |rows| - i)
    decreases |rows| - i
  {
    var u := Uses(t.pieces, 1);
    if i == |rows| - 1 {
      NestHoleLast(t, rows);
      assert Pow(u, 1) == u * Pow(u, 0);
    } else {
      NestHoleStep(t, rows, i);
      NestHoleCount(t, rows, i + 1);
      var h, p := Holes(Nest(t, rows, i + 1).value), Pow(u, |rows| - (i + 1));
      assert h == p;
      assert Pow(u, |rows| - i) == u * p;
    }
  }

  /** The innermost level holds one hole per use of `{1}`. */
  lemma NestHoleLast(t: Template, rows: seq<string>)
    requires |rows| > 0 && LiteralsClean(t.pieces) && RowsClean(rows)
    requires Nest(t, rows, |rows| - 1).Ok?
    ensures Holes(Nest(t, rows, |rows| - 1).value) == Uses(t.pieces, 1)
  {
    NestLast(t, rows);
    SubstHoles(t.pieces, rows[|rows| - 1], "%s");
    HoleHoles();
  }

  /** One level of the fold multiplies the holes of the level inside it by
      the number of uses of `{1}`. */
  lemma NestHoleStep(t: Template, rows: seq<string>, i: nat)
    requires i < |rows| - 1 && LiteralsClean(t.pieces) && RowsClean(rows)
    requires Nest(t, rows, i).Ok?
    ensures Nest(t, rows, i + 1).Ok?
    ensures Holes(Nest(t, rows, i).value) == Uses(t.pieces, 1) * Holes(Nest(t, rows, i + 1).value)
  {
    NestStep(t, rows, i);
    var inner := Nest(t, rows, i + 1).value;
    WrapHoles(i, inner);
    SubstHoles(t.pieces, rows[i], Wrap(i, inner));
  }

  /** The newlines and indentation around a nested block add no `%`. */
  lemma WrapHoles(i: nat, inner: string)
    ensures Holes(Wrap(i, inner)) == Holes(inner)
  {
    var pre, post := "\n" + Spaces(IndentUnit * (i + 1)), "\n" + Spaces(IndentUnit * i);
    assert '%' !in pre && '%' !in post;
    HolesConcat(pre, inner);
    HolesConcat(pre + inner, post);
  }

  /** The openings of rows `i` to the last, outermost first: each row's text
      before its `{1}`, then the newline and deeper indentation of the next level. */
  function Opens(t: Template, rows: seq<string>, i: nat): string
    requires i < |rows|
    decreases |rows| - i
  {
    Before(t.pieces, rows[i])
      + (if i == |rows| - 1 then "" else ("\n" + Spaces(IndentUnit * (i + 1))) + Opens(t, rows, i + 1))
  }

  /** The closings of rows `i` to the last, innermost first: the newline and
      shallower indentation that end a level, then the row's text after its `{1}`. */
  function Closes(t: Template, rows: seq<string>, i: nat): string
    requires i < |rows|
    decreases |rows| - i
  {
    (if i == |rows| - 1 then "" else Closes(t, rows, i + 1) + ("\n" + Spaces(IndentUnit * i)))
      + After(t.pieces, rows[i])
  }

  /** With a template that uses `{1}` once, the fold is flat: the openings of
      rows `i..` in row order, the hole, then their closings in reverse order. */
  lemma {:induction false} NestFlat(t: Template, rows: seq<string>, i: nat)
    requires i < |rows| && Uses(t.pieces, 1) == 1 && Nest(t, rows, i).Ok?
    ensures Nest(t, rows, i).value == Opens(t, rows, i) + "%s" + Closes(t, rows, i)
    decreases |rows| - i
  {
    if i == |rows| - 1 {
      NestLast(t, rows);
      SubstAround(t.pieces, rows[i], "%s");
    } else {
      NestStep(t, rows, i);
      NestFlat(t, rows, i + 1);
      var inner := Nest(t, rows, i + 1).value;
      SubstAround(t.pieces, rows[i], Wrap(i, inner));
      FlatStep(Before(t.pieces, rows[i]), After(t.pieces, rows[i]),
               Opens(t, rows, i + 1), Closes(t, rows, i + 1),
               "\n" + Spaces(IndentUnit * (i + 1)), "\n" + Spaces(IndentUnit * i), inner);
    }
  }

  lemma FlatStep(b: string, a: string, o: string, c: string, p: string, q: string, inner: string)
    requires inner == o + "%s" + c
    ensures b + (p + inner + q) + a == (b + (p + o)) + "%s" + ((c + q) + a)
  {
  }

  lemma {:induction false} OpensClosesClean(t: Template, rows: seq<string>, i: nat)
    requires i < |rows| && LiteralsClean(t.pieces) && RowsClean(rows)
    ensures NoPercent(Opens(t, rows, i)) && NoPercent(Closes(t, rows, i))
    decreases |rows| - i
  {
    OutsideClean(t.pieces, rows[i]);
    if i < |rows| - 1 {
      OpensClosesClean(t, rows, i + 1);
    }
  }

  // ---------------------------------------------------------------------
  // The it block

  /** The line whose formatting raises an exception other than ValueError. */
  predicate Fatal(t: Template, line: string, id: string, body: string)
  {
    Format(t, [line, id, body]).Err? && Format(t, [line, id, body]).error != ValueError
  }

  /** `it_text` after the loop of `proccesing_it_list` in story_to_jasmine.py:
      starts as a newline; each line that formats is appended after `sp`; a
      ValueError skips the line; any other exception escapes. */
  function ItText(t: Template, lines: seq<string>, id: string, sp: string, body: string): Result<string>
    decreases |lines|
  {
    if lines == [] then Ok("\n")
    else
      match ItText(t, lines[..|lines| - 1], id, sp, body)
      case Err(e) => Err(e)
      case Ok(acc) =>
        match Format(t, [lines[|lines| - 1], id, body])
        case Ok(s) => Ok(acc + (sp + s))
        case Err(e) => if e == ValueError then Ok(acc) else Err(e)
  }

  /** Reference: the formatted texts of the lines that format, in line order. */
  function Kept(t: Template, lines: seq<string>, id: string, body: string): seq<string>
  {
    if lines == [] then []
    else
      (match Format(t, [lines[0], id, body]) case Ok(s) => [s] case Err(_) => [])
        + Kept(t, lines[1..], id, body)
  }

  /** Each text on its own indentation, concatenated. */
  function Indented(sp: string, texts: seq<string>): string
  {
    if texts == [] then "" else sp + texts[0] + Indented(sp, texts[1..])
  }

  lemma {:induction false} IndentedAppend(sp: string, a: seq<string>, b: seq<string>)
    ensures Indented(sp, a + b) == Indented(sp, a) + Indented(sp, b)
  {
    if a != [] {
      assert (a + b)[1..] == a[1..] + b;
      IndentedAppend(sp, a[1..], b);
    } else {
      assert a + b == b;
    }
  }

  lemma {:induction false} KeptAppend(t: Template, lines: seq<string>, x: string, id: string, body: string)
    ensures Kept(t, lines + [x], id, body)
         == Kept(t, lines, id, body) + Kept(t, [x], id, body)
  {
    if lines != [] {
      assert (lines + [x])[1..] == lines[1..] + [x];
      KeptAppend(t, lines[1..], x, id, body);
    } else {
      assert lines + [x] == [x];
    }
  }

  /** Without a fatal line, the it block is a newline followed, in line order,
      by every line that formats, each after the same indentation; the lines
      that raise ValueError contribute nothing. */
  lemma {:induction false} ItTextKept(t: Template, lines: seq<string>, id: string, sp: string, body: string)
    requires forall k :: 0 <= k < |lines| ==> !Fatal(t, lines[k], id, body)
    ensures ItText(t, lines, id, sp, body) == Ok("\n" + Indented(sp, Kept(t, lines, id, body)))
    decreases |lines|
  {
    if lines != [] {
      var n := |lines|;
      var init, x := lines[..n - 1], lines[n - 1];
      assert forall k :: 0 <= k < |init| ==> init[k] == lines[k];
      ItTextKept(t, init, id, sp, body);
      ItTextKeptStep(t, init, x, id, sp, body);
      assert init + [x] == lines;
    } else {
      assert "\n" + "" == "\n";
    }
  }

  /** One more line that is not fatal keeps the it block in the reference form. */
  lemma ItTextKeptStep(t: Template, init: seq<string>, x: string, id: string, sp: string, body: string)
    requires ItText(t, init, id, sp, body) == Ok("\n" + Indented(sp, Kept(t, init, id, body)))
    requires !Fatal(t, x, id, body)
    ensures ItText(t, init + [x], id, sp, body) == Ok("\n" + Indented(sp, Kept(t, init + [x], id, body)))
  {
    KeptAppend(t, init, x, id, body);
    assert [x][1..] == [];
    if Format(t, [x, id, body]).Ok? {
      assert Kept(t, [x], id, body) == [Format(t, [x, id, body]).value];
      ItTextKeptFormats(t, init, x, id, sp, body);
    } else {
      assert Kept(t, [x], id, body) == [];
      ItTextKeptSkips(t, init, x, id, sp, body);
    }
  }

  lemma ItTextKeptFormats(t: Template, init: seq<string>, x: string, id: string, sp: string, body: string)
    requires ItText(t, init, id, sp, body) == Ok("\n" + Indented(sp, Kept(t, init, id, body)))
    requires Format(t, [x, id, body]).Ok?
    ensures ItText(t, init + [x], id, sp, body)
         == Ok("\n" + Indented(sp, Kept(t, init, id, body) + [Format(t, [x, id, body]).value]))
  {
    var lines := init + [x];
    assert lines[..|lines| - 1] == init && lines[|lines| - 1] == x;
    IndentedSnoc(sp, Kept(t, init, id, body), Format(t, [x, id, body]).value);
  }

  lemma IndentedSnoc(sp: string, texts: seq<string>, s: string)
    ensures "\n" + Indented(sp, texts + [s]) == ("\n" + Indented(sp, texts)) + (sp + s)
  {
    IndentedAppend(sp, texts, [s]);
    assert Indented(sp, [s]) == sp + s by { assert [s][1..] == []; assert sp + s + "" == sp + s; }
  }

  lemma ItTextKeptSkips(t: Template, init: seq<string>, x: string, id: string, sp: string, body: string)
    requires ItText(t, init, id, sp, body) == Ok("\n" + Indented(sp, Kept(t, init, id, body)))
    requires Format(t, [x, id, body]) == Err(ValueError)
    ensures ItText(t, init + [x], id, sp, body) == Ok("\n" + Indented(sp, Kept(t, init, id, body) + []))
  {
    var lines := init + [x];
    assert lines[..|lines| - 1] == init && lines[|lines| - 1] == x;
    assert Kept(t, init, id, body) + [] == Kept(t, init, id, body);
  }

  /** The it block fails exactly when some line raises something other than ValueError. */
  lemma {:induction false} ItTextFails(t: Template, lines: seq<string>, id: string, sp: string, body: string)
    ensures ItText(t, lines, id, sp, body).Err?
        <==> exists k :: 0 <= k < |lines| && Fatal(t, lines[k], id, body)
    decreases |lines|
  {
    if lines != [] {
      var n := |lines|;
      var init := lines[..n - 1];
      ItTextFails(t, init, id, sp, body);
      if exists k :: 0 <= k < |init| && Fatal(t, init[k], id, body) {
        var k :| 0 <= k < |init| && Fatal(t, init[k], id, body);
        assert lines[k] == init[k];
      }
      if exists k :: 0 <= k < |lines| && Fatal(t, lines[k], id, body) {
        var k :| 0 <= k < |lines| && Fatal(t, lines[k], id, body);
        if k < n - 1 {
          assert init[k] == lines[k];
        }
      }
    }
  }

  /** A line that raises ValueError is skipped and the lines after it are
      still rendered: the block is the one without that line. */
  lemma {:induction false} ItTextSkips(t: Template, xs: seq<string>, x: string, ys: seq<string>,
                                       id: string, sp: string, body: string)
    requires Format(t, [x, id, body]) == Err(ValueError)
    ensures ItText(t, xs + [x] + ys, id, sp, body) == ItText(t, xs + ys, id, sp, body)
    decreases |ys|
  {
    if ys == [] {
      assert xs + [x] + ys == xs + [x];
      assert (xs + [x])[..|xs|] == xs;
      assert xs + ys == xs;
    } else {
      var m := |ys|;
      ItTextSkips(t, xs, x, ys[..m - 1], id, sp, body);
      var a, b := xs + [x] + ys, xs + ys;
      assert a[..|a| - 1] == xs + [x] + ys[..m - 1];
      assert b[..|b| - 1] == xs + ys[..m - 1];
      assert a[|a| - 1] == ys[m - 1] == b[|b| - 1];
    }
  }

  /** An exception raised by the first `k` lines escapes unchanged. */
  lemma {:induction false} ItTextErrPropagates(t: Template, lines: seq<string>, k: nat,
                                               id: string, sp: string, body: string)
    requires k <= |lines| && ItText(t, lines[..k], id, sp, body).Err?
    ensures ItText(t, lines, id, sp, body) == ItText(t, lines[..k], id, sp, body)
    decreases |lines| - k
  {
    if k < |lines| {
      assert lines[..k + 1][..k] == lines[..k];
      ItTextErrPropagates(t, lines, k + 1, id, sp, body);
    } else {
      assert lines[..k] == lines;
    }
  }

  /** The block only grows: what the first `k` lines render is a prefix of
      the whole block, so the block starts with a newline and keeps line order. */
  lemma {:induction false} ItTextGrows(t: Template, lines: seq<string>, k: nat,
                                       id: string, sp: string, body: string)
    requires k <= |lines| && ItText(t, lines, id, sp, body).Ok?
    ensures ItText(t, lines[..k], id, sp, body).Ok?
    ensures ItText(t, lines[..k], id, sp, body).value <= ItText(t, lines, id, sp, body).value
    ensures "\n" <= ItText(t, lines, id, sp, body).value
    decreases |lines|
  {
    if lines == [] {
      assert lines[..k] == lines;
    } else {
      var n := |lines|;
      var init := lines[..n - 1];
      assert ItText(t, init, id, sp, body).Ok?;
      if k < n {
        assert init[..k] == lines[..k];
        ItTextGrows(t, init, k, id, sp, body);
      } else {
        assert lines[..k] == lines;
        ItTextGrows(t, init, 0, id, sp, body);
      }
      ItTextGrows(t, init, 0, id, sp, body);
    }
  }

  /** `it_text` after the loop of `proccesing_it_list` in plugin.py, as
      written: its handler `except (ValueError, e)` names an undefined `e`,
      and Python evaluates that tuple whenever the try body raises, so any
      exception from `format`, ValueError included, becomes a NameError
      that escapes. */
  function PluginItText(t: Template, lines: seq<string>, id: string, sp: string, body: string): Result<string>
    decreases |lines|
  {
    if lines == [] then Ok("\n")
    else
      match PluginItText(t, lines[..|lines| - 1], id, sp, body)
      case Err(e) => Err(e)
      case Ok(acc) =>
        match Format(t, [lines[|lines| - 1], id, body])
        case Ok(s) => Ok(acc + (sp + s))
        case Err(_) => Err(NameError)
  }

  lemma {:induction false} PluginItTextErrPropagates(t: Template, lines: seq<string>, k: nat,
                                                     id: string, sp: string, body: string)
    requires k <= |lines| && PluginItText(t, lines[..k], id, sp, body).Err?
    ensures PluginItText(t, lines, id, sp, body) == PluginItText(t, lines[..k], id, sp, body)
    decreases |lines| - k
  {
    if k < |lines| {
      assert lines[..k + 1][..k] == lines[..k];
      PluginItTextErrPropagates(t, lines, k + 1, id, sp, body);
    } else {
      assert lines[..k] == lines;
    }
  }

  /** When every line formats the handler never runs and the two
      renderings agree. */
  lemma {:induction false} PluginItTextAgrees(t: Template, lines: seq<string>, id: string, sp: string, body: string)
    requires forall k :: 0 <= k < |lines| ==> Format(t, [lines[k], id, body]).Ok?
    ensures PluginItText(t, lines, id, sp, body) == ItText(t, lines, id, sp, body)
    decreases |lines|
  {
    if lines != [] {
      var n := |lines|;
      var init := lines[..n - 1];
      assert forall k :: 0 <= k < |init| ==> init[k] == lines[k];
      PluginItTextAgrees(t, init, id, sp, body);
    }
  }

  /** The plugin's it block fails exactly when some line does not format,
      and then always with NameError. */
  lemma {:induction false} PluginItTextFails(t: Template, lines: seq<string>, id: string, sp: string, body: string)
    ensures PluginItText(t, lines, id, sp, body).Err?
        <==> exists k :: 0 <= k < |lines| && Format(t, [lines[k], id, body]).Err?
    ensures PluginItText(t, lines, id, sp, body).Err? ==> PluginItText(t, lines, id, sp, body).error == NameError
    decreases |lines|
  {
    if lines != [] {
      var n := |lines|;
      var init := lines[..n - 1];
      PluginItTextFails(t, init, id, sp, body);
      if exists k :: 0 <= k < |init| && Format(t, [init[k], id, body]).Err? {
        var k :| 0 <= k < |init| && Format(t, [init[k], id, body]).Err?;
        assert lines[k] == init[k];
      }
      if exists k :: 0 <= k < |lines| && Format(t, [lines[k], id, body]).Err? {
        var k :| 0 <= k < |lines| && Format(t, [lines[k], id, body]).Err?;
        if k < n - 1 {
          assert init[k] == lines[k];
        }
      }
    }
  }

  /** The block the plugin copy returns still starts with a newline. */
  lemma {:induction false} PluginItTextNewline(t: Template, lines: seq<string>, id: string, sp: string, body: string)
    requires PluginItText(t, lines, id, sp, body).Ok?
    ensures "\n" <= PluginItText(t, lines, id, sp, body).value
    decreases |lines|
  {
    if lines != [] {
      var acc := PluginItText(t, lines[..|lines| - 1], id, sp, body);
      PluginItTextNewline(t, lines[..|lines| - 1], id, sp, body);
      assert acc.value <= PluginItText(t, lines, id, sp, body).value;
    }
  }

  /** As written, one line that raises ValueError (or any other exception)
      aborts the whole it block with NameError, whatever follows it. */
  lemma {:induction false} PluginItTextAborts(t: Template, xs: seq<string>, x: string, ys: seq<string>,
                                              id: string, sp: string, body: string)
    requires Format(t, [x, id, body]).Err?
    requires PluginItText(t, xs, id, sp, body).Ok?
    ensures PluginItText(t, xs + [x] + ys, id, sp, body) == Err(NameError)
    decreases |ys|
  {
    if ys == [] {
      assert xs + [x] + ys == xs + [x];
      assert (xs + [x])[..|xs|] == xs;
    } else {
      var m := |ys|;
      PluginItTextAborts(t, xs, x, ys[..m - 1], id, sp, body);
      var a := xs + [x] + ys;
      assert a[..|a| - 1] == xs + [x] + ys[..m - 1];
    }
  }

  // ---------------------------------------------------------------------
  // Putting the it block into the skeleton

  /** The tail of `parse`/`parser`: the it block is computed first, then the
      skeleton, then `desc % its`. */
  function Assemble(dt: Template, describe: seq<string>, its: Result<string>): Result<string>
    requires LiteralsClean(dt.pieces) && RowsClean(describe)
  {
    match its
    case Err(e) => Err(e)
    case Ok(block) =>
      match Skeleton(dt, describe)
      case Err(e) => Err(e)
      case Ok(desc) =>
        SkeletonHolesOnly(dt, describe);
        Interpolate(desc, block)
  }

  /** With a describe template that uses `{1}` once, the output is the
      openings of the describe rows (first row outermost), the it block, and
      the closings (last row innermost first). */
  lemma AssembleShape(dt: Template, describe: seq<string>, block: string)
    requires LiteralsClean(dt.pieces) && RowsClean(describe)
    requires describe != [] && Uses(dt.pieces, 1) == 1 && Skeleton(dt, describe).Ok?
    ensures Assemble(dt, describe, Ok(block))
         == Ok(Opens(dt, describe, 0) + block + Closes(dt, describe, 0))
  {
    NestFlat(dt, describe, 0);
    OpensClosesClean(dt, describe, 0);
    InterpolateHole(Opens(dt, describe, 0), Closes(dt, describe, 0), block);
  }

  /** `desc % its` raises TypeError unless the skeleton has exactly one hole,
      which needs at least one describe row and a describe template that uses
      `{1}` exactly once. */
  lemma AssembleTypeError(dt: Template, describe: seq<string>, block: string)
    requires LiteralsClean(dt.pieces) && RowsClean(describe) && Skeleton(dt, describe).Ok?
    ensures Assemble(dt, describe, Ok(block)).Ok? <==> describe != [] && Uses(dt.pieces, 1) == 1
    ensures Assemble(dt, describe, Ok(block)).Err? ==> Assemble(dt, describe, Ok(block)).error == TypeError
  {
    if describe != [] {
      NestHoleCount(dt, describe, 0);
      PowIsOne(Uses(dt.pieces, 1), |describe|);
    }
  }
}
