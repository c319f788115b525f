/** Python's `str.format` on the two configured templates. A template is
    taken as already parsed: literal text (with `{{` and `}}` unescaped) and
    positional replacement fields `{k}`. The arguments are inserted verbatim. */
module Templates {
  import opened PyText

  datatype Piece = Lit(text: string) | Field(index: nat)

  /** `rejects(args)` holds of the argument lists for which `.format(*args)`
      raises ValueError, for instance a format spec (possibly taken from an
      argument through a nested field) that a string does not accept. Which
      argument lists those are is left to the template. */
  datatype Template = Template(pieces: seq<Piece>, rejects: seq<string> -> bool)

  /** Every replacement field names one of the first `n` arguments. */
  predicate FieldsBelow(ps: seq<Piece>, n: nat)
  {
    forall k :: 0 <= k < |ps| && ps[k].Field? ==> ps[k].index < n
  }

  /** No literal piece holds a `%`. */
  predicate LiteralsClean(ps: seq<Piece>)
  {
    forall k :: 0 <= k < |ps| && ps[k].Lit? ==> NoPercent(ps[k].text)
  }

  /** Number of replacement fields `{j}`. */
  function Uses(ps: seq<Piece>, j: nat): nat
  {
    if ps == [] then 0 else (if ps[0] == Field(j) then 1 else 0) + Uses(ps[1..], j)
  }

  /** Substitution of the arguments into the fields, left to right; a field
      past the last argument raises IndexError ("Replacement index out of range"). */
  function Subst(ps: seq<Piece>, args: seq<string>): (r: Result<string>)
    ensures r.Ok? <==> FieldsBelow(ps, |args|)
    ensures r.Err? ==> r.error == IndexError
  {
    if ps == [] then Ok("")
    else
      var head := match ps[0]
        case Lit(t) => Ok(t)
        case Field(k) => if k < |args| then Ok(args[k]) else Err(IndexError);
      if head.Err? then head
      else
        var tail := Subst(ps[1..], args);
        if tail.Err? then tail else Ok(head.value + tail.value)
  }

  /** `template.format(*args)`. */
  function Format(t: Template, args: seq<string>): (r: Result<string>)
    ensures r.Ok? <==> !t.rejects(args) && FieldsBelow(t.pieces, |args|)
    ensures r.Err? ==> r.error in {ValueError, IndexError}
  {
    if t.rejects(args) then Err(ValueError) else Subst(t.pieces, args)
  }

  /** What one piece contributes when the first argument is `row`, ignoring the second. */
  function Out(p: Piece, row: string): string
  {
    match p
    case Lit(t) => t
    case Field(k) => if k == 0 then row else ""
  }

  /** The text produced by pieces that use no second argument. */
  function Rendered(ps: seq<Piece>, row: string): string
  {
    if ps == [] then "" else Out(ps[0], row) + Rendered(ps[1..], row)
  }

  /** The text a template produces before its field `{1}`. */
  function Before(ps: seq<Piece>, row: string): string
  {
    if ps == [] || ps[0] == Field(1) then "" else Out(ps[0], row) + Before(ps[1..], row)
  }

  /** The text a template produces after its field `{1}`. */
  function After(ps: seq<Piece>, row: string): string
  {
    if ps == [] then ""
    else if ps[0] == Field(1) then Rendered(ps[1..], row)
    else After(ps[1..], row)
  }

  lemma {:induction false} SubstWithoutInner(ps: seq<Piece>, row: string, inner: string)
    requires Uses(ps, 1) == 0 && Subst(ps, [row, inner]).Ok?
    ensures Subst(ps, [row, inner]).value == Rendered(ps, row)
  {
    if ps != [] {
      SubstWithoutInner(ps[1..], row, inner);
    }
  }

  /** A describe template that uses `{1}` once places the inner argument
      between a prefix and a suffix that depend on the row alone. */
  lemma {:induction false} SubstAround(ps: seq<Piece>, row: string, inner: string)
    requires Uses(ps, 1) == 1 && Subst(ps, [row, inner]).Ok?
    ensures Subst(ps, [row, inner]).value == Before(ps, row) + inner + After(ps, row)
  {
    if ps[0] == Field(1) {
      SubstWithoutInner(ps[1..], row, inner);
    } else {
      SubstAround(ps[1..], row, inner);
    }
  }

  lemma {:induction false} RenderedClean(ps: seq<Piece>, row: string)
    requires LiteralsClean(ps) && NoPercent(row)
    ensures NoPercent(Rendered(ps, row))
  {
    if ps != [] {
      LiteralsCleanTail(ps);
      RenderedClean(ps[1..], row);
    }
  }

  /** Nothing but the inner argument can bring a `%` around it. */
  lemma {:induction false} OutsideClean(ps: seq<Piece>, row: string)
    requires LiteralsClean(ps) && NoPercent(row)
    ensures NoPercent(Before(ps, row)) && NoPercent(After(ps, row))
  {
    if ps != [] {
      LiteralsCleanTail(ps);
      if ps[0] == Field(1) {
        RenderedClean(ps[1..], row);
      } else {
        OutsideClean(ps[1..], row);
      }
    }
  }

  /** The first piece's text followed by the rest when substitution succeeds. */
  lemma SubstCons(ps: seq<Piece>, args: seq<string>)
    requires ps != [] && Subst(ps, args).Ok?
    ensures Subst(ps[1..], args).Ok?
    ensures ps[0].Lit? ==> Subst(ps, args).value == ps[0].text + Subst(ps[1..], args).value
    ensures ps[0].Field? ==>
      (ps[0].index < |args| && Subst(ps, args).value == args[ps[0].index] + Subst(ps[1..], args).value)
  {
  }

  lemma LiteralsCleanTail(ps: seq<Piece>)
    requires ps != [] && LiteralsClean(ps)
    ensures LiteralsClean(ps[1..])
    ensures ps[0].Lit? ==> NoPercent(ps[0].text)
  {
    forall k | 0 <= k < |ps[1..]| && ps[1..][k].Lit? ensures NoPercent(ps[1..][k].text) {
      assert ps[1..][k] == ps[k + 1];
    }
  }

  /** With `%`-free literals and row, the `%` signs of the result are those of
      the inner argument, once per use of `{1}`. */
  lemma {:induction false} SubstHoles(ps: seq<Piece>, row: string, inner: string)
    requires LiteralsClean(ps) && NoPercent(row)
    requires Subst(ps, [row, inner]).Ok?
    ensures Holes(Subst(ps, [row, inner]).value) == Uses(ps, 1) * Holes(inner)
  {
    if ps != [] {
      var args := [row, inner];
      LiteralsCleanTail(ps);
      SubstCons(ps, args);
      SubstHoles(ps[1..], row, inner);
      var tail := Subst(ps[1..], args).value;
      var u, h := Uses(ps[1..], 1), Holes(inner);
      assert Uses(ps, 1) == (if ps[0] == Field(1) then 1 else 0) + u;
      if ps[0].Lit? {
        HolesConcat(ps[0].text, tail);
      } else if ps[0].index == 1 {
        HolesConcat(inner, tail);
        MulSucc(u, h);
      } else {
        HolesConcat(row, tail);
      }
    }
  }

  lemma MulSucc(u: nat, h: nat)
    ensures (1 + u) * h == h + u * h
  {
  }

  /** A `%s`-only inner argument gives a `%s`-only result. */
  lemma {:induction false} SubstHolesOnly(ps: seq<Piece>, row: string, inner: string)
    requires LiteralsClean(ps) && NoPercent(row) && HolesOnly(inner)
    requires Subst(ps, [row, inner]).Ok?
    ensures HolesOnly(Subst(ps, [row, inner]).value)
  {
    if ps != [] {
      var args := [row, inner];
      LiteralsCleanTail(ps);
      SubstCons(ps, args);
      SubstHolesOnly(ps[1..], row, inner);
      var head := if ps[0].Lit? then ps[0].text else args[ps[0].index];
      var tail := Subst(ps[1..], args).value;
      assert Subst(ps, args).value == head + tail;
      assert HolesOnly(head);
      HolesOnlyConcat(head, tail);
    }
  }
}
