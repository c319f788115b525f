/** Worked examples on English keywords and the Jasmine templates
    `describe('{0}', function() {{{1}}});` and `it('{0} #{1}', function() {2});`. */
module Scenarios {
  import opened PyText
  import opened Templates
  import opened Classifier
  import opened Render
  import StoryToJasmine
  import Plugin

  const DescribePieces: seq<Piece> :=
    [Lit("describe('"), Field(0), Lit("', function() {"), Field(1), Lit("});")]

  const ItPieces: seq<Piece> :=
    [Lit("it('"), Field(0), Lit(" #"), Field(1), Lit("', function() "), Field(2), Lit(");")]

  const English: StoryToJasmine.Config :=
    StoryToJasmine.Config(["Given"], ["And"], ["When"], ["Then"],
                          Template(ItPieces, _ => false), Template(DescribePieces, _ => false))

  /** A word without surrounding whitespace is its own `strip()`. */
  lemma StripKeeps(s: string)
    requires s != [] && !IsSpace(s[0]) && !IsSpace(s[|s| - 1])
    ensures Strip(s) == s
  {
  }

  /** One piece of a substitution, computed from the text of the rest. */
  lemma SubstStep(ps: seq<Piece>, args: seq<string>, k: nat, head: string, rest: string)
    requires k < |ps| && Subst(ps[k + 1..], args) == Ok(rest)
    requires (ps[k].Lit? && ps[k].text == head) || (ps[k].Field? && ps[k].index < |args| && args[ps[k].index] == head)
    ensures Subst(ps[k..], args) == Ok(head + rest)
  {
    assert ps[k..][0] == ps[k];
    assert ps[k..][1..] == ps[k + 1..];
  }

  /** The it statement for a row, an id and a body. */
  lemma ItLine(row: string, id: string, body: string)
    ensures Subst(ItPieces, [row, id, body])
         == Ok("it('" + (row + (" #" + (id + ("', function() " + (body + ");"))))))
  {
    var ps, a := ItPieces, [row, id, body];
    assert Subst(ps[7..], a) == Ok("") by { assert ps[7..] == []; }
    assert ");" + "" == ");";
    SubstStep(ps, a, 6, ");", "");
    SubstStep(ps, a, 5, body, ");");
    SubstStep(ps, a, 4, "', function() ", body + ");");
    SubstStep(ps, a, 3, id, "', function() " + (body + ");"));
    SubstStep(ps, a, 2, " #", id + ("', function() " + (body + ");")));
    SubstStep(ps, a, 1, row, " #" + (id + ("', function() " + (body + ");"))));
    SubstStep(ps, a, 0, "it('", row + (" #" + (id + ("', function() " + (body + ");")))));
    assert ps[0..] == ps;
  }

  /** The describe opening and closing around a row. */
  lemma DescribeLine(row: string, inner: string)
    ensures Subst(DescribePieces, [row, inner])
         == Ok("describe('" + (row + ("', function() {" + (inner + "});"))))
  {
    var ps, a := DescribePieces, [row, inner];
    assert Subst(ps[5..], a) == Ok("") by { assert ps[5..] == []; }
    assert "});" + "" == "});";
    SubstStep(ps, a, 4, "});", "");
    SubstStep(ps, a, 3, inner, "});");
    SubstStep(ps, a, 2, "', function() {", inner + "});");
    SubstStep(ps, a, 1, row, "', function() {" + (inner + "});"));
    SubstStep(ps, a, 0, "describe('", row + ("', function() {" + (inner + "});")));
    assert ps[0..] == ps;
  }

  /** A one-token keyword list matches the rows that start with the token and a space. */
  lemma CheckOne(row: string, w: string)
    requires w != [] && !IsSpace(w[0]) && !IsSpace(w[|w| - 1])
    ensures StoryToJasmine.Check(row, [w]) <==> StartsWith(row, w + " ")
  {
    StripKeeps(w);
    assert [w][0] == w && [w][1..] == [];
    assert StoryToJasmine.MatchCount(row, [w]) == (if StartsWith(row, w + " ") then 1 else 0);
  }

  /** The keyword lists are the English words, one token each. */
  predicate EnglishWords(cfg: StoryToJasmine.Config)
  {
    cfg.givenWords == ["Given"] && cfg.andWords == ["And"] && cfg.whenWords == ["When"] && cfg.thenWords == ["Then"]
  }

  lemma GivenRowIsGiven(cfg: StoryToJasmine.Config, rest: string)
    requires EnglishWords(cfg)
    ensures StoryToJasmine.CategoryOf(cfg, "Given " + rest) == GivenRow
  {
    CheckOne("Given " + rest, "Given");
    assert "Given" + " " == "Given ";
  }

  /** A row whose first letter differs from the token's does not match it. */
  lemma FirstLetterDiffers(row: string, w: string)
    requires w != [] && !IsSpace(w[0]) && !IsSpace(w[|w| - 1])
    requires row != [] && row[0] != w[0]
    ensures !StoryToJasmine.Check(row, [w])
  {
    CheckOne(row, w);
    assert (w + " ")[0] == w[0];
  }

  lemma ThenRowChecksThen(rest: string)
    ensures StoryToJasmine.Check("Then " + rest, ["Then"])
  {
    CheckOne("Then " + rest, "Then");
    assert "Then" + " " == "Then ";
  }

  lemma ThenRowIsThen(cfg: StoryToJasmine.Config, rest: string)
    requires EnglishWords(cfg)
    ensures StoryToJasmine.CategoryOf(cfg, "Then " + rest) == ThenRow
  {
    FirstLetterDiffers("Then " + rest, "Given");
    FirstLetterDiffers("Then " + rest, "And");
    FirstLetterDiffers("Then " + rest, "When");
    ThenRowChecksThen(rest);
  }

  // -----------------------------------------------------------------------
  // Generic pieces: rendering and classification of one- and two-row stories

  /** The describe opening for a row, and every describe closing. */
  function Opening(row: string): string
  {
    "describe('" + row + "', function() {"
  }

  const Close := "});"

  /** The it statement of a row at nesting depth `depth`. */
  function ItLineText(row: string, id: string, depth: nat): string
  {
    "it('" + (row + (" #" + (id + ("', function() " + (StoryToJasmine.ItBody(Spaces(depth * IndentUnit)) + ");")))))
  }

  lemma DescribePiecesClean()
    ensures LiteralsClean(English.describeTemplate.pieces)
  {
    var ps := DescribePieces;
    assert NoPercent("describe('") && NoPercent("', function() {") && NoPercent("});");
    forall k | 0 <= k < |ps| && ps[k].Lit?
      ensures NoPercent(ps[k].text)
    {
      assert k == 0 || k == 2 || k == 4;
    }
  }

  lemma OpeningText(row: string, inner: string)
    ensures "describe('" + (row + ("', function() {" + (inner + "});"))) == Opening(row) + inner + Close
  {
  }

  lemma OpeningClean(row: string)
    requires NoPercent(row)
    ensures NoPercent(Opening(row)) && NoPercent(Close)
  {
    assert NoPercent("describe('") && NoPercent("', function() {");
  }

  /** The skeleton of a one-row describe list: the opening, the hole, the closing. */
  lemma DescribeSkeleton(row: string)
    requires NoPercent(row)
    ensures Skeleton(English.describeTemplate, [row]) == Ok(Opening(row) + "%s" + Close)
  {
    DescribeLine(row, "%s");
    OpeningText(row, "%s");
  }

  /** A one-row describe list renders its opening, the it block and the closing. */
  lemma DescribeOne(row: string, block: string)
    requires NoPercent(row)
    ensures RowsClean([row]) && LiteralsClean(English.describeTemplate.pieces)
    ensures Assemble(English.describeTemplate, [row], Ok(block)) == Ok(Opening(row) + block + Close)
  {
    DescribePiecesClean();
    assert RowsClean([row]);
    DescribeSkeleton(row);
    OpeningClean(row);
    InterpolateHole(Opening(row), Close, block);
  }

  /** The it block of one row in the live copy. */
  lemma ItOne(cfg: StoryToJasmine.Config, row: string, id: string, depth: nat)
    requires cfg.itTemplate == English.itTemplate && id != ""
    ensures StoryToJasmine.ItBlock(cfg, [row], id, depth)
         == Ok("\n" + (Spaces(depth * IndentUnit) + ItLineText(row, StoryToJasmine.StripHash(id), depth)))
  {
    var body := StoryToJasmine.ItBody(Spaces(depth * IndentUnit));
    ItLine(row, StoryToJasmine.StripHash(id), body);
    assert cfg.itTemplate.pieces == ItPieces && !cfg.itTemplate.rejects([row, StoryToJasmine.StripHash(id), body]);
    assert [row][..0] == [];
    assert ItText(cfg.itTemplate, [], StoryToJasmine.StripHash(id), Spaces(depth * IndentUnit), body) == Ok("\n");
  }

  lemma OneRow(s: string)
    requires '\n' !in s
    ensures Split(s, '\n') == [s]
  {
  }

  lemma TwoRows(a: string, b: string)
    requires '\n' !in a && '\n' !in b
    ensures Split(a + "\n" + b, '\n') == [a, b]
  {
    var parts := [a, b];
    assert parts[1..] == [b];
    assert Join(parts, '\n') == a + "\n" + b;
    SplitJoin(parts, '\n');
  }

  /** The loop over one row. */
  lemma ClassifySingle(a: string, ca: Category)
    ensures Classify([a], [ca]) == Step(Empty, a, ca)
  {
    assert [a][..0] == [] && [ca][..0] == [];
  }

  /** The loop over two rows. */
  lemma ClassifyPair(a: string, b: string, ca: Category, cb: Category)
    ensures Classify([a, b], [ca, cb]) == Step(Step(Empty, a, ca), b, cb)
  {
    assert [a, b][..1] == [a] && [ca, cb][..1] == [ca];
    ClassifySingle(a, ca);
  }

  /** The live copy on a one-row story. */
  lemma ClassifyOne(cfg: StoryToJasmine.Config, row: string)
    requires '\n' !in row
    ensures StoryToJasmine.ClassifyStory(cfg, row) == Step(Empty, row, StoryToJasmine.CategoryOf(cfg, row))
  {
    OneRow(row);
    assert StoryToJasmine.Categories(cfg, [row]) == [StoryToJasmine.CategoryOf(cfg, row)];
    ClassifySingle(row, StoryToJasmine.CategoryOf(cfg, row));
  }

  /** The live copy on a two-row story. */
  lemma ClassifyTwo(cfg: StoryToJasmine.Config, a: string, b: string)
    requires '\n' !in a && '\n' !in b
    ensures StoryToJasmine.ClassifyStory(cfg, a + "\n" + b)
         == Step(Step(Empty, a, StoryToJasmine.CategoryOf(cfg, a)), b, StoryToJasmine.CategoryOf(cfg, b))
  {
    TwoRows(a, b);
    var ca, cb := StoryToJasmine.CategoryOf(cfg, a), StoryToJasmine.CategoryOf(cfg, b);
    assert StoryToJasmine.Categories(cfg, [a, b]) == [ca, cb];
    ClassifyPair(a, b, ca, cb);
  }

  /** The older copy on a two-row story. */
  lemma PluginClassifyTwo(cfg: Plugin.Config, a: string, b: string)
    requires '\n' !in a && '\n' !in b
    ensures Plugin.ClassifyStory(cfg, a + "\n" + b)
         == Step(Step(Empty, a, Plugin.CategoryOf(cfg, a)), b, Plugin.CategoryOf(cfg, b))
  {
    TwoRows(a, b);
    var ca, cb := Plugin.CategoryOf(cfg, a), Plugin.CategoryOf(cfg, b);
    assert Plugin.Categories(cfg, [a, b]) == [ca, cb];
    ClassifyPair(a, b, ca, cb);
  }

  /** A Given row then a Then row: one row in each list. */
  lemma GivenThenSteps(a: string, b: string)
    ensures Step(Step(Empty, a, GivenRow), b, ThenRow) == Buckets([a], [b], false)
  {
    var none: seq<string> := [];
    assert none + [a] == [a] && none + [b] == [b];
  }

  // -----------------------------------------------------------------------
  // The rows of the worked stories

  const GivenX := "Given " + "X"
  const ThenY := "Then " + "Y"
  const GivenThen := GivenX + "\n" + ThenY

  lemma RowsPlain()
    ensures '\n' !in GivenX && '\n' !in ThenY
    ensures NoPercent(GivenX)
  {
  }

  lemma EnglishRows(cfg: StoryToJasmine.Config)
    requires EnglishWords(cfg)
    ensures StoryToJasmine.CategoryOf(cfg, GivenX) == GivenRow
    ensures StoryToJasmine.CategoryOf(cfg, ThenY) == ThenRow
  {
    GivenRowIsGiven(cfg, "X");
    ThenRowIsThen(cfg, "Y");
  }

  // -----------------------------------------------------------------------
  // A Then-only story, then a Given-only story, on one parser

  /** A story with only a Then row leaves the describe list empty, and
      `'' % its` raises TypeError. */
  lemma ThenOnlyStory()
    ensures StoryToJasmine.ClassifyStory(English, ThenY) == Buckets([], [ThenY], false)
    ensures StoryToJasmine.Parseable(English, [], ThenY)
    ensures StoryToJasmine.ParseStory(English, ThenY, "7") == Err(TypeError)
  {
    RowsPlain();
    EnglishRows(English);
    ClassifyOne(English, ThenY);
    var none: seq<string> := [];
    assert none + [ThenY] == [ThenY];
    DescribePiecesClean();
    assert StoryToJasmine.ItBlock(English, [ThenY], "7", 0).Ok? by { ItOne(English, ThenY, "7", 0); }
    StoryToJasmine.ParseNeedsDescribeRow(English, ThenY, "7");
  }

  lemma GivenOnlyClassified()
    ensures StoryToJasmine.ClassifyStory(English, GivenX) == Buckets([GivenX], [], false)
    ensures StoryToJasmine.Parseable(English, [], GivenX)
  {
    RowsPlain();
    EnglishRows(English);
    ClassifyOne(English, GivenX);
    var none: seq<string> := [];
    assert none + [GivenX] == [GivenX];
    DescribeOne(GivenX, "");
  }

  /** On its own, the Given-only story renders an empty describe block. */
  lemma GivenOnlyStory()
    ensures StoryToJasmine.Parseable(English, [], GivenX)
    ensures StoryToJasmine.ParseStory(English, GivenX, "#7") == Ok(Opening(GivenX) + "\n" + Close)
  {
    GivenOnlyClassified();
    RowsPlain();
    var none: seq<string> := [];
    assert none + [GivenX] == [GivenX];
    assert StoryToJasmine.ItBlock(English, [], "#7", 1) == Ok("\n");
    DescribeOne(GivenX, "\n");
  }

  /** After the Then-only story, the Given-only story picks up the stale Then row. */
  lemma GivenAfterStale()
    ensures StoryToJasmine.Parseable(English, [], GivenX)
    ensures StoryToJasmine.ParseFrom(English, [], [ThenY], GivenX, "#7")
         == Ok(Opening(GivenX) + ("\n" + ("  " + ItLineText(ThenY, "7", 1))) + Close)
  {
    GivenOnlyClassified();
    RowsPlain();
    var none: seq<string> := [];
    assert none + [GivenX] == [GivenX] && [ThenY] + none == [ThenY];
    TwoSpaces();
    StripHashOfId();
    ItOne(English, ThenY, "#7", 1);
    DescribeOne(GivenX, "\n" + ("  " + ItLineText(ThenY, "7", 1)));
  }

  lemma TwoSpaces()
    ensures Spaces(1 * IndentUnit) == "  "
  {
  }

  lemma StripHashOfId()
    ensures StoryToJasmine.StripHash("#7") == "7"
  {
    assert "#7"[1..] == "7";
  }

  /** A Then-only story raises TypeError and, since `parse` empties its
      buffers only on success, leaves its row in the it buffer; the next
      story on the same parser then renders that stale row too. A parser
      that resets its buffers on every exit renders the second story on
      its own. */
  method StaleRowsLeak() returns (first: Result<string>, second: Result<string>, isolated: Result<string>)
    ensures first == Err(TypeError)
    ensures second == Ok(Opening(GivenX) + ("\n" + ("  " + ItLineText(ThenY, "7", 1))) + Close)
    ensures isolated == Ok(Opening(GivenX) + "\n" + Close)
    ensures second != isolated
  {
    ThenOnlyStory();
    GivenOnlyStory();
    GivenAfterStale();
    var p := new StoryToJasmine.StoryParse(English);
    first := p.Parse(ThenY, "7");
    assert p.describeList == [] && p.itList == [ThenY];
    second := p.Parse(GivenX, "#7");
    var q := new StoryToJasmine.StoryParse(English);
    var discarded := q.ParseIsolated(ThenY, "7");
    isolated := q.ParseIsolated(GivenX, "#7");
    assert |second.value| > |isolated.value|;
  }

  // -----------------------------------------------------------------------
  // The two-row story Given X / Then Y

  lemma GivenThenClassified(cfg: StoryToJasmine.Config)
    requires EnglishWords(cfg)
    ensures StoryToJasmine.ClassifyStory(cfg, GivenThen) == Buckets([GivenX], [ThenY], false)
  {
    RowsPlain();
    EnglishRows(cfg);
    ClassifyTwo(cfg, GivenX, ThenY);
    GivenThenSteps(GivenX, ThenY);
  }

  lemma GivenThenParseable(cfg: StoryToJasmine.Config)
    requires EnglishWords(cfg) && cfg.describeTemplate == English.describeTemplate
    ensures StoryToJasmine.Parseable(cfg, [], GivenThen)
  {
    GivenThenClassified(cfg);
    RowsPlain();
    DescribeOne(GivenX, "");
    var none: seq<string> := [];
    assert none + [GivenX] == [GivenX];
  }

  /** The Given/Then story renders one describe block holding one it
      statement, indented by two spaces, with the `#` dropped from the id:
      exactly what the Given-only story renders after a failed Then-only one. */
  lemma GivenThenStory()
    ensures StoryToJasmine.Parseable(English, [], GivenThen)
    ensures StoryToJasmine.ParseStory(English, GivenThen, "#7")
         == Ok(Opening(GivenX) + ("\n" + ("  " + ItLineText(ThenY, "7", 1))) + Close)
  {
    GivenThenClassified(English);
    GivenThenParseable(English);
    RowsPlain();
    var none: seq<string> := [];
    assert none + [GivenX] == [GivenX] && none + [ThenY] == [ThenY];
    TwoSpaces();
    StripHashOfId();
    ItOne(English, ThenY, "#7", 1);
    DescribeOne(GivenX, "\n" + ("  " + ItLineText(ThenY, "7", 1)));
  }

  // -----------------------------------------------------------------------
  // An it template that raises ValueError on every row

  /** An it template whose format spec no string accepts, in the manner of
      `it('{0:d}')`: `.format` raises ValueError whatever the arguments. */
  const RejectingIt: Template := Template(ItPieces, _ => true)

  const EnglishRejecting: StoryToJasmine.Config := English.(itTemplate := RejectingIt)

  const PluginEnglish: Plugin.Config :=
    Plugin.Config("Given", "And", "When", "Then", RejectingIt, English.describeTemplate)

  /** The live copy skips the row that raises ValueError and still renders
      the describe block, with an empty it block. */
  lemma SkipsRejectedRow()
    ensures StoryToJasmine.Parseable(EnglishRejecting, [], GivenThen)
    ensures StoryToJasmine.ParseStory(EnglishRejecting, GivenThen, "7") == Ok(Opening(GivenX) + "\n" + Close)
  {
    GivenThenClassified(EnglishRejecting);
    GivenThenParseable(EnglishRejecting);
    RowsPlain();
    var none: seq<string> := [];
    assert none + [GivenX] == [GivenX] && none + [ThenY] == [ThenY];
    ItOneRejected(EnglishRejecting, ThenY, "7", 1);
    DescribeOne(GivenX, "\n");
  }

  /** The live copy drops a row its it template rejects. */
  lemma ItOneRejected(cfg: StoryToJasmine.Config, row: string, id: string, depth: nat)
    requires cfg.itTemplate == RejectingIt && id != ""
    ensures StoryToJasmine.ItBlock(cfg, [row], id, depth) == Ok("\n")
  {
    var body := StoryToJasmine.ItBody(Spaces(depth * IndentUnit));
    assert cfg.itTemplate.rejects([row, StoryToJasmine.StripHash(id), body]);
    assert [row][..0] == [];
    assert ItText(cfg.itTemplate, [], StoryToJasmine.StripHash(id), Spaces(depth * IndentUnit), body) == Ok("\n");
  }

  lemma PluginRows()
    ensures Plugin.CategoryOf(PluginEnglish, GivenX) == GivenRow
    ensures Plugin.CategoryOf(PluginEnglish, ThenY) == ThenRow
  {
    assert GivenX[..5] == "Given";
    assert ThenY[0] != "Given"[0] && ThenY[0] != "And"[0] && ThenY[0] != "When"[0];
    assert ThenY[..4] == "Then";
  }

  lemma PluginGivenThenClassified()
    ensures Plugin.ClassifyStory(PluginEnglish, GivenThen) == Buckets([GivenX], [ThenY], false)
  {
    RowsPlain();
    PluginRows();
    PluginClassifyTwo(PluginEnglish, GivenX, ThenY);
    GivenThenSteps(GivenX, ThenY);
  }

  /** The older copy, as written, turns the same ValueError into a NameError
      that aborts the whole call. */
  lemma PluginAbortsOnRejectedRow()
    ensures Plugin.Parseable(PluginEnglish, [], GivenThen)
    ensures Plugin.ParseStory(PluginEnglish, GivenThen, "7") == Err(NameError)
  {
    PluginGivenThenClassified();
    RowsPlain();
    DescribeOne(GivenX, "");
    var none: seq<string> := [];
    assert none + [GivenX] == [GivenX];
    assert none + [ThenY] + none == [ThenY];
    assert Plugin.ItBlock(PluginEnglish, none, "7", 1) == Ok("\n");
    Plugin.ParserAbortsOnFormatError(PluginEnglish, GivenThen, "7", none, ThenY, none);
  }
}
