/** `StoryParser` of plugin.py: the older copy of the formatter. Each
    category has one keyword string matched by a plain prefix test, the
    story id is passed on as given, and the it body is `{}`. */
module Plugin {
  import opened PyText
  import opened Templates
  import opened Classifier
  import opened Render

  /** The preferences read by `StoryParser.__init__`. */
  datatype Config = Config(
    givenWord: string, andWord: string, whenWord: string, thenWord: string,
    itTemplate: Template, describeTemplate: Template)

  /** What `PluginUtils.get_pref` returns for a preference that is not set. */
  const Unset: string := ""

  /** The body argument of the it template. */
  const ItBody: string := "{}"

  /** The branch of the `if`/`elif` chain of `parser` a row takes. */
  function CategoryOf(cfg: Config, row: string): Category
  {
    if StartsWith(row, cfg.givenWord) then GivenRow
    else if StartsWith(row, cfg.andWord) then AndRow
    else if StartsWith(row, cfg.whenWord) then WhenRow
    else if StartsWith(row, cfg.thenWord) then ThenRow
    else Unmatched
  }

  /** The category of every row. */
  function Categories(cfg: Config, rows: seq<string>): seq<Category>
  {
    seq(|rows|, k requires 0 <= k < |rows| => CategoryOf(cfg, rows[k]))
  }

  /** The rows `parser` adds to the two buffers for a story. */
  function ClassifyStory(cfg: Config, text: string): Buckets
  {
    var rows := Split(text, '\n');
    Classify(rows, Categories(cfg, rows))
  }

  /** What `proccesing_it_list(story_id, describe_len)` returns or raises. */
  function ItBlock(cfg: Config, lines: seq<string>, id: string, describeLen: nat): Result<string>
  {
    PluginItText(cfg.itTemplate, lines, id, Spaces(describeLen * IndentUnit), ItBody)
  }

  /** What the `%` step can handle: no `%` in the describe template's literals
      or in any describe row, old or new. */
  predicate Parseable(cfg: Config, staleDescribe: seq<string>, text: string)
  {
    LiteralsClean(cfg.describeTemplate.pieces)
      && RowsClean(staleDescribe + ClassifyStory(cfg, text).describe)
  }

  /** What `parser` returns or raises when its buffers already hold
      `staleDescribe` and `staleIts`. */
  function ParseFrom(cfg: Config, staleDescribe: seq<string>, staleIts: seq<string>,
                     text: string, id: string): Result<string>
    requires Parseable(cfg, staleDescribe, text)
  {
    var c := ClassifyStory(cfg, text);
    var describe := staleDescribe + c.describe;
    Assemble(cfg.describeTemplate, describe, ItBlock(cfg, staleIts + c.its, id, |describe|))
  }

  /** What `parser` returns from empty buffers. */
  function ParseStory(cfg: Config, text: string, id: string): Result<string>
    requires Parseable(cfg, [], text)
  {
    ParseFrom(cfg, [], [], text, id)
  }

  class StoryParser {
    const cfg: Config
    var describeList: seq<string>
    var itList: seq<string>

    /** Both buffers are empty. */
    predicate Idle()
      reads this
    {
      describeList == [] && itList == []
    }

    constructor (cfg: Config)
      ensures this.cfg == cfg && Idle()
    {
      this.cfg := cfg;
      describeList := [];
      itList := [];
    }

    /** `parser`: the rows are added to the buffers, which are emptied only
        when no exception escapes. */
    method Parser(storyText: string, storyId: string) returns (r: Result<string>)
      requires Parseable(cfg, describeList, storyText)
      modifies this
      ensures r == ParseFrom(cfg, old(describeList), old(itList), storyText, storyId)
      ensures r.Ok? ==> Idle()
      ensures r.Err? ==> describeList == old(describeList) + ClassifyStory(cfg, storyText).describe
      ensures r.Err? ==> itList == old(itList) + ClassifyStory(cfg, storyText).its
    {
      var rows := Split(storyText, '\n');
      ghost var d0, i0 := describeList, itList;
      ClassifyRows(rows);
      var its := ProcessItList(storyId, |describeList|);
      assert ParseFrom(cfg, d0, i0, storyText, storyId) == Assemble(cfg.describeTemplate, describeList, its);
      if its.Err? {
        return its;
      }
      var desc := ProcessDescribeList();
      if desc.Err? {
        return desc;
      }
      SkeletonHolesOnly(cfg.describeTemplate, describeList);
      r := Interpolate(desc.value, its.value);
      if r.Err? {
        return;
      }
      describeList := [];
      itList := [];
    }

    /** The loop of `parser` over the rows of the story: each row is appended
        to the list its first matching keyword picks. */
    method ClassifyRows(rows: seq<string>)
      modifies this
      ensures describeList == old(describeList) + Classify(rows, Categories(cfg, rows)).describe
      ensures itList == old(itList) + Classify(rows, Categories(cfg, rows)).its
    {
      ghost var d0, i0 := describeList, itList;
      ghost var cats := Categories(cfg, rows);
      var foundWhen := false;
      var i := 0;
      while i < |rows|
        invariant 0 <= i <= |rows|
        invariant Buckets(describeList, itList, foundWhen) == Extend(d0, i0, Classify(rows[..i], cats[..i]))
      {
        ghost var before := Buckets(describeList, itList, foundWhen);
        var row := rows[i];
        assert cats[i] == CategoryOf(cfg, row);
        if StartsWith(row, cfg.givenWord) {
          describeList := describeList + [row];
        } else if StartsWith(row, cfg.andWord) {
          if !foundWhen {
            describeList := describeList + [row];
          } else {
            itList := itList + [row];
          }
        } else if StartsWith(row, cfg.whenWord) {
          describeList := describeList + [row];
          foundWhen := true;
        } else if StartsWith(row, cfg.thenWord) {
          itList := itList + [row];
        }
        assert Buckets(describeList, itList, foundWhen) == Step(before, row, cats[i]);
        ExtendSnoc(d0, i0, rows, cats, i);
        i := i + 1;
      }
      assert rows[..i] == rows && cats[..i] == cats;
    }

    /** `proccesing_describe_list`: folds the describe rows from the last to
        the first, each wrapping the text built so far. */
    method ProcessDescribeList() returns (r: Result<string>)
      ensures r == Skeleton(cfg.describeTemplate, describeList)
    {
      var n := |describeList|;
      var level := n - 1;
      var describeRst := "";
      while level >= 0
        invariant -1 <= level < n
        invariant level == n - 1 ==> describeRst == ""
        invariant level < n - 1 ==> Nest(cfg.describeTemplate, describeList, level + 1) == Ok(describeRst)
      {
        var describeText := describeList[level];
        var f: Result<string>;
        if level == n - 1 {
          f := Format(cfg.describeTemplate, [describeText, "%s"]);
        } else {
          var spaces := Spaces((level + 1) * IndentUnit);
          var lastSpaces := Spaces(level * IndentUnit);
          var inner := ("\n" + spaces) + describeRst + ("\n" + lastSpaces);
          f := Format(cfg.describeTemplate, [describeText, inner]);
        }
        if f.Err? {
          NestErrPropagates(cfg.describeTemplate, describeList, 0, level);
          return f;
        }
        describeRst := f.value;
        level := level - 1;
      }
      assert n == 0 ==> describeList == [];
      return Ok(describeRst);
    }

    /** `proccesing_it_list`: one indented line per it row; the broken
        handler turns any exception from `format` into a NameError that escapes. */
    method ProcessItList(storyId: string, describeLen: nat) returns (r: Result<string>)
      ensures r == ItBlock(cfg, itList, storyId, describeLen)
    {
      var itText := "\n";
      ghost var sp := Spaces(describeLen * IndentUnit);
      var k := 0;
      while k < |itList|
        invariant 0 <= k <= |itList|
        invariant PluginItText(cfg.itTemplate, itList[..k], storyId, sp, ItBody) == Ok(itText)
      {
        var space := Spaces(describeLen * IndentUnit);
        var f := Format(cfg.itTemplate, [itList[k], storyId, "{}"]);
        assert itList[..k + 1][..k] == itList[..k];
        if f.Err? {
          PluginItTextErrPropagates(cfg.itTemplate, itList, k + 1, storyId, sp, ItBody);
          return Err(NameError);
        }
        itText := itText + (space + f.value);
        k := k + 1;
      }
      assert itList[..k] == itList;
      return Ok(itText);
    }
  }

  // -----------------------------------------------------------------------
  // Properties of the older formatter

  /** An unset Given keyword is the empty prefix, which every row starts
      with: every row goes to the describe list and none to the it list. */
  lemma UnsetGivenTakesAll(cfg: Config, text: string)
    requires cfg.givenWord == Unset
    ensures ClassifyStory(cfg, text) == Buckets(Split(text, '\n'), [], false)
  {
    var rows := Split(text, '\n');
    ClassifyAllGiven(rows, Categories(cfg, rows));
  }

  /** When every it row formats, the it block is a newline followed
      by the formatted it rows in order, each after `2 * describeLen`
      spaces, each formatted with the id exactly as given and the body `{}`. */
  lemma ItBlockLines(cfg: Config, lines: seq<string>, id: string, describeLen: nat)
    requires forall k :: 0 <= k < |lines| ==> Format(cfg.itTemplate, [lines[k], id, ItBody]).Ok?
    ensures ItBlock(cfg, lines, id, describeLen)
         == Ok("\n" + Indented(Spaces(describeLen * IndentUnit), Kept(cfg.itTemplate, lines, id, ItBody)))
  {
    var sp := Spaces(describeLen * IndentUnit);
    PluginItTextAgrees(cfg.itTemplate, lines, id, sp, ItBody);
    ItTextKept(cfg.itTemplate, lines, id, sp, ItBody);
  }

  /** As written, one it row the template rejects, with ValueError or with
      any other exception, makes the whole call raise NameError, whatever
      rows follow it. */
  lemma ParserAbortsOnFormatError(cfg: Config, text: string, id: string,
                                 xs: seq<string>, x: string, ys: seq<string>)
    requires Parseable(cfg, [], text)
    requires ClassifyStory(cfg, text).its == xs + [x] + ys
    requires Format(cfg.itTemplate, [x, id, ItBody]).Err?
    requires ItBlock(cfg, xs, id, |ClassifyStory(cfg, text).describe|).Ok?
    ensures ParseStory(cfg, text, id) == Err(NameError)
  {
    var c := ClassifyStory(cfg, text);
    assert [] + c.describe == c.describe && [] + c.its == c.its;
    PluginItTextAborts(cfg.itTemplate, xs, x, ys, id, Spaces(|c.describe| * IndentUnit), ItBody);
  }

  /** `proccesing_it_list` with the handler written `except ValueError as e`,
      as the live copy does: a row that raises ValueError is skipped and any
      other exception escapes. */
  function FixedItBlock(cfg: Config, lines: seq<string>, id: string, describeLen: nat): Result<string>
  {
    ItText(cfg.itTemplate, lines, id, Spaces(describeLen * IndentUnit), ItBody)
  }

  /** With the corrected handler, a row that raises ValueError is dropped and
      the rows after it still render. */
  lemma FixedItBlockSkips(cfg: Config, xs: seq<string>, x: string, ys: seq<string>, id: string, describeLen: nat)
    requires Format(cfg.itTemplate, [x, id, ItBody]) == Err(ValueError)
    ensures FixedItBlock(cfg, xs + [x] + ys, id, describeLen) == FixedItBlock(cfg, xs + ys, id, describeLen)
  {
    ItTextSkips(cfg.itTemplate, xs, x, ys, id, Spaces(describeLen * IndentUnit), ItBody);
  }

  /** The correction changes nothing for it rows that all format. */
  lemma FixedItBlockAgrees(cfg: Config, lines: seq<string>, id: string, describeLen: nat)
    requires forall k :: 0 <= k < |lines| ==> Format(cfg.itTemplate, [lines[k], id, ItBody]).Ok?
    ensures FixedItBlock(cfg, lines, id, describeLen) == ItBlock(cfg, lines, id, describeLen)
  {
    PluginItTextAgrees(cfg.itTemplate, lines, id, Spaces(describeLen * IndentUnit), ItBody);
  }

  /** With a describe template that uses `{1}` once, the output is the
      openings of the describe rows, the it block, and the closings. */
  lemma ParseShape(cfg: Config, text: string, id: string)
    requires Parseable(cfg, [], text) && ParseStory(cfg, text, id).Ok?
    requires Uses(cfg.describeTemplate.pieces, 1) == 1
    ensures var c := ClassifyStory(cfg, text);
            var its := ItBlock(cfg, c.its, id, |c.describe|);
            c.describe != [] && its.Ok? && "\n" <= its.value
            && ParseStory(cfg, text, id).value
               == Opens(cfg.describeTemplate, c.describe, 0) + its.value
                  + Closes(cfg.describeTemplate, c.describe, 0)
  {
    var c := ClassifyStory(cfg, text);
    var dt := cfg.describeTemplate;
    assert [] + c.describe == c.describe && [] + c.its == c.its;
    var its := ItBlock(cfg, c.its, id, |c.describe|);
    assert its.Ok?;
    var sp := Spaces(|c.describe| * IndentUnit);
    PluginItTextNewline(cfg.itTemplate, c.its, id, sp, ItBody);
    AssembleTypeError(dt, c.describe, its.value);
    AssembleShape(dt, c.describe, its.value);
  }

  /** A story without a describe row cannot be parsed: `'' % its` raises TypeError. */
  lemma ParseNeedsDescribeRow(cfg: Config, text: string, id: string)
    requires Parseable(cfg, [], text) && ClassifyStory(cfg, text).describe == []
    requires ItBlock(cfg, ClassifyStory(cfg, text).its, id, 0).Ok?
    ensures ParseStory(cfg, text, id) == Err(TypeError)
  {
    var c := ClassifyStory(cfg, text);
    assert [] + c.describe == [] && [] + c.its == c.its;
    AssembleTypeError(cfg.describeTemplate, [], ItBlock(cfg, c.its, id, 0).value);
  }
}
