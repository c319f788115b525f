/** `StoryParse` of story_to_jasmine.py: the copy the plugin uses. Keywords
    are lists of synonyms, each matched after `strip()` and followed by a
    space; the story id loses one leading `#`; the it body is an indented
    pair of braces. */
module StoryToJasmine {
  import opened PyText
  import opened Templates
  import opened Classifier
  import opened Render

  /** The `__lang_tokens` read from the settings when the parser is built. */
  datatype Config = Config(
    givenWords: seq<string>, andWords: seq<string>, whenWords: seq<string>, thenWords: seq<string>,
    itTemplate: Template, describeTemplate: Template)

  /** Length of the list `[w for w in data if row.startswith(w.strip() + ' ')]` in `check`. */
  function MatchCount(row: string, words: seq<string>): nat
  {
    if words == [] then 0
    else (if StartsWith(row, Strip(words[0]) + " ") then 1 else 0) + MatchCount(row, words[1..])
  }

  /** The `check(row, data)` lambda. */
  predicate Check(row: string, words: seq<string>)
  {
    MatchCount(row, words) > 0
  }

  /** Some token of the category, stripped and followed by a space, starts the row. */
  predicate StartsWithAny(row: string, words: seq<string>)
  {
    exists k :: 0 <= k < |words| && StartsWith(row, Strip(words[k]) + " ")
  }

  lemma {:induction false} CheckMeansSomeToken(row: string, words: seq<string>)
    ensures Check(row, words) <==> StartsWithAny(row, words)
  {
    if words != [] {
      CheckMeansSomeToken(row, words[1..]);
      if StartsWithAny(row, words[1..]) {
        var k :| 0 <= k < |words[1..]| && StartsWith(row, Strip(words[1..][k]) + " ");
        assert words[k + 1] == words[1..][k];
      }
      if StartsWithAny(row, words) && !StartsWith(row, Strip(words[0]) + " ") {
        var k :| 0 <= k < |words| && StartsWith(row, Strip(words[k]) + " ");
        assert words[1..][k - 1] == words[k];
      }
    }
  }

  /** The branch of the `if`/`elif` chain of `parse` a row takes. */
  function CategoryOf(cfg: Config, row: string): Category
  {
    if Check(row, cfg.givenWords) then GivenRow
    else if Check(row, cfg.andWords) then AndRow
    else if Check(row, cfg.whenWords) then WhenRow
    else if Check(row, cfg.thenWords) then ThenRow
    else Unmatched
  }

  /** A row belongs to the first category, in the order Given, And, When,
      Then, one of whose tokens (stripped, plus a space) starts it. */
  lemma CategoryOfFirstMatch(cfg: Config, row: string)
    ensures CategoryOf(cfg, row) == GivenRow <==> StartsWithAny(row, cfg.givenWords)
    ensures CategoryOf(cfg, row) == AndRow
        <==> !StartsWithAny(row, cfg.givenWords) && StartsWithAny(row, cfg.andWords)
    ensures CategoryOf(cfg, row) == WhenRow
        <==> !StartsWithAny(row, cfg.givenWords) && !StartsWithAny(row, cfg.andWords)
             && StartsWithAny(row, cfg.whenWords)
    ensures CategoryOf(cfg, row) == ThenRow
        <==> !StartsWithAny(row, cfg.givenWords) && !StartsWithAny(row, cfg.andWords)
             && !StartsWithAny(row, cfg.whenWords) && StartsWithAny(row, cfg.thenWords)
    ensures CategoryOf(cfg, row) == Unmatched
        <==> !StartsWithAny(row, cfg.givenWords) && !StartsWithAny(row, cfg.andWords)
             && !StartsWithAny(row, cfg.whenWords) && !StartsWithAny(row, cfg.thenWords)
  {
    CheckMeansSomeToken(row, cfg.givenWords);
    CheckMeansSomeToken(row, cfg.andWords);
    CheckMeansSomeToken(row, cfg.whenWords);
    CheckMeansSomeToken(row, cfg.thenWords);
  }

  /** The category of every row. */
  function Categories(cfg: Config, rows: seq<string>): seq<Category>
  {
    seq(|rows|, k requires 0 <= k < |rows| => CategoryOf(cfg, rows[k]))
  }

  /** `story_text.split('\n')`. */
  function Rows(text: string): seq<string>
  {
    Split(text, '\n')
  }

  /** The rows `parse` adds to the two buffers for a story. */
  function ClassifyStory(cfg: Config, text: string): Buckets
  {
    Classify(Rows(text), Categories(cfg, Rows(text)))
  }

  /** `story_id[1:]` when the id starts with `#`; `story_id[0]` on an empty id
      raises IndexError, which is why the id must be non-empty here. */
  function StripHash(id: string): (r: string)
    requires id != ""
    ensures id[0] == '#' ==> [id[0]] + r == id
    ensures id[0] != '#' ==> r == id
  {
    if id[0] == '#' then id[1..] else id
  }

  /** The body argument of the it template: `'{\n' + space + '  }'`. */
  function ItBody(space: string): string
  {
    "{\n" + space + "  }"
  }

  /** What `proccesing_it_list(story_id, describe_len)` returns or raises. */
  function ItBlock(cfg: Config, lines: seq<string>, id: string, describeLen: nat): Result<string>
  {
    if id == "" then Err(IndexError)
    else
      var space := Spaces(describeLen * IndentUnit);
      ItText(cfg.itTemplate, lines, StripHash(id), space, ItBody(space))
  }

  /** What the `%` step can handle: no `%` in the describe template's literals
      or in any describe row, old or new. */
  predicate Parseable(cfg: Config, staleDescribe: seq<string>, text: string)
  {
    LiteralsClean(cfg.describeTemplate.pieces)
      && RowsClean(staleDescribe + ClassifyStory(cfg, text).describe)
  }

  /** What `parse` returns or raises when its buffers already hold
      `staleDescribe` and `staleIts`. */
  function ParseFrom(cfg: Config, staleDescribe: seq<string>, staleIts: seq<string>,
                     text: string, id: string): Result<string>
    requires Parseable(cfg, staleDescribe, text)
  {
    var c := ClassifyStory(cfg, text);
    var describe := staleDescribe + c.describe;
    Assemble(cfg.describeTemplate, describe, ItBlock(cfg, staleIts + c.its, id, |describe|))
  }

  /** What `parse` returns from empty buffers: a function of the story, the
      id and the configuration alone. */
  function ParseStory(cfg: Config, text: string, id: string): Result<string>
    requires Parseable(cfg, [], text)
  {
    ParseFrom(cfg, [], [], text, id)
  }

  class StoryParse {
    const cfg: Config
    var describeList: seq<string>
    var itList: seq<string>

    /** Both buffers are empty: the state between two calls that returned normally. */
    predicate Idle()
      reads this
    {
      describeList == [] && itList == []
    }

    constructor (cfg: Config)
      ensures this.cfg == cfg && Idle()
    {
      this.cfg := cfg;
      describeList := [];
      itList := [];
    }

    /** `parse`, as written: the rows are added to whatever the buffers hold,
        and the buffers are emptied only when no exception escapes. */
    method Parse(storyText: string, storyId: string) returns (r: Result<string>)
      requires Parseable(cfg, describeList, storyText)
      modifies this
      ensures r == ParseFrom(cfg, old(describeList), old(itList), storyText, storyId)
      ensures r.Ok? ==> Idle()
      ensures r.Err? ==> describeList == old(describeList) + ClassifyStory(cfg, storyText).describe
      ensures r.Err? ==> itList == old(itList) + ClassifyStory(cfg, storyText).its
    {
      var rows := Split(storyText, '\n');
      ghost var d0, i0 := describeList, itList;
      ClassifyRows(rows);
      var its := ProcessItList(storyId, |describeList|);
      assert ParseFrom(cfg, d0, i0, storyText, storyId) == Assemble(cfg.describeTemplate, describeList, its);
      if its.Err? {
        return its;
      }
      var desc := ProcessDescribeList();
      if desc.Err? {
        return desc;
      }
      SkeletonHolesOnly(cfg.describeTemplate, describeList);
      r := Interpolate(desc.value, its.value);
      if r.Err? {
        return;
      }
      describeList := [];
      itList := [];
    }

    /** `parse` with its buffers emptied on every exit, as a `finally` clause
        would: from idle buffers every call returns `ParseStory` of its own
        arguments and leaves the buffers idle. */
    method ParseIsolated(storyText: string, storyId: string) returns (r: Result<string>)
      requires Idle() && Parseable(cfg, [], storyText)
      modifies this
      ensures Idle()
      ensures r == ParseStory(cfg, storyText, storyId)
    {
      r := Parse(storyText, storyId);
      describeList := [];
      itList := [];
    }

    /** The loop of `parse` over the rows of the story: each row is appended
        to the list its first matching keyword picks. */
    method ClassifyRows(rows: seq<string>)
      modifies this
      ensures describeList == old(describeList) + Classify(rows, Categories(cfg, rows)).describe
      ensures itList == old(itList) + Classify(rows, Categories(cfg, rows)).its
    {
      ghost var d0, i0 := describeList, itList;
      ghost var cats := Categories(cfg, rows);
      var foundWhen := false;
      var i := 0;
      while i < |rows|
        invariant 0 <= i <= |rows|
        invariant Buckets(describeList, itList, foundWhen) == Extend(d0, i0, Classify(rows[..i], cats[..i]))
      {
        ghost var before := Buckets(describeList, itList, foundWhen);
        var row := rows[i];
        assert cats[i] == CategoryOf(cfg, row);
        if Check(row, cfg.givenWords) {
          describeList := describeList + [row];
        } else if Check(row, cfg.andWords) {
          if !foundWhen {
            describeList := describeList + [row];
          } else {
            itList := itList + [row];
          }
        } else if Check(row, cfg.whenWords) {
          describeList := describeList + [row];
          foundWhen := true;
        } else if Check(row, cfg.thenWords) {
          itList := itList + [row];
        }
        assert Buckets(describeList, itList, foundWhen) == Step(before, row, cats[i]);
        ExtendSnoc(d0, i0, rows, cats, i);
        i := i + 1;
      }
      assert rows[..i] == rows && cats[..i] == cats;
    }

    /** `proccesing_describe_list`: folds the describe rows from the last to
        the first, each wrapping the text built so far. */
    method ProcessDescribeList() returns (r: Result<string>)
      ensures r == Skeleton(cfg.describeTemplate, describeList)
    {
      var n := |describeList|;
      var level := n - 1;
      var describeRst := "";
      while level >= 0
        invariant -1 <= level < n
        invariant level == n - 1 ==> describeRst == ""
        invariant level < n - 1 ==> Nest(cfg.describeTemplate, describeList, level + 1) == Ok(describeRst)
      {
        var describeText := describeList[level];
        var f: Result<string>;
        if level == n - 1 {
          f := Format(cfg.describeTemplate, [describeText, "%s"]);
        } else {
          var spaces := Spaces((level + 1) * IndentUnit);
          var lastSpaces := Spaces(level * IndentUnit);
          var inner := ("\n" + spaces) + describeRst + ("\n" + lastSpaces);
          f := Format(cfg.describeTemplate, [describeText, inner]);
        }
        if f.Err? {
          NestErrPropagates(cfg.describeTemplate, describeList, 0, level);
          return f;
        }
        describeRst := f.value;
        level := level - 1;
      }
      assert n == 0 ==> describeList == [];
      return Ok(describeRst);
    }

    /** `proccesing_it_list`: one indented line per it row that formats. */
    method ProcessItList(storyId: string, describeLen: nat) returns (r: Result<string>)
      ensures r == ItBlock(cfg, itList, storyId, describeLen)
    {
      var itText := "\n";
      if storyId == "" {
        return Err(IndexError);
      }
      var id := storyId;
      if id[0] == '#' {
        id := id[1..];
      }
      ghost var sp := Spaces(describeLen * IndentUnit);
      var k := 0;
      while k < |itList|
        invariant 0 <= k <= |itList|
        invariant ItText(cfg.itTemplate, itList[..k], id, sp, ItBody(sp)) == Ok(itText)
      {
        var space := Spaces(describeLen * IndentUnit);
        var f := Format(cfg.itTemplate, [itList[k], id, "{\n" + space + "  }"]);
        assert itList[..k + 1][..k] == itList[..k];
        if f.Ok? {
          itText := itText + (space + f.value);
        } else if f.error != ValueError {
          ItTextErrPropagates(cfg.itTemplate, itList, k + 1, id, sp, ItBody(sp));
          return Err(f.error);
        }
        k := k + 1;
      }
      assert itList[..k] == itList;
      return Ok(itText);
    }
  }

  // -----------------------------------------------------------------------
  // Properties of the formatter

  /** One leading `#` is dropped from the id, so `#123` and `123` give the same output. */
  lemma ParseIgnoresHash(cfg: Config, text: string, id: string)
    requires Parseable(cfg, [], text) && id != "" && id[0] != '#'
    ensures ParseStory(cfg, text, "#" + id) == ParseStory(cfg, text, id)
  {
    assert StripHash("#" + id) == id;
  }

  /** With a describe template that uses `{1}` once, the output is the
      openings of the describe rows (the first row outermost, the last
      innermost), the it block (a newline, then the rendered it rows), and
      the closings of the rows in reverse order. */
  lemma ParseShape(cfg: Config, text: string, id: string)
    requires Parseable(cfg, [], text) && ParseStory(cfg, text, id).Ok?
    requires Uses(cfg.describeTemplate.pieces, 1) == 1
    ensures var c := ClassifyStory(cfg, text);
            var its := ItBlock(cfg, c.its, id, |c.describe|);
            c.describe != [] && its.Ok? && "\n" <= its.value
            && ParseStory(cfg, text, id).value
               == Opens(cfg.describeTemplate, c.describe, 0) + its.value
                  + Closes(cfg.describeTemplate, c.describe, 0)
  {
    var c := ClassifyStory(cfg, text);
    var dt := cfg.describeTemplate;
    assert [] + c.describe == c.describe && [] + c.its == c.its;
    var its := ItBlock(cfg, c.its, id, |c.describe|);
    assert its.Ok?;
    var space := Spaces(|c.describe| * IndentUnit);
    ItTextGrows(cfg.itTemplate, c.its, 0, StripHash(id), space, ItBody(space));
    AssembleTypeError(dt, c.describe, its.value);
    AssembleShape(dt, c.describe, its.value);
  }

  /** A story without Given, When or early And rows cannot be parsed: `'' % its` raises TypeError. */
  lemma ParseNeedsDescribeRow(cfg: Config, text: string, id: string)
    requires Parseable(cfg, [], text) && ClassifyStory(cfg, text).describe == []
    requires ItBlock(cfg, ClassifyStory(cfg, text).its, id, 0).Ok?
    ensures ParseStory(cfg, text, id) == Err(TypeError)
  {
    var c := ClassifyStory(cfg, text);
    assert [] + c.describe == [] && [] + c.its == c.its;
    AssembleTypeError(cfg.describeTemplate, [], ItBlock(cfg, c.its, id, 0).value);
  }
}
