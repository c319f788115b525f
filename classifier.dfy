/** The row-bucketing loop shared by both formatter copies: each story row,
    already tagged with the first keyword category it matches, goes to the
    describe list, to the it list, or nowhere. An And row goes to the
    describe list until a When row has been seen, to the it list after. */
module Classifier {

  /** The first keyword category a row matches, tried in the order Given,
      And, When, Then; how a row is matched differs between the two copies. */
  datatype Category = GivenRow | AndRow | WhenRow | ThenRow | Unmatched

  /** The two buffers and the `found_when` flag of the classification loop. */
  datatype Buckets = Buckets(describe: seq<string>, its: seq<string>, foundWhen: bool)

  const Empty := Buckets([], [], false)

  /** One iteration of the loop for a row of category `c`. */
  function Step(b: Buckets, row: string, c: Category): Buckets
  {
    match c
    case GivenRow => b.(describe := b.describe + [row])
    case AndRow =>
      if !b.foundWhen then b.(describe := b.describe + [row]) else b.(its := b.its + [row])
    case WhenRow => b.(describe := b.describe + [row], foundWhen := true)
    case ThenRow => b.(its := b.its + [row])
    case Unmatched => b
  }

  /** The loop run over `rows`, whose categories are `cats`, from fresh buffers. */
  function Classify(rows: seq<string>, cats: seq<Category>): Buckets
    requires |rows| == |cats|
  {
    if rows == [] then Empty
    else Step(Classify(rows[..|rows| - 1], cats[..|cats| - 1]), rows[|rows| - 1], cats[|cats| - 1])
  }

  /** One more row is one more iteration of the loop. */
  lemma ClassifySnoc(rows: seq<string>, cats: seq<Category>, i: nat)
    requires |rows| == |cats| && i < |rows|
    ensures Classify(rows[..i + 1], cats[..i + 1]) == Step(Classify(rows[..i], cats[..i]), rows[i], cats[i])
  {
    assert rows[..i + 1][..i] == rows[..i] && cats[..i + 1][..i] == cats[..i];
  }

  /** The buffers after the loop when they held `d0` and `i0` before it. */
  function Extend(d0: seq<string>, i0: seq<string>, b: Buckets): Buckets
  {
    Buckets(d0 + b.describe, i0 + b.its, b.foundWhen)
  }

  /** Rows already in the buffers stay in front: one more iteration on the
      extended buffers is the extension of one more iteration. */
  lemma StepShift(d0: seq<string>, i0: seq<string>, b: Buckets, row: string, c: Category)
    ensures Step(Extend(d0, i0, b), row, c) == Extend(d0, i0, Step(b, row, c))
  {
    assert (d0 + b.describe) + [row] == d0 + (b.describe + [row]);
    assert (i0 + b.its) + [row] == i0 + (b.its + [row]);
  }

  /** One more iteration of the loop on buffers that held `d0` and `i0`
      before it: the invariant of the two `ClassifyRows` loops. */
  lemma ExtendSnoc(d0: seq<string>, i0: seq<string>, rows: seq<string>, cats: seq<Category>, i: nat)
    requires |rows| == |cats| && i < |rows|
    ensures Extend(d0, i0, Classify(rows[..i + 1], cats[..i + 1]))
         == Step(Extend(d0, i0, Classify(rows[..i], cats[..i])), rows[i], cats[i])
  {
    ClassifySnoc(rows, cats, i);
    StepShift(d0, i0, Classify(rows[..i], cats[..i]), rows[i], cats[i]);
  }

  // A stateless reference: where row k goes is decided by its own category
  // and by whether some earlier row is a When row.

  predicate WhenBefore(cats: seq<Category>, k: nat)
    requires k <= |cats|
  {
    exists j :: 0 <= j < k && cats[j] == WhenRow
  }

  predicate ToDescribe(cats: seq<Category>, k: nat)
    requires k < |cats|
  {
    cats[k] == GivenRow || cats[k] == WhenRow || (cats[k] == AndRow && !WhenBefore(cats, k))
  }

  predicate ToIts(cats: seq<Category>, k: nat)
    requires k < |cats|
  {
    cats[k] == ThenRow || (cats[k] == AndRow && WhenBefore(cats, k))
  }

  /** The rows among the first `k` that go to the describe list, in row order. */
  function DescribeRows(rows: seq<string>, cats: seq<Category>, k: nat): seq<string>
    requires |rows| == |cats| && k <= |rows|
  {
    if k == 0 then []
    else DescribeRows(rows, cats, k - 1) + (if ToDescribe(cats, k - 1) then [rows[k - 1]] else [])
  }

  /** The rows among the first `k` that go to the it list, in row order. */
  function ItRows(rows: seq<string>, cats: seq<Category>, k: nat): seq<string>
    requires |rows| == |cats| && k <= |rows|
  {
    if k == 0 then []
    else ItRows(rows, cats, k - 1) + (if ToIts(cats, k - 1) then [rows[k - 1]] else [])
  }

  /** Number of rows among the first `k` that match no keyword. */
  function Dropped(cats: seq<Category>, k: nat): nat
    requires k <= |cats|
  {
    if k == 0 then 0 else Dropped(cats, k - 1) + (if cats[k - 1] == Unmatched then 1 else 0)
  }

  /** A row lands in exactly one list when it matches a keyword, in none otherwise. */
  lemma RowLandsOnce(cats: seq<Category>, k: nat)
    requires k < |cats|
    ensures !(ToDescribe(cats, k) && ToIts(cats, k))
    ensures ToDescribe(cats, k) || ToIts(cats, k) <==> cats[k] != Unmatched
  {
  }

  /** The stateful loop agrees with the stateless reference on every prefix:
      the describe list and the it list are the rows routed there, in row
      order, and `found_when` is set exactly when a When row has been seen. */
  lemma {:induction false} ClassifyPrefix(rows: seq<string>, cats: seq<Category>, k: nat)
    requires |rows| == |cats| && k <= |rows|
    ensures Classify(rows[..k], cats[..k])
         == Buckets(DescribeRows(rows, cats, k), ItRows(rows, cats, k), WhenBefore(cats, k))
  {
    if k > 0 {
      ClassifyPrefix(rows, cats, k - 1);
      assert rows[..k][..k - 1] == rows[..k - 1];
      assert cats[..k][..k - 1] == cats[..k - 1];
      assert WhenBefore(cats, k) == (WhenBefore(cats, k - 1) || cats[k - 1] == WhenRow) by {
        if cats[k - 1] == WhenRow { assert WhenBefore(cats, k); }
        if WhenBefore(cats, k) && cats[k - 1] != WhenRow {
          var j :| 0 <= j < k && cats[j] == WhenRow;
          assert j < k - 1;
        }
      }
    }
  }

  lemma ClassifyIsReference(rows: seq<string>, cats: seq<Category>)
    requires |rows| == |cats|
    ensures Classify(rows, cats)
         == Buckets(DescribeRows(rows, cats, |rows|), ItRows(rows, cats, |rows|), WhenBefore(cats, |rows|))
  {
    ClassifyPrefix(rows, cats, |rows|);
    assert rows[..|rows|] == rows && cats[..|cats|] == cats;
  }

  /** Every row is counted once: kept in one of the lists or dropped. */
  lemma {:induction false} ClassifyCount(rows: seq<string>, cats: seq<Category>)
    requires |rows| == |cats|
    ensures |Classify(rows, cats).describe| + |Classify(rows, cats).its| + Dropped(cats, |cats|) == |rows|
  {
    if rows != [] {
      var n := |rows|;
      ClassifyCount(rows[..n - 1], cats[..n - 1]);
      assert Dropped(cats, n - 1) == Dropped(cats[..n - 1], n - 1) by {
        DroppedPrefix(cats, n - 1, n - 1);
      }
    }
  }

  lemma {:induction false} DroppedPrefix(cats: seq<Category>, m: nat, k: nat)
    requires k <= m <= |cats|
    ensures Dropped(cats[..m], k) == Dropped(cats, k)
  {
    if k > 0 {
      DroppedPrefix(cats, m, k - 1);
    }
  }

  /** When every row is a Given row, all of them go to the describe list. */
  lemma {:induction false} ClassifyAllGiven(rows: seq<string>, cats: seq<Category>)
    requires |rows| == |cats|
    requires forall k :: 0 <= k < |cats| ==> cats[k] == GivenRow
    ensures Classify(rows, cats) == Buckets(rows, [], false)
  {
    if rows != [] {
      var n := |rows|;
      var b := Classify(rows[..n - 1], cats[..n - 1]);
      ClassifyAllGiven(rows[..n - 1], cats[..n - 1]);
      assert b == Buckets(rows[..n - 1], [], false);
      assert cats[n - 1] == GivenRow;
      assert Classify(rows, cats) == b.(describe := b.describe + [rows[n - 1]]);
      assert rows[..n - 1] + [rows[n - 1]] == rows;
    }
  }
}
