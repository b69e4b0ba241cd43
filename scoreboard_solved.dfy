/**
 * The parts of the scoreboard item modal that summarise what a team solved:
 * the progress fraction under the radar chart and the table of the team's
 * submissions, latest first.
 */
module ScoreboardSolved {
  import opened Wrappers
  import opened ScoreboardTypes
  import opened Ratios

  // ---------------------------------------------------------------------------
  // The solved fraction
  // ---------------------------------------------------------------------------

  /**
   * `(item?.solvedCount ?? 0) / (item?.challenges?.length ?? 1)`. The
   * denominator falls back to 1 only when the list is absent; a present but
   * empty list divides by zero (NaN or Infinity in JavaScript), which is None.
   */
  function SolvedFraction(item: Option<ScoreboardItem>): (r: Option<real>)
    ensures r.None? <==> item.Some? && item.value.challenges == Some([])
    ensures item.None? ==> r == Some(0.0)
    ensures item.Some? && item.value.challenges.None? ==> r == Some(item.value.solvedCount.GetOr(0) as real)
    ensures item.Some? && item.value.challenges.Some? && r.Some? ==>
      r.value * |item.value.challenges.value| as real == item.value.solvedCount.GetOr(0) as real
  {
    match item
    case None => Some(0.0)
    case Some(it) =>
      var count := it.solvedCount.GetOr(0) as real;
      match it.challenges
      case None => Some(count / 1.0)
      case Some(list) =>
        if |list| == 0 then None
        else
          var q := count / |list| as real;
          assert q * |list| as real == count;
          Some(q)
  }

  /**
   * A solved count between zero and the length of the team's list gives a
   * fraction between 0 and 1, and exactly 1 when every entry is counted.
   */
  lemma {:induction false} SolvedFractionBounds(item: Option<ScoreboardItem>)
    requires item.Some? && item.value.challenges.Some? && item.value.challenges.value != []
    requires 0 <= item.value.solvedCount.GetOr(0) <= |item.value.challenges.value|
    ensures SolvedFraction(item).Some?
    ensures 0.0 <= SolvedFraction(item).value <= 1.0
    ensures item.value.solvedCount.GetOr(0) == |item.value.challenges.value| ==> SolvedFraction(item).value == 1.0
  {
    var n := item.value.solvedCount.GetOr(0) as real;
    var d := |item.value.challenges.value| as real;
    assert SolvedFraction(item).value == n / d;
    UnitRatio(n, d);
  }

  // ---------------------------------------------------------------------------
  // The solved table
  // ---------------------------------------------------------------------------

  /** Latest first: no entry is earlier than an entry after it. */
  ghost predicate LatestFirst(s: seq<ChallengeItem>)
  {
    forall i, j :: 0 <= i < j < |s| ==> s[i].time >= s[j].time
  }

  /** `.filter((c) => c.type !== SubmissionType.Unaccepted)`. */
  function WithoutUnaccepted(subs: seq<ChallengeItem>): (r: seq<ChallengeItem>)
    ensures forall x :: multiset(r)[x] == if x.kind == Unaccepted then 0 else multiset(subs)[x]
  {
    if subs == [] then []
    else
      var rest := WithoutUnaccepted(subs[1..]);
      assert subs == [subs[0]] + subs[1..];
      if subs[0].kind == Unaccepted then rest else [subs[0]] + rest
  }

  /**
   * Puts `x` into a latest-first list, ahead of every entry that is not later
   * than it.
   */
  function InsertLatestFirst(x: ChallengeItem, s: seq<ChallengeItem>): (r: seq<ChallengeItem>)
    requires LatestFirst(s)
    ensures LatestFirst(r)
    ensures multiset(r) == multiset(s) + multiset{x}
    ensures |r| == |s| + 1
    ensures r[0] == x || (s != [] && r[0] == s[0])
  {
    if s == [] || x.time >= s[0].time then [x] + s
    else
      var rest := InsertLatestFirst(x, s[1..]);
      assert s == [s[0]] + s[1..];
      [s[0]] + rest
  }

  /**
   * `.sort((a, b) => dayjs(b.time).diff(dayjs(a.time)))`: the entries ordered
   * by time, latest first.
   */
  function SortLatestFirst(s: seq<ChallengeItem>): (r: seq<ChallengeItem>)
    ensures LatestFirst(r)
    ensures multiset(r) == multiset(s)
  {
    if s == [] then []
    else
      assert s == [s[0]] + s[1..];
      InsertLatestFirst(s[0], SortLatestFirst(s[1..]))
  }

  /**
   * The rows of the solved table: exactly the team's entries that are not
   * Unaccepted, each as often as in the list, latest first.
   */
  function SolvedRows(subs: seq<ChallengeItem>): (r: seq<ChallengeItem>)
    ensures LatestFirst(r)
    ensures forall x :: multiset(r)[x] == if x.kind == Unaccepted then 0 else multiset(subs)[x]
    ensures forall i :: 0 <= i < |r| ==> r[i].kind != Unaccepted && r[i] in subs
  {
    var r := SortLatestFirst(WithoutUnaccepted(subs));
    assert forall i :: 0 <= i < |r| ==> multiset(r)[r[i]] > 0;
    r
  }

  /** What the lower half of the modal shows. */
  datatype SolvedPanel = NoSolvedPlaceholder | SolvedTable(rows: seq<ChallengeItem>)

  /**
   * The table is shown when the solved count is present and positive, with
   * rows only when both the team's list and the challenge lookup exist;
   * otherwise the "no solved" placeholder is shown.
   */
  function SolvedPanelOf(item: Option<ScoreboardItem>, lookupPresent: bool): (p: SolvedPanel)
    ensures p.SolvedTable? <==> item.Some? && item.value.solvedCount.Some? && item.value.solvedCount.value > 0
    ensures p.SolvedTable? && (item.value.challenges.None? || !lookupPresent) ==> p.rows == []
    ensures p.SolvedTable? && item.value.challenges.Some? && lookupPresent ==>
      && LatestFirst(p.rows)
      && forall x :: multiset(p.rows)[x] == if x.kind == Unaccepted then 0 else multiset(item.value.challenges.value)[x]
  {
    match item
    case None => NoSolvedPlaceholder
    case Some(it) =>
      if it.solvedCount.Some? && it.solvedCount.value > 0 then
        if it.challenges.Some? && lookupPresent then SolvedTable(SolvedRows(it.challenges.value))
        else SolvedTable([])
      else
        NoSolvedPlaceholder
  }
}
