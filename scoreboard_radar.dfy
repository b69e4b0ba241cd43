/**
 * The data behind a team's radar chart in the scoreboard item modal: the
 * challenge lookup by id, one indicator per tag, and the per-tag values that
 * the team's submissions accumulate.
 */
module ScoreboardRadar {
  import opened Wrappers
  import opened ScoreboardTypes
  import opened Ratios

  // ---------------------------------------------------------------------------
  // The challenge lookup by id
  // ---------------------------------------------------------------------------

  /** Every tag's challenge list, concatenated in key order. */
  function Flatten(table: ChallengeTable): seq<ChallengeInfo>
  {
    if table == [] then [] else Flatten(table[..|table| - 1]) + table[|table| - 1].challenges
  }

  /** The map obtained by setting `id -> challenge` for the challenges of `s` in order. */
  function IdMapOf(s: seq<ChallengeInfo>): map<int, ChallengeInfo>
  {
    if s == [] then map[] else IdMapOf(s[..|s| - 1])[s[|s| - 1].id := s[|s| - 1]]
  }

  /** The last position of `s` holding a challenge with id `id`, or -1. */
  function LastIndexOf(s: seq<ChallengeInfo>, id: int): (i: int)
    ensures -1 <= i < |s|
    ensures i >= 0 ==> s[i].id == id
    ensures forall j :: i < j < |s| ==> s[j].id != id
  {
    if s == [] then -1
    else if s[|s| - 1].id == id then |s| - 1
    else LastIndexOf(s[..|s| - 1], id)
  }

  /**
   * Builds the lookup the way the component does: a reduce over the record's
   * keys that sets every challenge of every list into one map. Absent when the
   * record is absent.
   */
  method BuildChallengeIdMap(challenges: Option<ChallengeTable>) returns (idMap: Option<map<int, ChallengeInfo>>)
    ensures idMap.None? <==> challenges.None?
    ensures challenges.Some? ==> idMap == Some(IdMapOf(Flatten(challenges.value)))
  {
    if challenges.None? {
      return None;
    }
    var table := challenges.value;
    var m: map<int, ChallengeInfo> := map[];
    var k := 0;
    while k < |table|
      invariant 0 <= k <= |table|
      invariant m == IdMapOf(Flatten(table[..k]))
    {
      var list := table[k].challenges;
      var j := 0;
      assert Flatten(table[..k]) + list[..0] == Flatten(table[..k]);
      while j < |list|
        invariant 0 <= j <= |list|
        invariant m == IdMapOf(Flatten(table[..k]) + list[..j])
      {
        ghost var done := Flatten(table[..k]) + list[..j + 1];
        assert done[..|done| - 1] == Flatten(table[..k]) + list[..j];
        m := m[list[j].id := list[j]];
        j := j + 1;
      }
      assert table[..k + 1][..k] == table[..k];
      assert list[..j] == list;
      k := k + 1;
    }
    assert table[..k] == table;
    return Some(m);
  }

  /**
   * An id is in the lookup exactly when some challenge carries it, and then it
   * maps to the last challenge carrying it.
   */
  lemma {:induction false} IdMapOfLastOccurrence(s: seq<ChallengeInfo>, id: int)
    ensures id in IdMapOf(s) <==> LastIndexOf(s, id) >= 0
    ensures id in IdMapOf(s) ==> IdMapOf(s)[id] == s[LastIndexOf(s, id)]
  {
    if s != [] && s[|s| - 1].id != id {
      IdMapOfLastOccurrence(s[..|s| - 1], id);
    }
  }

  /** A challenge is in the concatenation iff it is in some tag's list. */
  lemma {:induction false} FlattenMembers(table: ChallengeTable, c: ChallengeInfo)
    ensures c in Flatten(table) <==> exists k :: 0 <= k < |table| && c in table[k].challenges
  {
    if table != [] {
      var init := table[..|table| - 1];
      FlattenMembers(init, c);
      if exists k :: 0 <= k < |table| && c in table[k].challenges {
        var k :| 0 <= k < |table| && c in table[k].challenges;
        if k < |table| - 1 {
          assert init[k] == table[k];
        }
      }
    }
  }

  /** Every challenge of every tag list has its id in the lookup. */
  lemma {:induction false} IdMapCoversTable(table: ChallengeTable, k: int, c: ChallengeInfo)
    requires 0 <= k < |table| && c in table[k].challenges
    ensures c.id in IdMapOf(Flatten(table))
  {
    FlattenMembers(table, c);
    var s := Flatten(table);
    var i :| 0 <= i < |s| && s[i] == c;
    IdMapOfLastOccurrence(s, c.id);
  }

  // ---------------------------------------------------------------------------
  // Indicators
  // ---------------------------------------------------------------------------

  /** One axis of the radar chart. */
  datatype Indicator = Indicator(name: string, scoreSum: int, max: int)

  /** What one challenge adds to its tag's `scoreSum`: its score once some team solved it. */
  function SolvedScore(c: ChallengeInfo): int
  {
    if c.solved == 0 then 0 else c.score
  }

  /** The tag's `scoreSum`, as the component's left-to-right reduce computes it. */
  function ScoreSum(list: seq<ChallengeInfo>): int
  {
    if list == [] then 0 else ScoreSum(list[..|list| - 1]) + SolvedScore(list[|list| - 1])
  }

  /** One indicator per key of the record, in key order; absent when the record is. */
  function Indicators(challenges: Option<ChallengeTable>): (r: Option<seq<Indicator>>)
    ensures r.None? <==> challenges.None?
    ensures r.Some? ==> |r.value| == |challenges.value|
    ensures r.Some? ==> forall i :: 0 <= i < |r.value| ==>
      && r.value[i].name == challenges.value[i].tag
      && r.value[i].scoreSum == ScoreSum(challenges.value[i].challenges)
      && r.value[i].max == 1
  {
    match challenges
    case None => None
    case Some(table) =>
      Some(seq(|table|, i requires 0 <= i < |table| => Indicator(table[i].tag, ScoreSum(table[i].challenges), 1)))
  }

  /** The challenges of a list that some team has solved, in list order. */
  function SolvedOnly(list: seq<ChallengeInfo>): seq<ChallengeInfo>
  {
    if list == [] then []
    else (if list[0].solved == 0 then [] else [list[0]]) + SolvedOnly(list[1..])
  }

  /** The sum of the configured scores of a list. */
  function TotalScore(list: seq<ChallengeInfo>): int
  {
    if list == [] then 0 else list[0].score + TotalScore(list[1..])
  }

  lemma {:induction false} SolvedOnlyAppend(list: seq<ChallengeInfo>, c: ChallengeInfo)
    ensures SolvedOnly(list + [c]) == SolvedOnly(list) + (if c.solved == 0 then [] else [c])
  {
    if list != [] {
      assert (list + [c])[1..] == list[1..] + [c];
      SolvedOnlyAppend(list[1..], c);
    }
  }

  lemma {:induction false} TotalScoreAppend(a: seq<ChallengeInfo>, b: seq<ChallengeInfo>)
    ensures TotalScore(a + b) == TotalScore(a) + TotalScore(b)
  {
    if a != [] {
      assert (a + b)[1..] == a[1..] + b;
      TotalScoreAppend(a[1..], b);
    } else {
      assert a + b == b;
    }
  }

  /**
   * A tag's `scoreSum` is the total configured score of the challenges in it
   * that some team solved; challenges nobody solved contribute nothing.
   */
  lemma {:induction false} ScoreSumCountsSolvedOnly(list: seq<ChallengeInfo>)
    ensures ScoreSum(list) == TotalScore(SolvedOnly(list))
  {
    if list != [] {
      var init, c := list[..|list| - 1], list[|list| - 1];
      assert list == init + [c];
      ScoreSumCountsSolvedOnly(init);
      SolvedOnlyAppend(init, c);
      TotalScoreAppend(SolvedOnly(init), if c.solved == 0 then [] else [c]);
    }
  }

  // ---------------------------------------------------------------------------
  // The per-tag values
  // ---------------------------------------------------------------------------

  /**
   * `indicator.findIndex(ch => ch.name === tag)`, with None standing for -1.
   */
  function FindIndex(inds: seq<Indicator>, tag: string): (r: Option<nat>)
    ensures r.Some? ==> r.value < |inds| && inds[r.value].name == tag
    ensures r.Some? ==> forall j :: 0 <= j < r.value ==> inds[j].name != tag
    ensures r.None? <==> forall j :: 0 <= j < |inds| ==> inds[j].name != tag
  {
    if inds == [] then None
    else if inds[0].name == tag then Some(0)
    else
      match FindIndex(inds[1..], tag)
      case None => None
      case Some(i) => Some(i + 1)
  }

  /**
   * What one submission does to the values: nothing, or add
   * `numerator / denominator` at `index`.
   */
  datatype Step = Skip | Add(index: nat, numerator: int, denominator: int)

  /**
   * The four gates of the loop body: an awarded score, an id that resolves,
   * a challenge with a score, and a tag found among the indicator names.
   */
  ghost predicate Contributes(idMap: map<int, ChallengeInfo>, inds: seq<Indicator>, sub: ChallengeItem)
  {
    && sub.score != 0
    && sub.id in idMap
    && idMap[sub.id].score != 0
    && exists j :: 0 <= j < |inds| && inds[j].name == idMap[sub.id].tag
  }

  /**
   * The loop body for one submission. A contributing submission adds the
   * challenge's configured score (not the awarded one) over the `scoreSum` of
   * the first indicator named after the challenge's tag.
   */
  function StepOf(idMap: map<int, ChallengeInfo>, inds: seq<Indicator>, sub: ChallengeItem): (s: Step)
    ensures s.Add? <==> Contributes(idMap, inds, sub)
    ensures s.Add? ==>
      && sub.id in idMap
      && s.index < |inds|
      && inds[s.index].name == idMap[sub.id].tag
      && (forall j :: 0 <= j < s.index ==> inds[j].name != idMap[sub.id].tag)
      && s.numerator == idMap[sub.id].score
      && s.denominator == inds[s.index].scoreSum
  {
    if sub.score != 0 && sub.id in idMap && idMap[sub.id].score != 0 then
      match FindIndex(inds, idMap[sub.id].tag)
      case None => Skip
      case Some(i) => Add(i, idMap[sub.id].score, inds[i].scoreSum)
    else
      Skip
  }

  /**
   * Where the JavaScript arithmetic leaves the rationals: an index past the
   * end of `values` (the entry is `undefined`, the sum is NaN and the array
   * grows), or a zero `scoreSum` (the quotient is Infinity).
   */
  datatype Fault = IndexBeyondValues(index: nat, length: nat) | ZeroScoreSum(index: nat)

  /** A step can be applied to values of length `n` without leaving the rationals. */
  predicate StepFits(s: Step, n: nat)
  {
    s.Skip? || (s.index < n && s.denominator != 0)
  }

  /** `values[index] += numerator / denominator`. */
  function Apply(values: seq<real>, s: Step): (r: Result<seq<real>, Fault>)
    ensures r.Ok? <==> StepFits(s, |values|)
    ensures r.Ok? ==> |r.value| == |values|
    ensures r.Ok? ==> forall t :: 0 <= t < |values| && !(s.Add? && t == s.index) ==> r.value[t] == values[t]
    ensures r.Ok? && s.Add? ==> r.value[s.index] == values[s.index] + s.numerator as real / s.denominator as real
    ensures s.Add? && s.index >= |values| ==> r == Err(IndexBeyondValues(s.index, |values|))
    ensures s.Add? && s.index < |values| && s.denominator == 0 ==> r == Err(ZeroScoreSum(s.index))
  {
    match s
    case Skip => Ok(values)
    case Add(i, num, den) =>
      if i >= |values| then Err(IndexBeyondValues(i, |values|))
      else if den == 0 then Err(ZeroScoreSum(i))
      else Ok(values[i := values[i] + num as real / den as real])
  }

  /** The loop over the submissions, in order, stopping at the first fault. */
  function Accumulate(values: seq<real>, idMap: map<int, ChallengeInfo>, inds: seq<Indicator>, subs: seq<ChallengeItem>): Result<seq<real>, Fault>
  {
    if subs == [] then Ok(values)
    else
      match Accumulate(values, idMap, inds, subs[..|subs| - 1])
      case Err(f) => Err(f)
      case Ok(v) => Apply(v, StepOf(idMap, inds, subs[|subs| - 1]))
  }

  /** `new Array(n).fill(0)`. */
  function Zeros(n: nat): (r: seq<real>)
    ensures |r| == n && forall i :: 0 <= i < n ==> r[i] == 0.0
  {
    seq(n, _ => 0.0)
  }

  /**
   * The radar values of the modal: zeros, one per submission of the team,
   * updated by every submission when both the lookup and the indicators exist.
   */
  function RadarValues(item: Option<ScoreboardItem>, idMap: Option<map<int, ChallengeInfo>>, indicators: Option<seq<Indicator>>): Result<seq<real>, Fault>
  {
    var subs := Submissions(item);
    if idMap.Some? && indicators.Some? then Accumulate(Zeros(|subs|), idMap.value, indicators.value, subs)
    else Ok(Zeros(|subs|))
  }

  /**
   * The component's loop: fills a fresh array with zeros and adds every
   * contributing submission's share in place, stopping at the first fault.
   */
  method ComputeValues(item: Option<ScoreboardItem>, idMap: Option<map<int, ChallengeInfo>>, indicators: Option<seq<Indicator>>)
    returns (values: array<real>, fault: Option<Fault>)
    ensures fresh(values)
    ensures fault.None? ==> RadarValues(item, idMap, indicators) == Ok(values[..])
    ensures fault.Some? ==> RadarValues(item, idMap, indicators) == Err(fault.value)
  {
    var subs := Submissions(item);
    values := new real[|subs|](_ => 0.0);
    fault := None;
    assert values[..] == Zeros(|subs|);
    if idMap.None? || indicators.None? {
      return;
    }
    var m, inds := idMap.value, indicators.value;
    var k := 0;
    while k < |subs|
      invariant 0 <= k <= |subs|
      invariant values.Length == |subs|
      invariant Accumulate(Zeros(|subs|), m, inds, subs[..k]) == Ok(values[..])
    {
      var s := StepOf(m, inds, subs[k]);
      ghost var before := values[..];
      AccumulateNext(Zeros(|subs|), m, inds, subs, k, before);
      if !StepFits(s, values.Length) {
        fault := Some(if s.index >= values.Length then IndexBeyondValues(s.index, values.Length) else ZeroScoreSum(s.index));
        AccumulateErrPersists(Zeros(|subs|), m, inds, subs, k + 1);
        return;
      }
      AddShare(values, s);
      k := k + 1;
    }
    assert subs[..k] == subs;
  }

  /** `values[index] += numerator / denominator` for a step that adds. */
  method AddShare(values: array<real>, s: Step)
    requires StepFits(s, values.Length)
    modifies values
    ensures Apply(old(values[..]), s) == Ok(values[..])
  {
    if s.Add? {
      var amount := s.numerator as real / s.denominator as real;
      values[s.index] := values[s.index] + amount;
      assert values[..] == old(values[..])[s.index := old(values[s.index]) + amount];
    }
  }

  /** One more submission applies its step to the values reached so far. */
  lemma {:induction false} AccumulateNext(values: seq<real>, idMap: map<int, ChallengeInfo>, inds: seq<Indicator>, subs: seq<ChallengeItem>, k: nat, v: seq<real>)
    requires k < |subs|
    requires Accumulate(values, idMap, inds, subs[..k]) == Ok(v)
    ensures Accumulate(values, idMap, inds, subs[..k + 1]) == Apply(v, StepOf(idMap, inds, subs[k]))
  {
    assert subs[..k + 1][..k] == subs[..k];
    assert subs[..k + 1][k] == subs[k];
  }

  /** Once the loop has faulted, the later submissions do not change the outcome. */
  lemma {:induction false} AccumulateErrPersists(values: seq<real>, idMap: map<int, ChallengeInfo>, inds: seq<Indicator>, subs: seq<ChallengeItem>, k: nat)
    requires k <= |subs|
    requires Accumulate(values, idMap, inds, subs[..k]).Err?
    ensures Accumulate(values, idMap, inds, subs) == Accumulate(values, idMap, inds, subs[..k])
  {
    if k < |subs| {
      var init := subs[..|subs| - 1];
      assert init[..k] == subs[..k];
      AccumulateErrPersists(values, idMap, inds, init, k);
    } else {
      assert subs[..k] == subs;
    }
  }

  /**
   * The loop runs to the end without leaving the rationals iff every
   * submission's step fits the values, which keep their length.
   */
  lemma {:induction false} AccumulateOkIff(values: seq<real>, idMap: map<int, ChallengeInfo>, inds: seq<Indicator>, subs: seq<ChallengeItem>)
    ensures Accumulate(values, idMap, inds, subs).Ok? <==>
      forall i :: 0 <= i < |subs| ==> StepFits(StepOf(idMap, inds, subs[i]), |values|)
    ensures Accumulate(values, idMap, inds, subs).Ok? ==> |Accumulate(values, idMap, inds, subs).value| == |values|
  {
    if subs != [] {
      var init := subs[..|subs| - 1];
      AccumulateOkIff(values, idMap, inds, init);
      assert forall i :: 0 <= i < |init| ==> init[i] == subs[i];
    }
  }

  /** The amount a step adds at position `t`. */
  function Amount(s: Step, t: nat): real
  {
    if s.Add? && s.index == t && s.denominator != 0 then s.numerator as real / s.denominator as real else 0.0
  }

  /** The total that the submissions add at position `t`, summed front to back. */
  function TagShare(idMap: map<int, ChallengeInfo>, inds: seq<Indicator>, subs: seq<ChallengeItem>, t: nat): real
  {
    if subs == [] then 0.0 else Amount(StepOf(idMap, inds, subs[0]), t) + TagShare(idMap, inds, subs[1..], t)
  }

  /** The configured scores of the challenges whose submissions add at position `t`. */
  function TagScore(idMap: map<int, ChallengeInfo>, inds: seq<Indicator>, subs: seq<ChallengeItem>, t: nat): int
  {
    if subs == [] then 0
    else
      var s := StepOf(idMap, inds, subs[0]);
      (if s.Add? && s.index == t then s.numerator else 0) + TagScore(idMap, inds, subs[1..], t)
  }

  lemma {:induction false} TagShareAppend(idMap: map<int, ChallengeInfo>, inds: seq<Indicator>, subs: seq<ChallengeItem>, x: ChallengeItem, t: nat)
    ensures TagShare(idMap, inds, subs + [x], t) == TagShare(idMap, inds, subs, t) + Amount(StepOf(idMap, inds, x), t)
  {
    if subs != [] {
      assert (subs + [x])[1..] == subs[1..] + [x];
      TagShareAppend(idMap, inds, subs[1..], x, t);
    }
  }

  /**
   * On success, every entry is its starting value plus the shares of all the
   * submissions that resolve to that position.
   */
  lemma {:induction false} AccumulateAddsShares(values: seq<real>, idMap: map<int, ChallengeInfo>, inds: seq<Indicator>, subs: seq<ChallengeItem>)
    requires Accumulate(values, idMap, inds, subs).Ok?
    ensures |Accumulate(values, idMap, inds, subs).value| == |values|
    ensures forall t :: 0 <= t < |values| ==>
      Accumulate(values, idMap, inds, subs).value[t] == values[t] + TagShare(idMap, inds, subs, t)
  {
    if subs != [] {
      var init, x := subs[..|subs| - 1], subs[|subs| - 1];
      assert subs == init + [x];
      AccumulateAddsShares(values, idMap, inds, init);
      forall t | 0 <= t < |values|
        ensures Accumulate(values, idMap, inds, subs).value[t] == values[t] + TagShare(idMap, inds, subs, t)
      {
        TagShareAppend(idMap, inds, init, x, t);
      }
    }
  }

  /**
   * Every contribution at position `t` is over the same denominator, that
   * indicator's `scoreSum`; so the share is the configured scores over it.
   */
  lemma {:induction false} TagShareIsScoreRatio(idMap: map<int, ChallengeInfo>, inds: seq<Indicator>, subs: seq<ChallengeItem>, t: nat)
    requires t < |inds| && inds[t].scoreSum != 0
    ensures TagShare(idMap, inds, subs, t) == TagScore(idMap, inds, subs, t) as real / inds[t].scoreSum as real
  {
    if subs != [] {
      var s := StepOf(idMap, inds, subs[0]);
      var d := inds[t].scoreSum as real;
      TagShareIsScoreRatio(idMap, inds, subs[1..], t);
      var restScore := TagScore(idMap, inds, subs[1..], t) as real;
      if s.Add? && s.index == t {
        var n := s.numerator as real;
        assert TagShare(idMap, inds, subs, t) == n / d + restScore / d;
        assert TagScore(idMap, inds, subs, t) as real == n + restScore;
        SameDenominator(n, restScore, d);
      }
    }
  }

  /** Nothing is added where the `scoreSum` is zero or past the last indicator. */
  lemma {:induction false} TagShareZero(idMap: map<int, ChallengeInfo>, inds: seq<Indicator>, subs: seq<ChallengeItem>, t: nat)
    requires t >= |inds| || inds[t].scoreSum == 0
    ensures TagShare(idMap, inds, subs, t) == 0.0
  {
    if subs != [] {
      TagShareZero(idMap, inds, subs[1..], t);
    }
  }

  /** Each radar value is the total share of the submissions at its position. */
  lemma {:induction false} RadarValuesAreShares(item: Option<ScoreboardItem>, idMap: map<int, ChallengeInfo>, inds: seq<Indicator>, t: nat)
    requires RadarValues(item, Some(idMap), Some(inds)).Ok?
    requires t < |Submissions(item)|
    ensures |RadarValues(item, Some(idMap), Some(inds)).value| == |Submissions(item)|
    ensures RadarValues(item, Some(idMap), Some(inds)).value[t] == TagShare(idMap, inds, Submissions(item), t)
  {
    var subs := Submissions(item);
    var zeros := Zeros(|subs|);
    assert RadarValues(item, Some(idMap), Some(inds)) == Accumulate(zeros, idMap, inds, subs);
    AccumulateAddsShares(zeros, idMap, inds, subs);
    assert zeros[t] == 0.0;
  }

  /**
   * The values of the radar: each entry below the number of indicators is
   * the configured score the team's submissions brought in that tag over the
   * tag's `scoreSum`; entries with a zero `scoreSum` or past the last
   * indicator stay zero.
   */
  lemma {:induction false} RadarValuesMeaning(item: Option<ScoreboardItem>, idMap: map<int, ChallengeInfo>, inds: seq<Indicator>, t: nat)
    requires RadarValues(item, Some(idMap), Some(inds)).Ok?
    requires t < |Submissions(item)|
    ensures |RadarValues(item, Some(idMap), Some(inds)).value| == |Submissions(item)|
    ensures t < |inds| && inds[t].scoreSum != 0 ==>
      RadarValues(item, Some(idMap), Some(inds)).value[t]
        == TagScore(idMap, inds, Submissions(item), t) as real / inds[t].scoreSum as real
    ensures (t >= |inds| || inds[t].scoreSum == 0) ==> RadarValues(item, Some(idMap), Some(inds)).value[t] == 0.0
  {
    var subs := Submissions(item);
    RadarValuesAreShares(item, idMap, inds, t);
    if t < |inds| && inds[t].scoreSum != 0 {
      TagShareIsScoreRatio(idMap, inds, subs, t);
    } else {
      TagShareZero(idMap, inds, subs, t);
    }
  }

  // ---------------------------------------------------------------------------
  // A tag's value from the challenges the team solved in it
  // ---------------------------------------------------------------------------

  /** No two keys of the record name the same tag. */
  ghost predicate DistinctTags(table: ChallengeTable)
  {
    forall i, j :: 0 <= i < j < |table| ==> table[i].tag != table[j].tag
  }

  /** The challenges of a list that count towards its `scoreSum` with a non-zero score. */
  function Scoring(list: seq<ChallengeInfo>): (r: seq<ChallengeInfo>)
    ensures forall c :: c in r ==> c in list && c.solved != 0 && c.score != 0
  {
    if list == [] then []
    else (if list[0].solved != 0 && list[0].score != 0 then [list[0]] else []) + Scoring(list[1..])
  }

  /**
   * The challenges of tag `tag` that the team's contributing submissions
   * resolve to, one per submission, in submission order.
   */
  function ContributedChallenges(idMap: map<int, ChallengeInfo>, inds: seq<Indicator>, subs: seq<ChallengeItem>, tag: string): (r: seq<ChallengeInfo>)
    ensures forall c :: c in r ==> c.tag == tag && c.score != 0
  {
    if subs == [] then []
    else
      var s := StepOf(idMap, inds, subs[0]);
      (if s.Add? && idMap[subs[0].id].tag == tag then [idMap[subs[0].id]] else [])
        + ContributedChallenges(idMap, inds, subs[1..], tag)
  }

  /** The configured scores of one challenge followed by a list. */
  lemma {:induction false} TotalScoreCons(c: ChallengeInfo, list: seq<ChallengeInfo>)
    ensures TotalScore([c] + list) == c.score + TotalScore(list)
  {
    assert ([c] + list)[1..] == list;
  }

  /** Taking one challenge out of a list takes its score out of the total. */
  lemma {:induction false} TotalScoreRemove(list: seq<ChallengeInfo>, i: nat)
    requires i < |list|
    ensures TotalScore(list) == list[i].score + TotalScore(list[..i] + list[i + 1..])
  {
    var before, after := list[..i], list[i + 1..];
    SplitAt(list, i);
    TotalScoreAppend(before, [list[i]] + after);
    TotalScoreCons(list[i], after);
    TotalScoreAppend(before, after);
  }

  /** A list is what comes before a position, the element there, and what comes after. */
  lemma {:induction false} SplitAt(list: seq<ChallengeInfo>, i: nat)
    requires i < |list|
    ensures list == list[..i] + ([list[i]] + list[i + 1..])
    ensures multiset(list) == multiset(list[..i] + list[i + 1..]) + multiset{list[i]}
  {
    assert list == list[..i] + [list[i]] + list[i + 1..];
  }

  /** The total of a list of non-negative scores is non-negative. */
  lemma {:induction false} TotalScoreNonNegative(list: seq<ChallengeInfo>)
    requires forall c :: c in list ==> c.score >= 0
    ensures TotalScore(list) >= 0
  {
    if list != [] {
      TotalScoreNonNegative(list[1..]);
    }
  }

  /** Finds `c` in `b`, and takes it out with the multiset `a` it heads. */
  lemma {:induction false} RemoveFirstOfMultiset(a: seq<ChallengeInfo>, b: seq<ChallengeInfo>) returns (i: nat)
    requires a != [] && multiset(a) <= multiset(b)
    ensures i < |b| && b[i] == a[0]
    ensures multiset(a[1..]) <= multiset(b[..i] + b[i + 1..])
    ensures multiset(a) == multiset(b) ==> multiset(a[1..]) == multiset(b[..i] + b[i + 1..])
  {
    assert a == [a[0]] + a[1..];
    assert a[0] in multiset(b);
    i :| 0 <= i < |b| && b[i] == a[0];
    SplitAt(b, i);
    assert multiset(a) == multiset(a[1..]) + multiset{a[0]};
    CancelOne(a[0], multiset(a[1..]), multiset(b[..i] + b[i + 1..]));
  }

  /** The same element taken out of both sides keeps inclusion and equality. */
  lemma {:induction false} CancelOne(x: ChallengeInfo, p: multiset<ChallengeInfo>, q: multiset<ChallengeInfo>)
    ensures p + multiset{x} <= q + multiset{x} ==> p <= q
    ensures p + multiset{x} == q + multiset{x} ==> p == q
  {
    if p + multiset{x} <= q + multiset{x} {
      forall y
        ensures p[y] <= q[y]
      {
        assert (p + multiset{x})[y] <= (q + multiset{x})[y];
      }
    }
    if p + multiset{x} == q + multiset{x} {
      forall y
        ensures p[y] == q[y]
      {
        assert (p + multiset{x})[y] == (q + multiset{x})[y];
      }
    }
  }

  /** A total of configured scores does not depend on the order of the list. */
  lemma {:induction false} TotalScorePermutation(a: seq<ChallengeInfo>, b: seq<ChallengeInfo>)
    requires multiset(a) == multiset(b)
    ensures TotalScore(a) == TotalScore(b)
  {
    if a != [] {
      var i := RemoveFirstOfMultiset(a, b);
      TotalScorePermutation(a[1..], b[..i] + b[i + 1..]);
      TotalScoreRemove(b, i);
    } else {
      assert |b| == |multiset(b)| == 0;
    }
  }

  /** With non-negative scores, a sub-multiset has a total between 0 and the whole's. */
  lemma {:induction false} TotalScoreSubMultiset(a: seq<ChallengeInfo>, b: seq<ChallengeInfo>)
    requires multiset(a) <= multiset(b)
    requires forall c :: c in b ==> c.score >= 0
    ensures 0 <= TotalScore(a) <= TotalScore(b)
  {
    if a == [] {
      TotalScoreNonNegative(b);
    } else {
      var i := RemoveFirstOfMultiset(a, b);
      var rest := b[..i] + b[i + 1..];
      SplitAt(b, i);
      forall c | c in rest
        ensures c.score >= 0
      {
        assert c in multiset(rest);
      }
      TotalScoreSubMultiset(a[1..], rest);
      TotalScoreRemove(b, i);
    }
  }

  /** Challenges with a zero score add nothing to a total. */
  lemma {:induction false} SolvedOnlyScoresAsScoring(list: seq<ChallengeInfo>)
    ensures TotalScore(SolvedOnly(list)) == TotalScore(Scoring(list))
  {
    if list != [] {
      SolvedOnlyScoresAsScoring(list[1..]);
      var head := if list[0].solved == 0 then [] else [list[0]];
      var kept := if list[0].solved != 0 && list[0].score != 0 then [list[0]] else [];
      TotalScoreAppend(head, SolvedOnly(list[1..]));
      TotalScoreAppend(kept, Scoring(list[1..]));
      assert [list[0]][1..] == [];
    }
  }

  /**
   * With distinct tags, the score a team's submissions bring at a tag's
   * position is the total of the challenges of that tag they resolve to.
   */
  lemma {:induction false} TagScoreOfTag(table: ChallengeTable, idMap: map<int, ChallengeInfo>, subs: seq<ChallengeItem>, t: nat)
    requires DistinctTags(table) && t < |table|
    ensures
      var inds := Indicators(Some(table)).value;
      TagScore(idMap, inds, subs, t) == TotalScore(ContributedChallenges(idMap, inds, subs, table[t].tag))
  {
    var inds := Indicators(Some(table)).value;
    if subs != [] {
      TagScoreOfTag(table, idMap, subs[1..], t);
      var s := StepOf(idMap, inds, subs[0]);
      var rest := ContributedChallenges(idMap, inds, subs[1..], table[t].tag);
      if s.Add? {
        var c := idMap[subs[0].id];
        assert table[s.index].tag == c.tag;
        if c.tag == table[t].tag {
          assert s.index == t;
          TotalScoreCons(c, rest);
        } else {
          assert s.index != t;
          assert [] + rest == rest;
        }
      } else {
        assert [] + rest == rest;
      }
    }
  }

  /**
   * A team whose contributing submissions in a tag resolve to exactly the
   * scoring challenges of that tag, each once, gets a value of exactly 1
   * there, the indicator's `max`.
   */
  lemma {:induction false} FullTagIsOne(item: Option<ScoreboardItem>, table: ChallengeTable, t: nat)
    requires DistinctTags(table)
    requires t < |table| && t < |Submissions(item)| && ScoreSum(table[t].challenges) != 0
    requires RadarValues(item, Some(IdMapOf(Flatten(table))), Indicators(Some(table))).Ok?
    requires multiset(ContributedChallenges(IdMapOf(Flatten(table)), Indicators(Some(table)).value, Submissions(item), table[t].tag))
      == multiset(Scoring(table[t].challenges))
    ensures t < |RadarValues(item, Some(IdMapOf(Flatten(table))), Indicators(Some(table))).value|
    ensures RadarValues(item, Some(IdMapOf(Flatten(table))), Indicators(Some(table))).value[t] == 1.0
  {
    var idMap, inds, subs := IdMapOf(Flatten(table)), Indicators(Some(table)).value, Submissions(item);
    var list := table[t].challenges;
    RadarValuesMeaning(item, idMap, inds, t);
    TagScoreOfTag(table, idMap, subs, t);
    TotalScorePermutation(ContributedChallenges(idMap, inds, subs, table[t].tag), Scoring(list));
    ScoreSumCountsSolvedOnly(list);
    SolvedOnlyScoresAsScoring(list);
    assert TagScore(idMap, inds, subs, t) == inds[t].scoreSum;
    SelfRatio(inds[t].scoreSum);
  }

  /**
   * With non-negative scores, a team whose contributing submissions in a tag
   * resolve to scoring challenges of that tag, none twice, gets a value
   * between 0 and 1 there.
   */
  lemma {:induction false} TagValueWithinMax(item: Option<ScoreboardItem>, table: ChallengeTable, t: nat)
    requires DistinctTags(table)
    requires t < |table| && t < |Submissions(item)| && ScoreSum(table[t].challenges) != 0
    requires forall c :: c in table[t].challenges ==> c.score >= 0
    requires RadarValues(item, Some(IdMapOf(Flatten(table))), Indicators(Some(table))).Ok?
    requires multiset(ContributedChallenges(IdMapOf(Flatten(table)), Indicators(Some(table)).value, Submissions(item), table[t].tag))
      <= multiset(Scoring(table[t].challenges))
    ensures t < |RadarValues(item, Some(IdMapOf(Flatten(table))), Indicators(Some(table))).value|
    ensures 0.0 <= RadarValues(item, Some(IdMapOf(Flatten(table))), Indicators(Some(table))).value[t] <= 1.0
  {
    var idMap, inds, subs := IdMapOf(Flatten(table)), Indicators(Some(table)).value, Submissions(item);
    var list := table[t].challenges;
    RadarValuesMeaning(item, idMap, inds, t);
    TagScoreOfTag(table, idMap, subs, t);
    TotalScoreSubMultiset(ContributedChallenges(idMap, inds, subs, table[t].tag), Scoring(list));
    ScoreSumCountsSolvedOnly(list);
    SolvedOnlyScoresAsScoring(list);
    var n, d := TagScore(idMap, inds, subs, t), inds[t].scoreSum;
    assert 0 <= n <= d && d != 0;
    UnitRatio(n as real, d as real);
  }

  /**
   * `values` has one entry per submission but is indexed by tag position: a
   * single submission for a challenge of the second tag lands past its end.
   */
  lemma {:induction false} ValuesShorterThanTags()
    ensures
      var web := ChallengeInfo(1, "a", "web", 100, 1);
      var pwn := ChallengeInfo(2, "b", "pwn", 200, 1);
      var table := [TagGroup("web", [web]), TagGroup("pwn", [pwn])];
      var item := ScoreboardItem(Some(1), Some([ChallengeItem(2, 200, FirstBlood, 0)]));
      RadarValues(Some(item), Some(IdMapOf(Flatten(table))), Indicators(Some(table)))
        == Err(IndexBeyondValues(1, 1))
  {
    var web := ChallengeInfo(1, "a", "web", 100, 1);
    var pwn := ChallengeInfo(2, "b", "pwn", 200, 1);
    var table := [TagGroup("web", [web]), TagGroup("pwn", [pwn])];
    assert Flatten(table[..1]) == [web] by {
      assert table[..1][..0] == [];
    }
    assert Flatten(table) == [web, pwn] by {
      assert table[..|table| - 1] == table[..1];
    }
    var m := IdMapOf([web, pwn]);
    assert m == map[1 := web, 2 := pwn] by {
      assert [web, pwn][..1] == [web];
      assert IdMapOf([web]) == map[1 := web];
    }
    var inds := Indicators(Some(table)).value;
    assert inds[0].name == "web" && inds[1].name == "pwn";
    assert "web" != "pwn" by {
      assert "web"[0] != "pwn"[0];
    }
    var sub := ChallengeItem(2, 200, FirstBlood, 0);
    var step := StepOf(m, inds, sub);
    assert Contributes(m, inds, sub);
    assert step.Add? && step.index == 1;
    assert [sub][..0] == [];
    assert Accumulate(Zeros(1), m, inds, [sub]) == Apply(Zeros(1), step);
  }

  /**
   * Two challenges of tag "web" worth 100 and 50, both solved by someone; a
   * team that solved only the first gets two thirds on "web".
   */
  lemma {:induction false} TwoThirdsOfWeb()
    ensures
      var a := ChallengeInfo(1, "A", "web", 100, 1);
      var b := ChallengeInfo(2, "B", "web", 50, 3);
      var table := [TagGroup("web", [a, b])];
      var item := ScoreboardItem(Some(1), Some([ChallengeItem(1, 100, FirstBlood, 0)]));
      RadarValues(Some(item), Some(IdMapOf(Flatten(table))), Indicators(Some(table)))
        == Ok([100.0 / 150.0])
  {
    var a := ChallengeInfo(1, "A", "web", 100, 1);
    var b := ChallengeInfo(2, "B", "web", 50, 3);
    var table := [TagGroup("web", [a, b])];
    assert Flatten(table) == [a, b] by {
      assert table[..0] == [];
    }
    var m := IdMapOf([a, b]);
    assert m == map[1 := a, 2 := b] by {
      assert [a, b][..1] == [a];
      assert IdMapOf([a]) == map[1 := a];
    }
    assert ScoreSum([a, b]) == 150 by {
      assert [a, b][..1] == [a];
      assert ScoreSum([a]) == 100;
    }
    var inds := Indicators(Some(table)).value;
    assert inds == [Indicator("web", 150, 1)];
    var sub := ChallengeItem(1, 100, FirstBlood, 0);
    var step := StepOf(m, inds, sub);
    assert Contributes(m, inds, sub);
    assert step == Add(0, 100, 150);
    assert [sub][..0] == [];
    assert Accumulate(Zeros(1), m, inds, [sub]) == Apply(Zeros(1), step);
    assert Zeros(1) == [0.0];
    assert Apply([0.0], step) == Ok([0.0][0 := 0.0 + 100 as real / 150 as real]);
    assert [0.0][0 := 0.0 + 100 as real / 150 as real] == [100.0 / 150.0];
  }
}
