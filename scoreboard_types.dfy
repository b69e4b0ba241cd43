/**
 * The plain data that the scoreboard item modal receives: the game's challenges
 * grouped by tag, and one team's scoreboard item.
 */
module ScoreboardTypes {
  import opened Wrappers

  /**
   * A challenge as configured for the game. `score` is the challenge's current
   * score and `solved` the number of teams that solved it; both are numbers whose
   * JavaScript truthiness is "non-zero".
   */
  datatype ChallengeInfo = ChallengeInfo(id: int, title: string, tag: string, score: int, solved: int)

  /** One key of the tag-to-challenges record together with its list. */
  datatype TagGroup = TagGroup(tag: string, challenges: seq<ChallengeInfo>)

  /** The record `tag -> challenges`, its keys in `Object.keys` order. */
  type ChallengeTable = seq<TagGroup>

  datatype SubmissionType = Unaccepted | Normal | FirstBlood | SecondBlood | ThirdBlood

  /**
   * One entry of a team's scoreboard item: the challenge id, the score awarded
   * to the team for it, the outcome and the submission time in milliseconds.
   */
  datatype ChallengeItem = ChallengeItem(id: int, score: int, kind: SubmissionType, time: int)

  /** The fields of a team's scoreboard item that the modal computes with. */
  datatype ScoreboardItem = ScoreboardItem(solvedCount: Option<int>, challenges: Option<seq<ChallengeItem>>)

  /** `item?.challenges ?? []`: the team's submissions, empty when absent. */
  function Submissions(item: Option<ScoreboardItem>): seq<ChallengeItem>
  {
    match item
    case None => []
    case Some(it) => it.challenges.GetOr([])
  }
}
