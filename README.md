# GZCTF client logic: the team radar, the solved table and the game editing tabs

This project models two pieces of GZCTF's web client in Dafny and proves what
they compute.

The first piece is the **scoreboard item modal**. When a team is opened on the
mobile scoreboard, the modal derives five things from the challenge record
(tag to challenge list) and the team's scoreboard item:

- an id to challenge lookup (`ScoreboardRadar.BuildChallengeIdMap`, a loop that
  sets every challenge of every list into a map);
- one radar indicator per tag, whose `scoreSum` adds the scores of the
  challenges some team solved (`ScoreboardRadar.Indicators`);
- the radar `values`: an array of zeros, one per team submission, that the
  loop over the submissions updates in place (`ScoreboardRadar.ComputeValues`);
- the solved fraction under the chart (`ScoreboardSolved.SolvedFraction`);
- the solved table: the submissions that are not Unaccepted, latest first
  (`ScoreboardSolved.SolvedRows`, `ScoreboardSolved.SolvedPanelOf`).

The component's quirks are kept as they are:

- `values` has one entry per submission but is indexed by tag position.
- The amount added is the challenge's configured score. The awarded score only
  gates the update.
- `scoreSum` counts only challenges with a non-zero solve count.
- Every indicator's `max` is 1.

The divisions are done in Dafny's exact `real` numbers, which idealises
JavaScript's floating point. There are three places where JavaScript leaves
the numbers altogether, giving NaN or Infinity. The model makes each of them
explicit:

- an index past the end of `values`: the `Fault` value `IndexBeyondValues`;
- a zero `scoreSum`: the `Fault` value `ZeroScoreSum`;
- a solved fraction over a present but empty submission list: `None` from
  `SolvedFraction`.

The second piece is the **game editing frame** of the admin area. It has five
tabs: info, notices, challenges, review and writeups.

- `GameEditTab.GetTab` picks the first page, in list order, whose path occurs
  as a substring of the pathname.
- `GameEditTab.EditTabState` is the selected tab plus the navigation targets
  the component issues. It changes on construction, on a location change, on
  a tab click and on the back button.
- Substring search is `Substrings.Includes`. A separator lemma lets the model
  prove that a tab URL selects its own tab again, and that the default back
  URL selects none.

Files:

- `wrappers.dfy`: Option and Result.
- `ratios.dfy`: small facts about real quotients.
- `scoreboard_types.dfy`: the API records the modal reads.
- `scoreboard_radar.dfy`: the lookup, the indicators and the values.
- `scoreboard_solved.dfy`: the fraction and the table.
- `substrings.dfy`: `includes` and its separator lemma.
- `game_edit_tab.dfy`: tab resolution and the component state.

Specification functions without contracts of their own define the meaning,
and the lemmas in the table below tie them to the source's promises:

- `ScoreboardTypes.Submissions`: `item?.challenges ?? []`
  (src/GZCTF/ClientApp/src/components/MobileScoreboardItemModal.tsx:56-58).
- `ScoreboardRadar.Flatten` and `ScoreboardRadar.IdMapOf`: the lookup as a
  fold (src/GZCTF/ClientApp/src/components/MobileScoreboardItemModal.tsx:37-44).
- `ScoreboardRadar.SolvedScore`: `!chal.solved ? 0 : chal.score`, and
  `ScoreboardRadar.ScoreSum`: the reduce over it
  (src/GZCTF/ClientApp/src/components/MobileScoreboardItemModal.tsx:52).
- `ScoreboardRadar.Accumulate` and `ScoreboardRadar.RadarValues`: the loop as
  a fold that stops at the first fault
  (src/GZCTF/ClientApp/src/components/MobileScoreboardItemModal.tsx:56-66).
- `ScoreboardRadar.DistinctTags`: no two keys of the record name the same tag
  (the keys of the record at
  src/GZCTF/ClientApp/src/components/MobileScoreboardItemModal.tsx:28).
- `GameEditTab.Page`, `GameEditTab.PagePath` and `GameEditTab.Pages`: the
  `pages` constant and the order it is searched in
  (src/GZCTF/ClientApp/src/components/admin/WithGameEditTab.tsx:47-53).
- `GameEditTab.TabUrl`: the tab-change target
  (src/GZCTF/ClientApp/src/components/admin/WithGameEditTab.tsx:91).
- `GameEditTab.BackTarget`: the back target
  (src/GZCTF/ClientApp/src/components/admin/WithGameEditTab.tsx:77).

## Model

| member | source | states |
|---|---|---|
| ScoreboardRadar.BuildChallengeIdMap | src/GZCTF/ClientApp/src/components/MobileScoreboardItemModal.tsx:37-44 | the lookup is absent exactly when the record is; otherwise it is the map obtained by setting every challenge of every tag list, keys in order and lists in order |
| ScoreboardRadar.IdMapOfLastOccurrence | src/GZCTF/ClientApp/src/components/MobileScoreboardItemModal.tsx:39-43 | an id is in the lookup iff some challenge carries it, and it then maps to the last such challenge in key-then-list order |
| ScoreboardRadar.LastIndexOf | src/GZCTF/ClientApp/src/components/MobileScoreboardItemModal.tsx:41 | the position returned holds the id and no later position does, or it is -1 |
| ScoreboardRadar.FlattenMembers | src/GZCTF/ClientApp/src/components/MobileScoreboardItemModal.tsx:39-40 | a challenge is visited by the reduce iff it is in some tag's list |
| ScoreboardRadar.IdMapCoversTable | src/GZCTF/ClientApp/src/components/MobileScoreboardItemModal.tsx:37-44 | every challenge of every tag list has its id in the lookup |
| ScoreboardRadar.Indicators | src/GZCTF/ClientApp/src/components/MobileScoreboardItemModal.tsx:48-54 | absent exactly when the record is; one indicator per key in key order, named after the tag, with that tag's scoreSum and max 1 |
| ScoreboardRadar.ScoreSumCountsSolvedOnly | src/GZCTF/ClientApp/src/components/MobileScoreboardItemModal.tsx:52 | a tag's scoreSum is the total configured score of its challenges with a non-zero solve count; unsolved challenges add nothing |
| ScoreboardRadar.SolvedOnlyAppend | src/GZCTF/ClientApp/src/components/MobileScoreboardItemModal.tsx:52 | the solved challenges of a list extended by one are those of the list plus that one if it was solved |
| ScoreboardRadar.TotalScoreAppend | src/GZCTF/ClientApp/src/components/MobileScoreboardItemModal.tsx:52 | the score total of two lists joined is the sum of their totals |
| ScoreboardRadar.FindIndex | src/GZCTF/ClientApp/src/components/MobileScoreboardItemModal.tsx:61 | the first indicator position named after the tag; None exactly when no indicator has that name |
| ScoreboardRadar.StepOf | src/GZCTF/ClientApp/src/components/MobileScoreboardItemModal.tsx:58-64 | a submission adds iff its awarded score is non-zero, its id resolves, the challenge's score is non-zero and the tag names some indicator; it then adds the challenge's configured score over the scoreSum of the first indicator with that name |
| ScoreboardRadar.Apply | src/GZCTF/ClientApp/src/components/MobileScoreboardItemModal.tsx:62-63 | an adding step changes only its own index, by numerator over denominator; it faults when the index is past the end of values or the scoreSum is zero; a skipping step changes nothing |
| ScoreboardRadar.Zeros | src/GZCTF/ClientApp/src/components/MobileScoreboardItemModal.tsx:56 | the starting values: as many entries as the argument, all zero |
| ScoreboardRadar.ComputeValues | src/GZCTF/ClientApp/src/components/MobileScoreboardItemModal.tsx:56-66 | the array filled with zeros (one per submission) and updated in place by each submission in order equals the fold of the steps, or its first fault |
| ScoreboardRadar.AddShare | src/GZCTF/ClientApp/src/components/MobileScoreboardItemModal.tsx:63 | the in-place `+=` on the array leaves it equal to applying the step to its old contents |
| ScoreboardRadar.AccumulateNext | src/GZCTF/ClientApp/src/components/MobileScoreboardItemModal.tsx:58 | one more submission applies its step to the values reached so far |
| ScoreboardRadar.AccumulateErrPersists | src/GZCTF/ClientApp/src/components/MobileScoreboardItemModal.tsx:58-66 | once a fault has happened, the later submissions do not change the outcome |
| ScoreboardRadar.AccumulateOkIff | src/GZCTF/ClientApp/src/components/MobileScoreboardItemModal.tsx:58-66 | the loop stays within the rationals iff every submission's step fits the values, and then the length is kept |
| ScoreboardRadar.TagShareAppend | src/GZCTF/ClientApp/src/components/MobileScoreboardItemModal.tsx:58-66 | the share at a position of a list extended by one submission is the old share plus that submission's amount |
| ScoreboardRadar.AccumulateAddsShares | src/GZCTF/ClientApp/src/components/MobileScoreboardItemModal.tsx:58-66 | on success every entry is its starting value plus the shares of exactly the submissions that resolve to that position |
| ScoreboardRadar.TagShareIsScoreRatio | src/GZCTF/ClientApp/src/components/MobileScoreboardItemModal.tsx:63 | the shares added at a tag position sum to the configured scores of its contributing challenges over that tag's scoreSum |
| ScoreboardRadar.TagShareZero | src/GZCTF/ClientApp/src/components/MobileScoreboardItemModal.tsx:61-63 | nothing is added at a position past the last indicator or one whose scoreSum is zero |
| ScoreboardRadar.RadarValuesAreShares | src/GZCTF/ClientApp/src/components/MobileScoreboardItemModal.tsx:56-66 | each radar value is the total share that the submissions add at its position |
| ScoreboardRadar.RadarValuesMeaning | src/GZCTF/ClientApp/src/components/MobileScoreboardItemModal.tsx:56-66 | values has one entry per submission; the entry of a tag position with non-zero scoreSum is the configured score the team brought in that tag over its scoreSum; other entries stay 0 |
| ScoreboardRadar.Scoring | src/GZCTF/ClientApp/src/components/MobileScoreboardItemModal.tsx:52 | keeps only challenges of the list that have been solved and carry a non-zero score |
| ScoreboardRadar.ContributedChallenges | src/GZCTF/ClientApp/src/components/MobileScoreboardItemModal.tsx:58-63 | the challenges the contributing submissions resolve to, restricted to one tag: each has that tag and a non-zero score |
| ScoreboardRadar.TotalScoreCons | src/GZCTF/ClientApp/src/components/MobileScoreboardItemModal.tsx:52 | the score total of a challenge followed by a list is its score plus the list's total |
| ScoreboardRadar.TotalScoreRemove | src/GZCTF/ClientApp/src/components/MobileScoreboardItemModal.tsx:52 | taking one challenge out of a list takes its score out of the total |
| ScoreboardRadar.TotalScoreNonNegative | src/GZCTF/ClientApp/src/components/MobileScoreboardItemModal.tsx:52 | a list of non-negative scores has a non-negative total |
| ScoreboardRadar.RemoveFirstOfMultiset | src/GZCTF/ClientApp/src/components/MobileScoreboardItemModal.tsx:52 | the head of a sub-multiset is found in the larger list, and removing both keeps inclusion, and equality |
| ScoreboardRadar.TotalScorePermutation | src/GZCTF/ClientApp/src/components/MobileScoreboardItemModal.tsx:52 | the score total does not depend on the order or arrangement of the challenges |
| ScoreboardRadar.TotalScoreSubMultiset | src/GZCTF/ClientApp/src/components/MobileScoreboardItemModal.tsx:52 | with non-negative scores, a sub-multiset's total lies between 0 and the whole's |
| ScoreboardRadar.SolvedOnlyScoresAsScoring | src/GZCTF/ClientApp/src/components/MobileScoreboardItemModal.tsx:52 | dropping solved challenges with a zero score does not change the scoreSum total |
| ScoreboardRadar.TagScoreOfTag | src/GZCTF/ClientApp/src/components/MobileScoreboardItemModal.tsx:48-63 | with distinct tags, the score added at a tag's indicator position is the total configured score of the challenges of that tag the team's contributing submissions resolve to |
| ScoreboardRadar.FullTagIsOne | src/GZCTF/ClientApp/src/components/MobileScoreboardItemModal.tsx:48-66 | with distinct tags and the table's own lookup and indicators, a team whose contributing submissions in a tag resolve to exactly that tag's scoring challenges, each once, gets exactly 1 there, the indicator's max |
| ScoreboardRadar.TagValueWithinMax | src/GZCTF/ClientApp/src/components/MobileScoreboardItemModal.tsx:48-66 | with distinct tags and non-negative scores, a team whose contributing submissions in a tag resolve to that tag's scoring challenges, none twice, gets a value in [0, 1] there |
| ScoreboardRadar.ValuesShorterThanTags | src/GZCTF/ClientApp/src/components/MobileScoreboardItemModal.tsx:56-63 | with two tags and one submission for the second tag, the update lands past the end of values |
| ScoreboardRadar.TwoThirdsOfWeb | src/GZCTF/ClientApp/src/components/MobileScoreboardItemModal.tsx:48-66 | two solved web challenges worth 100 and 50; a team that solved the first gets 100/150 on web |
| ScoreboardSolved.SolvedFraction | src/GZCTF/ClientApp/src/components/MobileScoreboardItemModal.tsx:46 | 0 without an item; the count (default 0) over 1 when the list is absent; undefined exactly when the list is present and empty; otherwise a number that times the list length gives the count |
| ScoreboardSolved.SolvedFractionBounds | src/GZCTF/ClientApp/src/components/MobileScoreboardItemModal.tsx:46 | a count between 0 and the list length gives a fraction in [0, 1], and 1 when every entry is counted |
| ScoreboardSolved.WithoutUnaccepted | src/GZCTF/ClientApp/src/components/MobileScoreboardItemModal.tsx:151 | keeps every submission that is not Unaccepted as often as it occurs, and no Unaccepted one |
| ScoreboardSolved.InsertLatestFirst | src/GZCTF/ClientApp/src/components/MobileScoreboardItemModal.tsx:152 | inserting into a latest-first list gives a latest-first list with one more element, the same ones plus the new one |
| ScoreboardSolved.SortLatestFirst | src/GZCTF/ClientApp/src/components/MobileScoreboardItemModal.tsx:152 | the result is ordered latest time first and is a permutation of the input |
| ScoreboardSolved.SolvedRows | src/GZCTF/ClientApp/src/components/MobileScoreboardItemModal.tsx:150-152 | the table rows are latest first, and hold exactly the non-Unaccepted submissions, each as often as in the list |
| ScoreboardSolved.SolvedPanelOf | src/GZCTF/ClientApp/src/components/MobileScoreboardItemModal.tsx:132-152 | the table is shown iff the solved count is present and positive; it has no rows when the list or the lookup is missing, and otherwise the filtered, sorted rows |
| Substrings.Includes | src/GZCTF/ClientApp/src/components/admin/WithGameEditTab.tsx:55 | `path.includes(s)`: true iff some window of the path equals the word |
| Substrings.IncludesItself | src/GZCTF/ClientApp/src/components/admin/WithGameEditTab.tsx:55 | every string includes itself |
| Substrings.OccursInPrefix | src/GZCTF/ClientApp/src/components/admin/WithGameEditTab.tsx:55 | an occurrence in a string is one in any extension of it |
| Substrings.OccursInSuffix | src/GZCTF/ClientApp/src/components/admin/WithGameEditTab.tsx:55 | an occurrence in a string is one, shifted, in anything it ends |
| Substrings.OccurrenceAvoidsSeparator | src/GZCTF/ClientApp/src/components/admin/WithGameEditTab.tsx:55 | an occurrence of a lower-case word across a separator without lower-case letters lies wholly on one side |
| Substrings.IncludesAcrossSeparator | src/GZCTF/ClientApp/src/components/admin/WithGameEditTab.tsx:55 | a lower-case word occurs in x + separator + y iff it occurs in x or in y |
| GameEditTab.Rank | src/GZCTF/ClientApp/src/components/admin/WithGameEditTab.tsx:47-53 | every page has a position in the page list, and the list holds it there |
| GameEditTab.FirstMatch | src/GZCTF/ClientApp/src/components/admin/WithGameEditTab.tsx:55 | `find`: the position returned is the first from the start whose path the pathname includes; None means no page path from the start occurs |
| GameEditTab.GetTab | src/GZCTF/ClientApp/src/components/admin/WithGameEditTab.tsx:47-55 | the page returned occurs in the pathname and no page listed before it does; None exactly when no page path occurs |
| GameEditTab.EarlierPageWins | src/GZCTF/ClientApp/src/components/admin/WithGameEditTab.tsx:55 | when two page paths occur, the later-listed page is not chosen and the choice is no later than the earlier one |
| GameEditTab.Marker | src/GZCTF/ClientApp/src/components/admin/WithGameEditTab.tsx:47-53 | each page path has a letter found neither in "admin", nor in "games", nor in any later page path |
| GameEditTab.PagePathIsLower | src/GZCTF/ClientApp/src/components/admin/WithGameEditTab.tsx:47-53 | every page path is a non-empty lower-case word |
| GameEditTab.TabUrlOccurrences | src/GZCTF/ClientApp/src/components/admin/WithGameEditTab.tsx:91 | for an id without lower-case letters, a page path occurs in the tab URL iff it occurs in "admin", in "games" or in the tab value |
| GameEditTab.TabUrlRoundTrip | src/GZCTF/ClientApp/src/components/admin/WithGameEditTab.tsx:47-91 | for an id without lower-case letters (a numeric game id), the URL a tab click navigates to selects that same tab |
| GameEditTab.DefaultBackExcludes | src/GZCTF/ClientApp/src/components/admin/WithGameEditTab.tsx:77 | no page path occurs in "/admin/games" |
| GameEditTab.DefaultBackSelectsNoTab | src/GZCTF/ClientApp/src/components/admin/WithGameEditTab.tsx:77 | the default back target selects no tab |
| GameEditTab.EditTabState.constructor | src/GZCTF/ClientApp/src/components/admin/WithGameEditTab.tsx:57 | the initial tab is the matched page's path, or "info" when nothing matches; nothing has been navigated |
| GameEditTab.EditTabState.OnLocationChange | src/GZCTF/ClientApp/src/components/admin/WithGameEditTab.tsx:59-66 | with a match the tab becomes that page's path and nothing is navigated; without one the tab is kept and a navigation to "info" is issued; the tab is always some page's path |
| GameEditTab.EditTabState.OnTabChange | src/GZCTF/ClientApp/src/components/admin/WithGameEditTab.tsx:91 | a tab click issues a navigation to "/admin/games/" + id + "/" + value and changes nothing else |
| GameEditTab.EditTabState.OnBack | src/GZCTF/ClientApp/src/components/admin/WithGameEditTab.tsx:77 | the back button issues a navigation to backUrl, or to "/admin/games" when it is absent |

## Left out

- Rendering: the JSX, the Mantine layout, the avatar, the badges, the radar
  chart component, the progress bar, the i18n strings and the table cells are
  not modelled. The modal's rank, organisation rank and score are only
  displayed.
- Times: dayjs parsing is not modelled. Submission times are integer
  milliseconds, and the comparator `dayjs(b.time).diff(dayjs(a.time))` is an
  order on them.
- Numbers: floating point is idealised by exact `real` division.
- ScoreboardRadar.ComputeValues: stops at the first fault and reports it.
  JavaScript carries on with NaN or Infinity in the array, and grows the
  array when the index is past its end. The model names the fault instead of
  reproducing those values.
- ScoreboardRadar.Indicators: the record is a sequence of (tag, list) pairs in
  `Object.keys` order. JavaScript puts integer-like keys first; the model
  takes the keys in whatever order it is given.
- ScoreboardSolved.SortLatestFirst: proves the order and the permutation, but
  not that entries with equal times keep their relative order, as
  JavaScript's stable sort does.
- ScoreboardSolved.SolvedFraction: a present but empty submission list makes
  the source divide the count by 0, which is NaN or Infinity in JavaScript.
  The model returns None there instead of a number. Otherwise it states the
  quotient by its product with the length, not as a value in [0, 1]. The
  source does not bound the count; the bound is proved separately, under its
  hypotheses, by SolvedFractionBounds.
- ScoreboardSolved.SolvedPanelOf: the lookup enters only as whether it is
  present. The title cell each row shows through the lookup is rendering.
- GameEditTab.TabUrlRoundTrip: proved only for ids without lower-case letters.
  Any other `useParams` id could itself contain a page path.
- React and the router: `useState` and `useEffect` become the fields and
  methods of `EditTabState`. `navigate` appends its target to `navigations`.
  The router's resolution of the relative target `info` against the current
  location is not modelled. Neither is the effect's run on the first render,
  which is `OnLocationChange` called after the constructor.
- `useParams` can leave the id undefined, which the template literal renders
  as "undefined". The model takes the id as a string.
- `ChallengeCard.tsx` is not part of this model: it only renders blood icons
  by list position.
- `FilePath.cs` is not part of this model: it is directory creation and
  enumeration, which is file-system I/O.
- Blood assignment, ranking and score computation happen on the server,
  outside these files; the scoreboard itself is computed there. The modal
  only displays the results.
- The code divides by `scoreSum` even when it is zero. With a non-zero
  challenge score that is Infinity or -Infinity in JavaScript, modelled as
  `ZeroScoreSum`. Each indicator's `max` is the constant 1. The model follows
  the code in both places.
- ScoreboardRadar.FullTagIsOne and ScoreboardRadar.TagValueWithinMax: assume
  that no two keys name the same tag. With a repeated tag, `findIndex` sends
  every submission of that tag to the first of its indicators.
