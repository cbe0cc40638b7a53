# Tennis league front end — a Dafny model

This project models the logic of an Angular front end for a tennis league. Players are split into groups. Each group plays rounds ("2025_Rodada3") of one-set matches. The app records scores, ranks the players and lets each player publish a weekly availability grid. The model covers the parts of the app that decide something, leaving out the Firestore, RxJS and browser plumbing around them:

- **Match results.** A score is 0–7 games, "W.O" (walkover) or "-" (not played). The model covers which results the score modal accepts and who wins. It also covers the walkover rewrite done by the match service, the pending/completed split, and how the two score tabs dispatch a save. That dispatch includes the completed tab's guard against a double walkover (`match_rules`, `confirmation_modal`, `match_service`, `save_dispatch`, `completed_page`, `pending_page`).
- **Rankings and leaderboards.** Round ids are parsed, grouped by year and ordered, and the previous round is chosen. The model covers the accumulated, round-only and general rankings with their position changes, and when a movement arrow shows. It also covers the leaderboard page, the group lister, the end-of-round warning, the year list and the scores page's choice of group (`round_ids`, `rankings`, `rankings_page`, `leaderboard`, `group_service`, `round_service`, `scores_page`).
- **Availability grid.** "HH:MM" times and half-open windows, the hourly grid, and the status of a cell. The calendar page's pending selections are toggled, applied and cleared in place. The model also covers the edit permission, the summary popup and the selection bar (`availability`, `calendar_page`, `calendar_summary`, `selection_bar`).
- **Small UI state.** The player search box and its keyboard cursor, and the profile page's form. The form model covers the change test, the update payload, the Instagram link, the ranking position and the year list. It also covers the dropdown, the WhatsApp link filter, the avatar cell and the accordion of the rules and about pages (`autocomplete`, `player_profile`, `select_component`, `whatsapp_groups`, `avatar_service`, `accordion`).

The shared modules `js_text` (null/undefined as `Option`, `filter`, `toLowerCase`, `includes`, `split`, `trim`, `Number()`, `parseInt`), `stable_sort` (`Array.prototype.sort` with a comparator, which is stable) and `string_order` (the default string sort) state the JavaScript behaviour the app relies on.

Components and services whose fields the code updates are classes, and their methods state the whole new state. Everything read from Firestore or the browser is a parameter: a list of documents, the outcome of a write, whether the code runs in a browser, the days left in a round. An asynchronous load is split into the call that starts it and a method for the answer that arrives. A timer is collapsed into the method that models it firing.

Where the written requirements and the code disagree, the model follows the code:
- `winnerPlayer("W.O", "W.O", p1, p2)` gives player 2. The code tests "score 1 is W.O" before "score 2 is W.O" (src/app/components/confirmation-modal/confirmation-modal.component.ts:143-145), rather than returning "" for a double walkover. The stored winner only becomes "" because the walkover rewrite overwrites it (src/app/services/match.service.ts:118).
- `onBlur` of the dropdown changes nothing, because its body is commented out. The component's unit test (src/app/components/select/select.component.spec.ts:51-59) expects it to close the list.

## Model

| member | source | states |
|---|---|---|
| MatchRules.IsValidScore | src/app/components/confirmation-modal/confirmation-modal.component.ts:154-169 | a valid score with a W.O is W.O against W.O or against exactly 6; a valid numeric score has two different numbers; W.O against W.O is valid |
| MatchRules.NumericValidScores | src/app/components/confirmation-modal/confirmation-modal.component.ts:161-168 | two numbers are valid exactly when they form one of the finished sets 6-0..6-4, 7-5, 7-6 in either order (so 6-5, 6-6 and 3-3 are not) |
| MatchRules.WalkoverValidScores | src/app/components/confirmation-modal/confirmation-modal.component.ts:155-159 | W.O on either side is valid exactly against W.O or 6 |
| MatchRules.ValidScoreSymmetric | src/app/components/confirmation-modal/confirmation-modal.component.ts:154-169 | validity does not depend on the order of the two scores |
| MatchRules.NotPlayedInvalid | src/app/components/confirmation-modal/confirmation-modal.component.ts:154-169 | a score that is still "-" is never valid |
| MatchRules.WinnerPlayer | src/app/components/confirmation-modal/confirmation-modal.component.ts:133-152 | the winner is "" or one of the two ids; "" when an id is missing; the side that compares greater wins; on no strict order W.O loses, so W.O vs W.O gives player 2 |
| MatchRules.WinnerOfGames | src/app/components/confirmation-modal/confirmation-modal.component.ts:140-141 | with two numbers the strictly larger side wins and equal numbers have no winner |
| MatchRules.WinnerOfWalkover | src/app/components/confirmation-modal/confirmation-modal.component.ts:140-148 | W.O against a number loses to the number on either side |
| MatchRules.ValidScoreHasWinner | src/app/components/confirmation-modal/confirmation-modal.component.ts:133-169 | every valid score with two distinct ids has a winner, the same one when the sides are swapped, except W.O vs W.O where the second id always wins |
| MatchRules.ImportResult | src/app/services/match.service.ts:286-293 | imported scores are reoriented to the stored player order; a winner is set only when both scores are different numbers |
| MatchRules.ImportWinnerOrientation | src/app/services/match.service.ts:286-293 | whichever order the match is stored in, the imported winner is the player with more games, and nobody on a tie |
| MatchRules.ImportWalkoverNoWinner | src/app/services/match.service.ts:286-293 | an imported W.O or missing score never yields a winner |
| ConfirmationModal.Initial | src/app/components/confirmation-modal/confirmation-modal.component.ts:66-75 | a stored number or W.O is kept and a "-" becomes 0 |
| ConfirmationModal.ScoreModal.constructor | src/app/components/confirmation-modal/confirmation-modal.component.ts:30-52 | no match, both scores 0 and the button disabled |
| ConfirmationModal.ScoreModal.UpdateActiveButtonState | src/app/components/confirmation-modal/confirmation-modal.component.ts:91-93 | the button is enabled exactly when there is a match and the edited scores are valid; nothing else changes |
| ConfirmationModal.ScoreModal.NgOnChanges | src/app/components/confirmation-modal/confirmation-modal.component.ts:63-81 | a new match loads its scores with "-" read as 0, no match resets both to 0, no change keeps them; the button is recomputed |
| ConfirmationModal.ScoreModal.ReceiveMatch | src/app/components/confirmation-modal/confirmation-modal.component.ts:63-81 | setting the match input and running the change hook loads the scores as above |
| ConfirmationModal.ScoreModal.OnScoreChange | src/app/components/confirmation-modal/confirmation-modal.component.ts:87-93 | the edited scores are stored and the button follows their validity |
| ConfirmationModal.ScoreModal.SaveMatch | src/app/components/confirmation-modal/confirmation-modal.component.ts:95-126 | nothing is emitted without a match; otherwise the emitted match keeps id, group and round, carries the edited scores, the players' looked-up names and the computed winner |
| Players.NameOf | src/app/components/confirmation-modal/confirmation-modal.component.ts:128-131 | "Desconhecido" for a missing or unknown id, else the name of the first player with that id |
| MatchService.PendingMatches | src/app/services/match.service.ts:44-48 | exactly the matches with a "-" on either side, each taken from the list |
| MatchService.CompletedMatches | src/app/services/match.service.ts:50-54 | exactly the matches with no "-" on either side, each taken from the list |
| MatchService.PendingCompletedPartition | src/app/services/match.service.ts:44-54 | the pending and completed lists are disjoint, keep the list's order and together hold every match exactly once |
| MatchService.SetWOForMatch | src/app/services/match.service.ts:102-126 | an error "Jogador não faz parte da partida." exactly when the id is neither player; otherwise the forfeiting side gets W.O, the other side keeps W.O or gets 6, the winner is "" for a double walkover and the other player otherwise; ids, names, group and round unchanged |
| MatchService.SetWOValid | src/app/services/match.service.ts:115-123 | a walkover always leaves W.O against 6 or W.O against W.O, a score the modal accepts |
| MatchService.SetWOIdempotent | src/app/services/match.service.ts:102-126 | recording the same walkover twice gives the same record |
| MatchService.SetWOWinnerAgreesWithModal | src/app/services/match.service.ts:115-123 | the stored winner is the modal's winner except for W.O against W.O, where the store writes "" while the modal picks player 2 |
| MatchService.CallerViewAfterWO | src/app/services/match.service.ts:113-123 | the shallow copy rewrites the caller's own player slots, while its id, group, round and winner stay as they were |
| MatchService.MatchService.constructor | src/app/services/match.service.ts:28-40 | no matches, not loading, no message, no group |
| MatchService.MatchService.SetMatchesForGroup | src/app/services/match.service.ts:56-59 | the current matches become the given list; the rest is unchanged |
| MatchService.MatchService.SetMatchesLoading | src/app/services/match.service.ts:60-62 | only the loading flag changes |
| MatchService.MatchService.SetMatchesMessage | src/app/services/match.service.ts:64-66 | only the message changes |
| MatchService.MatchService.StartMatchesLoad | src/app/services/match.service.ts:72-80 | the group id is published, loading starts and the message is cleared |
| MatchService.MatchService.OnMatchesLoaded | src/app/services/match.service.ts:85-97 | loaded matches are stored and a loaded empty list shows "Parabéns! Jogos concluídos! ✅"; a failed load stores [] with "Erro ao carregar partidas."; loading ends either way |
| SaveDispatch.Dispatch | src/app/pages/scores/completed/completed.component.ts:114-133 | a W.O for player 1 goes to the walkover operation for player 1, else a W.O for player 2 to the one for player 2, else a plain update |
| SaveDispatch.DispatchedWOSucceeds | src/app/pages/scores/pending/pending.component.ts:110-121 | a dispatched walkover always names one of the match's players, so it never throws |
| SaveDispatch.Written | src/app/pages/scores/pending/pending.component.ts:110-127 | the record sent to the store: the walkover rewrite for a W.O, the edited match otherwise, with id, group and round kept |
| SaveDispatch.LocalCopy | src/app/pages/scores/completed/completed.component.ts:135-139 | the list entry after a save carries the written player slots but the winner the modal computed |
| SaveDispatch.WalkoverSaveIsValid | src/app/pages/scores/completed/completed.component.ts:114-139 | after a walkover save both the stored record and the local copy hold a valid score |
| SaveDispatch.DoubleWalkoverWinners | src/app/pages/scores/completed/completed.component.ts:114-139 | for W.O against W.O the store gets winner "" while the page's copy keeps player 2 as winner |
| SaveDispatch.FindById | src/app/pages/scores/completed/completed.component.ts:88 | the first match with the id, or nothing when no match has it |
| SaveDispatch.ReplaceById | src/app/pages/scores/completed/completed.component.ts:137-139 | same length; entries with the id become the new value, all others are unchanged |
| SaveDispatch.ReplaceByIdFacts | src/app/pages/scores/pending/pending.component.ts:131-133 | replacing an absent id changes nothing, replacing twice is replacing once, and a present id is then found with the new value |
| CompletedPage.GuardAllows | src/app/pages/scores/completed/completed.component.ts:88-112 | a save is dropped exactly when both new scores are W.O, the match is on the page and its stored scores were not exactly one W.O |
| CompletedPage.GuardOnlyStopsDoubleWalkovers | src/app/pages/scores/completed/completed.component.ts:99 | a save that is not W.O against W.O always passes the guard |
| CompletedPage.CompletedComponent.constructor | src/app/pages/scores/completed/completed.component.ts:29-38 | empty list, modal closed, nothing selected, no message, not loading |
| CompletedPage.CompletedComponent.OnMatchesChanged | src/app/pages/scores/completed/completed.component.ts:51-59 | the list is the service's completed subset and the message is "Nenhuma partida realizada! ❌ " exactly when it is empty |
| CompletedPage.CompletedComponent.OnLoadingChanged | src/app/pages/scores/completed/completed.component.ts:62-64 | the loading flag follows the service |
| CompletedPage.CompletedComponent.OpenModal | src/app/pages/scores/completed/completed.component.ts:73-76 | the match is selected and the modal opens |
| CompletedPage.CompletedComponent.HandleCloseModal | src/app/pages/scores/completed/completed.component.ts:78-81 | the modal closes and the selection is cleared |
| CompletedPage.CompletedComponent.HandleSaveMatch | src/app/pages/scores/completed/completed.component.ts:83-146 | without a group id, or when the guard drops the save, nothing is written and nothing changes; otherwise the dispatched record is written to that group, and on success only the entry with the same id is replaced and the modal closes |
| PendingPage.PendingComponent.constructor | src/app/pages/scores/pending/pending.component.ts:42-52 | nobody logged in, empty list, modal closed |
| PendingPage.PendingComponent.OnLoggedPlayer | src/app/pages/scores/pending/pending.component.ts:60-64 | only the logged player id changes |
| PendingPage.PendingComponent.OnMatchesChanged | src/app/pages/scores/pending/pending.component.ts:70-74 | the list is always the service's pending subset |
| PendingPage.PendingComponent.OnServiceStatus | src/app/pages/scores/pending/pending.component.ts:76-86 | loading flag and message follow the service |
| PendingPage.PendingComponent.OpenModal | src/app/pages/scores/pending/pending.component.ts:94-97 | the match is selected and the modal opens |
| PendingPage.PendingComponent.HandleCloseModal | src/app/pages/scores/pending/pending.component.ts:99-102 | the modal closes and the selection is cleared |
| PendingPage.PendingComponent.CanEditMatch | src/app/pages/scores/pending/pending.component.ts:143-148 | true exactly when someone is logged in with the id of player 1 or player 2 |
| PendingPage.PendingComponent.HandleSaveMatch | src/app/pages/scores/pending/pending.component.ts:104-141 | without a group id nothing is written or changed; otherwise the dispatched record is written, with no walkover guard, and on success only the entry with the same id is replaced and the modal closes |
| RoundIds.RoundIdOf | src/app/pages/rankings/rankings.component.ts:302 | `${year}_Rodada${n}` always contains the "_" the reader splits on |
| RoundIds.ReadRoundIdOf | src/app/pages/rankings/rankings.component.ts:126-128 | reading back an id built from a year and a round number gives exactly that year and number |
| RoundIds.MinYear | src/app/pages/rankings/rankings.component.ts:289 | the smallest of the listed years, and nothing for an empty list |
| RoundIds.PreviousYear | src/app/pages/rankings/rankings.component.ts:299-313 | the year the previous round lies in: one back for round 1, the same year otherwise |
| RoundIds.PreviousCandidateId | src/app/pages/rankings/rankings.component.ts:299-313 | "(Y-1)_Rodada3" for round 1 and "Y_Rodada(N-1)" for any other round |
| RoundIds.PreviousAccumulatedRoundId | src/app/pages/rankings/rankings.component.ts:288-321 | no previous round exactly for round 1 of the earliest year; otherwise the candidate id |
| RoundIds.PreviousAccumulatedReadsBack | src/app/pages/rankings/rankings.component.ts:288-321 | the chosen previous id reads back as round 3 of the year before, or as round N-1 of the same year |
| RoundIds.RoundsFor | src/app/pages/rankings/rankings.component.ts:401 | `roundsByYear.get(y) \|\| []`: the year's rounds, or none |
| RoundIds.PreviousRoundSpecificId | src/app/pages/rankings/rankings.component.ts:393-414 | the candidate id is used exactly when the year it belongs to lists a round with that id |
| RoundIds.PreviousViewsAgree | src/app/pages/rankings/rankings.component.ts:288-414 | when the round-specific view finds a previous round, the accumulated view chooses the same one |
| RoundIds.GetRoundLabel | src/app/pages/rankings/rankings.component.ts:585-595 | an id that is not of the form "x_Rodada..." is shown unchanged |
| RoundIds.ExtractRoundNumber | src/app/pages/rankings/rankings.component.ts:597-603 | never negative, and 0 for an id that is not of the form "x_Rodada..." |
| RoundIds.LabelOfRoundId | src/app/pages/rankings/rankings.component.ts:585-603 | for "Y_RodadaN" the label is "Rodada N" and the extracted number is N |
| RoundIds.NormalizeCreatedAt | src/app/pages/rankings/rankings.component.ts:130-137 | a timestamp or date keeps its time; anything else becomes the current time |
| RoundIds.ToRoundInfo | src/app/pages/rankings/rankings.component.ts:139-145 | the entry keeps the id twice and carries the year and round number read from it |
| RoundIds.RoundInfos | src/app/pages/rankings/rankings.component.ts:122-148 | `allRounds` holds one entry per input round, in input order |
| RoundIds.RoundInfosSnoc | src/app/pages/rankings/rankings.component.ts:124-148 | each loop step appends exactly the entry for the next round |
| RoundIds.NewestFirstTotal | src/app/pages/rankings/rankings.component.ts:159-166 | round number descending, then creation time descending, is a total preorder |
| RoundIds.RoundOrderOnNumbered | src/app/pages/rankings/rankings.component.ts:159-166 | on rounds whose numbers are not NaN, the page's comparator sorts exactly like that total order |
| RoundIds.RoundsOfYear | src/app/pages/rankings/rankings.component.ts:151-154 | exactly the rounds of the given year, in input order |
| RoundIds.RoundsOfYearSnoc | src/app/pages/rankings/rankings.component.ts:151-154 | a new round is appended to its own year's list only |
| RoundIds.YearsOfSnoc | src/app/pages/rankings/rankings.component.ts:151-153 | a new round adds its year to the map's keys |
| RoundIds.GroupByYear | src/app/pages/rankings/rankings.component.ts:150-167 | the map has one key per year that occurs |
| RoundIds.GroupByYearFacts | src/app/pages/rankings/rankings.component.ts:157-167 | each year's list is a permutation of that year's rounds, sorted newest first, with equal rounds kept in input order |
| Rankings.MapOf | src/app/pages/rankings/rankings.component.ts:338-341 | every key of the pairs is in the map, which is what `new Map` or repeated `set` builds |
| Rankings.MapOfLast | src/app/pages/rankings/rankings.component.ts:514-516 | a key maps to the value of its last pair |
| Rankings.MapOfKey | src/app/pages/rankings/rankings.component.ts:514-516 | the map has no keys beyond those of the pairs |
| Rankings.ChangeFrom | src/app/pages/rankings/rankings.component.ts:357-359 | the change is the previous position minus the new one for a player the previous snapshot has, and 0 for anyone else |
| Rankings.Ranked | src/app/pages/rankings/rankings.component.ts:355-360 | the same records in the same order, at positions 1..N, each with its change against the previous positions |
| Rankings.ScoreOrder | src/app/pages/rankings/rankings.component.ts:350-352 | a permutation of the entries that have a player id and a score |
| Rankings.ScoreOrderFacts | src/app/pages/rankings/rankings.component.ts:350-352 | the filtered entries sorted by score, highest first |
| Rankings.IndexPairs | src/app/pages/rankings/rankings.component.ts:339-341 | each sorted entry's id is paired with its 1-based index |
| Rankings.AccumulatedRanking | src/app/pages/rankings/rankings.component.ts:326-362 | one row per entry with a player id and a score |
| Rankings.AccumulatedFacts | src/app/pages/rankings/rankings.component.ts:333-362 | the rows are exactly the scored entries, highest score first, at positions 1..N |
| Rankings.IndexPairsLast | src/app/pages/rankings/rankings.component.ts:339-341 | the last entry for an id is the one the previous-position map keeps |
| Rankings.AccumulatedChange | src/app/pages/rankings/rankings.component.ts:355-359 | a player found in the previous snapshot moves by its previous position minus its new one |
| Rankings.AccumulatedNewcomer | src/app/pages/rankings/rankings.component.ts:357-359 | a player absent from the previous snapshot, or every player when it is empty, has change 0 |
| Rankings.RecordedPairs | src/app/pages/rankings/rankings.component.ts:430-437 | previous positions come only from entries with a player id and a numeric position |
| Rankings.RoundSpecificRanking | src/app/pages/rankings/rankings.component.ts:446-461 | one row for every entry of the round |
| Rankings.RoundSpecificNumbered | src/app/pages/rankings/rankings.component.ts:446-459 | the rows are the round's entries in the page's comparator order, at positions 1..N |
| Rankings.ComparatorOnFinalIndex | src/app/pages/rankings/rankings.component.ts:447-448 | when every entry has a final index the comparator is ascending final index |
| Rankings.RoundSpecificByFinalIndex | src/app/pages/rankings/rankings.component.ts:446-451 | then the rows come in ascending final index |
| Rankings.ComparatorOnPoints | src/app/pages/rankings/rankings.component.ts:450 | when no entry has a final index the comparator is points descending with missing points as 0 |
| Rankings.RoundSpecificByPoints | src/app/pages/rankings/rankings.component.ts:446-451 | then the rows come in descending points |
| Rankings.RecordedPairsLast | src/app/pages/rankings/rankings.component.ts:432-436 | the last recorded position for an id is the one the map keeps |
| Rankings.RoundSpecificChange | src/app/pages/rankings/rankings.component.ts:454-459 | a player with a recorded previous position moves by that position minus its new one |
| Rankings.PlayerPoints | src/app/pages/rankings/rankings.component.ts:575-583 | scorePoints if present, else points if present, else 0 |
| Rankings.DedupeFrom | src/app/pages/rankings/rankings.component.ts:499-504 | the kept entries are never ones whose id was already seen |
| Rankings.DedupeFirst | src/app/pages/rankings/rankings.component.ts:499-504 | de-duplication never adds entries |
| Rankings.DedupeDistinct | src/app/pages/rankings/rankings.component.ts:499-504 | the kept entries have distinct player ids |
| Rankings.DedupeKeepsFirst | src/app/pages/rankings/rankings.component.ts:499-504 | every kept entry is the first occurrence of its id |
| Rankings.DedupeCovers | src/app/pages/rankings/rankings.component.ts:499-504 | every id not seen before keeps an entry |
| Rankings.BackendPairs | src/app/pages/rankings/rankings.component.ts:514-516 | each previous entry contributes its id and its stored position |
| Rankings.BackendChange | src/app/pages/rankings/rankings.component.ts:519-526 | the change is always set, and it is NaN only when the current entry has no stored position |
| Rankings.GeneralOrder | src/app/pages/rankings/rankings.component.ts:507-511 | a permutation of the de-duplicated entries |
| Rankings.Decorated | src/app/pages/rankings/rankings.component.ts:519-534 | same records, same order and the backend position kept at this step |
| Rankings.Renumbered | src/app/pages/rankings/rankings.component.ts:552-554 | each row's position becomes its 1-based index and nothing else changes |
| Rankings.GeneralRanking | src/app/pages/rankings/rankings.component.ts:491-556 | one row per distinct player id |
| Rankings.GeneralResortKeepsOrder | src/app/pages/rankings/rankings.component.ts:545-549 | the second sort by the same key leaves the already-sorted rows as they are |
| Rankings.GeneralFacts | src/app/pages/rankings/rankings.component.ts:499-556 | positions 1..N by points descending, each row carries the looked-up name, and its change is computed from the stored position before renumbering |
| Rankings.GeneralDistinct | src/app/pages/rankings/rankings.component.ts:499-504 | the general ranking lists each player id once |
| Rankings.GeneralCovers | src/app/pages/rankings/rankings.component.ts:499-556 | every player id of the input appears in the general ranking |
| Rankings.GeneralKeepsFirst | src/app/pages/rankings/rankings.component.ts:499-504 | each row is the first input entry for its id |
| Rankings.GeneralChangeUsesStoredPosition | src/app/pages/rankings/rankings.component.ts:519-554 | for every line whose player has a last entry in the previous snapshot with a stored position, the change is that position minus the line's own stored position, whatever place the line is shown at; the same stored position in both snapshots gives change 0 |
| RankingsPage.YearItem | src/app/pages/rankings/rankings.component.ts:94-99 | a year's item shows and carries the year's text |
| RankingsPage.YearItems | src/app/pages/rankings/rankings.component.ts:94-99 | one item per year, in the years' order |
| RankingsPage.NewestYearFirst | src/app/pages/rankings/rankings.component.ts:93-103 | after the descending sort the first year is the newest |
| RankingsPage.RoundsOfChoice | src/app/pages/rankings/rankings.component.ts:209 | the selected year's rounds, or none without a year |
| RankingsPage.RoundItem | src/app/pages/rankings/rankings.component.ts:181-184 | a round's item carries its id and shows its label |
| RankingsPage.RoundItems | src/app/pages/rankings/rankings.component.ts:181-184 | one item per round, in order |
| RankingsPage.RoundItemLabel | src/app/pages/rankings/rankings.component.ts:181-184 | the item for "Y_RodadaN" shows "Rodada N" |
| RankingsPage.InfosIdsSplit | src/app/pages/rankings/rankings.component.ts:139-148 | every stored round keeps an id the page can split |
| RankingsPage.YearIdsSplit | src/app/pages/rankings/rankings.component.ts:158-167 | sorting a year's rounds keeps that property |
| RankingsPage.GroupedIdsWellFormed | src/app/pages/rankings/rankings.component.ts:150-167 | every id in the year map can be split |
| RankingsPage.GroupingSnoc | src/app/pages/rankings/rankings.component.ts:151-154 | creating the year's list when it is missing and pushing the round keeps the map grouped by year |
| RankingsPage.GroupingAdd | src/app/pages/rankings/rankings.component.ts:151-154 | one loop step keeps the map equal to the rounds grouped by year |
| RankingsPage.GroupingSnocAt | src/app/pages/rankings/rankings.component.ts:151-154 | after the step every year's list is that year's rounds in input order |
| RankingsPage.RoundsOfAbsentYear | src/app/pages/rankings/rankings.component.ts:151-152 | a year not seen yet has no rounds |
| RankingsPage.GroupedMapsEqual | src/app/pages/rankings/rankings.component.ts:150-167 | grouping followed by sorting each year yields the year map |
| RankingsPage.BuildMap | src/app/pages/rankings/rankings.component.ts:338-341 | the loop of `set` calls builds the map of the pairs |
| RankingsPage.AssignPositions | src/app/pages/rankings/rankings.component.ts:355-360 | the loop gives positions 1..N and each player's change |
| RankingsPage.Dedupe | src/app/pages/rankings/rankings.component.ts:499-504 | the filter with a set of seen ids keeps the first entry per id |
| RankingsPage.Renumber | src/app/pages/rankings/rankings.component.ts:552-554 | the loop writes positions 1..N |
| RankingsPage.AnyWithId | src/app/pages/rankings/rankings.component.ts:402-411 | the scan answers true exactly when some round in the list carries the candidate id (`Listed`) |
| RankingsPage.GroupRounds | src/app/pages/rankings/rankings.component.ts:121-155 | the loop lists every round in order and groups the rounds by year |
| RankingsPage.SortEachYear | src/app/pages/rankings/rankings.component.ts:158-167 | every year's list is sorted with the page's comparator |
| RankingsPage.RankingsComponent.constructor | src/app/pages/rankings/rankings.component.ts:39-61 | the fields' initial values: no data, general mode, no years, both selects loading |
| RankingsPage.RankingsComponent.NgOnInit | src/app/pages/rankings/rankings.component.ts:71-72 | loading starts |
| RankingsPage.RankingsComponent.OnPlayersLoaded | src/app/pages/rankings/rankings.component.ts:75-77 | the players are stored |
| RankingsPage.RankingsComponent.ProcessRoundsData | src/app/pages/rankings/rankings.component.ts:120-168 | all rounds in input order and the map of each year's rounds, sorted newest first |
| RankingsPage.RankingsComponent.UpdateRoundSelectItems | src/app/pages/rankings/rankings.component.ts:170-192 | without a year both lists are emptied and nothing else changes; with one, the year's rounds and their items are shown, loading ends and no round is selected |
| RankingsPage.RankingsComponent.StartAccumulated | src/app/pages/rankings/rankings.component.ts:279-321 | loading starts and the current round is requested with the chosen previous round, or none |
| RankingsPage.RankingsComponent.OnAccumulatedLoaded | src/app/pages/rankings/rankings.component.ts:323-371 | the accumulated ranking is shown, or an empty list when the answer is not a list or failed; loading ends |
| RankingsPage.RankingsComponent.StartRoundSpecific | src/app/pages/rankings/rankings.component.ts:383-421 | loading starts and the round is requested with the previous round only when the year map lists it |
| RankingsPage.RankingsComponent.OnRoundSpecificLoaded | src/app/pages/rankings/rankings.component.ts:423-470 | the round-specific ranking is shown; a failure keeps the list and sets "Erro ao buscar dados da rodada"; loading ends |
| RankingsPage.RankingsComponent.LoadRound | src/app/pages/rankings/rankings.component.ts:224-228 | the accumulated view in general mode, the round-specific view otherwise |
| RankingsPage.RankingsComponent.StartGeneral | src/app/pages/rankings/rankings.component.ts:375-381 | loading starts and the general ranking is requested |
| RankingsPage.RankingsComponent.OnGeneralLoaded | src/app/pages/rankings/rankings.component.ts:488-566 | the general ranking with players' names is shown, or an empty list; loading ends |
| RankingsPage.RankingsComponent.OnYearsAndRoundsFailed | src/app/pages/rankings/rankings.component.ts:111-115 | an empty list, loading ends and the empty message shows |
| RankingsPage.RankingsComponent.ApplyYears | src/app/pages/rankings/rankings.component.ts:93-100 | the years sorted newest first, a permutation of the input, with one item each |
| RankingsPage.RankingsComponent.OnYearsAndRoundsLoaded | src/app/pages/rankings/rankings.component.ts:88-110 | rounds processed and years sorted; no years gives an empty list and no request, otherwise the newest year is selected, its rounds listed and the general ranking requested |
| RankingsPage.RankingsComponent.SelectNewestYear | src/app/pages/rankings/rankings.component.ts:102-109 | the branch on whether any year exists, as above |
| RankingsPage.RankingsComponent.OnYearSelected | src/app/pages/rankings/rankings.component.ts:194-204 | an item without a value changes nothing; otherwise the year becomes `Number(value)`, the round list is cleared and the timer is scheduled |
| RankingsPage.RankingsComponent.OnYearSelectedTimer | src/app/pages/rankings/rankings.component.ts:206-234 | the year's rounds are listed; the first one is selected and loaded in the current mode, or the general ranking is requested when the year has none |
| RankingsPage.RankingsComponent.OnRoundSelected | src/app/pages/rankings/rankings.component.ts:237-248 | an item without a value changes nothing; otherwise it is selected and loaded in the current mode |
| RankingsPage.RankingsComponent.OnToggleRoundGeneral | src/app/pages/rankings/rankings.component.ts:250-277 | the mode follows the switch; the selected round, or the year's first round, is reloaded in the new mode, else the general ranking |
| RankingsPage.RankingsComponent.GetPlayerName | src/app/pages/rankings/rankings.component.ts:570-573 | "Desconhecido" for a missing or unknown id, else the first matching player's name |
| RankingsPage.RankingsComponent.ShouldShowArrow | src/app/pages/rankings/rankings.component.ts:605-643 | an arrow needs positive points, a non-zero change and general mode; then it shows unless the selected round is round 1 of the earliest year |
| RankingsPage.RankingsComponent.ShouldShowEmptyMessage | src/app/pages/rankings/rankings.component.ts:645-647 | exactly when not loading and the list is empty |
| Leaderboard.FieldOf | src/app/pages/leaderboard/leaderboard.component.ts:115-122 | `rawData[key]`: an array value found is that key's own field, and a missing key is not an array |
| Leaderboard.FirstArrayField | src/app/pages/leaderboard/leaderboard.component.ts:124-129 | the first array among the document's values, or nothing exactly when no value is an array |
| Leaderboard.ProbeLeaderboard | src/app/pages/leaderboard/leaderboard.component.ts:113-130 | the rows come from `data`, else the document itself when it is an array, else `leaderboard`, else `rankings`, else the first array field, else none; non-empty rows of an object always come from one of its fields |
| Leaderboard.PlayerName | src/app/pages/leaderboard/leaderboard.component.ts:186-189 | "Desconhecido" without an id, else the looked-up name |
| Leaderboard.Named | src/app/pages/leaderboard/leaderboard.component.ts:132-135 | each row keeps its fields and gets its player's name |
| Leaderboard.PendingCount | src/app/pages/leaderboard/leaderboard.component.ts:146-148 | the number of matches with "-" on both sides: 0 exactly when there is none, all exactly when every match is one |
| Leaderboard.GroupResult | src/app/pages/leaderboard/leaderboard.component.ts:96-157 | no round id, no document or an error give no rows and 0 pending; otherwise the probed and named rows and the pending count |
| Leaderboard.ClassFor | src/app/pages/leaderboard/leaderboard.component.ts:196-205 | "third" for 3 in every group, "last" for 4 and 5, "first" for 1 in group A and "top-two" for 1-2 elsewhere, "" for 2 in A and for anything outside 1-5 |
| Leaderboard.PositionAt | src/app/pages/leaderboard/leaderboard.component.ts:193-194 | the row's stored position, or index+1 past the end of the list |
| Leaderboard.DistinctValuesCount | src/app/pages/leaderboard/leaderboard.component.ts:169-170 | groups with distinct values have as many distinct values as groups |
| Leaderboard.LeaderboardComponent.constructor | src/app/pages/leaderboard/leaderboard.component.ts:39-49 | empty maps, not loading, no players, no groups, groups loading, popup closed |
| Leaderboard.LeaderboardComponent.NgOnInit | src/app/pages/leaderboard/leaderboard.component.ts:60-66 | both maps cleared; groups and data loading |
| Leaderboard.LeaderboardComponent.OnPlayersLoaded | src/app/pages/leaderboard/leaderboard.component.ts:70-72 | the players are stored |
| Leaderboard.LeaderboardComponent.OnGroupsLoaded | src/app/pages/leaderboard/leaderboard.component.ts:77-94 | the groups are stored, their loading ends, data loading starts and one load per group is requested, in order |
| Leaderboard.LeaderboardComponent.OnGroupDataLoaded | src/app/pages/leaderboard/leaderboard.component.ts:157-173 | the group's rows and pending count are stored under its value; loading ends once there is data for as many groups as are listed |
| Leaderboard.LeaderboardComponent.GetGroupData | src/app/pages/leaderboard/leaderboard.component.ts:211-213 | the stored rows, or none |
| Leaderboard.LeaderboardComponent.GetGroupPendingMatches | src/app/pages/leaderboard/leaderboard.component.ts:215-217 | the stored count, or 0 |
| Leaderboard.LeaderboardComponent.GetPlayerClass | src/app/pages/leaderboard/leaderboard.component.ts:191-209 | the class of the row's position, read from the group's data with index+1 as fallback |
| Leaderboard.LeaderboardComponent.OpenWhatsappPopup | src/app/pages/leaderboard/leaderboard.component.ts:178-180 | the popup opens |
| Leaderboard.LeaderboardComponent.CloseWhatsappPopup | src/app/pages/leaderboard/leaderboard.component.ts:182-184 | the popup closes |
| Leaderboard.AllGroupsLoaded | src/app/pages/leaderboard/leaderboard.component.ts:168-171 | once every listed group has data, the count the page compares equals the number of groups, so loading ends |
| GroupService.GroupNameIsFallback | src/app/services/group.service.ts:11-34 | every listed name is "Grupo " followed by the id, so the table and its fallback always agree |
| GroupService.GroupLink | src/app/services/group.service.ts:36-46 | a WhatsApp link exists exactly for the single letters A to I |
| GroupService.ItemFor | src/app/services/group.service.ts:85-89 | an item carries the id as value, "Grupo id" as name and the group's link, if any |
| GroupService.Values | src/app/services/group.service.ts:85-89 | the values of the items, in order |
| GroupService.Items | src/app/services/group.service.ts:85-89 | one item per id, in order |
| GroupService.DistinctIds | src/app/services/group.service.ts:56-80 | the Set of truthy group ids: no repeats, every truthy id present, nothing else |
| GroupService.AvailableGroupsAscending | src/app/services/group.service.ts:82 | the groups come in strictly increasing code-unit order, as the default `sort()` leaves distinct strings |
| GroupService.AvailableGroupsSound | src/app/services/group.service.ts:56-89 | every listed group is the item for a non-empty group id some player has |
| GroupService.AvailableGroupsComplete | src/app/services/group.service.ts:60-75 | every truthy group id of a player is listed |
| GroupService.GroupsWithMatchesFacts | src/app/services/group.service.ts:96-132 | exactly the groups whose matches query is not empty, as items, in the order of the groups collection |
| GroupService.GroupsWithMatchesInOrder | src/app/services/group.service.ts:103-122 | the listed ids are the collection's document ids with some left out, in the snapshot's order |
| GroupService.Letters | src/app/services/group.service.ts:216 | a run of n one-letter ids |
| GroupService.LettersFacts | src/app/services/group.service.ts:216 | the candidates are consecutive letters, strictly increasing |
| GroupService.FilterPairwise | src/app/services/group.service.ts:237 | filtering keeps any relation that held between all earlier and later elements |
| GroupService.FilterKeepsIncreasing | src/app/services/group.service.ts:237 | filtering keeps strict increase |
| GroupService.FilterLettersBetween | src/app/services/group.service.ts:237 | filtering keeps the letters within their range |
| GroupService.CandidatesAt | src/app/services/group.service.ts:216 | the i-th candidate is the i-th letter from A |
| GroupService.LettersAt | src/app/services/group.service.ts:216 | the i-th element of a run is the letter at that offset |
| GroupService.AlternativeGroupsAscending | src/app/services/group.service.ts:229-246 | the existing groups come in alphabetical order |
| GroupService.AlternativeGroupsExactly | src/app/services/group.service.ts:218-237 | a letter A to Z is listed exactly when its group document exists |
| GroupService.AlternativeGroupsLetters | src/app/services/group.service.ts:229-244 | every listed group is one existing letter A to Z |
| GroupService.Count | src/app/services/group.service.ts:152-157 | the tally of one round id: never more than the groups, 0 exactly when no group is on it |
| GroupService.FirstAt | src/app/services/group.service.ts:152-157 | the first group on a round id, where `Object.keys` puts that key |
| GroupService.RoundCounts | src/app/services/group.service.ts:152-157 | the tally's keys and map agree, and every count is positive |
| GroupService.RoundCountsAgree | src/app/services/group.service.ts:152-157 | each key's count is the number of groups on that round |
| GroupService.RoundCountsComplete | src/app/services/group.service.ts:153-155 | every truthy round id becomes a key; falsy ones are skipped |
| GroupService.RoundCountsOrder | src/app/services/group.service.ts:159 | keys come in order of first appearance |
| GroupService.RoundCountsFacts | src/app/services/group.service.ts:152-159 | the three facts above together |
| GroupService.ReduceMax | src/app/services/group.service.ts:159-161 | the reduce returns one of the tallied keys |
| GroupService.ReduceMaxFacts | src/app/services/group.service.ts:159-161 | the result has the largest count, and every later key has a strictly smaller count, so ties go to the last key |
| GroupService.CurrentRoundExists | src/app/services/group.service.ts:159-161 | the current round is undefined exactly when no group has a truthy round id |
| GroupService.KeyIndex | src/app/services/group.service.ts:152-159 | a truthy round id is one of the keys |
| GroupService.CurrentRoundKey | src/app/services/group.service.ts:159-161 | the current round is a key with maximal count, and later keys have fewer |
| GroupService.CurrentRoundMostCommon | src/app/services/group.service.ts:151-161 | the current round is a non-empty id held by the most groups; a round first seen later than it is held by strictly fewer |
| GroupService.FindRound | src/app/services/group.service.ts:169 | the group's entry in the round list, or nothing when it has none |
| GroupService.Pair | src/app/services/group.service.ts:141-145 | each group is paired with its latest round id |
| GroupService.QualifiesSplit | src/app/services/group.service.ts:167-199 | a group qualifies exactly when it is on the current round and its leaderboard document holds a non-empty data array |
| GroupService.GroupsWithLeaderboardsExactly | src/app/services/group.service.ts:135-211 | the result is the groups that qualify, in their order, with an empty list for no groups |
| GroupService.GroupsWithLeaderboardsInOrder | src/app/services/group.service.ts:206-209 | the result keeps the available groups' order |
| GroupService.NoCurrentRoundNoGroups | src/app/services/group.service.ts:159-202 | with no truthy round id no group is listed |
| RoundService.WarningMessage | src/app/services/round.service.ts:37-62 | no warning exactly when there is no usable end date or more than 10 days are left |
| RoundService.WarningClosing | src/app/services/round.service.ts:52-54 | "🚨 A rodada será encerrada hoje!" exactly when 0 or fewer days are left |
| RoundService.WarningCountdown | src/app/services/round.service.ts:48-50 | for 1 to 10 days the message starts "⚠️ Restam " and the number right after it reads back as the days left |
| RoundService.WarningPlural | src/app/services/round.service.ts:49 | the message is the prefix, the number and " dia" or " dias" plus " para o fim da rodada.", singular exactly for 1 day |
| RoundService.DistinctYears | src/app/services/round.service.ts:170-178 | the Set of numeric year fields: no repeats, every numeric year present, nothing else |
| RoundService.AvailableYearsDescending | src/app/services/round.service.ts:180 | the years are strictly decreasing |
| RoundService.AvailableYearsExactly | src/app/services/round.service.ts:165-187 | a year is listed exactly when the read succeeded and some document has it; a failed read lists none |
| RoundService.LatestRoundIdDefault | src/app/services/round.service.ts:80-89 | a round id exactly when the group document exists and has one, which is returned as stored; otherwise null |
| RoundService.StatusMessage | src/app/services/round.service.ts:71 | the stored message when it is truthy, else "" |
| RoundService.StatusFlags.constructor | src/app/services/round.service.ts:34-35 | not blocked and no message before the first snapshot |
| RoundService.BlockedFlagFacts | src/app/services/round.service.ts:70 | `!!` on the field: a boolean blocks exactly when true, a non-zero number or a non-empty string blocks, a missing field, null or a missing document does not |
| RoundService.StatusFlags.OnSnapshot | src/app/services/round.service.ts:68-74 | blocked exactly when the document's `isBlocked` value is truthy, whatever its type; the message or "" |
| ScoresPage.PlayerGroup | src/app/pages/scores/scores.component.ts:167 | `group` when truthy, else `groupId` |
| ScoresPage.FindGroupFrom | src/app/pages/scores/scores.component.ts:172-181 | the first group whose value or name equals the key, or -1 when none does |
| ScoresPage.UserGroupFacts | src/app/pages/scores/scores.component.ts:167-195 | the chosen group is listed; it is one matching the player's group by value or name when there is one, else the first group |
| ScoresPage.NoPlayerSelectsNothing | src/app/pages/scores/scores.component.ts:163-168 | as written, an e-mail with no player record selects no group |
| ScoresPage.ChosenGroup | src/app/pages/scores/scores.component.ts:148-205 | always a listed group: the player's group when found, the first group for a missing player or a failed lookup; it agrees with the code wherever the code selects something |
| ScoresPage.AllCompletedNoPending | src/app/pages/scores/scores.component.ts:101-103 | every match completed exactly when the pending list is empty |
| ScoresPage.ArrivedMessage | src/app/pages/scores/scores.component.ts:98-111 | "Parabéns! Jogos concluídos! ✅" exactly when all arrived matches are completed, "" otherwise |
| ScoresPage.ScoresComponent.constructor | src/app/pages/scores/scores.component.ts:44-48 | matches cleared, no message, loading on, nothing selected |
| ScoresPage.ScoresComponent.LoadMatchesForGroup | src/app/pages/scores/scores.component.ts:80-96 | no group changes nothing; a group clears the matches and message, starts loading and subscribes to its matches |
| ScoresPage.ScoresComponent.OnGroupSelected | src/app/pages/scores/scores.component.ts:75-78 | the group is selected and its matches are loaded |
| ScoresPage.ScoresComponent.OnGroupsLoaded | src/app/pages/scores/scores.component.ts:58-72 | groups stored; none ends loading; without a signed-in user the first group is loaded; otherwise the page waits for the player |
| ScoresPage.ScoresComponent.OnPlayerLookup | src/app/pages/scores/scores.component.ts:163-204 | as written: a found player or a failed lookup selects and loads the chosen group; a lookup that yields no player changes nothing, so no group is selected and nothing loads |
| ScoresPage.ScoresComponent.OnMatchesArrived | src/app/pages/scores/scores.component.ts:97-118 | the arrived matches are stored with their message and loading ends; a failed read leaves [] and the service's error message |
| Autocomplete.Matching | src/app/pages/player/autocomplete/autocomplete.component.ts:199-204 | exactly the players whose lower-cased name or e-mail contains the query, in their original order |
| Autocomplete.FilterPlayers | src/app/pages/player/autocomplete/autocomplete.component.ts:192-208 | an empty text keeps every player; otherwise the matches of the lower-cased text |
| Autocomplete.FilterIgnoresCase | src/app/pages/player/autocomplete/autocomplete.component.ts:198 | the filter gives the same list for a text and its lower-cased form |
| Autocomplete.FullNameFound | src/app/pages/player/autocomplete/autocomplete.component.ts:202 | a player whose name equals the text up to case is always listed |
| Autocomplete.AutocompleteComponent.constructor | src/app/pages/player/autocomplete/autocomplete.component.ts:31-35 | no players, empty text, list closed, cursor at -1 |
| Autocomplete.AutocompleteComponent.OnPlayersLoaded | src/app/pages/player/autocomplete/autocomplete.component.ts:111-120 | the loaded players are stored |
| Autocomplete.AutocompleteComponent.FilterPlayersNow | src/app/pages/player/autocomplete/autocomplete.component.ts:192-208 | the list is the filter of the current text and the cursor is reset |
| Autocomplete.AutocompleteComponent.OnSearch | src/app/pages/player/autocomplete/autocomplete.component.ts:184-190 | the text is stored, the list opens and is refiltered |
| Autocomplete.AutocompleteComponent.OnFocus | src/app/pages/player/autocomplete/autocomplete.component.ts:122-138 | outside a browser nothing changes; in one the list opens, and with no text it shows every player |
| Autocomplete.AutocompleteComponent.OnBlurTimer | src/app/pages/player/autocomplete/autocomplete.component.ts:140-150 | in a browser the list closes and the cursor resets |
| Autocomplete.AutocompleteComponent.SelectPlayer | src/app/pages/player/autocomplete/autocomplete.component.ts:210-226 | the name is shown, the list closes and the player's e-mail is emitted |
| Autocomplete.AutocompleteComponent.ClearSearchText | src/app/pages/player/autocomplete/autocomplete.component.ts:227-229 | the text is cleared |
| Autocomplete.AutocompleteComponent.OnKeyDown | src/app/pages/player/autocomplete/autocomplete.component.ts:152-182 | a closed or empty list ignores keys; arrows move the cursor clamped to -1 and the last row and keep it in range; Enter selects the highlighted player exactly when one is highlighted; Escape closes |
| PlayerProfile.FillForm | src/app/pages/player/player.component.ts:264-279 | every control receives a string |
| PlayerProfile.UneditedFormChangedAsWritten | src/app/pages/player/player.component.ts:325-351 | as written, the form just filled from a player has changes exactly when one of the player's fields (name, avatar, height, country, ranking start, social network, main or back hand) is missing, or the ranking start is 0 |
| PlayerProfile.HasChangesFacts | src/app/pages/player/player.component.ts:325-351 | no player means no changes; the form filled from the player has none; an edited name, height or avatar is a change |
| PlayerProfile.HasChangesAgree | src/app/pages/player/player.component.ts:325-351 | for a player with every field set and a ranking start other than 0, the corrected test agrees with the code |
| PlayerProfile.StartOf | src/app/pages/player/player.component.ts:293-295 | a falsy start is null; otherwise `Number` of the text, a year exactly for digit strings |
| PlayerProfile.SavePayload | src/app/pages/player/player.component.ts:281-301 | a payload exactly when the signed-in player owns the profile, carrying its id and the form's name |
| PlayerProfile.SavePayloadBlanks | src/app/pages/player/player.component.ts:291-300 | empty height and hands become null; the avatar is blank exactly when neither the form nor the player has one |
| PlayerProfile.SaveUneditedKeepsData | src/app/pages/player/player.component.ts:264-301 | saving the unedited form sends the player's own country, social network, hands and ranking start back |
| PlayerProfile.UserName | src/app/pages/player/player.component.ts:483-485 | a leading "@" is dropped, nothing else |
| PlayerProfile.SocialLinkOf | src/app/pages/player/player.component.ts:479-489 | null exactly for a missing or blank value; otherwise the trimmed value and the Instagram URL of the user name |
| PlayerProfile.TrimUntouched | src/app/pages/player/player.component.ts:480 | trim leaves a value without surrounding spaces alone |
| PlayerProfile.AtSignOptional | src/app/pages/player/player.component.ts:483-487 | "@name" and "name" link to the same URL |
| PlayerProfile.IndexOfPlayer | src/app/pages/player/player.component.ts:233 | the first row of the player, or -1 when it has none |
| PlayerProfile.RankingPositionExists | src/app/pages/player/player.component.ts:220-241 | a position exactly when the rankings were read and list the player |
| PlayerProfile.RankingPositionOrdered | src/app/pages/player/player.component.ts:230-234 | the position is one past the player's index in the ranking by descending points, and every row with more points lies above it |
| PlayerProfile.MainHandLabel | src/app/pages/player/player.component.ts:353-357 | "L" and "R" give their labels, anything else "" |
| PlayerProfile.YearsDown | src/app/pages/player/player.component.ts:141-148 | the years from the current one down to 1950, one per entry |
| PlayerProfile.YearsDownFacts | src/app/pages/player/player.component.ts:144 | a year is listed exactly when it lies in 1950..current, in strictly decreasing order |
| PlayerProfile.GetYears | src/app/pages/player/player.component.ts:141-148 | the loop yields the years from the current one down to 1950 |
| PlayerProfile.PlayerComponent.constructor | src/app/pages/player/player.component.ts:63-89 | the blank initial player, no position, nothing sent |
| PlayerProfile.PlayerComponent.OnPlayerSelected | src/app/pages/player/player.component.ts:178-183 | loading starts and the form is reset |
| PlayerProfile.PlayerComponent.OnPlayerIdChanged | src/app/pages/player/player.component.ts:159-161 | the signed-in player id follows the stream |
| PlayerProfile.PlayerComponent.OnPlayerRead | src/app/pages/player/player.component.ts:185-218 | a found player is stored and filled in, and the form is enabled exactly for its owner; a missing player or a failed read changes nothing but loading |
| PlayerProfile.PlayerComponent.OnFocus | src/app/pages/player/player.component.ts:243-245 | the error is hidden |
| PlayerProfile.PlayerComponent.OnRankingsRead | src/app/pages/player/player.component.ts:220-241 | the position is the player's place in the rankings read |
| PlayerProfile.PlayerComponent.EditForm | src/app/pages/player/player.component.ts:124-135 | the form takes the edited value |
| PlayerProfile.PlayerComponent.SavePlayerChanges | src/app/pages/player/player.component.ts:281-305 | the payload is sent exactly when the owner is signed in |
| PlayerProfile.PlayerComponent.OnBlur | src/app/pages/player/player.component.ts:247-262 | an enabled form with a name for which hasChanges as written holds is saved; the error shows exactly for an enabled form without a name; an unedited form sends nothing when every field of the player is set |
| Availability.TimeToMinutesOf | src/app/pages/calendar/calendar.component.ts:420-423 | "HH:MM" reads as HH*60 + MM |
| Availability.HalfOpen | src/app/pages/calendar/calendar.component.ts:425-430 | a time is in range exactly when start ≤ time < end, never when end ≤ start; the start is inside and the end outside |
| Availability.HoursFromAt | src/app/pages/calendar/calendar.component.ts:108-125 | each generated slot is the "HH:00" of its hour |
| Availability.TimeSlotsListed | src/app/pages/calendar/calendar.component.ts:108-125 | slot i is hour 6 + i |
| Availability.TimeSlotsText | src/app/pages/calendar/calendar.component.ts:108-125 | sixteen slots from "06:00" to "21:00"; the last window ends at "23:00" |
| Availability.SlotIndex | src/app/pages/calendar/calendar.component.ts:719-721 | the first slot with that time, or -1 when there is none |
| Availability.FirstIndexFrom | src/app/pages/calendar/calendar.component.ts:719-721 | the first index from `from` on holding the value, or -1 |
| Availability.EndTimeFor | src/app/pages/calendar/calendar.component.ts:719-729 | the next slot, "23:00" after the last one; an unknown time ends at the first slot |
| Availability.HourMinutes | src/app/pages/calendar/calendar.component.ts:420-423 | "HH:00" reads as HH*60 minutes |
| Availability.SlotMinutes | src/app/pages/calendar/calendar.component.ts:108-125 | slot i reads as (i + 6) hours |
| Availability.SlotIndexOf | src/app/pages/calendar/calendar.component.ts:719-721 | every slot is found at its own index |
| Availability.EndTimeMinutes | src/app/pages/calendar/calendar.component.ts:719-729 | a slot's window ends one hour later, the last one at 23:00 |
| Availability.WindowCoversOnlyItsSlot | src/app/pages/calendar/calendar.component.ts:719-729 | a new window covers exactly its own grid slot |
| Availability.WindowCoversOnlyItsTime | src/app/pages/calendar/calendar.component.ts:790-800 | the same, stated on slot times |
| Availability.FindCovering | src/app/pages/calendar/calendar.component.ts:439-444 | the first covering entry of the viewer on that date, or -1 when none covers |
| Availability.StatusAt | src/app/pages/calendar/calendar.component.ts:432-447 | null exactly when no entry covers the cell; else the status of the first covering entry |
| Availability.WithoutCell | src/app/pages/calendar/calendar.component.ts:770-779 | exactly the entries not covering the cell are kept, in order |
| Availability.WithoutCellFree | src/app/pages/calendar/calendar.component.ts:770-779 | after removal the cell is free |
| Availability.NewWindow | src/app/pages/calendar/calendar.component.ts:802-810 | the new entry is the viewer's, on that date, from the time to its end time, with the status and empty notes |
| Availability.WithCell | src/app/pages/calendar/calendar.component.ts:781-813 | the removal of the cell followed by exactly one new window |
| Availability.WithCellStatus | src/app/pages/calendar/calendar.component.ts:781-813 | after adding, the cell shows the added status |
| Availability.NewWindowCovers | src/app/pages/calendar/calendar.component.ts:802-810 | the new window covers only its own cell |
| Availability.WithCellOnlyWindow | src/app/pages/calendar/calendar.component.ts:781-813 | after adding, the new window is the only entry covering the cell |
| Availability.WithCellKeepsOnlyWindow | src/app/pages/calendar/calendar.component.ts:781-813 | adding another cell keeps a cell's sole window |
| Availability.WithoutCellKeepsFree | src/app/pages/calendar/calendar.component.ts:770-779 | removing any cell keeps a free cell free |
| Availability.StatusLabelsDistinct | src/app/pages/calendar/calendar.component.ts:928-941 | the three labels are distinct and "Remover" belongs to unavailable only |
| Availability.StatusClass | src/app/pages/calendar/calendar.component.ts:453-464 | "status-free" exactly for no status |
| Availability.MarkStatus | src/app/pages/calendar/calendar.component.ts:784 | available and maybe keep their meaning as slot statuses |
| CalendarPage.FindCell | src/app/pages/calendar/calendar.component.ts:712-714 | the first pending selection of the cell, or -1 when it is not pending |
| CalendarPage.WithoutSelection | src/app/pages/calendar/calendar.component.ts:852-860 | unchanged when the cell is not pending, one shorter when it is |
| CalendarPage.NewSelection | src/app/pages/calendar/calendar.component.ts:731-741 | the selection carries the day, time, ISO date and "time - end" |
| CalendarPage.Toggled | src/app/pages/calendar/calendar.component.ts:712-742 | a pending cell is removed, any other cell appended |
| CalendarPage.WithoutSelectionCells | src/app/pages/calendar/calendar.component.ts:852-860 | removal keeps the list free of duplicates, clears the cell and touches no other cell |
| CalendarPage.ToggledCells | src/app/pages/calendar/calendar.component.ts:707-745 | toggling flips exactly that cell and never creates a duplicate cell |
| CalendarPage.ToggleTwice | src/app/pages/calendar/calendar.component.ts:707-745 | toggling a new cell twice restores the list |
| CalendarPage.ToggledDays | src/app/pages/calendar/calendar.component.ts:707-745 | toggling a day of the week keeps every picked cell inside the week |
| CalendarPage.ToggleKeepsValid | src/app/pages/calendar/calendar.component.ts:707-745 | after a toggle the cell's pending state has flipped, no cell is doubled and every day is in the week |
| CalendarPage.ApplyOne | src/app/pages/calendar/calendar.component.ts:759-765 | "unavailable" removes the cell; other marks add a window with their status |
| CalendarPage.ApplyAllShows | src/app/pages/calendar/calendar.component.ts:759-765 | after applying an available or maybe mark, every selected cell has exactly one window |
| CalendarPage.ApplyAllClears | src/app/pages/calendar/calendar.component.ts:759-765 | after applying "unavailable", every selected cell is free |
| CalendarPage.ApplyAllStatus | src/app/pages/calendar/calendar.component.ts:753-768 | every selected cell shows the applied status, or none for "unavailable" |
| CalendarPage.WindowsOf | src/app/pages/calendar/calendar.component.ts:822-824 | exactly the viewer's entries, in order |
| CalendarPage.SavedToast | src/app/pages/calendar/calendar.component.ts:835-840 | the toast starts with the count and the lower-cased label follows |
| CalendarPage.Permission | src/app/pages/calendar/calendar.component.ts:335-361 | no auth id: cannot edit, view unchanged; an unset view becomes the auth id; editing exactly when the auth id is set and equals the view |
| CalendarPage.OwnCalendarOnly | src/app/pages/calendar/calendar.component.ts:346-361 | a signed-in player edits their own or an unset view and never another player's |
| CalendarPage.ViewerOnlyAfterCheck | src/app/pages/calendar/calendar.component.ts:180-183 | read-only mode exactly when another player is viewed, or any one without sign-in |
| CalendarPage.CalendarComponent.constructor | src/app/pages/calendar/calendar.component.ts:66-96 | nothing loaded or pending, status "available", cannot edit |
| CalendarPage.CalendarComponent.CheckPermission | src/app/pages/calendar/calendar.component.ts:335-376 | the flag and the view follow the permission rule |
| CalendarPage.CalendarComponent.GetSlotStatus | src/app/pages/calendar/calendar.component.ts:432-447 | the status of the first covering entry of the viewed player, or null |
| CalendarPage.CalendarComponent.ToggleCellSelection | src/app/pages/calendar/calendar.component.ts:707-745 | without edit rights nothing changes; otherwise the cell is toggled, the bar shows exactly when something is pending, and no cell is pending twice |
| CalendarPage.CalendarComponent.ClearPendingSelections | src/app/pages/calendar/calendar.component.ts:747-751 | the list is emptied, the bar hidden and the status reset to "available" |
| CalendarPage.CalendarComponent.RemovePendingSelection | src/app/pages/calendar/calendar.component.ts:852-860 | the cell is no longer pending and the bar follows the list |
| CalendarPage.CalendarComponent.RemoveAvailabilityForCell | src/app/pages/calendar/calendar.component.ts:770-779 | the entries covering the cell are dropped |
| CalendarPage.CalendarComponent.AddAvailabilityForCell | src/app/pages/calendar/calendar.component.ts:781-813 | the cell's entries are replaced by one new window |
| CalendarPage.CalendarComponent.ApplyPendingSelections | src/app/pages/calendar/calendar.component.ts:753-768 | an empty list does nothing; otherwise every selection is applied and the viewer's entries are saved with the count and label, or the missing-player alert shows |
| CalendarPage.CalendarComponent.ApplyEdits | src/app/pages/calendar/calendar.component.ts:759-765 | the loop applies every pending selection in order |
| CalendarPage.CalendarComponent.SavePendingSelections | src/app/pages/calendar/calendar.component.ts:815-830 | no viewed id alerts and saves nothing; otherwise loading starts and the viewer's entries are sent |
| CalendarPage.CalendarComponent.OnSaveSucceeded | src/app/pages/calendar/calendar.component.ts:831-843 | loading ends, the selections are cleared, and the toast shows exactly when the count and label are truthy |
| CalendarPage.CalendarComponent.OnSaveFailed | src/app/pages/calendar/calendar.component.ts:844-848 | loading ends and the failure alert shows |
| CalendarSummary.SummarySlotStatus | src/app/components/calendar-summary-popup/calendar-summary-popup.component.ts:61-75 | null for a day outside the week; else null exactly when no entry of the viewer covers the cell, or the first covering entry's status |
| CalendarSummary.SummaryMatchesPage | src/app/components/calendar-summary-popup/calendar-summary-popup.component.ts:49-75 | inside the week the popup shows the same status as the calendar page |
| CalendarSummary.GetStatusClasses | src/app/components/calendar-summary-popup/calendar-summary-popup.component.ts:77-88 | a status class other than "status-free" exactly for "available", "maybe" and "busy" |
| CalendarSummary.ClassesAgree | src/app/components/calendar-summary-popup/calendar-summary-popup.component.ts:77-88 | the popup and the page give a status the same class |
| CalendarSummary.FormatWeekRange | src/app/components/calendar-summary-popup/calendar-summary-popup.component.ts:97-105 | "" for an empty week; otherwise the first day's date followed by " - " |
| SelectionBar.AfterSetStatus | src/app/pages/calendar/selection-bar/selection-bar.component.ts:31-36 | the status becomes the given one and is emitted exactly when it differs from the current one |
| SelectionBar.SetStatusIdempotent | src/app/pages/calendar/selection-bar/selection-bar.component.ts:31-36 | setting the same status twice emits once |
| SelectionBar.EmitsOnlyChanges | src/app/pages/calendar/selection-bar/selection-bar.component.ts:31-36 | the last emitted status is the current one, and a new emission is never a repeat of the last |
| SelectionBar.Description | src/app/pages/calendar/selection-bar/selection-bar.component.ts:51-56 | "Marcar como" exactly for one selection, "Marcar todos como" otherwise, ending in the lower-cased label |
| SelectionBar.SelectionBarComponent.constructor | src/app/pages/calendar/selection-bar/selection-bar.component.ts:21-29 | hidden, not loading, nothing pending, status "available", nothing emitted |
| SelectionBar.SelectionBarComponent.SetStatus | src/app/pages/calendar/selection-bar/selection-bar.component.ts:31-36 | the status and the emitted events follow the set-status rule |
| SelectionBar.SelectionBarComponent.GetDescription | src/app/pages/calendar/selection-bar/selection-bar.component.ts:51-56 | the singular form exactly for one pending selection |
| SelectionBar.SelectionBarComponent.OnApply | src/app/pages/calendar/selection-bar/selection-bar.component.ts:58-60 | one apply event, nothing else changes |
| SelectionBar.SelectionBarComponent.OnClear | src/app/pages/calendar/selection-bar/selection-bar.component.ts:62-64 | one clear event, nothing else changes |
| Accordion.Toggled | src/app/pages/rules/rules.component.ts:25-27 | the section opens exactly when it was not the open one, and closing leaves none open |
| Accordion.ToggleOpensOnlyIt | src/app/pages/rules/rules.component.ts:25-31 | toggling flips that section and leaves every other one closed |
| Accordion.AtMostOneOpen | src/app/pages/rules/rules.component.ts:29-31 | at most one section is expanded |
| Accordion.ToggleTwice | src/app/pages/rules/rules.component.ts:25-27 | toggling twice restores a closed or the same open section, and closes another |
| Accordion.AccordionPage.constructor | src/app/pages/rules/rules.component.ts:15 | no section open |
| Accordion.AccordionPage.ToggleSection | src/app/pages/about/about.component.ts:25-27 | the open section follows the toggle rule |
| Accordion.AccordionPage.IsExpanded | src/app/pages/about/about.component.ts:29-31 | an expanded section is the only one expanded |
| AvatarService.AvatarService.constructor | src/app/services/avatar.service.ts:9-14 | the default avatar; storage is not read |
| AvatarService.AvatarService.UpdateAvatar | src/app/services/avatar.service.ts:22-30 | the avatar becomes the url and is stored when storage exists |
| AvatarService.AvatarService.GetCurrentAvatarUrl | src/app/services/avatar.service.ts:33-35 | the current avatar |
| AvatarService.AvatarService.ResetAvatar | src/app/services/avatar.service.ts:38-41 | the default avatar, stored when storage exists |
| AvatarService.AvatarService.ClearAvatar | src/app/services/avatar.service.ts:44-49 | the stored entry is removed and then set back to the default avatar |
| AvatarService.AvatarService.InitializeUserAvatar | src/app/services/avatar.service.ts:52-60 | a truthy url becomes the avatar, otherwise the default |
| WhatsappGroups.GroupsWithLinks | src/app/components/whatsapp-groups-popup/whatsapp-groups-popup.component.ts:21-23 | exactly the groups with a non-empty link, in order |
| WhatsappGroups.GroupsWithLinksIdempotent | src/app/components/whatsapp-groups-popup/whatsapp-groups-popup.component.ts:21-23 | filtering twice changes nothing |
| WhatsappGroups.AllLinkedListed | src/app/components/whatsapp-groups-popup/whatsapp-groups-popup.component.ts:21-23 | when every group has a link all are listed |
| SelectComponent.DefaultSelection | src/app/components/select/select.component.ts:61-66 | a selection is kept; none becomes the first item when there is one |
| SelectComponent.DefaultSelectionStable | src/app/components/select/select.component.ts:61-66 | applying the default twice changes nothing, and a defaulted selection is a listed item |
| SelectComponent.SelectComponent.constructor | src/app/components/select/select.component.ts:15-24 | the inputs, closed, no filtered items, nothing emitted |
| SelectComponent.SelectComponent.UpdateFilteredItems | src/app/components/select/select.component.ts:61-66 | the filtered items are the items and the default selection applies |
| SelectComponent.SelectComponent.NgOnInit | src/app/components/select/select.component.ts:26-33 | the same as updateFilteredItems |
| SelectComponent.SelectComponent.NgOnChanges | src/app/components/select/select.component.ts:42-46 | the list is refreshed exactly when the items changed |
| SelectComponent.SelectComponent.HandleClickOutside | src/app/components/select/select.component.ts:48-59 | an open list closes exactly on a browser click outside it |
| SelectComponent.SelectComponent.ToggleSelect | src/app/components/select/select.component.ts:68-70 | the list opens or closes |
| SelectComponent.SelectComponent.SelectItem | src/app/components/select/select.component.ts:72-75 | the list closes and the item is emitted; the selection itself is not changed |
| SelectComponent.SelectComponent.OnBlur | src/app/components/select/select.component.ts:77-82 | nothing changes |

## Left out

- Firestore, RxJS and Firebase Auth: every read is a parameter (a list of documents, a lookup outcome, a player record) and every write is an outcome passed to the method that handles the answer. forkJoin fan-out, subscription clean-up and error propagation between streams are not modelled.
- The logger, Angular change detection, `alert` and toasts: only the text of an alert or toast is modelled where the code builds it.
- `uploadAllScores` in src/app/services/match.service.ts: only its winner rule is modelled. The awaited loop and its counters are not.
- src/app/services/player.service.ts, rankings.service.ts and leaderboard.service.ts are not part of this model. Their "absent or not an array gives []" fallbacks are why the ranking views take lists.
- The rankings screen's checks for a non-array answer are unreachable after those fallbacks, so they are not modelled.
- Dates, clocks and locales are not modelled. A day of the week is given by its ISO date string and its display text. The current year is a parameter of `getYears`. The days left in a round, `Math.ceil` of a millisecond difference, is a parameter, and so is the outcome of parsing the end date. `getStartOfWeek`, `isDayDisabled`, `isPastDay`, `isPastTimeSlot`, `navigateWeek`, `duplicateToNextWeek`, `formatDateHeader` and the dates inside `formatWeekRange` are not modelled.
- CalendarSummary.FormatWeekRange: requires a week of 0 or at least 7 days. A shorter non-empty week makes the code read an undefined day and throw; only the empty-week result and the start of the text are stated.
- CalendarPage.CalendarComponent.GetSlotStatus: requires a day inside the week. The page only asks for the seven days it draws; the popup's out-of-range case is modelled by CalendarSummary.SummarySlotStatus.
- The calendar page's mouse, touch and long-press handling, DOM hit-testing and `Math.hypot` thresholds are not modelled. Its loaders (`getPlayer`, `viewPlayer`, the Firestore mapping) are not modelled either.
- The id of a new availability (`Date.now() + Math.random()`) is not modelled: windows are compared by their fields.
- Round ids without "_" make `split("_")` leave the round part undefined, so the code throws. The members that read a round id require an "_" instead of modelling the exception.
- `Number()` and `parseInt` are modelled on decimal digit strings. Signs, spaces, exponents and hexadecimal are not modelled, and a non-digit string reads as NaN (`None`).
- `toLowerCase` is modelled on ASCII letters only.
- null and undefined are the same `None`. `Object.keys` and `Object.values` visit fields in the order the document lists them; JavaScript's rule that integer-like keys come first, in ascending order, is not modelled.
- Property names of `Object.prototype` (such as "toString") used as group ids in the group-name table are not modelled. Group ids that are not strings are not modelled either.
- Rankings.RoundSpecificRanking: when only some lines carry `finalRoundIndex` the comparator is not a consistent order, and the result depends on the engine's sort. The model applies the same comparator in a stable insertion sort; properties are stated only for the cases where all lines, or none, carry one.
- The arrays kept in `roundsByYear` are modelled as values: the in-place sort and the sharing of round objects between `allRounds` and `roundsByYear` are not modelled.
- Timers are collapsed into the method that models them firing: the autocomplete's blur, selection and clear delays, the rankings screen's year-selection delay and its loading interval.
- Autocomplete: the `localeCompare` sort of the loaded players is not modelled, so the players are taken in the order they arrive. The text highlight, the zoom and blur workarounds for mobile browsers, and the orientation and scroll handlers are not modelled.
- The player page's avatar upload, cropping and preview (`previewAvatarUrl`), Firebase Storage and the DOM scroll locks are not modelled. The merge of the saved payload into `player` after a successful write is not modelled either. src/app/components/avatar-cropper/avatar-cropper.component.ts is not part of this model.
- src/app/models/player/player.enum.ts is not part of this model, so the main-hand labels are a parameter and `getBackHandLabel` is not modelled.
- GroupService.GroupsWithMatches: for an empty `groups` collection `forkJoin([])` completes without emitting, so a subscriber receives no list at all; the model gives the empty list.
- RoundService.StatusMessage: a `message` field that is truthy but not a string is passed on as it is by the code; the model reads `message` as a string or a missing value.
- PlayerProfile.PlayerComponent.OnBlur: a disabled form is treated as never valid and without errors. What Angular puts in `form.value` for a disabled form is not modelled, because nothing is sent then.
- Browser local storage is a field of the avatar service (`storedAvatar`). It is present or absent as the constructor says.
- src/app/services/auth.service.ts, the login page, the app shell, routes, menus, the toast service, the PWA prompt and the zod schemas are not part of this model.

## Findings

The page methods (ScoresPage.ScoresComponent.OnPlayerLookup, PlayerProfile.PlayerComponent.OnBlur) follow the code as written; the corrected definitions stand beside them with their properties proved.

| source | as written | input that shows it | evidently intended | confidence | as-written member | corrected member |
|---|---|---|---|---|---|---|
| src/app/pages/scores/scores.component.ts:163-168 | `player.group` is read before the `player &&` test, so a missing player record throws a TypeError in the subscriber: no group is selected and the matches never load | a signed-in e-mail for which `getPlayer` yields null | fall back to the first group, as the error handler does | not executed | ScoresPage.NoPlayerSelectsNothing | ScoresPage.ChosenGroup |
| src/app/pages/player/player.component.ts:325-351 | `hasChanges` compares the stored fields with the form strictly, but `fillFormWithPlayerData` writes "" for every missing field (`??` and the height and start tests) and for a ranking start of 0, so the form just filled from the player already differs from it | a player with a null or absent name, avatar, height, country, social network, main hand or back hand (the page's own blank player has null hands), or `startOfTheRanking` 0 | an unedited form has no changes, so leaving a field does not save | not executed | PlayerProfile.UneditedFormChangedAsWritten | PlayerProfile.HasChangesFacts |
