# Ranking engine of patchmoint-tennis

This is a Dafny model of the ranking engine of the `patchmoint-tennis.py` club app, with proofs about it. The engine's parts are:

- `calculate_rankings` replays the recorded matches in date order. It keeps per-player statistics, win/loss streaks, last active dates, an Elo rating, the last Elo change and a UTR-like rating.
- It then builds one row per player who played, with derived figures and badges. It ranks the rows by Elo, by points and by UTR in turn.
- The ranking tab filters the match table by match type before it ranks. It then re-sorts the table by the rating system the viewer picked.
- `get_valid_scores` builds the table of score strings that can be entered for a set.
- `generate_match_id` picks the identifier of a new match.

The modules follow the structure of the program:

| module | file | what it holds |
|---|---|---|
| `Text` | text.dfy | the Python string built-ins the engine relies on (`strip`, `upper`, `lower`, `int`, `re.findall(r'\d+')`, `f"{n:02d}"`), on ASCII |
| `Rounding` | rounding.dfy | Python's `round(x, n)` on reals, with halves going to the even neighbour |
| `Dicts` | dicts.dfy | a `defaultdict` updated once per name of a list (`ForEach`), and insertion order of the keys (`Enroll`) |
| `Scores` | scores.dfy | the decoder of one set string, and the per-set loop as a method `ScoreMatch` |
| `ScoreTable` | score_table.dfy | `get_valid_scores` as methods that build the table with the source's `extend` loops |
| `Stats` | stats.dfy | one player's counters (`get_player_stats_template`, `update_common_stats`), tied to a history of match outcomes |
| `Book` | book.dfy | the dictionaries of one run as a value (`Book`), what one match does to them (`StepMatch`) and the fold over the matches (`Fold`) |
| `Invariants` | invariants.dfy | the consistency predicate `BookOk` that every match preserves |
| `Effects` | effects.dfy | what a match does to each player: skipped matches, bystanders, Elo and UTR changes, zero-sum and bounds |
| `Schedule` | schedule.dfy | `sort_values('date')` as a stable insertion sort, and the "Doubles"/"Singles" view filter |
| `Ranking` | ranking.dfy | the rows of `rank_data`, the badges, the three rank passes and the view re-sort |
| `Engine` | engine.dfy | class `Ledger`, whose fields are the dictionaries that `calculate_rankings` mutates in place, driven by loops as in the source; plus `CalculateRankings` and `RankView` |
| `MatchId` | matchid.dfy | `generate_match_id` as a method with the source's `while True` loop |

`Engine.Ledger` is the imperative half. Its methods are proved against the functions of `Book`. `Ledger.ApplyMatch` leaves the ledger equal to `StepMatch` of its old snapshot, and `Ledger.Run` leaves it equal to `Fold`. The proofs about what a replay means are lemmas about those functions. One ghost field, `history`, records the outcomes the ledger has counted for each player. The consistency invariant `Valid()` says every counter, streak and rating agrees with that history.

Some facts the model makes explicit:

- A set string containing "Tie Break" always marks the match as clutch. If that string has fewer than two numbers in it, it adds no games.
- A plain score whose halves `int()` cannot parse is skipped, and so is the pickleball closeness test for that set.
- A match whose sets add up to no games still updates the last active dates of its players. Nothing else changes.
- A name listed twice on one side, or on both sides, is updated once per occurrence. The contracts count occurrences (`Count`).
- The ranking sorts use two keys, so they are stable. Rows that tie on a system's score and Win % keep the order the previous sort left them in (`Ranking.SortStable`). So each system's ranks are independent of the other systems only up to such ties.
- The tennis table lists "Tie Break 7-7" twice, because the loop runs `i` over `range(10)` and `7-{i}` and `{i}-7` coincide at `i = 7`. That string decodes as a 6-7 set, a win for team 2 (`ScoreTable.SevenAllTieBreak`).

## Model

| member | source | states |
|---|---|---|
| Text.ParseInt | patchmoint-tennis.py:722 | `int()` succeeds exactly when the stripped string is a non-empty run of digits, with or without a leading `+`, and then returns that run's decimal value; on anything else (`""`, `" "`, `"7a"`) it fails and the set is skipped |
| Text.ParseIntDecimal | patchmoint-tennis.py:722 | `int()` of a written natural number gives that number back |
| Text.DecimalRoundTrip | patchmoint-tennis.py:647 | reading back the decimal rendering of `n` gives `n` |
| Text.Pad2RoundTrip | patchmoint-tennis.py:647 | `{serial:02d}` read back as digits gives the serial back |
| Text.Pad2Injective | patchmoint-tennis.py:647 | different serials render to different two-digit-padded strings |
| Text.DigitRunsNumber | patchmoint-tennis.py:715 | `re.findall(r'\d+')` on a number followed by a non-digit finds that number first |
| Rounding.RoundHalfEven | patchmoint-tennis.py:748 | `round()` lands within one half of its argument, and on an exact half it picks the even integer |
| Rounding.RoundError | patchmoint-tennis.py:818-828 | `round(x, n)` is within half a unit of the n-th decimal of `x` |
| Rounding.RoundMonotone | patchmoint-tennis.py:818-828 | `round(x, n)` never reverses the order of two values, so rounded scores sort consistently with the exact ones |
| Scores.ScoreMatch | patchmoint-tennis.py:705-730 | the per-set loop's totals and clutch flag equal the fold of the set decoder over the sets |
| Scores.ClutchIff | patchmoint-tennis.py:705-727 | a match is clutch exactly when some set is a tie-break, or, in pickleball, a set decided by at most two with the leader on 10 or more |
| Scores.ZeroGamesIff | patchmoint-tennis.py:729-733 | the total of games is zero, so the match is skipped, exactly when every set contributes no games |
| Scores.SplitPlain | patchmoint-tennis.py:721-722 | splitting `"a-b"` at the dashes and parsing both halves gives `(a, b)` |
| Scores.DecodePlain | patchmoint-tennis.py:719-722 | a plain score `"a-b"` decodes to `a` games against `b`, without a tie-break |
| Scores.DecodeTieBreak | patchmoint-tennis.py:713-718 | `"Tie Break a-b"` counts as a 7-6 set for the side whose number is larger; on a draw or a smaller first number, team 2 gets the 7 |
| Scores.TieBreakRuns | patchmoint-tennis.py:715 | the numbers found in `"Tie Break a-b"` are exactly `[a, b]` |
| ScoreTable.ValidScores | patchmoint-tennis.py:619-635 | the table has 58 entries for pickleball and 46 otherwise; every entry is a score of the sport, and every score of the sport is in it |
| ScoreTable.PickleballScores | patchmoint-tennis.py:620-629 | the pickleball table holds the games to 11 and to 15 and the listed win-by-two finishes, and nothing else |
| ScoreTable.TennisScores | patchmoint-tennis.py:630-635 | the tennis table holds the fourteen set scores and the tie-breaks to 7 and to 10, and nothing else |
| ScoreTable.ListedDecodes | patchmoint-tennis.py:619-635 | every string the table offers decodes, by the set decoder of `calculate_rankings`, to a set with a winner |
| ScoreTable.PlainDecodes | patchmoint-tennis.py:624-632 | each plain entry decodes to its own games, and its halves differ |
| ScoreTable.PickleballClutch | patchmoint-tennis.py:725-727 | a listed pickleball score makes the match clutch exactly when its margin is at most two |
| ScoreTable.SevenAllTieBreak | patchmoint-tennis.py:633 | the table lists "Tie Break 7-7", and it decodes as a 6-7 set |
| Stats.RecordAgrees | patchmoint-tennis.py:761-776 | one `update_common_stats` step keeps a player's counters, points, game-difference list and streak equal to those of the history extended by the match |
| Stats.BlankAgrees | patchmoint-tennis.py:651-652 | the stats template and a streak of 0 agree with the empty history |
| Stats.AgreesOk | patchmoint-tennis.py:761-776 | counters that agree with a history satisfy wins + losses = matches, clutch wins ≤ clutch matches ≤ matches, points = wins·win-points + losses·loss-points, gd_sum = the sum of gd_list, and the streak's sign is the result of the last match |
| Stats.StepStreak | patchmoint-tennis.py:771-775 | the streak update on a win or a loss equals the run of equal results that ends the history |
| Stats.StreakIff | patchmoint-tennis.py:771-775 | the streak is at least `k` (at most `-k`) exactly when the last `k` matches were all won (all lost) |
| Stats.PointsCount | patchmoint-tennis.py:772-776 | the points added one match at a time equal wins times win-points plus losses times loss-points |
| Book.Side | patchmoint-tennis.py:697-698 | a side keeps exactly the slots that are non-blank after stripping and are not "VISITOR" in any case, each as often as it is listed |
| Book.SideAppend | patchmoint-tennis.py:697-698 | the comprehension works slot by slot, so the kept slots stay in their order |
| Book.SideSingle | patchmoint-tennis.py:697-698 | a single slot is kept exactly when it counts |
| Effects.SkippedMatch | patchmoint-tennis.py:699-733 | a match without two sides changes nothing; a match with no games changes only last active dates, and then every set contributes no games |
| Effects.LastActive | patchmoint-tennis.py:701-703 | a match with two sides sets the last active date of each of its players to its date, and leaves everyone else's alone |
| Effects.Bystander | patchmoint-tennis.py:696-796 | a player on neither side keeps their stats, streak, date, Elo, UTR, last change and history |
| Effects.CountedElo | patchmoint-tennis.py:735-748 | each occurrence of a player on a side adds that side's Elo change; both changes come from the ratings before the match; the recorded last change is team 2's if the player is on team 2, else team 1's, rounded to one decimal |
| Effects.CountedUtr | patchmoint-tennis.py:751-758 | after a counted match, every player of the match has a UTR within [1.0, 16.5] |
| Effects.CountedUtrAt | patchmoint-tennis.py:751-758 | a player listed once on one side ends with the clamp of their old UTR plus that side's change |
| Effects.OutcomesOpposite | patchmoint-tennis.py:761-790 | the two sides get opposite results and opposite game differences, share the games and the clutch flag |
| Effects.EloZeroSum | patchmoint-tennis.py:743-745 | when the expected-score curve is symmetric, the two Elo changes cancel |
| Effects.EloBounds | patchmoint-tennis.py:743-745 | when the expected score is in [0, 1], the winners gain between 0 and 32 and the losers lose between 0 and 32 |
| Effects.UtrZeroSum | patchmoint-tennis.py:751-754 | when the logistic curve is symmetric, the two UTR changes cancel |
| Effects.UtrBounds | patchmoint-tennis.py:751-754 | when the logistic is in [0, 1], each UTR change is at most 0.05 in size |
| Invariants.SeededOk | patchmoint-tennis.py:677-691 | the seeded dictionaries are consistent with the empty history |
| Invariants.CountedOk | patchmoint-tennis.py:761-796 | the updates of a counted match keep the dictionaries consistent with the histories extended by the match |
| Invariants.StepOk | patchmoint-tennis.py:696-796 | one iteration of the match loop keeps the dictionaries consistent |
| Invariants.FoldOk | patchmoint-tennis.py:696-796 | the whole match loop keeps the dictionaries consistent, with stats keys in creation order and each player's UTR in range |
| Engine.Ledger.constructor | patchmoint-tennis.py:656-691 | the empty dictionaries, and the Elo and UTR of each roster entry: derived from its initial UTR when it has one, 1200 and 4.0 otherwise; the ledger starts consistent |
| Engine.Ledger.Touch | patchmoint-tennis.py:702-703 | the last active date of each listed player becomes the match date |
| Engine.Ledger.CountOne | patchmoint-tennis.py:762-776 | the update of one player's stats and streak is the `Record` and `Step` of the outcome |
| Engine.Ledger.RecordSide | patchmoint-tennis.py:761-776 | `update_common_stats` applies the outcome to every listed player's stats and streak, once per occurrence, and enrolls new names at the end of the key order |
| Engine.Ledger.ApplyElo | patchmoint-tennis.py:743-748 | `update_elo` adds the change to each listed player, defaulting to 1200, and records it rounded to one decimal |
| Engine.Ledger.ApplyUtr | patchmoint-tennis.py:751-758 | `update_utr` adds the change to each listed player, defaulting to 4.0, and clamps to [1.0, 16.5] |
| Engine.Ledger.ApplyMatch | patchmoint-tennis.py:696-796 | one pass of the match loop leaves the ledger equal to `StepMatch` of its old state and keeps it consistent |
| Engine.Ledger.Run | patchmoint-tennis.py:696-796 | the match loop leaves the ledger equal to the fold of `StepMatch` over the matches and keeps it consistent |
| Engine.Ledger.Table | patchmoint-tennis.py:798-832 | the `rank_data` loop yields the rows of the players with matches, in stats order |
| Engine.CalculateRankings | patchmoint-tennis.py:654-845 | the function, run with the ledger, returns the ranking of the rows of the replay of the date-sorted matches |
| Engine.RankView | patchmoint-tennis.py:1385-1400 | the ranking tab ranks only the matches the view keeps, then re-sorts by the chosen system |
| Engine.StandingsOk | patchmoint-tennis.py:798-801 | in a consistent ledger every stats entry has played, so `rank_data` has one row per stats key, in key order |
| Engine.ReplayedOk | patchmoint-tennis.py:677-796 | the replay of any match table from the seeded ratings is consistent |
| Engine.TableOk | patchmoint-tennis.py:654-845 | the returned table has exactly one row per player who played a counted match; each system's ranks are a permutation of 1..n that follows that system's order; the table is sorted by Elo and its places are 1..n |
| Engine.TableRows | patchmoint-tennis.py:798-845 | apart from the rank columns, every row of the returned table is the row built for its player from the replay |
| Engine.RowHistory | patchmoint-tennis.py:798-832 | a row's matches and wins count the player's history; it has a last active date; Hot Hand (Cold Snap) is shown exactly when the last three matches were won (lost) |
| Ranking.ClutchPct | patchmoint-tennis.py:802 | the clutch factor is 0 without clutch matches, and a percentage in [0, 100] otherwise |
| Ranking.Variance | patchmoint-tennis.py:803 | the squared consistency index is never negative |
| Ranking.MachineByVariance | patchmoint-tennis.py:803-814 | the Machine test `std < 1.5` is the same as `variance < 2.25` |
| Ranking.BadgeRules | patchmoint-tennis.py:809-816 | Hot Hand iff streak ≥ 3, Cold Snap iff streak ≤ -3, never both; Machine, Clutch (over 66% of at least three clutch matches) and Dominant (over 75% wins) need five matches; at most four badges |
| Ranking.RowsFor | patchmoint-tennis.py:798-801 | `rank_data` holds only rows of players with matches, each the row of its player |
| Ranking.SortPerm | patchmoint-tennis.py:836-843 | each sort permutes the rows |
| Ranking.SortSorted | patchmoint-tennis.py:836-843 | each sort orders the rows by descending score, then descending Win % |
| Ranking.SortStable | patchmoint-tennis.py:836-843 | each sort is stable: rows with the same score and Win % keep the order the previous pass left them in |
| Ranking.AssignRanked | patchmoint-tennis.py:837-841 | numbering a sorted table with `range(1, n+1)` gives ranks 1..n that follow the order |
| Ranking.RankedOk | patchmoint-tennis.py:836-841 | after the three passes, the players are unchanged, and the Elo, points and UTR ranks are each a permutation of 1..n in that system's order, including the ranks numbered in earlier passes |
| Ranking.RankingsOk | patchmoint-tennis.py:834-845 | the result has the same players, valid ranks for all three systems, is sorted by Elo, and its `Rank` places are 1..n |
| Ranking.RankingsRows | patchmoint-tennis.py:834-845 | ranking permutes the rows and only sets the rank columns |
| Ranking.ViewSortOk | patchmoint-tennis.py:1395-1400 | re-sorting for a system with a score column keeps the players, orders by that system, numbers `Rank_Num` from 1 and shows that system's score and name |
| Schedule.SortPerm | patchmoint-tennis.py:693-694 | the date sort replays every match exactly once |
| Schedule.SortSorted | patchmoint-tennis.py:693-694 | the replay order is non-decreasing in date |
| Schedule.SortStable | patchmoint-tennis.py:693-694 | matches on the same date are replayed in table order |
| Schedule.ViewMatchesCount | patchmoint-tennis.py:1388-1390 | the "Doubles" view keeps every doubles and mixed-doubles match and the "Singles" view every singles match, with multiplicity, and no others |
| Schedule.ViewSubsequence | patchmoint-tennis.py:1388-1390 | the matches a view keeps are a subsequence of the table: they stay in table order, so same-date matches of a view replay in that order |
| Schedule.ViewMatchesAll | patchmoint-tennis.py:1386-1390 | every other view ranks the whole match table |
| MatchId.Quarter | patchmoint-tennis.py:640 | for months 1..12 the quarter is 1..4 |
| MatchId.GenerateMatchId | patchmoint-tennis.py:637-649 | the identifier is not taken; it carries the quarter and year of the date; its serial is the first free one from one past the number of matches already dated in that quarter (from 1 on an empty table) |
| MatchId.SerialInjective | patchmoint-tennis.py:647 | within one quarter and year, different serials give different identifiers |
| MatchId.MatchIdInjective | patchmoint-tennis.py:640-647 | an identifier determines its quarter, year and serial |

## Left out

- Streamlit UI, the database, file and image upload, profile pictures (`Profile`), and `st.cache_data` are not modelled. The session's players and matches tables become parameters.
- The chapter settings become fields of `Config`: `SPORT_TYPE == "Pickleball"` becomes `pickleball`, and `points_win` (default 3) and `points_loss` (default 1) become `ptsWin` and `ptsLoss`. `ranking_systems` is read but unused by `calculate_rankings`. The Rankings tab offers its entries as the choices of `RankView`'s `viewSystem`.
- Floats are reals, so floating-point error is not modelled.
- The two expected-score curves, `1 / (1 + 10 ** x)` and `1 / (1 + exp(-y))`, are function parameters of `Config`. The zero-sum and bounds lemmas state the curve properties they need as preconditions.
- Ranking.Variance: the consistency index `np.std(gd_list)` is kept as its square, the population variance. The Machine badge tests `variance < 2.25`, which `MachineByVariance` shows is the same test. The "Consistency Index" column holds the variance, not `round(std, 2)`.
- Engine.RowHistory: `Last Active` is kept as the match date (an ordinal). The `"%d %b %y"` formatting, and its `"N/A"` fallback, are not modelled. The `Rank` column `"🏆 n"` is kept as the number `n`.
- Match dates are integers (day ordinals). A `NaT` date in the date sort is not modelled. In `generate_match_id`, a date that `pd.to_datetime(..., errors='coerce')` cannot parse is `None` in `IdRow` and counts toward no quarter.
- Schedule.SortByDate is a stable sort. pandas' default `sort_values('date')` is not guaranteed stable; the model picks the stable order, one of the orders pandas may produce. The multi-key sorts of the ranking use a stable sort, as pandas' multi-column sort does.
- Text: only ASCII whitespace, case and digits. `int()`'s underscores and Unicode digits are not modelled, and the `str(p)` of a non-string player slot is not modelled.
- Effects.CountedUtr: after a match, every player's UTR is in range. The exact clamp formula is stated only for a player listed once (`CountedUtrAt`). A player listed twice is clamped after each occurrence, which `Invariants.IterateClamped` covers as a range.
- Effects.CountedElo: a player on a side `n` times gains the change `n` times, written `Times(n, d)` (`Invariants.TimesProduct` shows it equals `n * d`).
- A defaultdict read of a missing key inserts the default in Python. This happens for `elo_ratings[p]` and `utr_ratings[p]` in the averages (patchmoint-tennis.py:735-738) for a player not in the roster, and for `current_streaks[p]` (patchmoint-tennis.py:771, 775) on a player's first counted match. The model reads with a default instead, without inserting. The same match writes each of those keys straight away, and nothing iterates the keys of those dictionaries, so the insertion is never visible.
