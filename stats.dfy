/** The per-player counters of `calculate_rankings` (the record of
    `get_player_stats_template` and the body of `update_common_stats`) and the
    signed win/loss streak, each tied to an independent description in terms
    of the player's match history. */
module Stats {

  /** One counted match from one player's side. */
  datatype Outcome = Outcome(won: bool, clutch: bool, games: nat, gd: int)

  /** The dictionary returned by `get_player_stats_template`. */
  datatype PlayerStats = PlayerStats(wins: nat, losses: nat, matches: nat, gamesWon: nat, gdSum: int,
                                     clutchWins: nat, clutchMatches: nat, gdList: seq<int>, points: int)

  const Blank: PlayerStats := PlayerStats(0, 0, 0, 0, 0, 0, 0, [], 0)

  /** The outcome of a match for a side that won `gamesWon` of `total` games. */
  function OutcomeOf(gamesWon: nat, total: nat, clutch: bool, won: bool): Outcome {
    Outcome(won, clutch, gamesWon, gamesWon - (total - gamesWon))
  }

  /** What `update_common_stats` does to the record of one player. */
  function Record(s: PlayerStats, o: Outcome, ptsWin: int, ptsLoss: int): PlayerStats {
    var t := s.(matches := s.matches + 1, gamesWon := s.gamesWon + o.games,
                gdSum := s.gdSum + o.gd, gdList := s.gdList + [o.gd],
                clutchMatches := s.clutchMatches + if o.clutch then 1 else 0);
    if o.won then
      t.(wins := t.wins + 1, clutchWins := t.clutchWins + (if o.clutch then 1 else 0), points := t.points + ptsWin)
    else
      t.(losses := t.losses + 1, points := t.points + ptsLoss)
  }

  /** `max(0, s) + 1` after a win, `min(0, s) - 1` after a loss. */
  function Step(streak: int, won: bool): int {
    if won then (if streak > 0 then streak else 0) + 1
    else (if streak < 0 then streak else 0) - 1
  }

  function Sum(xs: seq<int>): int {
    if xs == [] then 0 else Sum(xs[..|xs| - 1]) + xs[|xs| - 1]
  }

  function Wins(h: seq<Outcome>): nat {
    if h == [] then 0 else Wins(h[..|h| - 1]) + if h[|h| - 1].won then 1 else 0
  }

  function Clutches(h: seq<Outcome>): nat {
    if h == [] then 0 else Clutches(h[..|h| - 1]) + if h[|h| - 1].clutch then 1 else 0
  }

  function ClutchWins(h: seq<Outcome>): nat {
    if h == [] then 0 else ClutchWins(h[..|h| - 1]) + if h[|h| - 1].clutch && h[|h| - 1].won then 1 else 0
  }

  function GamesOf(h: seq<Outcome>): nat {
    if h == [] then 0 else GamesOf(h[..|h| - 1]) + h[|h| - 1].games
  }

  /** The ranking points a history earns: `ptsWin` per win, `ptsLoss` per loss. */
  function PointsOf(h: seq<Outcome>, ptsWin: int, ptsLoss: int): int {
    if h == [] then 0 else PointsOf(h[..|h| - 1], ptsWin, ptsLoss) + if h[|h| - 1].won then ptsWin else ptsLoss
  }

  function Gds(h: seq<Outcome>): (r: seq<int>)
    ensures |r| == |h| && forall i :: 0 <= i < |h| ==> r[i] == h[i].gd
  {
    seq(|h|, i requires 0 <= i < |h| => h[i].gd)
  }

  /** Length of the run of results equal to `won` at the end of `h`. */
  function RunOf(h: seq<Outcome>, won: bool): nat {
    if h == [] || h[|h| - 1].won != won then 0 else RunOf(h[..|h| - 1], won) + 1
  }

  /** The signed streak a history ends with: the length of the final run of
      wins, or minus the length of the final run of losses. */
  function Streak(h: seq<Outcome>): int {
    if h == [] then 0
    else if h[|h| - 1].won then RunOf(h, true)
    else -(RunOf(h, false) as int)
  }

  /** The counters and streak of a player agree with the player's history. */
  predicate Agrees(s: PlayerStats, streak: int, h: seq<Outcome>, ptsWin: int, ptsLoss: int) {
    && s.matches == |h|
    && s.wins == Wins(h)
    && s.losses == |h| - Wins(h)
    && s.clutchMatches == Clutches(h)
    && s.clutchWins == ClutchWins(h)
    && s.gamesWon == GamesOf(h)
    && s.gdList == Gds(h)
    && s.gdSum == Sum(s.gdList)
    && s.points == PointsOf(h, ptsWin, ptsLoss)
    && streak == Streak(h)
  }

  lemma {:induction false} WinsBound(h: seq<Outcome>)
    ensures Wins(h) <= |h| && ClutchWins(h) <= Clutches(h) <= |h| && ClutchWins(h) <= Wins(h)
    ensures RunOf(h, true) <= |h| && RunOf(h, false) <= |h|
  {
    if h != [] {
      WinsBound(h[..|h| - 1]);
    }
  }

  lemma {:induction false} RunStep(h: seq<Outcome>, o: Outcome)
    ensures RunOf(h + [o], o.won) == RunOf(h, o.won) + 1
    ensures RunOf(h + [o], !o.won) == 0
  {
    assert (h + [o])[..|h|] == h;
  }

  lemma {:induction false} RunSign(h: seq<Outcome>)
    ensures h != [] ==> RunOf(h, h[|h| - 1].won) >= 1
    ensures h != [] ==> RunOf(h, !h[|h| - 1].won) == 0
    ensures h == [] ==> RunOf(h, true) == 0 && RunOf(h, false) == 0
  {
  }

  /** The source's streak update is the signed final run of the extended history. */
  lemma {:induction false} StepStreak(h: seq<Outcome>, o: Outcome)
    ensures Step(Streak(h), o.won) == Streak(h + [o])
  {
    RunStep(h, o);
    RunSign(h);
    var h' := h + [o];
    assert h'[|h'| - 1] == o;
  }

  /** The history functions on a history one match longer. */
  lemma SnocCounts(h: seq<Outcome>, o: Outcome, ptsWin: int, ptsLoss: int)
    ensures Wins(h + [o]) == Wins(h) + if o.won then 1 else 0
    ensures Clutches(h + [o]) == Clutches(h) + if o.clutch then 1 else 0
    ensures ClutchWins(h + [o]) == ClutchWins(h) + if o.clutch && o.won then 1 else 0
    ensures GamesOf(h + [o]) == GamesOf(h) + o.games
    ensures PointsOf(h + [o], ptsWin, ptsLoss) == PointsOf(h, ptsWin, ptsLoss) + if o.won then ptsWin else ptsLoss
    ensures Gds(h + [o]) == Gds(h) + [o.gd]
  {
    assert (h + [o])[..|h|] == h;
  }

  lemma SnocSum(xs: seq<int>, x: int)
    ensures Sum(xs + [x]) == Sum(xs) + x
  {
    assert (xs + [x])[..|xs|] == xs;
  }

  /** Points earned are the wins times `ptsWin` plus the losses times `ptsLoss`. */
  lemma {:induction false} PointsCount(h: seq<Outcome>, ptsWin: int, ptsLoss: int)
    ensures PointsOf(h, ptsWin, ptsLoss) == Wins(h) * ptsWin + (|h| - Wins(h)) * ptsLoss
  {
    if h != [] {
      var init := h[..|h| - 1];
      PointsCount(init, ptsWin, ptsLoss);
      WinsBound(init);
      if h[|h| - 1].won {
        MulStep(Wins(init), ptsWin);
      } else {
        MulStep(|init| - Wins(init), ptsLoss);
      }
    }
  }

  lemma MulStep(a: int, b: int)
    ensures (a + 1) * b == a * b + b
  {
  }

  /** Recording a match keeps counters, streak and history in agreement. */
  lemma {:induction false} RecordAgrees(s: PlayerStats, streak: int, h: seq<Outcome>, o: Outcome, ptsWin: int, ptsLoss: int)
    requires Agrees(s, streak, h, ptsWin, ptsLoss)
    ensures Agrees(Record(s, o, ptsWin, ptsLoss), Step(streak, o.won), h + [o], ptsWin, ptsLoss)
  {
    var r := Record(s, o, ptsWin, ptsLoss);
    SnocCounts(h, o, ptsWin, ptsLoss);
    SnocSum(s.gdList, o.gd);
    WinsBound(h);
    StepStreak(h, o);
    assert r.gdList == Gds(h + [o]) && r.gdSum == Sum(r.gdList);
  }

  /** A player not yet counted: the template record, no streak, no history. */
  lemma BlankAgrees(h: seq<Outcome>, ptsWin: int, ptsLoss: int)
    requires h == []
    ensures Agrees(Blank, 0, h, ptsWin, ptsLoss)
  {
  }

  /** The invariants the source's counters keep. */
  predicate StatsOk(s: PlayerStats, streak: int, ptsWin: int, ptsLoss: int) {
    && s.wins + s.losses == s.matches
    && s.clutchWins <= s.clutchMatches <= s.matches
    && s.clutchWins <= s.wins
    && |s.gdList| == s.matches
    && s.gdSum == Sum(s.gdList)
    && s.points == s.wins * ptsWin + s.losses * ptsLoss
    && -(s.matches as int) <= streak <= s.matches
    && (s.matches == 0 <==> streak == 0)
  }

  /** Counters that agree with a history keep the source's invariants, and
      the streak is never longer than the number of matches played. */
  lemma AgreesOk(s: PlayerStats, streak: int, h: seq<Outcome>, ptsWin: int, ptsLoss: int)
    requires Agrees(s, streak, h, ptsWin, ptsLoss)
    ensures StatsOk(s, streak, ptsWin, ptsLoss)
    ensures h != [] ==> (streak > 0 <==> h[|h| - 1].won)
  {
    WinsBound(h);
    PointsCount(h, ptsWin, ptsLoss);
    RunSign(h);
  }

  /** The last `k` matches of `h` all have the result `won`. */
  predicate EndsWith(h: seq<Outcome>, k: nat, won: bool) {
    |h| >= k && forall i :: |h| - k <= i < |h| ==> h[i].won == won
  }

  lemma {:induction false} RunOfIff(h: seq<Outcome>, won: bool, k: nat)
    ensures RunOf(h, won) >= k <==> EndsWith(h, k, won)
  {
    if k > 0 && h != [] {
      var init := h[..|h| - 1];
      RunOfIff(init, won, k - 1);
      if h[|h| - 1].won == won {
        if EndsWith(init, k - 1, won) {
          forall i | |h| - k <= i < |h| ensures h[i].won == won {
            if i < |h| - 1 { assert h[i] == init[i]; }
          }
        }
        if EndsWith(h, k, won) {
          forall i | |init| - (k - 1) <= i < |init| ensures init[i].won == won {
            assert init[i] == h[i];
          }
        }
      } else {
        assert !EndsWith(h, k, won) by { assert h[|h| - 1].won != won; }
      }
    }
  }

  /** A streak of at least `k` means the last `k` matches were won; one of
      at most `-k` that they were lost. */
  lemma StreakIff(h: seq<Outcome>, k: nat)
    requires k >= 1
    ensures Streak(h) >= k <==> EndsWith(h, k, true)
    ensures Streak(h) <= -(k as int) <==> EndsWith(h, k, false)
  {
    RunSign(h);
    RunOfIff(h, true, k);
    RunOfIff(h, false, k);
  }
}
