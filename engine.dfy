/** `calculate_rankings` as the source runs it: dictionaries updated in place
    by a loop over the date-sorted matches (patchmoint-tennis.py:654-845). */
module Engine {
  import opened Text
  import opened Scores
  import opened Dicts
  import opened Stats
  import opened Rounding
  import opened Book
  import opened Invariants
  import opened Effects
  import opened Ranking
  import opened Schedule

  /** The dictionaries of one run of `calculate_rankings`. `history` records,
      for the proofs only, every counted match of every player. */
  class Ledger {
    var stats: map<string, PlayerStats>
    var order: seq<string>
    var streaks: map<string, int>
    var lastActive: map<string, int>
    var elo: map<string, real>
    var utr: map<string, real>
    var lastChange: map<string, real>
    ghost var history: map<string, seq<Outcome>>
    const cfg: Config

    function Snapshot(): Book
      reads this
    {
      Book(stats, order, streaks, lastActive, elo, utr, lastChange)
    }

    ghost predicate Valid()
      reads this
    {
      BookOk(Snapshot(), history, cfg)
    }

    /** The empty dictionaries, and the Elo and UTR of each roster entry:
        mapped from its initial UTR when it has one, the defaults otherwise. */
    constructor (roster: seq<Player>, cfg: Config)
      ensures Snapshot() == Seeded(roster) && history == map[] && this.cfg == cfg
      ensures Valid()
    {
      var e: map<string, real>, u: map<string, real> := map[], map[];
      for i := 0 to |roster|
        invariant e == SeededElo(roster[..i]) && u == SeededUtr(roster[..i])
      {
        assert roster[..i + 1][..i] == roster[..i];
        var r := roster[i];
        if r.initialUtr.Some? {
          e := e[r.name := (r.initialUtr.value - 4.0) * 110.0 + 1200.0];
          u := u[r.name := r.initialUtr.value];
        } else {
          e := e[r.name := EloDefault];
          u := u[r.name := UtrDefault];
        }
      }
      assert roster[..|roster|] == roster;
      this.cfg := cfg;
      stats, order, streaks, lastActive := map[], [], map[], map[];
      elo, utr, lastChange := e, u, map[];
      history := map[];
      new;
      SeededOk(roster, cfg);
    }

    /** `last_active_dates[p] = current_match_date` for each player. */
    method Touch(players: seq<string>, date: int)
      modifies this`lastActive
      ensures lastActive == ForEach(old(lastActive), players, 0, SetTo(date))
    {
      for i := 0 to |players|
        invariant lastActive == ForEach(old(lastActive), players[..i], 0, SetTo(date))
      {
        ForEachPrefix(old(lastActive), players, i, 0, SetTo(date));
        lastActive := lastActive[players[i] := date];
      }
      assert players[..|players|] == players;
    }

    /** `update_common_stats` for one side. */
    method RecordSide(players: seq<string>, o: Outcome)
      modifies this`stats, this`order, this`streaks, this`history
      ensures stats == ForEach(old(stats), players, Blank, RecordWith(o, cfg.ptsWin, cfg.ptsLoss))
      ensures streaks == ForEach(old(streaks), players, 0, StepWith(o.won))
      ensures order == Enroll(old(order), players)
      ensures history == ForEach(old(history), players, [], Append(o))
    {
      for i := 0 to |players|
        invariant stats == ForEach(old(stats), players[..i], Blank, RecordWith(o, cfg.ptsWin, cfg.ptsLoss))
        invariant streaks == ForEach(old(streaks), players[..i], 0, StepWith(o.won))
        invariant order == Enroll(old(order), players[..i])
        invariant history == ForEach(old(history), players[..i], [], Append(o))
      {
        var p := players[i];
        var s, streak := CountOne(Get(stats, p, Blank), Get(streaks, p, 0), o);
        if p !in order {
          order := order + [p];
        }
        assert order == Enroll(old(order), players[..i + 1]) by {
          EnrollPrefix(old(order), players, i);
        }
        stats := stats[p := s];
        assert stats == ForEach(old(stats), players[..i + 1], Blank, RecordWith(o, cfg.ptsWin, cfg.ptsLoss)) by {
          ForEachPrefix(old(stats), players, i, Blank, RecordWith(o, cfg.ptsWin, cfg.ptsLoss));
        }
        streaks := streaks[p := streak];
        assert streaks == ForEach(old(streaks), players[..i + 1], 0, StepWith(o.won)) by {
          ForEachPrefix(old(streaks), players, i, 0, StepWith(o.won));
        }
        history := history[p := Get(history, p, []) + [o]];
        assert history == ForEach(old(history), players[..i + 1], [], Append(o)) by {
          ForEachPrefix(old(history), players, i, [], Append(o));
        }
      }
      assert players[..|players|] == players;
    }

    /** The body of `update_common_stats` for one player: the counters and
        the streak after one more match with outcome `o`. Its specification
        is `Stats.Record` and `Stats.Step`. */
    method CountOne(s0: PlayerStats, streak0: int, o: Outcome) returns (s: PlayerStats, streak: int)
      ensures s == RecordWith(o, cfg.ptsWin, cfg.ptsLoss)(s0) && streak == StepWith(o.won)(streak0)
    {
      s, streak := s0, streak0;
      s := s.(matches := s.matches + 1, gamesWon := s.gamesWon + o.games,
              gdSum := s.gdSum + o.gd, gdList := s.gdList + [o.gd]);
      if o.clutch {
        s := s.(clutchMatches := s.clutchMatches + 1);
      }
      if o.won {
        s := s.(wins := s.wins + 1);
        if o.clutch {
          s := s.(clutchWins := s.clutchWins + 1);
        }
        streak := (if streak > 0 then streak else 0) + 1;
        s := s.(points := s.points + cfg.ptsWin);
      } else {
        s := s.(losses := s.losses + 1);
        streak := (if streak < 0 then streak else 0) - 1;
        s := s.(points := s.points + cfg.ptsLoss);
      }
    }

    /** `update_elo` for one side: the same change for each player, and the
        change rounded to one decimal as the player's last change. */
    method ApplyElo(players: seq<string>, change: real)
      modifies this`elo, this`lastChange
      ensures elo == ForEach(old(elo), players, EloDefault, AddTo(change))
      ensures lastChange == ForEach(old(lastChange), players, 0.0, SetTo(Round(change, 1)))
    {
      for i := 0 to |players|
        invariant elo == ForEach(old(elo), players[..i], EloDefault, AddTo(change))
        invariant lastChange == ForEach(old(lastChange), players[..i], 0.0, SetTo(Round(change, 1)))
      {
        var p := players[i];
        ForEachPrefix(old(elo), players, i, EloDefault, AddTo(change));
        ForEachPrefix(old(lastChange), players, i, 0.0, SetTo(Round(change, 1)));
        elo := elo[p := Get(elo, p, EloDefault) + change];
        lastChange := lastChange[p := Round(change, 1)];
      }
      assert players[..|players|] == players;
    }

    /** `update_utr` for one side: the same change for each player, clamped
        to the UTR range after each addition. */
    method ApplyUtr(players: seq<string>, change: real)
      modifies this`utr
      ensures utr == ForEach(old(utr), players, UtrDefault, AddClamped(change))
    {
      for i := 0 to |players|
        invariant utr == ForEach(old(utr), players[..i], UtrDefault, AddClamped(change))
      {
        var p := players[i];
        ForEachPrefix(old(utr), players, i, UtrDefault, AddClamped(change));
        var x := Get(utr, p, UtrDefault) + change;
        var clamped := if x > UtrMax then UtrMax else if x < UtrMin then UtrMin else x;
        assert clamped == Clamp(x);
        assert clamped == AddClamped(change)(Get(utr, p, UtrDefault));
        utr := utr[p := clamped];
      }
      assert players[..|players|] == players;
    }

    /** `update_common_stats` for both sides. */
    method RecordSides(t1: seq<string>, t2: seq<string>, s: Scored)
      modifies this`stats, this`order, this`streaks, this`history
      ensures stats == ForEach(ForEach(old(stats), t1, Blank, RecordWith(Outcome1(s), cfg.ptsWin, cfg.ptsLoss)),
                               t2, Blank, RecordWith(Outcome2(s), cfg.ptsWin, cfg.ptsLoss))
      ensures order == Enroll(Enroll(old(order), t1), t2)
      ensures streaks == ForEach(ForEach(old(streaks), t1, 0, StepWith(Outcome1(s).won)), t2, 0, StepWith(Outcome2(s).won))
      ensures history == HistoryAfter(old(history), t1, t2, s)
      ensures lastActive == old(lastActive) && elo == old(elo) && utr == old(utr) && lastChange == old(lastChange)
    {
      RecordSide(t1, Outcome1(s));
      RecordSide(t2, Outcome2(s));
    }

    /** `update_elo`, then `update_utr`, for both sides. */
    method RateSides(t1: seq<string>, t2: seq<string>, d: Deltas)
      modifies this`elo, this`utr, this`lastChange
      ensures elo == ForEach(ForEach(old(elo), t1, EloDefault, AddTo(d.elo1)), t2, EloDefault, AddTo(d.elo2))
      ensures utr == ForEach(ForEach(old(utr), t1, UtrDefault, AddClamped(d.utr1)), t2, UtrDefault, AddClamped(d.utr2))
      ensures lastChange == ForEach(ForEach(old(lastChange), t1, 0.0, SetTo(Round(d.elo1, 1))), t2, 0.0, SetTo(Round(d.elo2, 1)))
      ensures lastActive == old(lastActive) && stats == old(stats) && order == old(order) && streaks == old(streaks)
    {
      ApplyElo(t1, d.elo1);
      ApplyElo(t2, d.elo2);
      ApplyUtr(t1, d.utr1);
      ApplyUtr(t2, d.utr2);
    }

    /** One iteration of the loop over the matches. */
    method ApplyMatch(m: Match)
      requires Valid()
      modifies this
      ensures Snapshot() == StepMatch(old(Snapshot()), m, cfg)
      ensures history == StepHistory(old(history), m, cfg)
      ensures Valid()
    {
      ghost var b0, h0 := Snapshot(), history;
      var t1, t2 := Side(m.team1), Side(m.team2);
      if t1 != [] && t2 != [] {
        Touch(t1 + t2, m.date);
        var clutch, games1, games2 := ScoreMatch(m.sets, cfg.pickleball);
        if games1 + games2 == 0 {
          TouchedOnly(b0, h0, m, cfg);
        } else {
          CountMatch(b0, h0, m, t1, t2, Scored(games1, games2, clutch, m.winner == "Team 1"));
        }
      }
      StepOk(b0, h0, m, cfg);
    }

    /** The rating part of an iteration, for a match that is counted: the
        changes are read from the ratings first, then both sides' stats,
        Elo and UTR are updated. */
    method CountMatch(ghost b0: Book, ghost h0: map<string, seq<Outcome>>, m: Match, t1: seq<string>, t2: seq<string>, s: Scored)
      requires t1 == Side(m.team1) && t2 == Side(m.team2) && t1 != [] && t2 != []
      requires Snapshot() == b0.(lastActive := ForEach(b0.lastActive, t1 + t2, 0, SetTo(m.date))) && history == h0
      requires Tally(s.games1, s.games2, s.clutch) == TallySets(m.sets, cfg.pickleball)
      requires s.won1 == (m.winner == "Team 1") && s.games1 + s.games2 > 0
      modifies this
      ensures Snapshot() == StepMatch(b0, m, cfg)
      ensures history == StepHistory(h0, m, cfg)
    {
      ghost var b1 := Book(stats, order, streaks, lastActive, elo, utr, lastChange);
      var d := DeltasOf(elo, utr, t1, t2, s, cfg);
      RecordSides(t1, t2, s);
      RateSides(t1, t2, d);
      CountedFields(b1, Book(stats, order, streaks, lastActive, elo, utr, lastChange), t1, t2, s, d, cfg);
      CountedOnce(b0, h0, m, cfg, s, d);
    }

    /** The loop over the matches, in the order given. */
    method Run(ms: seq<Match>)
      requires Valid()
      modifies this
      ensures Snapshot() == Fold(old(Snapshot()), ms, cfg)
      ensures history == FoldHistory(old(history), ms, cfg)
      ensures Valid()
    {
      for i := 0 to |ms|
        invariant Valid()
        invariant Snapshot() == Fold(old(Snapshot()), ms[..i], cfg)
        invariant history == FoldHistory(old(history), ms[..i], cfg)
      {
        assert ms[..i + 1][..i] == ms[..i];
        ApplyMatch(ms[i]);
      }
      assert ms[..|ms|] == ms;
    }

    /** The loop that builds `rank_data` from `stats.items()`. */
    method Table() returns (rows: seq<Row>)
      ensures rows == Standings(Snapshot())
    {
      rows := [];
      for i := 0 to |order|
        invariant rows == RowsFor(Snapshot(), order[..i])
      {
        assert order[..i + 1][..i] == order[..i];
        var p := order[i];
        if p in stats && stats[p].matches > 0 {
          rows := rows + [RowOf(Snapshot(), p)];
        }
      }
      assert order[..|order|] == order;
    }
  }

  /** A match with two sides whose sets add up to no games: only the last
      active dates change. */
  lemma TouchedOnly(b: Book, h: map<string, seq<Outcome>>, m: Match, cfg: Config)
    requires Side(m.team1) != [] && Side(m.team2) != []
    requires TallySets(m.sets, cfg.pickleball).team1 + TallySets(m.sets, cfg.pickleball).team2 == 0
    ensures StepMatch(b, m, cfg) == b.(lastActive := ForEach(b.lastActive, Side(m.team1) + Side(m.team2), 0, SetTo(m.date)))
    ensures StepHistory(h, m, cfg) == h
  {
  }

  /** A counted match: the dates first, then the updates of `Counted` with
      the changes read from the ratings before the match. */
  lemma CountedOnce(b: Book, h: map<string, seq<Outcome>>, m: Match, cfg: Config, s: Scored, d: Deltas)
    requires Side(m.team1) != [] && Side(m.team2) != []
    requires Tally(s.games1, s.games2, s.clutch) == TallySets(m.sets, cfg.pickleball)
    requires s.won1 == (m.winner == "Team 1") && s.games1 + s.games2 > 0
    requires d == DeltasOf(b.elo, b.utr, Side(m.team1), Side(m.team2), s, cfg)
    ensures StepMatch(b, m, cfg) ==
            Counted(b.(lastActive := ForEach(b.lastActive, Side(m.team1) + Side(m.team2), 0, SetTo(m.date))),
                    Side(m.team1), Side(m.team2), s, d, cfg)
    ensures StepHistory(h, m, cfg) == HistoryAfter(h, Side(m.team1), Side(m.team2), s)
  {
    assert s == ScoredOf(m, cfg);
    DeltasBefore(b, m, cfg);
  }

  /** A book whose every dictionary is the one `Counted` builds is the book
      `Counted` builds. */
  lemma CountedFields(b: Book, c: Book, t1: seq<string>, t2: seq<string>, s: Scored, d: Deltas, cfg: Config)
    requires c.stats == ForEach(ForEach(b.stats, t1, Blank, RecordWith(Outcome1(s), cfg.ptsWin, cfg.ptsLoss)),
                                t2, Blank, RecordWith(Outcome2(s), cfg.ptsWin, cfg.ptsLoss))
    requires c.order == Enroll(Enroll(b.order, t1), t2)
    requires c.streaks == ForEach(ForEach(b.streaks, t1, 0, StepWith(Outcome1(s).won)), t2, 0, StepWith(Outcome2(s).won))
    requires c.lastActive == b.lastActive
    requires c.elo == ForEach(ForEach(b.elo, t1, EloDefault, AddTo(d.elo1)), t2, EloDefault, AddTo(d.elo2))
    requires c.utr == ForEach(ForEach(b.utr, t1, UtrDefault, AddClamped(d.utr1)), t2, UtrDefault, AddClamped(d.utr2))
    requires c.lastChange == ForEach(ForEach(b.lastChange, t1, 0.0, SetTo(Round(d.elo1, 1))), t2, 0.0, SetTo(Round(d.elo2, 1)))
    ensures c == Counted(b, t1, t2, s, d, cfg)
  {
  }

  /** The book after replaying a match table from the seeded ratings. */
  function Replayed(roster: seq<Player>, matches: seq<Match>, cfg: Config): Book {
    Fold(Seeded(roster), SortByDate(matches), cfg)
  }

  /** The players' histories after the same replay. */
  ghost function ReplayedHistory(matches: seq<Match>, cfg: Config): map<string, seq<Outcome>> {
    FoldHistory(map[], SortByDate(matches), cfg)
  }

  /** The table `calculate_rankings` returns. */
  function RankingTable(roster: seq<Player>, matches: seq<Match>, cfg: Config): seq<Row> {
    Rankings(Standings(Replayed(roster, matches, cfg)))
  }

  /** `calculate_rankings`: seed the ratings, replay the matches by date,
      build the rows and rank them. */
  method CalculateRankings(roster: seq<Player>, matches: seq<Match>, cfg: Config) returns (table: seq<Row>)
    ensures table == RankingTable(roster, matches, cfg)
  {
    var ledger := new Ledger(roster, cfg);
    ledger.Run(SortByDate(matches));
    var rows := ledger.Table();
    table := Rankings(rows);
  }

  /** The ranking tab: the table of the matches the view keeps, re-sorted
      by the system the view shows. */
  method RankView(roster: seq<Player>, matches: seq<Match>, cfg: Config, view: string, viewSystem: string)
    returns (shown: seq<Row>)
    ensures shown == ViewSort(RankingTable(roster, ViewMatches(matches, view), cfg), viewSystem)
  {
    var table := CalculateRankings(roster, ViewMatches(matches, view), cfg);
    shown := ViewSort(table, viewSystem);
  }

  lemma {:induction false} RowsForPlayers(b: Book, ps: seq<string>)
    requires forall p :: p in ps ==> p in b.stats && b.stats[p].matches > 0
    ensures Project(RowsFor(b, ps), NameOf) == ps
  {
    if ps != [] {
      var init, p := ps[..|ps| - 1], ps[|ps| - 1];
      RowsForPlayers(b, init);
      ProjectSnoc(RowsFor(b, init), RowOf(b, p), NameOf);
      assert ps == init + [p];
    }
  }

  /** In a consistent book every player with stats has played, so
      `rank_data` holds one row per player, in the order of `stats`. */
  lemma StandingsOk(b: Book, h: map<string, seq<Outcome>>, cfg: Config)
    requires BookOk(b, h, cfg)
    ensures Project(Standings(b), NameOf) == b.order
  {
    RowsForPlayers(b, b.order);
  }

  /** The replayed book is consistent. */
  lemma ReplayedOk(roster: seq<Player>, matches: seq<Match>, cfg: Config)
    ensures BookOk(Replayed(roster, matches, cfg), ReplayedHistory(matches, cfg), cfg)
  {
    SeededOk(roster, cfg);
    FoldOk(Seeded(roster), map[], SortByDate(matches), cfg);
  }

  /** The ranking table has exactly one row for each player who played a
      counted match; each system's ranks are a permutation of `1..n` in that
      system's order; the table is sorted by Elo and its places are `1..n`. */
  lemma TableOk(roster: seq<Player>, matches: seq<Match>, cfg: Config)
    ensures var b, h := Replayed(roster, matches, cfg), ReplayedHistory(matches, cfg);
            var t := RankingTable(roster, matches, cfg);
            && multiset(Project(t, NameOf)) == multiset(b.order)
            && NoDuplicates(b.order)
            && (forall p :: p in b.order <==> p in h && h[p] != [])
            && (forall k :: RanksOk(t, k))
            && SortedBy(t, EloSystem)
            && forall i :: 0 <= i < |t| ==> t[i].rank == i + 1
  {
    var b, h := Replayed(roster, matches, cfg), ReplayedHistory(matches, cfg);
    ReplayedOk(roster, matches, cfg);
    StandingsOk(b, h, cfg);
    RankingsOk(Standings(b));
    forall p ensures p in b.order <==> p in h && h[p] != [] {
      if p in h {
        assert p in b.stats;
        assert Agrees(b.stats[p], b.streaks[p], h[p], cfg.ptsWin, cfg.ptsLoss);
      }
    }
  }

  /** Apart from its rank columns, every row of the table is the row
      `rank_data` built for its player. */
  lemma TableRows(roster: seq<Player>, matches: seq<Match>, cfg: Config)
    ensures var b := Replayed(roster, matches, cfg);
            var t := RankingTable(roster, matches, cfg);
            forall i :: 0 <= i < |t| ==>
              t[i].player in b.stats && b.stats[t[i].player].matches > 0 && Unranked(t[i]) == RowOf(b, t[i].player)
  {
    var b := Replayed(roster, matches, cfg);
    var s := Standings(b);
    var t := Rankings(s);
    RankingsRows(s);
    forall i | 0 <= i < |t|
      ensures t[i].player in b.stats && b.stats[t[i].player].matches > 0 && Unranked(t[i]) == RowOf(b, t[i].player)
    {
      assert Project(t, Unranked)[i] == Unranked(t[i]);
      assert Unranked(t[i]) in multiset(Project(s, Unranked));
      var j :| 0 <= j < |s| && Project(s, Unranked)[j] == Unranked(t[i]);
      assert s[j] in s;
    }
  }

  /** The row of a player in a consistent book: wins and losses add up to the
      matches of the player's history, the player has a last active date, and
      Hot Hand (Cold Snap) is shown exactly when the last three of those
      matches were all won (all lost). */
  lemma RowHistory(b: Book, h: map<string, seq<Outcome>>, cfg: Config, p: string)
    requires BookOk(b, h, cfg) && p in b.stats
    ensures var r := RowOf(b, p);
            && r.player == p && r.matches == |h[p]| && r.wins == Wins(h[p]) && r.wins + r.losses == r.matches
            && r.lastActive.Some?
            && (HotHand in r.badges <==> EndsWith(h[p], 3, true))
            && (ColdSnap in r.badges <==> EndsWith(h[p], 3, false))
  {
    var s := b.stats[p];
    AgreesOk(s, b.streaks[p], h[p], cfg.ptsWin, cfg.ptsLoss);
    BadgeRules(b.streaks[p], s, Variance(s.gdList));
    StreakIff(h[p], 3);
  }
}
