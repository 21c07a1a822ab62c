/** What one iteration of the match loop of `calculate_rankings` changes, and
    what it leaves alone (patchmoint-tennis.py:697-796). */
module Effects {
  import opened Scores
  import opened Dicts
  import opened Stats
  import opened Rounding
  import opened Book
  import opened Invariants

  /** A match that reaches the rating updates: both sides keep a player and
      its sets add up to at least one game. */
  predicate IsCounted(m: Match, cfg: Config) {
    Side(m.team1) != [] && Side(m.team2) != [] && ScoredOf(m, cfg).games1 + ScoredOf(m, cfg).games2 > 0
  }

  /** `p` has the same entry (or the same absence of one) in both dictionaries. */
  predicate Same<V(==)>(m: map<string, V>, r: map<string, V>, p: string) {
    (p in m <==> p in r) && (p in m ==> m[p] == r[p])
  }

  /** A match with a side of blanks and visitors changes nothing. A match
      whose sides are kept but whose sets add no games (each blank,
      unparseable or without games) changes the last-active dates and
      nothing else. */
  lemma SkippedMatch(b: Book, h: map<string, seq<Outcome>>, m: Match, cfg: Config)
    requires !IsCounted(m, cfg)
    ensures Side(m.team1) == [] || Side(m.team2) == [] ==> StepMatch(b, m, cfg) == b
    ensures StepMatch(b, m, cfg) == b.(lastActive := StepMatch(b, m, cfg).lastActive)
    ensures StepHistory(h, m, cfg) == h
    ensures Side(m.team1) != [] && Side(m.team2) != [] ==>
              forall i :: 0 <= i < |m.sets| ==> SetGames(DecodeSet(m.sets[i])) == 0
  {
    ZeroGamesIff(m.sets, cfg.pickleball);
  }

  /** Every kept player of a match with two sides is last active on its date,
      counted or not; every other name keeps its date. */
  lemma LastActive(b: Book, m: Match, cfg: Config, p: string)
    requires Side(m.team1) != [] && Side(m.team2) != []
    ensures var la := StepMatch(b, m, cfg).lastActive;
            (p in Side(m.team1) || p in Side(m.team2) ==> p in la && la[p] == m.date) &&
            (p !in Side(m.team1) && p !in Side(m.team2) ==> Same(b.lastActive, la, p))
  {
    var t1, t2 := Side(m.team1), Side(m.team2);
    StepDates(b, m, cfg);
    assert p in t1 + t2 <==> p in t1 || p in t2;
    DatedAt(b.lastActive, t1 + t2, m.date, p);
  }

  /** A match with two sides sets the last-active dates with one pass over
      both sides, whatever else it does. */
  lemma StepDates(b: Book, m: Match, cfg: Config)
    requires Side(m.team1) != [] && Side(m.team2) != []
    ensures StepMatch(b, m, cfg).lastActive == ForEach(b.lastActive, Side(m.team1) + Side(m.team2), 0, SetTo(m.date))
  {
    var t1, t2, s := Side(m.team1), Side(m.team2), ScoredOf(m, cfg);
    var b1 := b.(lastActive := ForEach(b.lastActive, t1 + t2, 0, SetTo(m.date)));
    if s.games1 + s.games2 > 0 {
      CountedDates(b1, t1, t2, s, DeltasOf(b1.elo, b1.utr, t1, t2, s, cfg), cfg);
    }
  }

  lemma CountedDates(b: Book, t1: seq<string>, t2: seq<string>, s: Scored, d: Deltas, cfg: Config)
    ensures Counted(b, t1, t2, s, d, cfg).lastActive == b.lastActive
  {
  }

  /** One pass setting the date of every name of `ps`. */
  lemma DatedAt(la: map<string, int>, ps: seq<string>, date: int, p: string)
    ensures var la' := ForEach(la, ps, 0, SetTo(date));
            (p in ps ==> p in la' && la'[p] == date) && (p !in ps ==> Same(la, la', p))
  {
    ForEachAt(la, ps, 0, SetTo(date), p);
    ForEachKeys(la, ps, 0, SetTo(date));
    CountPositive(ps, p);
    if p in ps {
      IterateSet(date, Count(ps, p), Get(la, p, 0));
    }
  }

  /** Two passes over sides that do not hold `p` leave its entry as it was. */
  lemma Untouched<V>(m: map<string, V>, t1: seq<string>, t2: seq<string>, dflt: V, f1: V -> V, f2: V -> V, p: string)
    requires p !in t1 && p !in t2
    ensures Same(m, ForEach(ForEach(m, t1, dflt, f1), t2, dflt, f2), p)
  {
    PassesAt(m, t1, t2, dflt, f1, f2, p);
    CountPositive(t1, p);
    CountPositive(t2, p);
  }

  /** A name on neither side of a match keeps its counters, streak, history,
      last-active date, ratings and recorded change. */
  lemma Bystander(b: Book, h: map<string, seq<Outcome>>, m: Match, cfg: Config, p: string)
    requires p !in Side(m.team1) && p !in Side(m.team2)
    ensures var b' := StepMatch(b, m, cfg);
            && Same(b.stats, b'.stats, p) && Same(b.streaks, b'.streaks, p)
            && Same(b.lastActive, b'.lastActive, p) && Same(b.elo, b'.elo, p)
            && Same(b.utr, b'.utr, p) && Same(b.lastChange, b'.lastChange, p)
            && Same(h, StepHistory(h, m, cfg), p)
  {
    if IsCounted(m, cfg) {
      var t1, t2, s := Side(m.team1), Side(m.team2), ScoredOf(m, cfg);
      LastActive(b, m, cfg, p);
      DeltasBefore(b, m, cfg);
      var la := StepMatch(b, m, cfg).lastActive;
      CountedBystander(b.(lastActive := la), h, t1, t2, s, DeltasOf(b.elo, b.utr, t1, t2, s, cfg), cfg, p);
      assert StepHistory(h, m, cfg) == HistoryAfter(h, t1, t2, s);
    } else {
      SkippedMatch(b, h, m, cfg);
      if Side(m.team1) != [] && Side(m.team2) != [] {
        LastActive(b, m, cfg, p);
      }
    }
  }

  lemma CountedBystander(b: Book, h: map<string, seq<Outcome>>, t1: seq<string>, t2: seq<string>, s: Scored,
                         d: Deltas, cfg: Config, p: string)
    requires p !in t1 && p !in t2
    ensures var b' := Counted(b, t1, t2, s, d, cfg);
            && Same(b.stats, b'.stats, p) && Same(b.streaks, b'.streaks, p)
            && Same(b.elo, b'.elo, p) && Same(b.utr, b'.utr, p) && Same(b.lastChange, b'.lastChange, p)
            && Same(h, HistoryAfter(h, t1, t2, s), p)
  {
    var o1, o2 := Outcome1(s), Outcome2(s);
    Untouched(b.stats, t1, t2, Blank, RecordWith(o1, cfg.ptsWin, cfg.ptsLoss), RecordWith(o2, cfg.ptsWin, cfg.ptsLoss), p);
    Untouched(b.streaks, t1, t2, 0, StepWith(o1.won), StepWith(o2.won), p);
    Untouched(b.elo, t1, t2, EloDefault, AddTo(d.elo1), AddTo(d.elo2), p);
    Untouched(b.utr, t1, t2, UtrDefault, AddClamped(d.utr1), AddClamped(d.utr2), p);
    Untouched(b.lastChange, t1, t2, 0.0, SetTo(Round(d.elo1, 1)), SetTo(Round(d.elo2, 1)), p);
    Untouched(h, t1, t2, [], Append(o1), Append(o2), p);
  }

  /** The changes of a counted match are computed from the ratings before
      it: updating the last-active dates first does not affect them. */
  lemma DeltasBefore(b: Book, m: Match, cfg: Config)
    requires IsCounted(m, cfg)
    ensures var t1, t2 := Side(m.team1), Side(m.team2);
            StepMatch(b, m, cfg) == Counted(b.(lastActive := StepMatch(b, m, cfg).lastActive), t1, t2,
                                            ScoredOf(m, cfg), DeltasOf(b.elo, b.utr, t1, t2, ScoredOf(m, cfg), cfg), cfg)
  {
  }

  /** `update_elo` for a counted match: each occurrence of a player on a side
      adds that side's change to the rating, and the recorded last change is
      the rounded change of the side that updated the player last. */
  lemma CountedElo(b: Book, m: Match, cfg: Config, p: string)
    requires IsCounted(m, cfg)
    ensures var t1, t2, s := Side(m.team1), Side(m.team2), ScoredOf(m, cfg);
            var d := DeltasOf(b.elo, b.utr, t1, t2, s, cfg);
            var b' := StepMatch(b, m, cfg);
            && Get(b'.elo, p, EloDefault) == Get(b.elo, p, EloDefault) + Times(Count(t1, p), d.elo1) + Times(Count(t2, p), d.elo2)
            && (p in t2 ==> p in b'.lastChange && b'.lastChange[p] == Round(d.elo2, 1))
            && (p in t1 && p !in t2 ==> p in b'.lastChange && b'.lastChange[p] == Round(d.elo1, 1))
  {
    var t1, t2, s := Side(m.team1), Side(m.team2), ScoredOf(m, cfg);
    DeltasBefore(b, m, cfg);
    EloPasses(b.elo, b.lastChange, t1, t2, DeltasOf(b.elo, b.utr, t1, t2, s, cfg), p);
  }

  lemma EloPasses(elo: map<string, real>, lastChange: map<string, real>, t1: seq<string>, t2: seq<string>, d: Deltas, p: string)
    ensures var e' := ForEach(ForEach(elo, t1, EloDefault, AddTo(d.elo1)), t2, EloDefault, AddTo(d.elo2));
            var c' := ForEach(ForEach(lastChange, t1, 0.0, SetTo(Round(d.elo1, 1))), t2, 0.0, SetTo(Round(d.elo2, 1)));
            && Get(e', p, EloDefault) == Get(elo, p, EloDefault) + Times(Count(t1, p), d.elo1) + Times(Count(t2, p), d.elo2)
            && (p in t2 ==> p in c' && c'[p] == Round(d.elo2, 1))
            && (p in t1 && p !in t2 ==> p in c' && c'[p] == Round(d.elo1, 1))
  {
    EloShift(elo, t1, t2, d.elo1, d.elo2, p);
    var r1, r2 := Round(d.elo1, 1), Round(d.elo2, 1);
    PassesAt(lastChange, t1, t2, 0.0, SetTo(r1), SetTo(r2), p);
    CountPositive(t1, p);
    CountPositive(t2, p);
    var c0 := Get(lastChange, p, 0.0);
    if p in t2 {
      IterateSet(r2, Count(t2, p), Iterate(SetTo(r1), Count(t1, p), c0));
    } else if p in t1 {
      IterateSet(r1, Count(t1, p), c0);
    }
  }

  /** Each occurrence of `p` on a side adds that side's change once. */
  lemma EloShift(elo: map<string, real>, t1: seq<string>, t2: seq<string>, d1: real, d2: real, p: string)
    ensures Get(ForEach(ForEach(elo, t1, EloDefault, AddTo(d1)), t2, EloDefault, AddTo(d2)), p, EloDefault)
            == Get(elo, p, EloDefault) + Times(Count(t1, p), d1) + Times(Count(t2, p), d2)
  {
    var x0 := Get(elo, p, EloDefault);
    PassesAt(elo, t1, t2, EloDefault, AddTo(d1), AddTo(d2), p);
    IterateAdd(d1, Count(t1, p), x0);
    IterateAdd(d2, Count(t2, p), Iterate(AddTo(d1), Count(t1, p), x0));
  }

  /** Every player of a counted match ends it with a UTR within the clamp. */
  lemma CountedUtr(b: Book, m: Match, cfg: Config, p: string)
    requires IsCounted(m, cfg)
    requires p in Side(m.team1) || p in Side(m.team2)
    ensures p in StepMatch(b, m, cfg).utr && UtrMin <= StepMatch(b, m, cfg).utr[p] <= UtrMax
  {
    var t1, t2, s := Side(m.team1), Side(m.team2), ScoredOf(m, cfg);
    DeltasBefore(b, m, cfg);
    CountedUtrAt(b.(lastActive := StepMatch(b, m, cfg).lastActive), t1, t2, s, DeltasOf(b.elo, b.utr, t1, t2, s, cfg), cfg, p);
  }

  /** `update_utr`: a player who occurs once, on one side, moves by that
      side's change and is then clamped to the UTR range; every player of
      the match ends within the range. */
  lemma CountedUtrAt(b: Book, t1: seq<string>, t2: seq<string>, s: Scored, d: Deltas, cfg: Config, p: string)
    ensures var u' := Counted(b, t1, t2, s, d, cfg).utr;
            && (p in t1 || p in t2 ==> p in u' && UtrMin <= u'[p] <= UtrMax)
            && (Count(t1, p) == 1 && p !in t2 ==> p in u' && u'[p] == Clamp(Get(b.utr, p, UtrDefault) + d.utr1))
            && (Count(t2, p) == 1 && p !in t1 ==> p in u' && u'[p] == Clamp(Get(b.utr, p, UtrDefault) + d.utr2))
  {
    UtrPasses(b.utr, t1, t2, d, p);
  }

  lemma UtrPasses(utr: map<string, real>, t1: seq<string>, t2: seq<string>, d: Deltas, p: string)
    ensures var u' := ForEach(ForEach(utr, t1, UtrDefault, AddClamped(d.utr1)), t2, UtrDefault, AddClamped(d.utr2));
            && (p in t1 || p in t2 ==> p in u' && UtrMin <= u'[p] <= UtrMax)
            && (Count(t1, p) == 1 && p !in t2 ==> p in u' && u'[p] == Clamp(Get(utr, p, UtrDefault) + d.utr1))
            && (Count(t2, p) == 1 && p !in t1 ==> p in u' && u'[p] == Clamp(Get(utr, p, UtrDefault) + d.utr2))
  {
    if p in t1 || p in t2 {
      SidesClamp(utr, t1, t2, d.utr1, d.utr2, p);
    }
    if Count(t1, p) == 1 && p !in t2 {
      UtrOnce(utr, t1, t2, d.utr1, d.utr2, p, true);
    }
    if Count(t2, p) == 1 && p !in t1 {
      UtrOnce(utr, t1, t2, d.utr1, d.utr2, p, false);
    }
  }

  /** A player who occurs once, on side one (`first`) or side two, and not on
      the other side, is moved by that side's change and clamped. */
  lemma UtrOnce(utr: map<string, real>, t1: seq<string>, t2: seq<string>, d1: real, d2: real, p: string, first: bool)
    requires if first then Count(t1, p) == 1 && p !in t2 else Count(t2, p) == 1 && p !in t1
    ensures var u' := ForEach(ForEach(utr, t1, UtrDefault, AddClamped(d1)), t2, UtrDefault, AddClamped(d2));
            p in u' && u'[p] == Clamp(Get(utr, p, UtrDefault) + if first then d1 else d2)
  {
    var x0 := Get(utr, p, UtrDefault);
    PassesAt(utr, t1, t2, UtrDefault, AddClamped(d1), AddClamped(d2), p);
    CountPositive(t1, p);
    CountPositive(t2, p);
    var x1 := Iterate(AddClamped(d1), Count(t1, p), x0);
    if first {
      assert x1 == AddClamped(d1)(Iterate(AddClamped(d1), 0, x0));
      assert Iterate(AddClamped(d2), Count(t2, p), x1) == x1;
    } else {
      assert x1 == x0;
      assert Iterate(AddClamped(d2), Count(t2, p), x1) == AddClamped(d2)(Iterate(AddClamped(d2), 0, x1));
    }
  }

  /** The two sides of a counted match: exactly one wins, their game
      differences cancel and their games add up to the match's games. */
  lemma OutcomesOpposite(s: Scored)
    ensures Outcome1(s).won != Outcome2(s).won && Outcome1(s).won == s.won1
    ensures Outcome1(s).gd == -Outcome2(s).gd
    ensures Outcome1(s).games + Outcome2(s).games == s.games1 + s.games2
    ensures Outcome1(s).clutch == Outcome2(s).clutch == s.clutch
  {
  }

  /** With an expectation curve symmetric about one half, as `1 / (1 + 10 ** x)`
      is, the two sides' Elo changes cancel. */
  lemma EloZeroSum(b: Book, t1: seq<string>, t2: seq<string>, s: Scored, cfg: Config)
    requires t1 != [] && t2 != [] && s.games1 + s.games2 > 0
    requires forall x :: cfg.eloExpected(x) + cfg.eloExpected(-x) == 1.0
    ensures DeltasOf(b.elo, b.utr, t1, t2, s, cfg).elo1 == -DeltasOf(b.elo, b.utr, t1, t2, s, cfg).elo2
  {
    var e1, e2 := Mean(b.elo, t1, EloDefault), Mean(b.elo, t2, EloDefault);
    var x := (e2 - e1) / 400.0;
    assert (e1 - e2) / 400.0 == -x;
    assert cfg.eloExpected(x) + cfg.eloExpected(-x) == 1.0;
  }

  /** With expectations between zero and one, the winners gain between 0 and
      `K_FACTOR` points and the losers lose between 0 and `K_FACTOR`. */
  lemma EloBounds(b: Book, t1: seq<string>, t2: seq<string>, s: Scored, cfg: Config)
    requires t1 != [] && t2 != [] && s.games1 + s.games2 > 0
    requires forall x :: 0.0 <= cfg.eloExpected(x) <= 1.0
    ensures var d := DeltasOf(b.elo, b.utr, t1, t2, s, cfg);
            var (win, loss) := if s.won1 then (d.elo1, d.elo2) else (d.elo2, d.elo1);
            0.0 <= win <= KFactor && -KFactor <= loss <= 0.0
  {
    var e1, e2 := Mean(b.elo, t1, EloDefault), Mean(b.elo, t2, EloDefault);
    var x1, x2 := (e2 - e1) / 400.0, (e1 - e2) / 400.0;
    assert 0.0 <= cfg.eloExpected(x1) <= 1.0;
    assert 0.0 <= cfg.eloExpected(x2) <= 1.0;
  }

  /** With a logistic curve symmetric about one half, as `1 / (1 + exp(-y))`
      is, the two sides' UTR changes cancel: their game shares add up to one. */
  lemma UtrZeroSum(b: Book, t1: seq<string>, t2: seq<string>, s: Scored, cfg: Config)
    requires t1 != [] && t2 != [] && s.games1 + s.games2 > 0
    requires forall y :: cfg.utrExpected(y) + cfg.utrExpected(-y) == 1.0
    ensures DeltasOf(b.elo, b.utr, t1, t2, s, cfg).utr1 == -DeltasOf(b.elo, b.utr, t1, t2, s, cfg).utr2
  {
    var u1, u2 := Mean(b.utr, t1, UtrDefault), Mean(b.utr, t2, UtrDefault);
    var total := (s.games1 + s.games2) as real;
    SharesSum(s.games1, s.games2);
    UtrDeltaOpposite(cfg, u1, u2, s.games1 as real / total, s.games2 as real / total);
  }

  /** The two sides' shares of the games add up to one. */
  lemma SharesSum(g1: nat, g2: nat)
    requires g1 + g2 > 0
    ensures g1 as real / (g1 + g2) as real + g2 as real / (g1 + g2) as real == 1.0
  {
    var total := (g1 + g2) as real;
    assert g1 as real / total + g2 as real / total == (g1 as real + g2 as real) / total;
  }

  lemma UtrDeltaOpposite(cfg: Config, u1: real, u2: real, a1: real, a2: real)
    requires a1 + a2 == 1.0
    requires forall y :: cfg.utrExpected(y) + cfg.utrExpected(-y) == 1.0
    ensures UtrDelta(cfg, u1, u2, a1) == -UtrDelta(cfg, u2, u1, a2)
  {
    var y := (u1 - u2) / UtrScale;
    assert (u2 - u1) / UtrScale == -y;
    assert cfg.utrExpected(y) + cfg.utrExpected(-y) == 1.0;
  }

  /** With expectations between zero and one, no side's UTR moves by more
      than `UTR_K_FACTOR` in one match (before clamping). */
  lemma UtrBounds(b: Book, t1: seq<string>, t2: seq<string>, s: Scored, cfg: Config)
    requires t1 != [] && t2 != [] && s.games1 + s.games2 > 0
    requires forall y :: 0.0 <= cfg.utrExpected(y) <= 1.0
    ensures var d := DeltasOf(b.elo, b.utr, t1, t2, s, cfg);
            -UtrK <= d.utr1 <= UtrK && -UtrK <= d.utr2 <= UtrK
  {
    var u1, u2 := Mean(b.utr, t1, UtrDefault), Mean(b.utr, t2, UtrDefault);
    var y1, y2 := (u1 - u2) / UtrScale, (u2 - u1) / UtrScale;
    assert 0.0 <= cfg.utrExpected(y1) <= 1.0;
    assert 0.0 <= cfg.utrExpected(y2) <= 1.0;
    var g1, g2, total := s.games1 as real, s.games2 as real, (s.games1 + s.games2) as real;
    assert 0.0 <= g1 / total <= 1.0 && 0.0 <= g2 / total <= 1.0;
  }
}
