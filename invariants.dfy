/** What the fold of `calculate_rankings` keeps true after every match, and
    what one match does and does not change. */
module Invariants {
  import opened Text
  import opened Scores
  import opened Dicts
  import opened Stats
  import opened Rounding
  import opened Book

  /** The dictionaries agree with one another and with the players' histories:
      the counters and streaks match each player's outcomes, every player
      with stats has played, holds a UTR within the clamp and has an Elo, a
      recorded change and a last-active date; `order` lists the players with
      stats once each, in the order they were first counted. */
  predicate BookOk(b: Book, h: map<string, seq<Outcome>>, cfg: Config) {
    OrderOk(b) && KeysOk(b, h) && PlayersOk(b, h, cfg)
  }

  predicate OrderOk(b: Book) {
    NoDuplicates(b.order) && (set p | p in b.order) == b.stats.Keys
  }

  predicate KeysOk(b: Book, h: map<string, seq<Outcome>>) {
    b.streaks.Keys == b.stats.Keys && h.Keys == b.stats.Keys && b.lastChange.Keys == b.stats.Keys
  }

  predicate PlayersOk(b: Book, h: map<string, seq<Outcome>>, cfg: Config) {
    forall p :: p in b.stats ==>
      && p in b.streaks && p in h
      && Agrees(b.stats[p], b.streaks[p], h[p], cfg.ptsWin, cfg.ptsLoss)
      && b.stats[p].matches > 0
      && p in b.utr && UtrMin <= b.utr[p] <= UtrMax
      && p in b.lastActive && p in b.elo
  }

  lemma SeededOk(roster: seq<Player>, cfg: Config)
    ensures BookOk(Seeded(roster), map[], cfg)
  {
    var none: seq<string> := [];
    assert (set p | p in none) == {};
  }

  lemma {:induction false} IterateAgrees(s: PlayerStats, st: int, hh: seq<Outcome>, o: Outcome, n: nat, pw: int, pl: int)
    requires Agrees(s, st, hh, pw, pl)
    ensures Agrees(Iterate(RecordWith(o, pw, pl), n, s), Iterate(StepWith(o.won), n, st), Iterate(Append(o), n, hh), pw, pl)
    ensures |Iterate(Append(o), n, hh)| == |hh| + n
  {
    if n > 0 {
      IterateAgrees(s, st, hh, o, n - 1, pw, pl);
      RecordAgrees(Iterate(RecordWith(o, pw, pl), n - 1, s), Iterate(StepWith(o.won), n - 1, st),
                   Iterate(Append(o), n - 1, hh), o, pw, pl);
    }
  }

  lemma {:induction false} IterateClamped(d: real, n: nat, x: real)
    requires n > 0 || UtrMin <= x <= UtrMax
    ensures UtrMin <= Iterate(AddClamped(d), n, x) <= UtrMax
  {
    if n > 0 {
      var y := Iterate(AddClamped(d), n - 1, x);
      assert Iterate(AddClamped(d), n, x) == Clamp(y + d);
    }
  }

  /** `n` copies of `d` added up. */
  function Times(n: nat, d: real): real {
    if n == 0 then 0.0 else Times(n - 1, d) + d
  }

  lemma {:induction false} TimesProduct(n: nat, d: real)
    ensures Times(n, d) == n as real * d
  {
    if n > 0 {
      TimesProduct(n - 1, d);
    }
  }

  /** Adding the same change `n` times adds `n` times the change. */
  lemma {:induction false} IterateAdd(d: real, n: nat, x: real)
    ensures Iterate(AddTo(d), n, x) == x + Times(n, d)
  {
    if n > 0 {
      IterateAdd(d, n - 1, x);
    }
  }

  lemma IterateSet<V>(v: V, n: nat, x: V)
    requires n > 0
    ensures Iterate(SetTo(v), n, x) == v
  {
  }

  /** Two passes, one per side: the entry of `p` afterwards, and whether it has one. */
  lemma PassesAt<V>(m: map<string, V>, t1: seq<string>, t2: seq<string>, dflt: V, f1: V -> V, f2: V -> V, p: string)
    ensures var r := ForEach(ForEach(m, t1, dflt, f1), t2, dflt, f2);
            Get(r, p, dflt) == Iterate(f2, Count(t2, p), Iterate(f1, Count(t1, p), Get(m, p, dflt))) &&
            (p in r <==> p in m || p in t1 || p in t2)
  {
    var m1 := ForEach(m, t1, dflt, f1);
    ForEachAt(m, t1, dflt, f1, p);
    ForEachAt(m1, t2, dflt, f2, p);
    ForEachKeys(m, t1, dflt, f1);
    ForEachKeys(m1, t2, dflt, f2);
  }

  /** What the two sides' `update_common_stats` passes leave in the counters,
      streak and history of `p`: still in agreement, with one match more per
      occurrence of `p` in the match. */
  lemma SidesAgree(stats: map<string, PlayerStats>, streaks: map<string, int>, h: map<string, seq<Outcome>>,
                   t1: seq<string>, t2: seq<string>, o1: Outcome, o2: Outcome, pw: int, pl: int, p: string)
    requires Agrees(Get(stats, p, Blank), Get(streaks, p, 0), Get(h, p, []), pw, pl)
    ensures var s' := ForEach(ForEach(stats, t1, Blank, RecordWith(o1, pw, pl)), t2, Blank, RecordWith(o2, pw, pl));
            var k' := ForEach(ForEach(streaks, t1, 0, StepWith(o1.won)), t2, 0, StepWith(o2.won));
            var h' := ForEach(ForEach(h, t1, [], Append(o1)), t2, [], Append(o2));
            Agrees(Get(s', p, Blank), Get(k', p, 0), Get(h', p, []), pw, pl) &&
            Get(s', p, Blank).matches == Get(stats, p, Blank).matches + Count(t1, p) + Count(t2, p)
  {
    var c1, c2 := Count(t1, p), Count(t2, p);
    PassesAt(stats, t1, t2, Blank, RecordWith(o1, pw, pl), RecordWith(o2, pw, pl), p);
    PassesAt(streaks, t1, t2, 0, StepWith(o1.won), StepWith(o2.won), p);
    PassesAt(h, t1, t2, [], Append(o1), Append(o2), p);
    var s0, st0, hh0 := Get(stats, p, Blank), Get(streaks, p, 0), Get(h, p, []);
    IterateAgrees(s0, st0, hh0, o1, c1, pw, pl);
    var s1, st1, hh1 := Iterate(RecordWith(o1, pw, pl), c1, s0), Iterate(StepWith(o1.won), c1, st0), Iterate(Append(o1), c1, hh0);
    IterateAgrees(s1, st1, hh1, o2, c2, pw, pl);
  }

  /** After the two sides' UTR passes, every player of the match, and every
      player whose UTR was already within the clamp, is within the clamp. */
  lemma SidesClamp(utr: map<string, real>, t1: seq<string>, t2: seq<string>, d1: real, d2: real, p: string)
    requires (p in utr && UtrMin <= utr[p] <= UtrMax) || p in t1 || p in t2
    ensures var u' := ForEach(ForEach(utr, t1, UtrDefault, AddClamped(d1)), t2, UtrDefault, AddClamped(d2));
            p in u' && UtrMin <= u'[p] <= UtrMax
  {
    PassesAt(utr, t1, t2, UtrDefault, AddClamped(d1), AddClamped(d2), p);
    CountPositive(t1, p);
    CountPositive(t2, p);
    var x0 := Get(utr, p, UtrDefault);
    var c1 := Count(t1, p);
    if c1 > 0 || UtrMin <= x0 <= UtrMax {
      IterateClamped(d1, c1, x0);
    }
    IterateClamped(d2, Count(t2, p), Iterate(AddClamped(d1), c1, x0));
  }

  lemma TwoPassKeys<V>(m: map<string, V>, t1: seq<string>, t2: seq<string>, dflt: V, f1: V -> V, f2: V -> V)
    ensures ForEach(ForEach(m, t1, dflt, f1), t2, dflt, f2).Keys == m.Keys + (set p | p in t1) + (set p | p in t2)
  {
    ForEachKeys(m, t1, dflt, f1);
    ForEachKeys(ForEach(m, t1, dflt, f1), t2, dflt, f2);
  }

  lemma CountedKeys(b: Book, h: map<string, seq<Outcome>>, t1: seq<string>, t2: seq<string>, s: Scored,
                    d: Deltas, cfg: Config)
    requires KeysOk(b, h)
    ensures var b' := Counted(b, t1, t2, s, d, cfg);
            KeysOk(b', HistoryAfter(h, t1, t2, s)) &&
            b'.stats.Keys == b.stats.Keys + (set p | p in t1) + (set p | p in t2)
  {
    var o1, o2 := Outcome1(s), Outcome2(s);
    TwoPassKeys(b.stats, t1, t2, Blank, RecordWith(o1, cfg.ptsWin, cfg.ptsLoss), RecordWith(o2, cfg.ptsWin, cfg.ptsLoss));
    TwoPassKeys(b.streaks, t1, t2, 0, StepWith(o1.won), StepWith(o2.won));
    TwoPassKeys(h, t1, t2, [], Append(o1), Append(o2));
    TwoPassKeys(b.lastChange, t1, t2, 0.0, SetTo(Round(d.elo1, 1)), SetTo(Round(d.elo2, 1)));
  }

  lemma CountedOrder(b: Book, t1: seq<string>, t2: seq<string>, s: Scored, d: Deltas, cfg: Config)
    requires OrderOk(b)
    ensures OrderOk(Counted(b, t1, t2, s, d, cfg))
  {
    var o1, o2 := Outcome1(s), Outcome2(s);
    TwoPassKeys(b.stats, t1, t2, Blank, RecordWith(o1, cfg.ptsWin, cfg.ptsLoss), RecordWith(o2, cfg.ptsWin, cfg.ptsLoss));
    EnrollProps(b.order, t1);
    EnrollProps(Enroll(b.order, t1), t2);
  }

  lemma CountedPlayers(b: Book, h: map<string, seq<Outcome>>, t1: seq<string>, t2: seq<string>, s: Scored,
                       d: Deltas, cfg: Config)
    requires PlayersOk(b, h, cfg) && KeysOk(b, h)
    requires forall p :: p in t1 || p in t2 ==> p in b.lastActive
    ensures PlayersOk(Counted(b, t1, t2, s, d, cfg), HistoryAfter(h, t1, t2, s), cfg)
  {
    var b' := Counted(b, t1, t2, s, d, cfg);
    var h' := HistoryAfter(h, t1, t2, s);
    var o1, o2 := Outcome1(s), Outcome2(s);
    var pw, pl := cfg.ptsWin, cfg.ptsLoss;
    forall p | p in b'.stats
      ensures p in b'.streaks && p in h'
      ensures Agrees(b'.stats[p], b'.streaks[p], h'[p], pw, pl) && b'.stats[p].matches > 0
      ensures p in b'.utr && UtrMin <= b'.utr[p] <= UtrMax
      ensures p in b'.lastActive && p in b'.elo
    {
      PassesAt(b.stats, t1, t2, Blank, RecordWith(o1, pw, pl), RecordWith(o2, pw, pl), p);
      CountedPlayer(b, h, t1, t2, s, d, cfg, p);
    }
  }

  lemma CountedPlayer(b: Book, h: map<string, seq<Outcome>>, t1: seq<string>, t2: seq<string>, s: Scored,
                      d: Deltas, cfg: Config, p: string)
    requires p in b.stats ==> p in b.streaks && p in h && Agrees(b.stats[p], b.streaks[p], h[p], cfg.ptsWin, cfg.ptsLoss)
    requires p in b.stats ==> p in b.utr && UtrMin <= b.utr[p] <= UtrMax && b.stats[p].matches > 0 && p in b.elo
    requires p !in b.stats ==> p !in b.streaks && p !in h
    requires p in b.stats || p in t1 || p in t2
    ensures p in Counted(b, t1, t2, s, d, cfg).stats && p in Counted(b, t1, t2, s, d, cfg).streaks
    ensures p in HistoryAfter(h, t1, t2, s)
    ensures Agrees(Counted(b, t1, t2, s, d, cfg).stats[p], Counted(b, t1, t2, s, d, cfg).streaks[p],
                   HistoryAfter(h, t1, t2, s)[p], cfg.ptsWin, cfg.ptsLoss)
    ensures Counted(b, t1, t2, s, d, cfg).stats[p].matches > 0
    ensures p in Counted(b, t1, t2, s, d, cfg).utr
    ensures UtrMin <= Counted(b, t1, t2, s, d, cfg).utr[p] <= UtrMax
    ensures p in Counted(b, t1, t2, s, d, cfg).elo
  {
    var o1, o2 := Outcome1(s), Outcome2(s);
    var pw, pl := cfg.ptsWin, cfg.ptsLoss;
    var b' := Counted(b, t1, t2, s, d, cfg);
    var s', k' := b'.stats, b'.streaks;
    var h' := HistoryAfter(h, t1, t2, s);
    assert s' == ForEach(ForEach(b.stats, t1, Blank, RecordWith(o1, pw, pl)), t2, Blank, RecordWith(o2, pw, pl));
    assert k' == ForEach(ForEach(b.streaks, t1, 0, StepWith(o1.won)), t2, 0, StepWith(o2.won));
    assert h' == ForEach(ForEach(h, t1, [], Append(o1)), t2, [], Append(o2));
    PlayerAgrees(b.stats, b.streaks, h, t1, t2, o1, o2, pw, pl, p);
    CountedRatings(b, t1, t2, s, d, cfg, p);
  }

  lemma CountedRatings(b: Book, t1: seq<string>, t2: seq<string>, s: Scored, d: Deltas, cfg: Config, p: string)
    requires p in b.stats ==> p in b.utr && UtrMin <= b.utr[p] <= UtrMax && p in b.elo
    requires p in b.stats || p in t1 || p in t2
    ensures p in Counted(b, t1, t2, s, d, cfg).utr
    ensures UtrMin <= Counted(b, t1, t2, s, d, cfg).utr[p] <= UtrMax
    ensures p in Counted(b, t1, t2, s, d, cfg).elo
  {
    var b' := Counted(b, t1, t2, s, d, cfg);
    assert b'.elo == ForEach(ForEach(b.elo, t1, EloDefault, AddTo(d.elo1)), t2, EloDefault, AddTo(d.elo2));
    assert b'.utr == ForEach(ForEach(b.utr, t1, UtrDefault, AddClamped(d.utr1)), t2, UtrDefault, AddClamped(d.utr2));
    PassesAt(b.elo, t1, t2, EloDefault, AddTo(d.elo1), AddTo(d.elo2), p);
    SidesClamp(b.utr, t1, t2, d.utr1, d.utr2, p);
  }

  lemma PlayerAgrees(stats: map<string, PlayerStats>, streaks: map<string, int>, h: map<string, seq<Outcome>>,
                     t1: seq<string>, t2: seq<string>, o1: Outcome, o2: Outcome, pw: int, pl: int, p: string)
    requires p in stats ==> p in streaks && p in h && Agrees(stats[p], streaks[p], h[p], pw, pl) && stats[p].matches > 0
    requires p !in stats ==> p !in streaks && p !in h
    requires p in stats || p in t1 || p in t2
    ensures var s' := ForEach(ForEach(stats, t1, Blank, RecordWith(o1, pw, pl)), t2, Blank, RecordWith(o2, pw, pl));
            var k' := ForEach(ForEach(streaks, t1, 0, StepWith(o1.won)), t2, 0, StepWith(o2.won));
            var h' := ForEach(ForEach(h, t1, [], Append(o1)), t2, [], Append(o2));
            p in s' && p in k' && p in h' && Agrees(s'[p], k'[p], h'[p], pw, pl) && s'[p].matches > 0
  {
    PassesAt(stats, t1, t2, Blank, RecordWith(o1, pw, pl), RecordWith(o2, pw, pl), p);
    PassesAt(streaks, t1, t2, 0, StepWith(o1.won), StepWith(o2.won), p);
    PassesAt(h, t1, t2, [], Append(o1), Append(o2), p);
    if p !in stats { BlankAgrees(Get(h, p, []), pw, pl); }
    SidesAgree(stats, streaks, h, t1, t2, o1, o2, pw, pl, p);
    var s' := ForEach(ForEach(stats, t1, Blank, RecordWith(o1, pw, pl)), t2, Blank, RecordWith(o2, pw, pl));
    var before, c1, c2 := Get(stats, p, Blank).matches, Count(t1, p), Count(t2, p);
    assert Get(s', p, Blank).matches == before + c1 + c2;
    if p !in stats {
      CountPositive(t1, p);
      CountPositive(t2, p);
      assert c1 + c2 > 0;
    }
  }

  /** A counted match keeps the invariant. */
  lemma CountedOk(b: Book, h: map<string, seq<Outcome>>, t1: seq<string>, t2: seq<string>, s: Scored,
                  d: Deltas, cfg: Config)
    requires BookOk(b, h, cfg)
    requires forall p :: p in t1 || p in t2 ==> p in b.lastActive
    ensures BookOk(Counted(b, t1, t2, s, d, cfg), HistoryAfter(h, t1, t2, s), cfg)
  {
    CountedKeys(b, h, t1, t2, s, d, cfg);
    CountedOrder(b, t1, t2, s, d, cfg);
    CountedPlayers(b, h, t1, t2, s, d, cfg);
  }

  /** Every match keeps the invariant, whether it is skipped or counted. */
  lemma StepOk(b: Book, h: map<string, seq<Outcome>>, m: Match, cfg: Config)
    requires BookOk(b, h, cfg)
    ensures BookOk(StepMatch(b, m, cfg), StepHistory(h, m, cfg), cfg)
  {
    var t1, t2 := Side(m.team1), Side(m.team2);
    if t1 != [] && t2 != [] {
      var b1 := b.(lastActive := ForEach(b.lastActive, t1 + t2, 0, SetTo(m.date)));
      ForEachKeys(b.lastActive, t1 + t2, 0, SetTo(m.date));
      assert BookOk(b1, h, cfg);
      var s := ScoredOf(m, cfg);
      if s.games1 + s.games2 != 0 {
        CountedOk(b1, h, t1, t2, s, DeltasOf(b1.elo, b1.utr, t1, t2, s, cfg), cfg);
      }
    }
  }

  /** The invariant holds after any prefix of the matches. */
  lemma {:induction false} FoldOk(b: Book, h: map<string, seq<Outcome>>, ms: seq<Match>, cfg: Config)
    requires BookOk(b, h, cfg)
    ensures BookOk(Fold(b, ms, cfg), FoldHistory(h, ms, cfg), cfg)
  {
    if ms != [] {
      FoldOk(b, h, ms[..|ms| - 1], cfg);
      StepOk(Fold(b, ms[..|ms| - 1], cfg), FoldHistory(h, ms[..|ms| - 1], cfg), ms[|ms| - 1], cfg);
    }
  }
}
