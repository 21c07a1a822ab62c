/** The dictionaries `calculate_rankings` keeps while it folds over the
    matches, as one value, and what one match does to them
    (patchmoint-tennis.py:654-796). */
module Book {
  import opened Text
  import opened Scores
  import opened Dicts
  import opened Stats
  import opened Rounding

  const KFactor: real := 32.0
  const EloDefault: real := 1200.0
  const UtrDefault: real := 4.0
  const UtrK: real := 0.05
  const UtrScale: real := 3.0
  const UtrMin: real := 1.0
  const UtrMax: real := 16.5

  /** The configuration the fold reads: `ptsWin` and `ptsLoss` are the
      chapter's `points_win` and `points_loss` (3 and 1 when unset). `eloExpected(x)` stands for
      `1 / (1 + 10 ** x)` and `utrExpected(y)` for `1 / (1 + exp(-y))`. */
  datatype Config = Config(ptsWin: int, ptsLoss: int, pickleball: bool,
                           eloExpected: real -> real, utrExpected: real -> real)


  /** A row of the matches table: the date (as an ordinal), the two player
      slots of each team, the set strings and the winner's label. */
  datatype Match = Match(date: int, team1: seq<string>, team2: seq<string>, sets: seq<string>,
                         winner: string, matchType: string)

  /** A row of the players table. */
  datatype Player = Player(name: string, initialUtr: Option<real>)

  datatype Book = Book(stats: map<string, PlayerStats>, order: seq<string>, streaks: map<string, int>,
                       lastActive: map<string, int>, elo: map<string, real>, utr: map<string, real>,
                       lastChange: map<string, real>)

  /** The Elo a roster entry starts with: mapped from its initial UTR, or the default. */
  function SeedElo(u: Option<real>): real {
    if u.Some? then (u.value - 4.0) * 110.0 + 1200.0 else EloDefault
  }

  function SeedUtr(u: Option<real>): real {
    if u.Some? then u.value else UtrDefault
  }

  /** The Elo and UTR dictionaries after the roster loop; a name listed twice
      keeps the later entry. */
  function SeededElo(roster: seq<Player>): map<string, real> {
    if roster == [] then map[]
    else SeededElo(roster[..|roster| - 1])[roster[|roster| - 1].name := SeedElo(roster[|roster| - 1].initialUtr)]
  }

  function SeededUtr(roster: seq<Player>): map<string, real> {
    if roster == [] then map[]
    else SeededUtr(roster[..|roster| - 1])[roster[|roster| - 1].name := SeedUtr(roster[|roster| - 1].initialUtr)]
  }

  /** The state before the first match. */
  function Seeded(roster: seq<Player>): Book {
    Book(map[], [], map[], map[], SeededElo(roster), SeededUtr(roster), map[])
  }

  /** A player slot that counts: not blank after stripping and not `VISITOR`
      in any letter case (the test is on the unstripped name). */
  predicate Keep(p: string) { Strip(p) != [] && Upper(p) != "VISITOR" }

  /** The list comprehension that builds `t1` and `t2`. */
  function Side(slots: seq<string>): (ps: seq<string>)
    ensures forall p :: p in ps <==> p in slots && Keep(p)
    ensures forall p :: Count(ps, p) == if Keep(p) then Count(slots, p) else 0
    ensures |ps| <= |slots|
  {
    if slots == [] then []
    else
      var init := Side(slots[..|slots| - 1]);
      var p := slots[|slots| - 1];
      assert slots == slots[..|slots| - 1] + [p];
      SideCountStep(slots, init, p);
      if Keep(p) then init + [p] else init
  }

  lemma SideCountStep(slots: seq<string>, init: seq<string>, p: string)
    requires slots != [] && p == slots[|slots| - 1]
    requires forall y :: Count(init, y) == if Keep(y) then Count(slots[..|slots| - 1], y) else 0
    ensures forall y :: Count(if Keep(p) then init + [p] else init, y) == if Keep(y) then Count(slots, y) else 0
  {
    var prev := slots[..|slots| - 1];
    assert slots == prev + [p];
    forall y ensures Count(if Keep(p) then init + [p] else init, y) == if Keep(y) then Count(slots, y) else 0 {
      SideCountAt(prev, init, p, y);
    }
  }

  lemma SideCountAt(prev: seq<string>, init: seq<string>, p: string, y: string)
    requires Count(init, y) == if Keep(y) then Count(prev, y) else 0
    ensures Count(if Keep(p) then init + [p] else init, y) == if Keep(y) then Count(prev + [p], y) else 0
  {
    var one := if p == y then 1 else 0;
    assert (prev + [p])[..|prev|] == prev;
    assert Count(prev + [p], y) == Count(prev, y) + one;
    if Keep(p) {
      assert (init + [p])[..|init|] == init;
      assert Count(init + [p], y) == Count(init, y) + one;
      if p == y { assert Keep(y); }
    }
  }

  /** The comprehension keeps the slots in their order: it works slot by slot. */
  lemma {:induction false} SideAppend(a: seq<string>, b: seq<string>)
    ensures Side(a + b) == Side(a) + Side(b)
    decreases |b|
  {
    if b == [] {
      assert a + b == a;
    } else {
      var b0, q := b[..|b| - 1], b[|b| - 1];
      assert (a + b)[..|a + b| - 1] == a + b0;
      assert (a + b)[|a + b| - 1] == q;
      SideAppend(a, b0);
    }
  }

  /** A single slot is kept exactly when it counts. */
  lemma SideSingle(p: string)
    ensures Side([p]) == if Keep(p) then [p] else []
  {
    assert [p][..0] == [];
  }

  function SumOf(m: map<string, real>, ps: seq<string>, dflt: real): real {
    if ps == [] then 0.0 else SumOf(m, ps[..|ps| - 1], dflt) + Get(m, ps[|ps| - 1], dflt)
  }

  /** `sum(d[p] for p in ps) / len(ps)`. */
  function Mean(m: map<string, real>, ps: seq<string>, dflt: real): real
    requires ps != []
  {
    SumOf(m, ps, dflt) / |ps| as real
  }

  function Clamp(x: real): real {
    if x < UtrMin then UtrMin else if x > UtrMax then UtrMax else x
  }

  /** `update_elo`'s change for a side. */
  function EloDelta(cfg: Config, own: real, opp: real, won: bool): real {
    KFactor * ((if won then 1.0 else 0.0) - cfg.eloExpected((opp - own) / 400.0))
  }

  /** `update_utr`'s change for a side that won the fraction `share` of the games. */
  function UtrDelta(cfg: Config, own: real, opp: real, share: real): real {
    UtrK * (share - cfg.utrExpected((own - opp) / UtrScale))
  }

  // The per-player updates of the three inner functions, as named functions so
  // that the same update is the same value wherever it is written.
  function RecordWith(o: Outcome, ptsWin: int, ptsLoss: int): PlayerStats -> PlayerStats {
    s => Record(s, o, ptsWin, ptsLoss)
  }
  function StepWith(won: bool): int -> int { s => Step(s, won) }
  function AddTo(delta: real): real -> real { x => x + delta }
  function AddClamped(delta: real): real -> real { x => Clamp(x + delta) }
  function SetTo<V>(v: V): V -> V { x => v }
  function Append(o: Outcome): seq<Outcome> -> seq<Outcome> { h => h + [o] }

  /** The games and clutch flag of a match, and who won it. */
  datatype Scored = Scored(games1: nat, games2: nat, clutch: bool, won1: bool)

  function ScoredOf(m: Match, cfg: Config): Scored {
    var t := TallySets(m.sets, cfg.pickleball);
    Scored(t.team1, t.team2, t.clutch, m.winner == "Team 1")
  }

  /** The two sides' outcomes; the total is positive for a counted match. */
  function Outcome1(s: Scored): Outcome { OutcomeOf(s.games1, s.games1 + s.games2, s.clutch, s.won1) }
  function Outcome2(s: Scored): Outcome { OutcomeOf(s.games2, s.games1 + s.games2, s.clutch, !s.won1) }

  /** The Elo and UTR changes of the two sides, all read from the ratings
      before the match. */
  datatype Deltas = Deltas(elo1: real, elo2: real, utr1: real, utr2: real)

  function DeltasOf(elo: map<string, real>, utr: map<string, real>, t1: seq<string>, t2: seq<string>, s: Scored, cfg: Config): Deltas
    requires t1 != [] && t2 != [] && s.games1 + s.games2 > 0
  {
    var e1, e2 := Mean(elo, t1, EloDefault), Mean(elo, t2, EloDefault);
    var u1, u2 := Mean(utr, t1, UtrDefault), Mean(utr, t2, UtrDefault);
    var total := (s.games1 + s.games2) as real;
    Deltas(EloDelta(cfg, e1, e2, s.won1), EloDelta(cfg, e2, e1, !s.won1),
           UtrDelta(cfg, u1, u2, s.games1 as real / total), UtrDelta(cfg, u2, u1, s.games2 as real / total))
  }

  /** The updates of a counted match: the common stats of both sides, then
      Elo and the recorded change, then UTR. */
  function Counted(b: Book, t1: seq<string>, t2: seq<string>, s: Scored, d: Deltas, cfg: Config): Book {
    var o1, o2 := Outcome1(s), Outcome2(s);
    Book(
      ForEach(ForEach(b.stats, t1, Blank, RecordWith(o1, cfg.ptsWin, cfg.ptsLoss)), t2, Blank, RecordWith(o2, cfg.ptsWin, cfg.ptsLoss)),
      Enroll(Enroll(b.order, t1), t2),
      ForEach(ForEach(b.streaks, t1, 0, StepWith(o1.won)), t2, 0, StepWith(o2.won)),
      b.lastActive,
      ForEach(ForEach(b.elo, t1, EloDefault, AddTo(d.elo1)), t2, EloDefault, AddTo(d.elo2)),
      ForEach(ForEach(b.utr, t1, UtrDefault, AddClamped(d.utr1)), t2, UtrDefault, AddClamped(d.utr2)),
      ForEach(ForEach(b.lastChange, t1, 0.0, SetTo(Round(d.elo1, 1))), t2, 0.0, SetTo(Round(d.elo2, 1))))
  }

  /** One iteration of the loop over the matches. */
  function StepMatch(b: Book, m: Match, cfg: Config): Book {
    var t1, t2 := Side(m.team1), Side(m.team2);
    if t1 == [] || t2 == [] then b
    else
      var b1 := b.(lastActive := ForEach(b.lastActive, t1 + t2, 0, SetTo(m.date)));
      var s := ScoredOf(m, cfg);
      if s.games1 + s.games2 == 0 then b1
      else Counted(b1, t1, t2, s, DeltasOf(b1.elo, b1.utr, t1, t2, s, cfg), cfg)
  }

  /** The players' histories: one outcome per counted match per occurrence. */
  function StepHistory(h: map<string, seq<Outcome>>, m: Match, cfg: Config): map<string, seq<Outcome>> {
    var t1, t2 := Side(m.team1), Side(m.team2);
    var s := ScoredOf(m, cfg);
    if t1 == [] || t2 == [] || s.games1 + s.games2 == 0 then h
    else HistoryAfter(h, t1, t2, s)
  }

  function HistoryAfter(h: map<string, seq<Outcome>>, t1: seq<string>, t2: seq<string>, s: Scored): map<string, seq<Outcome>> {
    ForEach(ForEach(h, t1, [], Append(Outcome1(s))), t2, [], Append(Outcome2(s)))
  }

  /** The loop over the (already sorted) matches. */
  function Fold(b: Book, ms: seq<Match>, cfg: Config): Book {
    if ms == [] then b else StepMatch(Fold(b, ms[..|ms| - 1], cfg), ms[|ms| - 1], cfg)
  }

  function FoldHistory(h: map<string, seq<Outcome>>, ms: seq<Match>, cfg: Config): map<string, seq<Outcome>> {
    if ms == [] then h else StepHistory(FoldHistory(h, ms[..|ms| - 1], cfg), ms[|ms| - 1], cfg)
  }
}
