/** The table `calculate_rankings` returns: one row per counted player with
    the derived figures and badges (patchmoint-tennis.py:798-832), ranked by
    three systems in turn (834-845), and re-sorted for the system a view
    shows (1395-1400). */
module Ranking {
  import opened Text
  import opened Dicts
  import opened Stats
  import opened Rounding
  import opened Book

  datatype Badge = HotHand | ColdSnap | Machine | Clutch | Dominant

  datatype System = EloSystem | PointsSystem | UtrSystem

  /** One entry of `rank_data`, with the rank columns that are added later
      (0 until they are assigned). `gdVariance` is the square of the
      consistency index. */
  datatype Row = Row(player: string, score: real, scoreLabel: string, elo: real, points: int, utr: real,
                     lastChange: real, wins: nat, losses: nat, gamesWon: nat, winPct: real, matches: nat,
                     gdAvg: real, clutchFactor: real, gdVariance: real, lastActive: Option<int>,
                     badges: seq<Badge>, rankElo: nat, rankPoints: nat, rankUtr: nat, rank: nat, rankNum: nat)

  /** Share of clutch matches won, in percent; 0 without clutch matches. */
  function ClutchPct(s: PlayerStats): (pct: real)
    ensures s.clutchMatches == 0 ==> pct == 0.0
    ensures s.clutchWins <= s.clutchMatches ==> 0.0 <= pct <= 100.0
  {
    if s.clutchMatches > 0 then
      var q := s.clutchWins as real / s.clutchMatches as real;
      assert s.clutchWins <= s.clutchMatches ==> q <= 1.0;
      q * 100.0
    else 0.0
  }

  function SquaredDev(xs: seq<int>, mu: real): (r: real)
    ensures r >= 0.0
  {
    if xs == [] then 0.0
    else
      var x := xs[|xs| - 1] as real - mu;
      assert x * x >= 0.0 by { SquareNonNegative(x); }
      SquaredDev(xs[..|xs| - 1], mu) + x * x
  }

  lemma SquareNonNegative(x: real)
    ensures x * x >= 0.0
  {
    if x < 0.0 {
      assert x * x == (-x) * (-x);
      MulLe(0.0, -x, -x);
    } else if x > 0.0 {
      MulLe(0.0, x, x);
    }
  }

  /** The population variance of the game differences (`np.std` squared). */
  function Variance(xs: seq<int>): (v: real)
    ensures v >= 0.0
  {
    if xs == [] then 0.0
    else
      var n := |xs| as real;
      DivLe(0.0, SquaredDev(xs, Sum(xs) as real / n), n);
      SquaredDev(xs, Sum(xs) as real / n) / n
  }

  /** The "Machine" test `consistency < 1.5` on the standard deviation `sd`
      is the test `variance < 2.25` on its square. */
  lemma MachineByVariance(sd: real, variance: real)
    requires sd >= 0.0 && sd * sd == variance
    ensures sd < 1.5 <==> variance < 2.25
  {
    if sd < 1.5 {
      if sd > 0.0 {
        MulLe(sd, 1.5, sd);
        MulLe(sd, 1.5, 1.5);
      }
    } else {
      MulLe(1.5, sd, sd);
      MulLe(1.5, sd, 1.5);
    }
  }

  /** The badges of a player, in the order the source appends them. */
  function Badges(streak: int, s: PlayerStats, variance: real): seq<Badge>
  {
    var form := if streak >= 3 then [HotHand] else if streak <= -3 then [ColdSnap] else [];
    if s.matches >= 5 then
      form + (if variance < 2.25 then [Machine] else [])
           + (if ClutchPct(s) > 66.0 && s.clutchMatches >= 3 then [Clutch] else [])
           + (if s.wins as real / s.matches as real > 0.75 then [Dominant] else [])
    else form
  }

  /** When each badge is awarded, in integer terms: "Hot Hand" and "Cold
      Snap" follow the streak and exclude each other; the other three need
      five matches, "Clutch" more than 66% of at least three clutch matches
      won, and "Dominant" more than three wins in four. */
  lemma BadgeRules(streak: int, s: PlayerStats, variance: real)
    ensures var bs := Badges(streak, s, variance);
            && (HotHand in bs <==> streak >= 3)
            && (ColdSnap in bs <==> streak <= -3)
            && !(HotHand in bs && ColdSnap in bs)
            && (Machine in bs <==> s.matches >= 5 && variance < 2.25)
            && (Clutch in bs <==> s.matches >= 5 && s.clutchMatches >= 3 && 50 * s.clutchWins > 33 * s.clutchMatches)
            && (Dominant in bs <==> s.matches >= 5 && 4 * s.wins > 3 * s.matches)
            && |bs| <= 4
  {
    var bs := Badges(streak, s, variance);
    if s.matches >= 5 {
      var m, w := s.matches as real, s.wins as real;
      DominantIff(w, m);
      if s.clutchMatches >= 3 {
        var cw, cm := s.clutchWins as real, s.clutchMatches as real;
        ClutchIffReal(cw, cm);
      }
    }
  }

  lemma DominantIff(w: real, m: real)
    requires m > 0.0
    ensures w / m > 0.75 <==> 4.0 * w > 3.0 * m
  {
    var q := w / m;
    assert w == q * m;
    if q > 0.75 {
      MulLe(0.75, q, m);
      assert 4.0 * w > 3.0 * m by { assert q * m > 0.75 * m by { assert (q - 0.75) * m > 0.0; } }
    } else {
      MulLe(q, 0.75, m);
    }
  }

  lemma ClutchIffReal(cw: real, cm: real)
    requires cm > 0.0
    ensures cw / cm * 100.0 > 66.0 <==> 50.0 * cw > 33.0 * cm
  {
    var q := cw / cm;
    assert cw == q * cm;
    if q * 100.0 > 66.0 {
      assert (q - 0.66) * cm > 0.0;
    } else {
      MulLe(q, 0.66, cm);
    }
  }

  /** The row of a player with at least one match. */
  function RowOf(b: Book, p: string): Row
    requires p in b.stats && b.stats[p].matches > 0
  {
    var s := b.stats[p];
    var m := s.matches as real;
    var elo := Round(Get(b.elo, p, EloDefault), 1);
    Row(p, elo, "Elo", elo, s.points, Round(Get(b.utr, p, UtrDefault), 2), Get(b.lastChange, p, 0.0),
        s.wins, s.losses, s.gamesWon, Round(s.wins as real / m * 100.0, 1), s.matches,
        Round(s.gdSum as real / m, 2), Round(ClutchPct(s), 1), Variance(s.gdList),
        if p in b.lastActive then Some(b.lastActive[p]) else None,
        Badges(Get(b.streaks, p, 0), s, Variance(s.gdList)), 0, 0, 0, 0, 0)
  }

  /** `rank_data`: the rows of the players of `ps` that have played, in order. */
  function RowsFor(b: Book, ps: seq<string>): (rows: seq<Row>)
    ensures |rows| <= |ps|
    ensures forall r :: r in rows ==> r.player in ps && r.player in b.stats && r.matches > 0 && b.stats[r.player].matches > 0 && r == RowOf(b, r.player)
  {
    if ps == [] then []
    else
      var p := ps[|ps| - 1];
      var init := RowsFor(b, ps[..|ps| - 1]);
      if p in b.stats && b.stats[p].matches > 0 then init + [RowOf(b, p)] else init
  }

  /** The rows of `stats.items()`: the players in the order their stats were created. */
  function Standings(b: Book): seq<Row> {
    RowsFor(b, b.order)
  }

  /** The sort key of a system: its score column. */
  function Score(r: Row, sys: System): real {
    match sys
    case EloSystem => r.elo
    case PointsSystem => r.points as real
    case UtrSystem => r.utr
  }

  /** `a` may come before `b` in a descending sort on (score, Win %). */
  predicate Ahead(a: Row, b: Row, sys: System) {
    Score(a, sys) > Score(b, sys) || (Score(a, sys) == Score(b, sys) && a.winPct >= b.winPct)
  }

  predicate SortedBy(rows: seq<Row>, sys: System) {
    forall i, j :: 0 <= i < j < |rows| ==> Ahead(rows[i], rows[j], sys)
  }

  /** Inserting a row behind every row at least as far ahead, the step of a
      stable sort. */
  function Insert(s: seq<Row>, x: Row, sys: System): seq<Row>
  {
    if s == [] then [x]
    else if Ahead(s[|s| - 1], x, sys) then s + [x]
    else Insert(s[..|s| - 1], x, sys) + [s[|s| - 1]]
  }

  /** `sort_values(by=[score, "Win %"], ascending=[False, False])`; with
      several keys the sort is stable. */
  function SortBy(rows: seq<Row>, sys: System): seq<Row>
  {
    if rows == [] then [] else Insert(SortBy(rows[..|rows| - 1], sys), rows[|rows| - 1], sys)
  }

  function Project<T>(rows: seq<Row>, f: Row -> T): (r: seq<T>)
    ensures |r| == |rows| && forall i :: 0 <= i < |rows| ==> r[i] == f(rows[i])
  {
    seq(|rows|, i requires 0 <= i < |rows| => f(rows[i]))
  }

  lemma ProjectSnoc<T>(s: seq<Row>, x: Row, f: Row -> T)
    ensures Project(s + [x], f) == Project(s, f) + [f(x)]
  {
  }

  lemma {:induction false} InsertProject<T>(s: seq<Row>, x: Row, sys: System, f: Row -> T)
    ensures multiset(Project(Insert(s, x, sys), f)) == multiset(Project(s, f)) + multiset{f(x)}
    ensures |Insert(s, x, sys)| == |s| + 1
  {
    if s == [] {
      assert Project([x], f) == [f(x)];
    } else if Ahead(s[|s| - 1], x, sys) {
      ProjectSnoc(s, x, f);
    } else {
      var init, last := s[..|s| - 1], s[|s| - 1];
      InsertProject(init, x, sys, f);
      ProjectSnoc(Insert(init, x, sys), last, f);
      assert s == init + [last];
      ProjectSnoc(init, last, f);
    }
  }

  /** Sorting leaves every column's values as they were, as a multiset. */
  lemma {:induction false} SortProject<T>(rows: seq<Row>, sys: System, f: Row -> T)
    ensures multiset(Project(SortBy(rows, sys), f)) == multiset(Project(rows, f))
    ensures |SortBy(rows, sys)| == |rows|
  {
    if rows != [] {
      var init, last := rows[..|rows| - 1], rows[|rows| - 1];
      SortProject(init, sys, f);
      InsertProject(SortBy(init, sys), last, sys, f);
      assert rows == init + [last];
      ProjectSnoc(init, last, f);
    }
  }

  lemma {:induction false} InsertPerm(s: seq<Row>, x: Row, sys: System)
    ensures multiset(Insert(s, x, sys)) == multiset(s) + multiset{x}
  {
    if s != [] && !Ahead(s[|s| - 1], x, sys) {
      var init := s[..|s| - 1];
      InsertPerm(init, x, sys);
      assert s == init + [s[|s| - 1]];
    }
  }

  /** Sorting permutes the rows. */
  lemma {:induction false} SortPerm(rows: seq<Row>, sys: System)
    ensures multiset(SortBy(rows, sys)) == multiset(rows)
  {
    if rows != [] {
      var init := rows[..|rows| - 1];
      SortPerm(init, sys);
      InsertPerm(SortBy(init, sys), rows[|rows| - 1], sys);
      assert rows == init + [rows[|rows| - 1]];
    }
  }

  lemma {:induction false} InsertSorted(s: seq<Row>, x: Row, sys: System)
    requires SortedBy(s, sys)
    ensures SortedBy(Insert(s, x, sys), sys)
  {
    if s != [] {
      var init, last := s[..|s| - 1], s[|s| - 1];
      if Ahead(last, x, sys) {
        forall i | 0 <= i < |s| ensures Ahead(s[i], x, sys) {
          if i < |s| - 1 { assert Ahead(s[i], last, sys); }
        }
      } else {
        assert SortedBy(init, sys);
        InsertSorted(init, x, sys);
        var r := Insert(init, x, sys);
        InsertPerm(init, x, sys);
        forall i | 0 <= i < |r| ensures Ahead(r[i], last, sys) {
          assert r[i] in multiset(r);
          if r[i] != x {
            assert r[i] in init;
            var k :| 0 <= k < |init| && init[k] == r[i];
            assert Ahead(s[k], s[|s| - 1], sys);
          }
        }
      }
    }
  }

  /** The sort puts the rows in descending (score, Win %) order. */
  lemma {:induction false} SortSorted(rows: seq<Row>, sys: System)
    ensures SortedBy(SortBy(rows, sys), sys)
  {
    if rows != [] {
      SortSorted(rows[..|rows| - 1], sys);
      InsertSorted(SortBy(rows[..|rows| - 1], sys), rows[|rows| - 1], sys);
    }
  }

  /** `a` and `b` have the same sort key under `sys`: score and Win %. */
  predicate Tied(a: Row, b: Row, sys: System) {
    Score(a, sys) == Score(b, sys) && a.winPct == b.winPct
  }

  /** The rows of `s` whose sort key under `sys` is that of `k`, in the order of `s`. */
  function TiesOf(s: seq<Row>, sys: System, k: Row): seq<Row>
  {
    if s == [] then []
    else TiesOf(s[..|s| - 1], sys, k) + if Tied(s[|s| - 1], k, sys) then [s[|s| - 1]] else []
  }

  lemma {:induction false} TiesOfAppend(s: seq<Row>, t: seq<Row>, sys: System, k: Row)
    ensures TiesOf(s + t, sys, k) == TiesOf(s, sys, k) + TiesOf(t, sys, k)
    decreases |t|
  {
    if t == [] {
      assert s + t == s;
    } else {
      var t0 := t[..|t| - 1];
      assert (s + t)[..|s + t| - 1] == s + t0;
      TiesOfAppend(s, t0, sys, k);
    }
  }

  lemma TiesOfSingle(r: Row, sys: System, k: Row)
    ensures TiesOf([r], sys, k) == if Tied(r, k, sys) then [r] else []
  {
    assert [r][..0] == [];
  }

  /** An inserted row goes behind every row it ties with. */
  lemma {:induction false} InsertStable(s: seq<Row>, x: Row, sys: System, k: Row)
    ensures TiesOf(Insert(s, x, sys), sys, k) == TiesOf(s, sys, k) + TiesOf([x], sys, k)
  {
    if s == [] {
      assert Insert(s, x, sys) == [x];
    } else if Ahead(s[|s| - 1], x, sys) {
      TiesOfAppend(s, [x], sys, k);
    } else {
      var init, last := s[..|s| - 1], s[|s| - 1];
      assert s == init + [last];
      TiesOfSingle(x, sys, k);
      TiesOfSingle(last, sys, k);
      var a, bx, bl := TiesOf(init, sys, k), TiesOf([x], sys, k), TiesOf([last], sys, k);
      assert Tied(x, k, sys) && Tied(last, k, sys) ==> Ahead(last, x, sys);
      assert bx == [] || bl == [];
      assert Insert(s, x, sys) == Insert(init, x, sys) + [last];
      calc {
        TiesOf(Insert(s, x, sys), sys, k);
        TiesOf(Insert(init, x, sys) + [last], sys, k);
        { TiesOfAppend(Insert(init, x, sys), [last], sys, k); }
        TiesOf(Insert(init, x, sys), sys, k) + bl;
        { InsertStable(init, x, sys, k); }
        a + bx + bl;
        { assert a + bx + bl == a + bl + bx; }
        a + bl + bx;
        { TiesOfAppend(init, [last], sys, k); }
        TiesOf(s, sys, k) + bx;
      }
    }
  }

  /** The sort is stable: rows with the same score and Win % keep the order
      they had, so ties take their order from the previous pass. */
  lemma {:induction false} SortStable(rows: seq<Row>, sys: System, k: Row)
    ensures TiesOf(SortBy(rows, sys), sys, k) == TiesOf(rows, sys, k)
  {
    if rows != [] {
      var init, last := rows[..|rows| - 1], rows[|rows| - 1];
      assert rows == init + [last];
      calc {
        TiesOf(SortBy(rows, sys), sys, k);
        TiesOf(Insert(SortBy(init, sys), last, sys), sys, k);
        { InsertStable(SortBy(init, sys), last, sys, k); }
        TiesOf(SortBy(init, sys), sys, k) + TiesOf([last], sys, k);
        { SortStable(init, sys, k); }
        TiesOf(init, sys, k) + TiesOf([last], sys, k);
        { TiesOfAppend(init, [last], sys, k); }
        TiesOf(rows, sys, k);
      }
    }
  }

  function RankOf(r: Row, sys: System): nat {
    match sys
    case EloSystem => r.rankElo
    case PointsSystem => r.rankPoints
    case UtrSystem => r.rankUtr
  }

  function RankIn(sys: System): Row -> nat { r => RankOf(r, sys) }

  function WithRank(r: Row, sys: System, k: nat): Row {
    match sys
    case EloSystem => r.(rankElo := k)
    case PointsSystem => r.(rankPoints := k)
    case UtrSystem => r.(rankUtr := k)
  }

  /** `df["Rank_<system>"] = range(1, len(df) + 1)`. */
  function AssignRanks(rows: seq<Row>, sys: System): (r: seq<Row>)
    ensures |r| == |rows| && forall i :: 0 <= i < |rows| ==> r[i] == WithRank(rows[i], sys, i + 1)
  {
    seq(|rows|, i requires 0 <= i < |rows| => WithRank(rows[i], sys, i + 1))
  }

  /** `1, 2, ..., n`. */
  function Positions(n: nat): (r: seq<nat>)
    ensures |r| == n && forall i :: 0 <= i < n ==> r[i] == i + 1
  {
    seq(n, i requires 0 <= i < n => i + 1)
  }

  /** The ranking: by Elo, then points, then UTR, each sort on the table the
      previous one left, and finally by Elo again, numbering the places. */
  function Rankings(rows: seq<Row>): seq<Row>
  {
    Placed(SortBy(Ranked(rows), EloSystem))
  }

  /** The three ranking passes, each a sort and a numbering. */
  function Ranked(rows: seq<Row>): seq<Row>
  {
    var byElo := AssignRanks(SortBy(rows, EloSystem), EloSystem);
    var byPoints := AssignRanks(SortBy(byElo, PointsSystem), PointsSystem);
    AssignRanks(SortBy(byPoints, UtrSystem), UtrSystem)
  }

  /** `Rank` set to the position counted from 1. */
  function Placed(s: seq<Row>): (r: seq<Row>)
    ensures |r| == |s|
    ensures forall i :: 0 <= i < |s| ==> r[i] == s[i].(rank := i + 1)
  {
    seq(|s|, i requires 0 <= i < |s| => s[i].(rank := i + 1))
  }

  /** In `rows`, a better (smaller) rank of `sys` never sits behind a worse
      one in the order of `sys`. */
  predicate RankedBy(rows: seq<Row>, sys: System) {
    forall i, j :: 0 <= i < |rows| && 0 <= j < |rows| && RankOf(rows[i], sys) < RankOf(rows[j], sys) ==>
      Ahead(rows[i], rows[j], sys)
  }

  /** The ranks of `sys` are `1..n` in some order and follow its order. */
  predicate RanksOk(rows: seq<Row>, sys: System) {
    multiset(Project(rows, RankIn(sys))) == multiset(Positions(|rows|)) && RankedBy(rows, sys)
  }

  /** Numbering a sorted table gives ranks `1..n` that follow the order. */
  lemma AssignRanked(rows: seq<Row>, sys: System)
    requires SortedBy(rows, sys)
    ensures Project(AssignRanks(rows, sys), RankIn(sys)) == Positions(|rows|)
    ensures RanksOk(AssignRanks(rows, sys), sys)
  {
    var r := AssignRanks(rows, sys);
    forall i, j | 0 <= i < |r| && 0 <= j < |r| && RankOf(r[i], sys) < RankOf(r[j], sys)
      ensures Ahead(r[i], r[j], sys)
    {
      assert Ahead(rows[i], rows[j], sys);
    }
  }

  /** Two tables whose rows agree, place by place, on the rank, the score of
      `sys` and the Win % column. */
  predicate SameKeys(rows: seq<Row>, rows': seq<Row>, sys: System) {
    |rows| == |rows'| &&
    forall i :: 0 <= i < |rows| ==>
      RankOf(rows'[i], sys) == RankOf(rows[i], sys) && Score(rows'[i], sys) == Score(rows[i], sys) &&
      rows'[i].winPct == rows[i].winPct
  }

  lemma SameKeysRanked(rows: seq<Row>, rows': seq<Row>, sys: System)
    requires SameKeys(rows, rows', sys) && RanksOk(rows, sys)
    ensures RanksOk(rows', sys)
  {
    assert Project(rows', RankIn(sys)) == Project(rows, RankIn(sys));
  }

  /** Re-sorting a table by any system keeps the ranks of `sys` valid. */
  lemma SortRanked(rows: seq<Row>, sys: System, other: System)
    requires RanksOk(rows, sys)
    ensures RanksOk(SortBy(rows, other), sys)
  {
    var r := SortBy(rows, other);
    SortPerm(rows, other);
    SortProject(rows, other, RankIn(sys));
    forall i, j | 0 <= i < |r| && 0 <= j < |r| && RankOf(r[i], sys) < RankOf(r[j], sys)
      ensures Ahead(r[i], r[j], sys)
    {
      assert r[i] in multiset(rows) && r[j] in multiset(rows);
      var a :| 0 <= a < |rows| && rows[a] == r[i];
      var b :| 0 <= b < |rows| && rows[b] == r[j];
    }
  }

  /** Ranking a table by `other` keeps the ranks of `sys`. */
  lemma AssignKeeps(rows: seq<Row>, sys: System, other: System)
    requires sys != other && RanksOk(rows, sys)
    ensures RanksOk(AssignRanks(rows, other), sys)
  {
    SameKeysRanked(rows, AssignRanks(rows, other), sys);
  }

  function NameOf(r: Row): string { r.player }

  /** One ranking pass: sort by `sys` and number the rows. The ranks of
      `sys` become valid. */
  lemma RankStage(rows: seq<Row>, sys: System)
    ensures var r := AssignRanks(SortBy(rows, sys), sys);
            && |r| == |rows| && multiset(Project(r, NameOf)) == multiset(Project(rows, NameOf))
            && RanksOk(r, sys)
  {
    var s := SortBy(rows, sys);
    SortSorted(rows, sys);
    SortProject(rows, sys, NameOf);
    var r := AssignRanks(s, sys);
    AssignRanked(s, sys);
    assert Project(r, NameOf) == Project(s, NameOf);
  }

  /** A ranking pass keeps the valid ranks of every other system. */
  lemma StageKeeps(rows: seq<Row>, sys: System, k: System)
    requires k != sys && RanksOk(rows, k)
    ensures RanksOk(AssignRanks(SortBy(rows, sys), sys), k)
  {
    SortRanked(rows, k, sys);
    AssignKeeps(SortBy(rows, sys), k, sys);
  }

  /** The three passes keep the players and leave every system's ranks valid. */
  lemma RankedOk(rows: seq<Row>)
    ensures var r := Ranked(rows);
            && |r| == |rows| && multiset(Project(r, NameOf)) == multiset(Project(rows, NameOf))
            && forall k :: RanksOk(r, k)
  {
    RankStage(rows, EloSystem);
    var byElo := AssignRanks(SortBy(rows, EloSystem), EloSystem);
    RankStage(byElo, PointsSystem);
    StageKeeps(byElo, PointsSystem, EloSystem);
    var byPoints := AssignRanks(SortBy(byElo, PointsSystem), PointsSystem);
    RankStage(byPoints, UtrSystem);
    StageKeeps(byPoints, UtrSystem, EloSystem);
    StageKeeps(byPoints, UtrSystem, PointsSystem);
    var byUtr := AssignRanks(SortBy(byPoints, UtrSystem), UtrSystem);
    forall k ensures RanksOk(byUtr, k) {
      match k
      case EloSystem =>
      case PointsSystem =>
      case UtrSystem =>
    }
  }

  /** The last pass: sort by Elo and number the places. */
  lemma FinalStage(rows: seq<Row>)
    requires forall k :: RanksOk(rows, k)
    ensures var res := Placed(SortBy(rows, EloSystem));
            && |res| == |rows| && multiset(Project(res, NameOf)) == multiset(Project(rows, NameOf))
            && (forall k :: RanksOk(res, k))
            && SortedBy(res, EloSystem)
  {
    var s := SortBy(rows, EloSystem);
    SortSorted(rows, EloSystem);
    SortProject(rows, EloSystem, NameOf);
    var res := Placed(s);
    assert Project(res, NameOf) == Project(s, NameOf);
    forall k ensures RanksOk(res, k) {
      SortRanked(rows, k, EloSystem);
      SameKeysRanked(s, res, k);
    }
    forall i, j | 0 <= i < j < |res| ensures Ahead(res[i], res[j], EloSystem) {
      assert Ahead(s[i], s[j], EloSystem);
    }
  }

  /** The ranking holds the same players as its input, each system's ranks
      are a permutation of `1..n` that follows the system's descending
      (score, Win %) order, and the table ends sorted by Elo with its places
      numbered `1..n`. */
  lemma RankingsOk(rows: seq<Row>)
    ensures var res := Rankings(rows);
            && |res| == |rows|
            && multiset(Project(res, NameOf)) == multiset(Project(rows, NameOf))
            && (forall k :: RanksOk(res, k))
            && SortedBy(res, EloSystem)
            && forall i :: 0 <= i < |res| ==> res[i].rank == i + 1
  {
    RankedOk(rows);
    FinalStage(Ranked(rows));
  }

  /** A row with its four rank columns cleared. */
  function Unranked(r: Row): Row {
    r.(rankElo := 0, rankPoints := 0, rankUtr := 0, rank := 0)
  }

  lemma AssignUnranked(s: seq<Row>, sys: System)
    ensures Project(AssignRanks(s, sys), Unranked) == Project(s, Unranked)
  {
  }

  lemma PlacedUnranked(s: seq<Row>)
    ensures Project(Placed(s), Unranked) == Project(s, Unranked)
  {
  }

  /** The ranking passes reorder the rows and fill in their rank columns;
      every other column of every row is as it came in. */
  lemma RankingsRows(rows: seq<Row>)
    ensures multiset(Project(Rankings(rows), Unranked)) == multiset(Project(rows, Unranked))
  {
    SortProject(rows, EloSystem, Unranked);
    var byElo := AssignRanks(SortBy(rows, EloSystem), EloSystem);
    AssignUnranked(SortBy(rows, EloSystem), EloSystem);
    SortProject(byElo, PointsSystem, Unranked);
    var byPoints := AssignRanks(SortBy(byElo, PointsSystem), PointsSystem);
    AssignUnranked(SortBy(byElo, PointsSystem), PointsSystem);
    SortProject(byPoints, UtrSystem, Unranked);
    var byUtr := AssignRanks(SortBy(byPoints, UtrSystem), UtrSystem);
    AssignUnranked(SortBy(byPoints, UtrSystem), UtrSystem);
    SortProject(byUtr, EloSystem, Unranked);
    PlacedUnranked(SortBy(byUtr, EloSystem));
  }

  /** The score column named by a view's system, `Score_<system>`. */
  function SystemNamed(name: string): Option<System> {
    if name == "Elo (Hybrid)" then Some(EloSystem)
    else if name == "Points" then Some(PointsSystem)
    else if name == "UTR" then Some(UtrSystem)
    else None
  }

  /** The re-sort a view applies: by its system's score and Win %, numbered
      from 1, showing that system's score and name; a system without a score
      column leaves the table as it is. */
  function ViewSort(rows: seq<Row>, viewSystem: string): seq<Row>
  {
    match SystemNamed(viewSystem)
    case None => rows
    case Some(sys) => Shown(SortBy(rows, sys), sys, viewSystem)
  }

  /** `Rank_Num`, `Score` and `Label` set for the view. */
  function Shown(s: seq<Row>, sys: System, name: string): (r: seq<Row>)
    ensures |r| == |s|
    ensures forall i :: 0 <= i < |s| ==> r[i] == s[i].(rankNum := i + 1, score := Score(s[i], sys), scoreLabel := name)
  {
    seq(|s|, i requires 0 <= i < |s| => s[i].(rankNum := i + 1, score := Score(s[i], sys), scoreLabel := name))
  }

  lemma ViewSortOk(rows: seq<Row>, viewSystem: string, sys: System)
    requires SystemNamed(viewSystem) == Some(sys)
    ensures var v := ViewSort(rows, viewSystem);
            && multiset(Project(v, NameOf)) == multiset(Project(rows, NameOf))
            && SortedBy(v, sys)
            && forall i :: 0 <= i < |v| ==> v[i].rankNum == i + 1 && v[i].score == Score(v[i], sys) && v[i].scoreLabel == viewSystem
  {
    var s := SortBy(rows, sys);
    SortSorted(rows, sys);
    SortProject(rows, sys, NameOf);
    var v := ViewSort(rows, viewSystem);
    assert Project(v, NameOf) == Project(s, NameOf);
    forall i, j | 0 <= i < j < |v| ensures Ahead(v[i], v[j], sys) {
      assert Ahead(s[i], s[j], sys);
    }
  }
}
