/** The set-score decoder of `calculate_rankings` (patchmoint-tennis.py:705-733)
    and the table of score strings offered for entry (`get_valid_scores`). */
module Scores {
  import opened Text

  /** What one `setN` string contributes to a match: nothing at all, or a
      number of games for each team and whether it was a tie-break set. */
  datatype SetScore = Skipped | Games(team1: nat, team2: nat, tieBreak: bool)

  /** The running totals of the per-set loop. */
  datatype Tally = Tally(team1: nat, team2: nat, clutch: bool)

  const TieBreakTag: string := "Tie Break"

  /** `not s or str(s).lower() == 'nan'`; a missing set is the empty string. */
  predicate IsBlank(s: string) { s == [] || Lower(s) == "nan" }

  /** `s.split('-')` followed by `int(p[0]), int(p[1])`; `None` when either
      conversion raises. */
  function SplitScore(s: string): Option<(nat, nat)>
  {
    var k := IndexOf(s, '-');
    if k == |s| then None
    else
      var rest := s[k + 1..];
      var j := IndexOf(rest, '-');
      match (ParseInt(s[..k]), ParseInt(rest[..j]))
      case (Some(a), Some(b)) => Some((a, b))
      case _ => None
  }

  /** Decoding of one set string, branch for branch as in the source. */
  function DecodeSet(s: string): SetScore
  {
    if IsBlank(s) then Skipped
    else if Contains(s, TieBreakTag) then
      var nums := DigitRuns(s);
      if |nums| >= 2 then
        if nums[0] > nums[1] then Games(7, 6, true) else Games(6, 7, true)
      else Games(0, 0, true)
    else if '-' in s then
      match SplitScore(s)
      case Some((a, b)) => Games(a, b, false)
      case None => Skipped
    else Games(0, 0, false)
  }

  /** A close race-to-N set: margin at most two, the leader on ten or more. */
  predicate IsClose(a: nat, b: nat) {
    (if a >= b then a - b else b - a) <= 2 && (if a >= b then a else b) >= 10
  }

  /** Whether a decoded set makes the match clutch. */
  predicate MakesClutch(r: SetScore, pickleball: bool) {
    r.Games? && (r.tieBreak || (pickleball && IsClose(r.team1, r.team2)))
  }

  /** One step of the per-set loop. */
  function AddSet(t: Tally, r: SetScore, pickleball: bool): Tally {
    match r
    case Skipped => t
    case Games(a, b, tb) =>
      Tally(t.team1 + a, t.team2 + b, t.clutch || tb || (pickleball && IsClose(a, b)))
  }

  /** The decoding of every set of a match. */
  function DecodeAll(sets: seq<string>): (rs: seq<SetScore>)
    ensures |rs| == |sets| && forall i :: 0 <= i < |sets| ==> rs[i] == DecodeSet(sets[i])
  {
    seq(|sets|, i requires 0 <= i < |sets| => DecodeSet(sets[i]))
  }

  /** The totals after the per-set loop has seen the decoded sets `rs`, in order. */
  function TallyOf(rs: seq<SetScore>, pickleball: bool): Tally
  {
    if rs == [] then Tally(0, 0, false)
    else AddSet(TallyOf(rs[..|rs| - 1], pickleball), rs[|rs| - 1], pickleball)
  }

  /** The totals of a match with the set strings `sets`. */
  function TallySets(sets: seq<string>, pickleball: bool): Tally
  {
    TallyOf(DecodeAll(sets), pickleball)
  }

  /** Games a decoded set adds for the two teams together. */
  function SetGames(r: SetScore): nat { if r.Games? then r.team1 + r.team2 else 0 }

  /** The per-set loop of patchmoint-tennis.py:705-730. */
  method ScoreMatch(sets: seq<string>, pickleball: bool) returns (clutch: bool, team1: nat, team2: nat)
    ensures Tally(team1, team2, clutch) == TallySets(sets, pickleball)
  {
    ghost var rs := DecodeAll(sets);
    clutch, team1, team2 := false, 0, 0;
    var i := 0;
    while i < |sets|
      invariant 0 <= i <= |sets|
      invariant Tally(team1, team2, clutch) == TallyOf(rs[..i], pickleball)
    {
      var r := DecodeSet(sets[i]);
      TallyStep(rs, i, pickleball);
      assert r == rs[i];
      i := i + 1;
      match r {
        case Skipped =>
        case Games(g1, g2, tieBreak) =>
          if tieBreak { clutch := true; }
          if pickleball && !clutch {
            if IsClose(g1, g2) { clutch := true; }
          }
          team1, team2 := team1 + g1, team2 + g2;
      }
    }
    assert rs[..i] == rs;
  }

  /** The totals after one more set are one loop step from the totals before. */
  lemma TallyStep(rs: seq<SetScore>, i: nat, pickleball: bool)
    requires i < |rs|
    ensures TallyOf(rs[..i + 1], pickleball) == AddSet(TallyOf(rs[..i], pickleball), rs[i], pickleball)
  {
    assert rs[..i + 1][..i] == rs[..i];
  }

  lemma {:induction false} TallyClutchIff(rs: seq<SetScore>, pickleball: bool)
    ensures TallyOf(rs, pickleball).clutch <==>
            exists i :: 0 <= i < |rs| && MakesClutch(rs[i], pickleball)
  {
    if rs != [] {
      var init := rs[..|rs| - 1];
      TallyClutchIff(init, pickleball);
      if TallyOf(init, pickleball).clutch {
        var i :| 0 <= i < |init| && MakesClutch(init[i], pickleball);
        assert rs[i] == init[i];
      }
      if exists i :: 0 <= i < |rs| && MakesClutch(rs[i], pickleball) {
        var i :| 0 <= i < |rs| && MakesClutch(rs[i], pickleball);
        if i < |init| { assert init[i] == rs[i]; }
      }
    }
  }

  /** The match is clutch exactly when one of its sets makes it so: a
      tie-break set, or under Pickleball a close set. */
  lemma ClutchIff(sets: seq<string>, pickleball: bool)
    ensures TallySets(sets, pickleball).clutch <==>
            exists i :: 0 <= i < |sets| && MakesClutch(DecodeSet(sets[i]), pickleball)
  {
    var rs := DecodeAll(sets);
    TallyClutchIff(rs, pickleball);
    if exists i :: 0 <= i < |sets| && MakesClutch(DecodeSet(sets[i]), pickleball) {
      var i :| 0 <= i < |sets| && MakesClutch(DecodeSet(sets[i]), pickleball);
      assert MakesClutch(rs[i], pickleball);
    }
  }

  lemma {:induction false} TallyZeroIff(rs: seq<SetScore>, pickleball: bool)
    ensures var t := TallyOf(rs, pickleball);
            t.team1 + t.team2 == 0 <==> forall i :: 0 <= i < |rs| ==> SetGames(rs[i]) == 0
  {
    if rs != [] {
      var init := rs[..|rs| - 1];
      TallyZeroIff(init, pickleball);
      var t := TallyOf(rs, pickleball);
      if t.team1 + t.team2 == 0 {
        forall i | 0 <= i < |rs| ensures SetGames(rs[i]) == 0 {
          if i < |init| { assert init[i] == rs[i]; }
        }
      }
      if forall i :: 0 <= i < |rs| ==> SetGames(rs[i]) == 0 {
        assert SetGames(rs[|rs| - 1]) == 0;
        forall i | 0 <= i < |init| ensures SetGames(init[i]) == 0 {
          assert init[i] == rs[i];
        }
      }
    }
  }

  /** A match has no games exactly when none of its sets adds any, so a match
      whose sets are all blank or unparseable is the one that is dropped. */
  lemma ZeroGamesIff(sets: seq<string>, pickleball: bool)
    ensures var t := TallySets(sets, pickleball);
            t.team1 + t.team2 == 0 <==> forall i :: 0 <= i < |sets| ==> SetGames(DecodeSet(sets[i])) == 0
  {
    var rs := DecodeAll(sets);
    TallyZeroIff(rs, pickleball);
    assert forall i :: 0 <= i < |sets| ==> SetGames(DecodeSet(sets[i])) == SetGames(rs[i]);
  }

  /** `f"{a}-{b}"`. */
  function PlainScore(a: nat, b: nat): string { Decimal(a) + "-" + Decimal(b) }

  /** `f"Tie Break {a}-{b}"`. */
  function TieBreakScore(a: nat, b: nat): string { TieBreakTag + " " + Decimal(a) + "-" + Decimal(b) }

  /** A string none of whose characters starts `sub` does not contain it. */
  lemma {:induction false} MissingFirstChar(s: string, sub: string)
    requires sub != [] && forall i :: 0 <= i < |s| ==> s[i] != sub[0]
    ensures !Contains(s, sub)
    decreases |s|
  {
    if |s| >= |sub| {
      assert s[..|sub|][0] == s[0] != sub[0];
      assert forall i :: 0 <= i < |s| - 1 ==> s[1..][i] == s[i + 1];
      MissingFirstChar(s[1..], sub);
    }
  }

  lemma DigitsHaveNo(s: string, c: char)
    requires AllDigits(s) && !IsDigit(c)
    ensures forall i :: 0 <= i < |s| ==> s[i] != c
  {
  }

  lemma IndexOfAfter(p: string, c: char, rest: string)
    requires forall i :: 0 <= i < |p| ==> p[i] != c
    ensures IndexOf(p + [c] + rest, c) == |p|
  {
    var s := p + [c] + rest;
    assert s[|p|] == c;
    assert forall i :: 0 <= i < |p| ==> s[i] == p[i];
  }

  /** A string that starts with a digit is not blank. */
  lemma DigitNotBlank(s: string)
    requires s != [] && IsDigit(s[0])
    ensures !IsBlank(s)
  {
    assert Lower(s)[0] == s[0];
  }

  lemma SplitPlain(a: nat, b: nat)
    ensures SplitScore(PlainScore(a, b)) == Some((a, b))
  {
    var da, db := Decimal(a), Decimal(b);
    var s := PlainScore(a, b);
    DigitsHaveNo(da, '-');
    DigitsHaveNo(db, '-');
    assert s == da + ['-'] + db;
    IndexOfAfter(da, '-', db);
    assert s[..|da|] == da;
    assert s[|da| + 1..] == db;
    assert IndexOf(db, '-') == |db|;
    assert db[..|db|] == db;
    ParseIntDecimal(a);
    ParseIntDecimal(b);
  }

  lemma PlainHasNoTag(a: nat, b: nat)
    ensures !Contains(PlainScore(a, b), TieBreakTag)
    ensures '-' in PlainScore(a, b)
  {
    var da, db := Decimal(a), Decimal(b);
    var s := PlainScore(a, b);
    DigitsHaveNo(da, 'T');
    DigitsHaveNo(db, 'T');
    assert s == da + ['-'] + db;
    assert s[|da|] == '-';
    forall i | 0 <= i < |s| ensures s[i] != 'T' {
      if i < |da| { assert s[i] == da[i]; } else if i > |da| { assert s[i] == db[i - |da| - 1]; }
    }
    MissingFirstChar(s, TieBreakTag);
  }

  /** A plain `a-b` score decodes to `a` games for team 1 and `b` for team 2. */
  lemma DecodePlain(a: nat, b: nat)
    ensures DecodeSet(PlainScore(a, b)) == Games(a, b, false)
  {
    var s := PlainScore(a, b);
    assert s[0] == Decimal(a)[0];
    DigitNotBlank(s);
    PlainHasNoTag(a, b);
    SplitPlain(a, b);
  }

  /** A `Tie Break a-b` score becomes a 7-6 set for the team with the larger
      number, and 6-7 when team 1's number is not larger. */
  lemma DecodeTieBreak(a: nat, b: nat)
    ensures DecodeSet(TieBreakScore(a, b)) == if a > b then Games(7, 6, true) else Games(6, 7, true)
  {
    TieBreakTagged(a, b);
    TieBreakRuns(a, b);
  }

  lemma TieBreakTagged(a: nat, b: nat)
    ensures !IsBlank(TieBreakScore(a, b)) && Contains(TieBreakScore(a, b), TieBreakTag)
  {
    var s := TieBreakScore(a, b);
    assert s[..|TieBreakTag|] == TieBreakTag;
    ContainsAt(s, TieBreakTag, 0);
    assert Lower(s)[0] == 't';
  }

  /** The numbers of a tie-break score are its two scores. */
  lemma TieBreakRuns(a: nat, b: nat)
    ensures DigitRuns(TieBreakScore(a, b)) == [a, b]
  {
    var s := TieBreakScore(a, b);
    var head := TieBreakTag + " ";
    assert forall i :: 0 <= i < |head| ==> !IsDigit(head[i]);
    assert s == head + (Decimal(a) + ("-" + Decimal(b)));
    DigitRunsSkip(head, Decimal(a) + ("-" + Decimal(b)));
    DigitRunsNumber(a, "-" + Decimal(b));
    DigitRunsSkip("-", Decimal(b));
    DigitRunsNumber(b, "");
    assert Decimal(b) + "" == Decimal(b);
  }
}
