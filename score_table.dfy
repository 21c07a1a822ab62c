/** The table of score strings offered when a result is entered
    (`get_valid_scores`, patchmoint-tennis.py:619-635), and how the set decoder
    reads every entry of it. */
module ScoreTable {
  import opened Text
  import opened Scores

  /** Tennis and Padel set scores: 6-0 to 6-4, 7-5, 7-6 and their mirrors. */
  predicate TennisSet(a: nat, b: nat) {
    (a == 6 && b <= 4) || (a == 7 && (b == 5 || b == 6)) ||
    (b == 6 && a <= 4) || (b == 7 && (a == 5 || a == 6))
  }

  /** Tie-break scores: 7 against 0..9 and 10 against 0..5, either way round. */
  predicate TennisTieBreak(a: nat, b: nat) {
    (a == 7 && b < 10) || (b == 7 && a < 10) || (a == 10 && b < 6) || (b == 10 && a < 6)
  }

  /** Pickleball game scores: to 11 and to 15, with the listed win-by-two finishes. */
  predicate PickleballGame(a: nat, b: nat) {
    (a == 11 && b < 10) || (b == 11 && a < 10) ||
    (12 <= a <= 14 && b == a - 2) || (12 <= b <= 14 && a == b - 2) ||
    (a == 15 && b < 14) || (b == 15 && a < 14) ||
    (16 <= a <= 17 && b == a - 2) || (16 <= b <= 17 && a == b - 2)
  }

  predicate PlainEntry(pickleball: bool, a: nat, b: nat) {
    if pickleball then PickleballGame(a, b) else TennisSet(a, b)
  }

  /** The shape of an entry of the table: `f"{a}-{b}"` or `f"Tie Break {a}-{b}"`. */
  datatype Entry = Plain(a: nat, b: nat) | TieBreak(a: nat, b: nat)

  function Render(e: Entry): string {
    match e
    case Plain(a, b) => PlainScore(a, b)
    case TieBreak(a, b) => TieBreakScore(a, b)
  }

  predicate ValidEntry(pickleball: bool, e: Entry) {
    match e
    case Plain(a, b) => PlainEntry(pickleball, a, b)
    case TieBreak(a, b) => !pickleball && TennisTieBreak(a, b)
  }

  /** What an entry of the table looks like. */
  ghost predicate Listed(pickleball: bool, s: string) {
    exists e :: ValidEntry(pickleball, e) && s == Render(e)
  }

  /** `ss` is the rendering of the entries `es`, all of them valid. */
  ghost predicate Renders(pickleball: bool, ss: seq<string>, es: seq<Entry>) {
    |ss| == |es| && forall j :: 0 <= j < |es| ==> ss[j] == Render(es[j]) && ValidEntry(pickleball, es[j])
  }

  lemma RendersAppend(pickleball: bool, ss: seq<string>, es: seq<Entry>, ss2: seq<string>, es2: seq<Entry>)
    requires Renders(pickleball, ss, es) && Renders(pickleball, ss2, es2)
    ensures Renders(pickleball, ss + ss2, es + es2)
  {
    var ss', es' := ss + ss2, es + es2;
    forall j | 0 <= j < |es'| ensures ss'[j] == Render(es'[j]) && ValidEntry(pickleball, es'[j]) {
      if j < |es| {
        assert ss'[j] == ss[j] && es'[j] == es[j];
      } else {
        assert ss'[j] == ss2[j - |es|] && es'[j] == es2[j - |es|];
      }
    }
  }

  lemma RendersListed(pickleball: bool, ss: seq<string>, es: seq<Entry>)
    requires Renders(pickleball, ss, es)
    ensures forall j :: 0 <= j < |ss| ==> Listed(pickleball, ss[j])
  {
    forall j | 0 <= j < |ss| ensures Listed(pickleball, ss[j]) {
      assert ValidEntry(pickleball, es[j]) && ss[j] == Render(es[j]);
    }
  }

  lemma RendersIn(pickleball: bool, ss: seq<string>, es: seq<Entry>, e: Entry)
    requires Renders(pickleball, ss, es) && e in es
    ensures Render(e) in ss
  {
    var j :| 0 <= j < |es| && es[j] == e;
    assert ss[j] == Render(e);
  }

  function MakeEntry(tieBreak: bool, a: nat, b: nat): Entry {
    if tieBreak then TieBreak(a, b) else Plain(a, b)
  }

  /** One `for i in range(n): scores.extend([f"{top}-{i}", f"{i}-{top}"])`
      loop of the source (with the tie-break prefix when `tieBreak`). */
  method ExtendRace(pickleball: bool, tieBreak: bool, top: nat, n: nat, scores: seq<string>, ghost es: seq<Entry>)
    returns (scores': seq<string>, ghost es': seq<Entry>)
    requires Renders(pickleball, scores, es)
    requires forall k: nat :: k < n ==>
      ValidEntry(pickleball, MakeEntry(tieBreak, top, k)) && ValidEntry(pickleball, MakeEntry(tieBreak, k, top))
    ensures Renders(pickleball, scores', es') && |es'| == |es| + 2 * n
    ensures es'[..|es|] == es
    ensures forall k: nat :: k < n ==> MakeEntry(tieBreak, top, k) in es' && MakeEntry(tieBreak, k, top) in es'
  {
    scores', es' := scores, es;
    for i := 0 to n
      invariant Renders(pickleball, scores', es') && |es'| == |es| + 2 * i
      invariant es'[..|es|] == es
      invariant forall k: nat :: k < i ==> MakeEntry(tieBreak, top, k) in es' && MakeEntry(tieBreak, k, top) in es'
    {
      var pair := if tieBreak then [TieBreakScore(top, i), TieBreakScore(i, top)]
                  else [PlainScore(top, i), PlainScore(i, top)];
      ghost var pairEs := [MakeEntry(tieBreak, top, i), MakeEntry(tieBreak, i, top)];
      RendersAppend(pickleball, scores', es', pair, pairEs);
      assert (es' + pairEs)[..|es|] == es'[..|es|];
      scores', es' := scores' + pair, es' + pairEs;
    }
  }

  lemma InPrefix<T>(s: seq<T>, k: nat, x: T)
    requires k <= |s| && x in s[..k]
    ensures x in s
  {
  }

  /** `get_valid_scores`: the table is built with the source's `extend` loops;
      it has the source's length (duplicates included), holds only the scores
      the predicates above describe, and holds every one of them. */
  method ValidScores(pickleball: bool) returns (scores: seq<string>)
    ensures |scores| == if pickleball then 58 else 46
    ensures forall j :: 0 <= j < |scores| ==> Listed(pickleball, scores[j])
    ensures forall a: nat, b: nat :: PlainEntry(pickleball, a, b) ==> PlainScore(a, b) in scores
    ensures forall a: nat, b: nat :: !pickleball && TennisTieBreak(a, b) ==> TieBreakScore(a, b) in scores
  {
    if pickleball {
      scores := PickleballScores();
    } else {
      scores := TennisScores();
    }
  }

  /** `scores.extend([...])` with a literal list of entries. */
  method AppendEntries(pickleball: bool, scores: seq<string>, ghost es: seq<Entry>, more: seq<Entry>)
    returns (scores': seq<string>, ghost es': seq<Entry>)
    requires Renders(pickleball, scores, es)
    requires forall j :: 0 <= j < |more| ==> ValidEntry(pickleball, more[j])
    ensures Renders(pickleball, scores', es') && es' == es + more
  {
    var rendered := seq(|more|, j requires 0 <= j < |more| => Render(more[j]));
    RendersAppend(pickleball, scores, es, rendered, more);
    scores', es' := scores + rendered, es + more;
  }

  const ExtendedFinishes: seq<Entry> :=
    [Plain(12, 10), Plain(10, 12), Plain(13, 11), Plain(11, 13), Plain(14, 12), Plain(12, 14)]

  const LongFinishes: seq<Entry> := [Plain(16, 14), Plain(14, 16), Plain(17, 15), Plain(15, 17)]

  lemma FinishesListed(a: nat, b: nat)
    ensures (12 <= a <= 14 && b == a - 2) || (12 <= b <= 14 && a == b - 2) ==> Plain(a, b) in ExtendedFinishes
    ensures (16 <= a <= 17 && b == a - 2) || (16 <= b <= 17 && a == b - 2) ==> Plain(a, b) in LongFinishes
  {
  }

  /** The Pickleball branch of `get_valid_scores`. */
  method PickleballScores() returns (scores: seq<string>)
    ensures |scores| == 58
    ensures forall j :: 0 <= j < |scores| ==> Listed(true, scores[j])
    ensures forall a: nat, b: nat :: PickleballGame(a, b) ==> PlainScore(a, b) in scores
  {
    ghost var es;
    scores, es := ExtendRace(true, false, 11, 10, [], []);
    ghost var elevens := es;
    scores, es := AppendEntries(true, scores, es, ExtendedFinishes);
    ghost var mid := es;
    scores, es := ExtendRace(true, false, 15, 14, scores, es);
    ghost var fifteens := es;
    scores, es := AppendEntries(true, scores, es, LongFinishes);
    RendersListed(true, scores, es);
    forall a: nat, b: nat | PickleballGame(a, b) ensures PlainScore(a, b) in scores {
      PickleballInTable(a, b, elevens, mid, fifteens, es);
      RendersIn(true, scores, es, Plain(a, b));
    }
  }

  lemma PickleballInTable(a: nat, b: nat, elevens: seq<Entry>, mid: seq<Entry>, fifteens: seq<Entry>, es: seq<Entry>)
    requires PickleballGame(a, b)
    requires forall k: nat :: k < 10 ==> MakeEntry(false, 11, k) in elevens && MakeEntry(false, k, 11) in elevens
    requires mid == elevens + ExtendedFinishes
    requires |fifteens| >= |mid| && fifteens[..|mid|] == mid
    requires forall k: nat :: k < 14 ==> MakeEntry(false, 15, k) in fifteens && MakeEntry(false, k, 15) in fifteens
    requires es == fifteens + LongFinishes
    ensures Plain(a, b) in es
  {
    FinishesListed(a, b);
    var e := Plain(a, b);
    if (a == 11 && b < 10) || (b == 11 && a < 10) {
      if a == 11 { assert MakeEntry(false, 11, b) in elevens; } else { assert MakeEntry(false, a, 11) in elevens; }
      assert e in mid;
      InPrefix(fifteens, |mid|, e);
    } else if (12 <= a <= 14 && b == a - 2) || (12 <= b <= 14 && a == b - 2) {
      assert e in mid;
      InPrefix(fifteens, |mid|, e);
    } else if (a == 15 && b < 14) || (b == 15 && a < 14) {
      if a == 15 { assert MakeEntry(false, 15, b) in fifteens; } else { assert MakeEntry(false, a, 15) in fifteens; }
    }
  }

  /** The fourteen set scores the tennis table starts with. */
  const FixedSets: seq<Entry> :=
    [Plain(6, 0), Plain(6, 1), Plain(6, 2), Plain(6, 3), Plain(6, 4), Plain(7, 5), Plain(7, 6),
     Plain(0, 6), Plain(1, 6), Plain(2, 6), Plain(3, 6), Plain(4, 6), Plain(5, 7), Plain(6, 7)]

  lemma FixedListed(a: nat, b: nat)
    requires TennisSet(a, b)
    ensures Plain(a, b) in FixedSets
  {
  }

  /** The Tennis and Padel branch of `get_valid_scores`. */
  method TennisScores() returns (scores: seq<string>)
    ensures |scores| == 46
    ensures forall j :: 0 <= j < |scores| ==> Listed(false, scores[j])
    ensures forall a: nat, b: nat :: TennisSet(a, b) ==> PlainScore(a, b) in scores
    ensures forall a: nat, b: nat :: TennisTieBreak(a, b) ==> TieBreakScore(a, b) in scores
  {
    ghost var es;
    scores, es := AppendEntries(false, [], [], FixedSets);
    ghost var fixed := es;
    scores, es := ExtendRace(false, true, 7, 10, scores, es);
    ghost var sevens := es;
    scores, es := ExtendRace(false, true, 10, 6, scores, es);
    RendersListed(false, scores, es);
    forall a: nat, b: nat | TennisSet(a, b) ensures PlainScore(a, b) in scores {
      TennisSetInTable(a, b, fixed, sevens, es);
      RendersIn(false, scores, es, Plain(a, b));
    }
    forall a: nat, b: nat | TennisTieBreak(a, b) ensures TieBreakScore(a, b) in scores {
      TieBreakInTable(a, b, sevens, es);
      RendersIn(false, scores, es, TieBreak(a, b));
    }
  }

  lemma TennisSetInTable(a: nat, b: nat, fixed: seq<Entry>, sevens: seq<Entry>, es: seq<Entry>)
    requires TennisSet(a, b)
    requires fixed == FixedSets
    requires |sevens| >= |fixed| && sevens[..|fixed|] == fixed
    requires |es| >= |sevens| && es[..|sevens|] == sevens
    ensures Plain(a, b) in es
  {
    FixedListed(a, b);
    InPrefix(sevens, |fixed|, Plain(a, b));
    InPrefix(es, |sevens|, Plain(a, b));
  }

  lemma TieBreakInTable(a: nat, b: nat, sevens: seq<Entry>, es: seq<Entry>)
    requires TennisTieBreak(a, b)
    requires forall k: nat :: k < 10 ==> MakeEntry(true, 7, k) in sevens && MakeEntry(true, k, 7) in sevens
    requires |es| >= |sevens| && es[..|sevens|] == sevens
    requires forall k: nat :: k < 6 ==> MakeEntry(true, 10, k) in es && MakeEntry(true, k, 10) in es
    ensures TieBreak(a, b) in es
  {
    var e := TieBreak(a, b);
    if a == 7 {
      assert e == MakeEntry(true, 7, b);
      InPrefix(es, |sevens|, e);
    } else if b == 7 {
      assert e == MakeEntry(true, a, 7);
      InPrefix(es, |sevens|, e);
    } else if a == 10 {
      assert e == MakeEntry(true, 10, b);
    } else {
      assert e == MakeEntry(true, a, 10);
    }
  }

  /** Every entry of the table decodes to a decided set: the two teams never
      get the same number of games, so no listed score is dropped. */
  lemma ListedDecodes(pickleball: bool, s: string)
    requires Listed(pickleball, s)
    ensures DecodeSet(s).Games? && DecodeSet(s).team1 != DecodeSet(s).team2
  {
    var e :| ValidEntry(pickleball, e) && s == Render(e);
    if e.Plain? {
      PlainDecodes(pickleball, e.a, e.b);
    } else {
      DecodeTieBreak(e.a, e.b);
    }
  }

  lemma PlainDecodes(pickleball: bool, a: nat, b: nat)
    requires PlainEntry(pickleball, a, b)
    ensures DecodeSet(PlainScore(a, b)) == Games(a, b, false) && a != b
  {
    DecodePlain(a, b);
  }

  /** Under Pickleball the extended finishes 12-10 to 17-15 are clutch sets and
      the clean wins 11-0 to 11-8 and 15-0 to 15-12 are not. */
  lemma PickleballClutch(a: nat, b: nat)
    requires PickleballGame(a, b)
    ensures MakesClutch(DecodeSet(PlainScore(a, b)), true) <==>
            (if a >= b then a - b else b - a) <= 2
  {
    DecodePlain(a, b);
  }

  /** The tennis table lists "Tie Break 7-7" (twice: once from each loop), and
      the decoder credits that set to team 2 as 6-7. */
  lemma SevenAllTieBreak()
    ensures TennisTieBreak(7, 7)
    ensures DecodeSet(TieBreakScore(7, 7)) == Games(6, 7, true)
  {
    DecodeTieBreak(7, 7);
  }
}
