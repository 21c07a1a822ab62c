/** The order `calculate_rankings` replays the matches in: `sort_values('date')`
    on the match table (patchmoint-tennis.py:694), and the view filter on the
    match type (patchmoint-tennis.py:1389-1390). */
module Schedule {
  import opened Book

  /** Inserting a match behind every match not later than it, the step of a
      stable sort. */
  function InsertByDate(s: seq<Match>, x: Match): seq<Match>
  {
    if s == [] || s[|s| - 1].date <= x.date then s + [x]
    else InsertByDate(s[..|s| - 1], x) + [s[|s| - 1]]
  }

  /** The matches in ascending date order, matches of one date in their
      table order. */
  function SortByDate(ms: seq<Match>): seq<Match>
  {
    if ms == [] then [] else InsertByDate(SortByDate(ms[..|ms| - 1]), ms[|ms| - 1])
  }

  predicate ByDate(s: seq<Match>) {
    forall i, j :: 0 <= i < j < |s| ==> s[i].date <= s[j].date
  }

  /** The matches of `s` played on `date`, in the order of `s`. */
  function OnDate(s: seq<Match>, date: int): seq<Match>
  {
    if s == [] then []
    else OnDate(s[..|s| - 1], date) + if s[|s| - 1].date == date then [s[|s| - 1]] else []
  }

  lemma {:induction false} InsertPerm(s: seq<Match>, x: Match)
    ensures multiset(InsertByDate(s, x)) == multiset(s) + multiset{x}
  {
    if s != [] && s[|s| - 1].date > x.date {
      var init := s[..|s| - 1];
      InsertPerm(init, x);
      assert s == init + [s[|s| - 1]];
    }
  }

  /** Sorting permutes the matches: every match is replayed, once. */
  lemma {:induction false} SortPerm(ms: seq<Match>)
    ensures multiset(SortByDate(ms)) == multiset(ms)
  {
    if ms != [] {
      var init := ms[..|ms| - 1];
      SortPerm(init);
      InsertPerm(SortByDate(init), ms[|ms| - 1]);
      assert ms == init + [ms[|ms| - 1]];
    }
  }

  lemma {:induction false} InsertSorted(s: seq<Match>, x: Match)
    requires ByDate(s)
    ensures ByDate(InsertByDate(s, x))
  {
    if s != [] {
      var init, last := s[..|s| - 1], s[|s| - 1];
      if last.date > x.date {
        assert ByDate(init);
        InsertSorted(init, x);
        var r := InsertByDate(init, x);
        InsertPerm(init, x);
        forall i | 0 <= i < |r| ensures r[i].date <= last.date {
          assert r[i] in multiset(r);
          if r[i] != x {
            assert r[i] in init;
            var k :| 0 <= k < |init| && init[k] == r[i];
            assert s[k].date <= s[|s| - 1].date;
          }
        }
      }
    }
  }

  /** The replay order is non-decreasing in date. */
  lemma {:induction false} SortSorted(ms: seq<Match>)
    ensures ByDate(SortByDate(ms))
  {
    if ms != [] {
      SortSorted(ms[..|ms| - 1]);
      InsertSorted(SortByDate(ms[..|ms| - 1]), ms[|ms| - 1]);
    }
  }

  lemma {:induction false} OnDateAppend(s: seq<Match>, t: seq<Match>, date: int)
    ensures OnDate(s + t, date) == OnDate(s, date) + OnDate(t, date)
    decreases |t|
  {
    if t == [] {
      assert s + t == s;
    } else {
      var t0 := t[..|t| - 1];
      assert (s + t)[..|s + t| - 1] == s + t0;
      OnDateAppend(s, t0, date);
    }
  }

  lemma OnDateSingle(m: Match, date: int)
    ensures OnDate([m], date) == if m.date == date then [m] else []
  {
    assert [m][..0] == [];
  }

  /** A match inserted by date comes after every match of its own date. */
  lemma {:induction false} InsertStable(s: seq<Match>, x: Match, date: int)
    ensures OnDate(InsertByDate(s, x), date) == OnDate(s, date) + OnDate([x], date)
  {
    if s == [] || s[|s| - 1].date <= x.date {
      OnDateAppend(s, [x], date);
    } else {
      var init, last := s[..|s| - 1], s[|s| - 1];
      assert s == init + [last];
      OnDateSingle(x, date);
      OnDateSingle(last, date);
      var a, bx, bl := OnDate(init, date), OnDate([x], date), OnDate([last], date);
      assert bx == [] || bl == [];
      calc {
        OnDate(InsertByDate(s, x), date);
        OnDate(InsertByDate(init, x) + [last], date);
        { OnDateAppend(InsertByDate(init, x), [last], date); }
        OnDate(InsertByDate(init, x), date) + bl;
        { InsertStable(init, x, date); }
        a + bx + bl;
        { assert a + bx + bl == a + bl + bx; }
        a + bl + bx;
        { OnDateAppend(init, [last], date); }
        OnDate(s, date) + bx;
      }
    }
  }

  /** Matches of one date are replayed in their table order. */
  lemma {:induction false} SortStable(ms: seq<Match>, date: int)
    ensures OnDate(SortByDate(ms), date) == OnDate(ms, date)
  {
    if ms != [] {
      var init, last := ms[..|ms| - 1], ms[|ms| - 1];
      assert ms == init + [last];
      calc {
        OnDate(SortByDate(ms), date);
        OnDate(InsertByDate(SortByDate(init), last), date);
        { InsertStable(SortByDate(init), last, date); }
        OnDate(SortByDate(init), date) + OnDate([last], date);
        { SortStable(init, date); }
        OnDate(init, date) + OnDate([last], date);
        { OnDateAppend(init, [last], date); }
        OnDate(ms, date);
      }
    }
  }

  /** A match shown in a ranking view: the "Doubles" view keeps doubles and
      mixed doubles, the "Singles" view singles, every other view all
      matches. */
  predicate InView(m: Match, view: string) {
    if view == "Doubles" then m.matchType == "Doubles" || m.matchType == "Mixed Doubles"
    else if view == "Singles" then m.matchType == "Singles"
    else true
  }

  /** The match table a view ranks, rows in their table order. */
  function ViewMatches(ms: seq<Match>, view: string): seq<Match>
  {
    if ms == [] then []
    else ViewMatches(ms[..|ms| - 1], view) + if InView(ms[|ms| - 1], view) then [ms[|ms| - 1]] else []
  }

  /** A view keeps every occurrence of a match of its type and none of the
      others. */
  lemma {:induction false} ViewMatchesCount(ms: seq<Match>, view: string, m: Match)
    ensures multiset(ViewMatches(ms, view))[m] == if InView(m, view) then multiset(ms)[m] else 0
  {
    if ms != [] {
      var init, last := ms[..|ms| - 1], ms[|ms| - 1];
      ViewMatchesCount(init, view, m);
      assert ms == init + [last];
    }
  }

  /** `idx` picks `sub` out of `ms`: increasing positions of `ms` holding the
      elements of `sub` in turn. */
  predicate Picks(ms: seq<Match>, sub: seq<Match>, idx: seq<nat>) {
    && |idx| == |sub|
    && (forall k :: 0 <= k < |idx| ==> idx[k] < |ms| && sub[k] == ms[idx[k]])
    && (forall k, l :: 0 <= k < l < |idx| ==> idx[k] < idx[l])
  }

  /** The positions of the matches a view keeps. */
  function ViewPositions(ms: seq<Match>, view: string): seq<nat>
  {
    if ms == [] then []
    else ViewPositions(ms[..|ms| - 1], view) + if InView(ms[|ms| - 1], view) then [|ms| - 1] else []
  }

  lemma {:induction false} ViewPositionsPick(ms: seq<Match>, view: string)
    ensures Picks(ms, ViewMatches(ms, view), ViewPositions(ms, view))
  {
    if ms != [] {
      var init, last := ms[..|ms| - 1], ms[|ms| - 1];
      ViewPositionsPick(init, view);
      var v, idx := ViewMatches(init, view), ViewPositions(init, view);
      assert forall k :: 0 <= k < |idx| ==> idx[k] < |init| && ms[idx[k]] == init[idx[k]];
    }
  }

  /** A view keeps its matches in table order: they are a subsequence of the
      table. */
  lemma ViewSubsequence(ms: seq<Match>, view: string)
    ensures exists idx :: Picks(ms, ViewMatches(ms, view), idx)
  {
    ViewPositionsPick(ms, view);
  }

  /** The views other than "Doubles" and "Singles" rank the whole table. */
  lemma {:induction false} ViewMatchesAll(ms: seq<Match>, view: string)
    requires view != "Doubles" && view != "Singles"
    ensures ViewMatches(ms, view) == ms
  {
    if ms != [] {
      ViewMatchesAll(ms[..|ms| - 1], view);
      assert ms == ms[..|ms| - 1] + [ms[|ms| - 1]];
    }
  }
}
