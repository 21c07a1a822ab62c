/** `generate_match_id` (patchmoint-tennis.py:637-649): the identifier of a
    new match, `MMDQ<quarter><year>-<serial>` with the serial written with at
    least two digits, starting after the matches already recorded in the same
    quarter and moving past identifiers that are taken. */
module MatchId {
  import opened Text

  /** A calendar date, as far as the identifier uses it. */
  datatype Stamp = Stamp(year: nat, month: int)

  /** A row of the match table: its date (`None` where the date column does
      not parse) and its identifier. */
  datatype IdRow = IdRow(date: Option<Stamp>, matchId: string)

  /** `(month - 1) // 3 + 1`. */
  function Quarter(month: int): (q: int)
    ensures 1 <= month <= 12 ==> 1 <= q <= 4
  {
    (month - 1) / 3 + 1
  }

  function MatchIdPrefix(quarter: nat, year: nat): string {
    "MMDQ" + Decimal(quarter) + Decimal(year) + "-"
  }

  /** `f"MMD{quarter}{year}-{serial:02d}"` with `quarter` already `Q<n>`. */
  function MatchId(quarter: nat, year: nat, serial: nat): string {
    MatchIdPrefix(quarter, year) + Pad2(serial)
  }

  /** The rows dated in `year` and in quarter `q`: the mask's sum. */
  function CountQuarter(rows: seq<IdRow>, year: nat, q: int): nat {
    if rows == [] then 0
    else
      var d := rows[|rows| - 1].date;
      CountQuarter(rows[..|rows| - 1], year, q) + if d.Some? && d.value.year == year && Quarter(d.value.month) == q then 1 else 0
  }

  function Ids(rows: seq<IdRow>): (ids: seq<string>)
    ensures |ids| == |rows| && forall i :: 0 <= i < |rows| ==> ids[i] == rows[i].matchId
  {
    seq(|rows|, i requires 0 <= i < |rows| => rows[i].matchId)
  }

  /** The first serial tried: one more than the matches of the quarter. */
  function Start(rows: seq<IdRow>, at: Stamp): nat {
    if rows == [] then 1 else CountQuarter(rows, at.year, Quarter(at.month)) + 1
  }

  /** Within one quarter and year, different serials give different
      identifiers. */
  lemma SerialInjective(quarter: nat, year: nat, m: nat, n: nat)
    requires MatchId(quarter, year, m) == MatchId(quarter, year, n)
    ensures m == n
  {
    var p := MatchIdPrefix(quarter, year);
    assert Pad2(m) == MatchId(quarter, year, m)[|p|..];
    assert Pad2(n) == MatchId(quarter, year, n)[|p|..];
    Pad2Injective(m, n);
  }

  /** A run of digits followed by `-` can be split off only one way. */
  lemma SplitAtDash(a: string, b: string, c: string, d: string)
    requires AllDigits(a) && AllDigits(c) && a + "-" + b == c + "-" + d
    ensures a == c && b == d
  {
    var l := a + "-" + b;
    FirstDash(l, a, b);
    FirstDash(l, c, d);
    assert a == l[..|a|] && c == l[..|c|];
    assert b == l[|a| + 1..] && d == l[|c| + 1..];
  }

  lemma FirstDash(s: string, a: string, b: string)
    requires AllDigits(a) && s == a + "-" + b
    ensures |a| < |s| && s[|a|] == '-' && forall i :: 0 <= i < |a| ==> s[i] != '-'
  {
    forall i | 0 <= i < |a| ensures s[i] != '-' {
      assert s[i] == a[i] && IsDigit(a[i]);
    }
  }

  /** An identifier is the fixed letters, one quarter digit and the rest. */
  lemma MatchIdShape(q: nat, y: nat, n: nat)
    requires 1 <= q <= 4
    ensures MatchId(q, y, n) == "MMDQ" + [DigitChar(q)] + (Decimal(y) + "-" + Pad2(n))
  {
  }

  /** Identifiers of quarters `1..4` determine their quarter, year and
      serial. */
  lemma MatchIdInjective(q1: nat, y1: nat, n1: nat, q2: nat, y2: nat, n2: nat)
    requires 1 <= q1 <= 4 && 1 <= q2 <= 4
    requires MatchId(q1, y1, n1) == MatchId(q2, y2, n2)
    ensures q1 == q2 && y1 == y2 && n1 == n2
  {
    MatchIdShape(q1, y1, n1);
    MatchIdShape(q2, y2, n2);
    var rest1, rest2 := Decimal(y1) + "-" + Pad2(n1), Decimal(y2) + "-" + Pad2(n2);
    var l := MatchId(q1, y1, n1);
    assert l[4] == DigitChar(q1) == DigitChar(q2);
    assert rest1 == l[5..] == rest2;
    SplitAtDash(Decimal(y1), Pad2(n1), Decimal(y2), Pad2(n2));
    DecimalRoundTrip(y1);
    DecimalRoundTrip(y2);
    Pad2Injective(n1, n2);
  }

  /** A set inside another is no larger. */
  lemma {:induction false} SubsetSize<T>(a: set<T>, b: set<T>)
    requires a <= b
    ensures |a| <= |b|
    decreases |a|
  {
    if a != {} {
      var x :| x in a;
      SubsetSize(a - {x}, b - {x});
    }
  }

  /** The identifier returned is not taken, carries the quarter and year of
      `at`, and its serial is the first free one from `Start(rows, at)`. */
  method GenerateMatchId(rows: seq<IdRow>, at: Stamp) returns (id: string)
    requires 1 <= at.month <= 12
    ensures id !in Ids(rows)
    ensures exists n: nat :: n >= Start(rows, at) && id == MatchId(Quarter(at.month), at.year, n) &&
              forall s: nat :: Start(rows, at) <= s < n ==> MatchId(Quarter(at.month), at.year, s) in Ids(rows)
  {
    var q := Quarter(at.month);
    var serial: nat := if rows == [] then 1 else CountQuarter(rows, at.year, q) + 1;
    ghost var all := set x | x in Ids(rows);
    ghost var taken: set<string> := {};
    while true
      invariant serial >= Start(rows, at)
      invariant forall s: nat :: Start(rows, at) <= s < serial ==> MatchId(q, at.year, s) in Ids(rows)
      invariant taken <= all && |taken| == serial - Start(rows, at)
      invariant forall x :: x in taken ==> exists s: nat :: Start(rows, at) <= s < serial && x == MatchId(q, at.year, s)
      decreases |all| - |taken|
    {
      id := MatchId(q, at.year, serial);
      if rows == [] || id !in Ids(rows) {
        return;
      }
      if id in taken {
        var s: nat :| Start(rows, at) <= s < serial && id == MatchId(q, at.year, s);
        SerialInjective(q, at.year, s, serial);
        assert false;
      }
      forall s: nat | Start(rows, at) <= s < serial + 1
        ensures MatchId(q, at.year, s) in Ids(rows)
      {
        if s == serial { assert MatchId(q, at.year, s) == id; }
      }
      SubsetSize(taken + {id}, all);
      taken := taken + {id};
      serial := serial + 1;
    }
  }
}
