/** The `defaultdict` passes of the ranking engine: `for p in players: d[p] = f(d[p])`,
    where a missing key reads as the dictionary's default. A name may occur
    more than once in `players`; it is then updated once per occurrence. */
module Dicts {

  /** `d[k]` on a `defaultdict` whose factory yields `dflt` (the read itself
      inserting the default is immaterial to every later read). */
  function Get<V>(m: map<string, V>, k: string, dflt: V): V {
    if k in m then m[k] else dflt
  }

  /** Applies `f` to the entry of each name in `ps`, left to right. */
  function ForEach<V>(m: map<string, V>, ps: seq<string>, dflt: V, f: V -> V): map<string, V>
  {
    if ps == [] then m
    else
      var m' := ForEach(m, ps[..|ps| - 1], dflt, f);
      var p := ps[|ps| - 1];
      m'[p := f(Get(m', p, dflt))]
  }

  /** One more name of the pass: the loop step `d[p] = f(d[p])`. */
  lemma ForEachPrefix<V>(m: map<string, V>, ps: seq<string>, i: nat, dflt: V, f: V -> V)
    requires i < |ps|
    ensures ForEach(m, ps[..i + 1], dflt, f) ==
            ForEach(m, ps[..i], dflt, f)[ps[i] := f(Get(ForEach(m, ps[..i], dflt, f), ps[i], dflt))]
  {
    assert ps[..i + 1][..i] == ps[..i];
  }

  /** Number of occurrences of `x` in `s`. */
  function Count<T(==)>(s: seq<T>, x: T): nat
  {
    if s == [] then 0 else Count(s[..|s| - 1], x) + (if s[|s| - 1] == x then 1 else 0)
  }

  /** `f` applied `n` times. */
  function Iterate<V>(f: V -> V, n: nat, x: V): V
  {
    if n == 0 then x else f(Iterate(f, n - 1, x))
  }

  /** `x in s` exactly when it occurs in `s` at least once. */
  lemma {:induction false} CountPositive<T>(s: seq<T>, x: T)
    ensures Count(s, x) > 0 <==> x in s
  {
    if s != [] {
      CountPositive(s[..|s| - 1], x);
      assert s == s[..|s| - 1] + [s[|s| - 1]];
    }
  }

  lemma CountAppend<T>(s: seq<T>, t: seq<T>, x: T)
    ensures Count(s + t, x) == Count(s, x) + Count(t, x)
    decreases |t|
  {
    if t == [] {
      assert s + t == s;
    } else {
      assert (s + t)[..|s + t| - 1] == s + t[..|t| - 1];
      CountAppend(s, t[..|t| - 1], x);
    }
  }

  /** The pass adds the names of `ps` to the keys and no other. */
  lemma {:induction false} ForEachKeys<V>(m: map<string, V>, ps: seq<string>, dflt: V, f: V -> V)
    ensures ForEach(m, ps, dflt, f).Keys == m.Keys + set p | p in ps
  {
    if ps != [] {
      var init := ps[..|ps| - 1];
      ForEachKeys(m, init, dflt, f);
      assert ps == init + [ps[|ps| - 1]];
      assert (set p | p in ps) == (set p | p in init) + {ps[|ps| - 1]};
    }
  }

  /** After the pass, the entry of each name is `f` applied once per
      occurrence of the name to what it was before; a name that does not
      occur keeps its entry (or its absence). */
  lemma {:induction false} ForEachAt<V>(m: map<string, V>, ps: seq<string>, dflt: V, f: V -> V, k: string)
    ensures Get(ForEach(m, ps, dflt, f), k, dflt) == Iterate(f, Count(ps, k), Get(m, k, dflt))
    ensures k !in ps ==> (k in ForEach(m, ps, dflt, f) <==> k in m)
  {
    if ps != [] {
      var init := ps[..|ps| - 1];
      ForEachAt(m, init, dflt, f, k);
      assert ps == init + [ps[|ps| - 1]];
    }
  }

  /** A property every entry and the default have, and that `f` keeps, holds
      of every entry after the pass. */
  lemma {:induction false} ForEachKeeps<V>(m: map<string, V>, ps: seq<string>, dflt: V, f: V -> V, P: V -> bool)
    requires forall k :: k in m ==> P(m[k])
    requires P(dflt)
    requires forall x :: P(x) ==> P(f(x))
    ensures forall k :: k in ForEach(m, ps, dflt, f) ==> P(ForEach(m, ps, dflt, f)[k])
  {
    if ps != [] {
      var m' := ForEach(m, ps[..|ps| - 1], dflt, f);
      ForEachKeeps(m, ps[..|ps| - 1], dflt, f, P);
      var p := ps[|ps| - 1];
      var v := Get(m', p, dflt);
      if p in m' { assert P(m'[p]); }
      assert P(v);
      assert P(f(v));
    }
  }

  /** A name occurring once in a pass is updated exactly once. */
  lemma ForEachOnce<V>(m: map<string, V>, ps: seq<string>, dflt: V, f: V -> V, k: string)
    requires Count(ps, k) == 1
    ensures Get(ForEach(m, ps, dflt, f), k, dflt) == f(Get(m, k, dflt))
  {
    ForEachAt(m, ps, dflt, f, k);
  }

  /** `order` extended, left to right, with each name of `ps` that it does
      not hold yet: the insertion order of a dictionary's keys. */
  function Enroll(order: seq<string>, ps: seq<string>): seq<string>
  {
    if ps == [] then order
    else
      var o := Enroll(order, ps[..|ps| - 1]);
      var p := ps[|ps| - 1];
      if p in o then o else o + [p]
  }

  lemma EnrollPrefix(order: seq<string>, ps: seq<string>, i: nat)
    requires i < |ps|
    ensures Enroll(order, ps[..i + 1]) ==
            if ps[i] in Enroll(order, ps[..i]) then Enroll(order, ps[..i]) else Enroll(order, ps[..i]) + [ps[i]]
  {
    assert ps[..i + 1][..i] == ps[..i];
  }

  predicate NoDuplicates<T(==)>(s: seq<T>) {
    forall i, j :: 0 <= i < j < |s| ==> s[i] != s[j]
  }

  /** Enrolling keeps the old order as a prefix, holds exactly the old names
      and those of `ps`, and never lists a name twice. */
  lemma {:induction false} EnrollProps(order: seq<string>, ps: seq<string>)
    requires NoDuplicates(order)
    ensures var o := Enroll(order, ps);
            NoDuplicates(o) && |o| >= |order| && o[..|order|] == order &&
            (set x | x in o) == (set x | x in order) + (set x | x in ps)
  {
    if ps != [] {
      var init := ps[..|ps| - 1];
      EnrollProps(order, init);
      assert ps == init + [ps[|ps| - 1]];
      assert (set x | x in ps) == (set x | x in init) + {ps[|ps| - 1]};
      var o := Enroll(order, init);
      var p := ps[|ps| - 1];
      if p !in o {
        assert (o + [p])[..|order|] == o[..|order|];
        assert (set x | x in o + [p]) == (set x | x in o) + {p};
      }
    }
  }
}
