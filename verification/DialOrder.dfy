/** Building the dial order step by step, for every random choice. */
module DialOrder {
  import opened Order
  import opened Draw

  /** A random number below n; anything in range may come out. */
  method Intn(n: nat) returns (r: nat)
    requires n > 0
    ensures r < n
  {
    r :| 0 <= r < n;
  }

  /** Weights of a group as the shuffle sees them: at least one each. */
  function ShuffleWeights(cands: seq<Candidate>, group: seq<nat>): (w: seq<nat>)
    requires Within(cands, group)
    ensures |w| == |group|
    ensures forall k | 0 <= k < |w| :: w[k] == if cands[group[k]].weight < 1 then 1 else cands[group[k]].weight
  {
    seq(|group|, k requires 0 <= k < |group| => if cands[group[k]].weight < 1 then 1 else cands[group[k]].weight)
  }

  function Shares(cands: seq<Candidate>, group: seq<nat>): (w: seq<nat>)
    requires Within(cands, group)
    ensures |w| == |group| && forall k | 0 <= k < |w| :: w[k] == Share(cands[group[k]])
  {
    seq(|group|, k requires 0 <= k < |group| => Share(cands[group[k]]))
  }

  method SumWeights(weights: seq<nat>) returns (total: nat)
    ensures total == Total(weights)
    ensures |weights| > 0 && (forall k | 0 <= k < |weights| :: weights[k] > 0) ==> total > 0
  {
    total := 0;
    for i := 0 to |weights|
      invariant total == Total(weights[..i])
      invariant i > 0 && (forall k | 0 <= k < |weights| :: weights[k] > 0) ==> total > 0
    {
      assert weights[..i + 1][..i] == weights[..i];
      total := total + weights[i];
    }
    assert weights[..|weights|] == weights;
  }

  lemma RemoveOne(g: seq<nat>, j: nat)
    requires j < |g|
    ensures multiset(g[..j] + g[j + 1..]) + multiset{g[j]} == multiset(g)
  {
    assert g == g[..j] + [g[j]] + g[j + 1..];
  }

  lemma FirstInterval(weights: seq<nat>, j: nat)
    requires j < |weights| && weights[0] > 0 && FallsOn(weights, 0, j)
    ensures j == 0
  {
    assert weights[..0] == [];
    assert FallsOn(weights, 0, 0);
    FallsOnUnique(weights, 0, 0, j);
  }

  /** One draw: the group member whose interval of the total weight the pick falls on; the first without randomness. */
  method DrawFrom(cands: seq<Candidate>, g: seq<nat>, rnd: bool) returns (chosen: nat, ghost pick: nat)
    requires Within(cands, g) && |g| > 0
    ensures chosen < |g| && pick < Total(ShuffleWeights(cands, g)) && FallsOn(ShuffleWeights(cands, g), pick, chosen)
    ensures !rnd ==> chosen == 0
  {
    var weights := ShuffleWeights(cands, g);
    var total := SumWeights(weights);
    var p := 0;
    if rnd {
      p := Intn(total);
    }
    chosen := Choose(weights, p);
    pick := p;
    if !rnd {
      FirstInterval(weights, chosen);
    }
  }

  /** Moving an element from g to the end of out keeps all elements, and the order when it is the first. */
  lemma MoveOne(out: seq<nat>, g: seq<nat>, j: nat)
    requires j < |g|
    ensures multiset(out + [g[j]]) + multiset(g[..j] + g[j + 1..]) == multiset(out) + multiset(g)
    ensures j == 0 ==> out + [g[j]] + (g[..j] + g[j + 1..]) == out + g
  {
    RemoveOne(g, j);
  }

  /** Each member is drawn by exactly its weight, at least one, of the possible picks. */
  lemma ShuffleIsProportional(cands: seq<Candidate>, group: seq<nat>, j: nat)
    requires Within(cands, group) && j < |group|
    ensures |PicksFor(ShuffleWeights(cands, group), j)|
        == if cands[group[j]].weight < 1 then 1 else cands[group[j]].weight
  {
    DrawsAreProportional(ShuffleWeights(cands, group), j);
  }

  /** And in percent mode by exactly its share. */
  lemma PercentIsProportional(cands: seq<Candidate>, rest: seq<nat>, j: nat)
    requires Within(cands, rest) && j < |rest|
    ensures |PicksFor(Shares(cands, rest), j)| == Share(cands[rest[j]])
  {
    DrawsAreProportional(Shares(cands, rest), j);
  }

  /** One draw of a shuffle: the members still there, the pick, and the position it fell on. */
  datatype Turn = Turn(from: seq<nat>, pick: nat, at: nat)

  ghost predicate IsTurn(cands: seq<Candidate>, t: Turn) {
    && Within(cands, t.from) && t.at < |t.from|
    && t.pick < Total(ShuffleWeights(cands, t.from)) && FallsOn(ShuffleWeights(cands, t.from), t.pick, t.at)
  }

  function Without(g: seq<nat>, j: nat): (rest: seq<nat>)
    requires j < |g|
    ensures |rest| == |g| - 1
  {
    g[..j] + g[j + 1..]
  }

  lemma WithoutStaysWithin(cands: seq<Candidate>, g: seq<nat>, j: nat)
    requires Within(cands, g) && j < |g|
    ensures Within(cands, Without(g, j))
  {
    var rest := Without(g, j);
    assert forall k | 0 <= k < |rest| :: rest[k] == g[if k < j then k else k + 1];
  }

  lemma FirstMoves(out: seq<nat>, g: seq<nat>)
    requires |g| > 0
    ensures out + [g[0]] + Without(g, 0) == out + g
  {
  }

  /** out was drawn from the group turn by turn, each time from what the turn before left; rest is left over. */
  ghost predicate DrawnInTurns(cands: seq<Candidate>, group: seq<nat>, turns: seq<Turn>, out: seq<nat>,
                               rest: seq<nat>) {
    TakenInTurns(group, turns, out, rest) && forall i | 0 <= i < |turns| :: IsTurn(cands, turns[i])
  }

  /** Each turn takes one member of what the turns before left. */
  ghost predicate TakenInTurns(group: seq<nat>, turns: seq<Turn>, out: seq<nat>, rest: seq<nat>) {
    if turns == [] then out == [] && rest == group
    else
      var t := turns[|turns| - 1];
      && t.at < |t.from| && |out| > 0 && out[|out| - 1] == t.from[t.at] && rest == Without(t.from, t.at)
      && TakenInTurns(group, turns[..|turns| - 1], out[..|out| - 1], t.from)
  }

  lemma NextTurn(cands: seq<Candidate>, group: seq<nat>, turns: seq<Turn>, out: seq<nat>, t: Turn)
    requires DrawnInTurns(cands, group, turns, out, t.from) && IsTurn(cands, t)
    ensures DrawnInTurns(cands, group, turns + [t], out + [t.from[t.at]], Without(t.from, t.at))
  {
    assert (turns + [t])[..|turns|] == turns;
    assert (out + [t.from[t.at]])[..|out|] == out;
  }

  /** Whatever the picks, the drawn members and those left over are the group. */
  lemma {:induction false} TurnsPermute(group: seq<nat>, turns: seq<Turn>, out: seq<nat>, rest: seq<nat>)
    requires TakenInTurns(group, turns, out, rest)
    ensures multiset(out) + multiset(rest) == multiset(group)
  {
    if turns != [] {
      var t, init := turns[|turns| - 1], out[..|out| - 1];
      TurnsPermute(group, turns[..|turns| - 1], init, t.from);
      assert out == init + [t.from[t.at]];
      OneTurnPermutes(init, t.from, t.at, out, rest, group);
    }
  }

  lemma OneTurnPermutes(init: seq<nat>, from: seq<nat>, at: nat, out: seq<nat>, rest: seq<nat>, group: seq<nat>)
    requires at < |from| && out == init + [from[at]] && rest == Without(from, at)
    requires multiset(init) + multiset(from) == multiset(group)
    ensures multiset(out) + multiset(rest) == multiset(group)
  {
    MoveOne(init, from, at);
  }

  /** One draw and what it leaves. */
  method TakeTurn(cands: seq<Candidate>, group: seq<nat>, g: seq<nat>, out: seq<nat>, rnd: bool, ghost turns: seq<Turn>)
    returns (left: seq<nat>, longer: seq<nat>, ghost more: seq<Turn>)
    requires Within(cands, g) && |g| > 0 && DrawnInTurns(cands, group, turns, out, g)
    ensures |left| < |g| && Within(cands, left) && DrawnInTurns(cands, group, more, longer, left)
    ensures !rnd ==> longer + left == out + g
  {
    ghost var pick: nat;
    var chosen;
    chosen, pick := DrawFrom(cands, g, rnd);
    NextTurn(cands, group, turns, out, Turn(g, pick, chosen));
    WithoutStaysWithin(cands, g, chosen);
    FirstMoves(out, g);
    more := turns + [Turn(g, pick, chosen)];
    longer := out + [g[chosen]];
    left := Without(g, chosen);
  }

  /** Order a group by repeated weighted draws; without randomness it stays as it is. */
  method WeightedShuffle(cands: seq<Candidate>, group: seq<nat>, rnd: bool)
    returns (out: seq<nat>, ghost turns: seq<Turn>)
    requires Within(cands, group)
    ensures DrawnInTurns(cands, group, turns, out, [])
    ensures multiset(out) == multiset(group)
    ensures !rnd ==> out == group
  {
    var g := group;
    out, turns := [], [];
    while |g| > 0
      invariant Within(cands, g) && DrawnInTurns(cands, group, turns, out, g)
      invariant !rnd ==> out + g == group
      decreases |g|
    {
      g, out, turns := TakeTurn(cands, group, g, out, rnd, turns);
    }
    TurnsPermute(group, turns, out, g);
  }

  /** No later element sorts strictly before an earlier one. */
  predicate KeySorted(cands: seq<Candidate>, modes: Modes, s: seq<nat>)
    requires Within(cands, s)
  {
    forall i, j | 0 <= i < j < |s| :: !Before(cands[s[j]], cands[s[i]], modes)
  }

  lemma WithinPermutation(cands: seq<Candidate>, s: seq<nat>, t: seq<nat>)
    requires Within(cands, s) && multiset(s) == multiset(t)
    ensures Within(cands, t) && |s| == |t| && forall x :: x in s <==> x in t
  {
    assert |multiset(s)| == |s| && |multiset(t)| == |t|;
    assert forall x :: x in multiset(s) <==> x in s;
    assert forall x :: x in multiset(t) <==> x in t;
    forall k | 0 <= k < |t|
      ensures t[k] < |cands|
    {
      assert t[k] in s;
    }
  }

  /** A run of equal keys, the draws that shuffled it, and their outcome. */
  datatype Run = Run(group: seq<nat>, turns: seq<Turn>, out: seq<nat>)

  ghost predicate IsRun(cands: seq<Candidate>, modes: Modes, r: Run) {
    && r.group != [] && Within(cands, r.group)
    && (forall k | 0 <= k < |r.group| :: KeyOf(cands[r.group[k]], modes) == KeyOf(cands[r.group[0]], modes))
    && DrawnInTurns(cands, r.group, r.turns, r.out, [])
  }

  /** out is s with each longest run of equal keys shuffled by weighted draws. */
  ghost predicate ShuffledRuns(cands: seq<Candidate>, modes: Modes, s: seq<nat>, runs: seq<Run>, out: seq<nat>)
    requires Within(cands, s)
    decreases |runs|
  {
    if runs == [] then s == [] && out == []
    else
      var r := runs[|runs| - 1];
      && IsRun(cands, modes, r) && |r.group| <= |s| && |r.out| <= |out|
      && var m, n := |s| - |r.group|, |out| - |r.out|;
      && s[m..] == r.group && out[n..] == r.out
      && (m > 0 ==> KeyOf(cands[s[m - 1]], modes) != KeyOf(cands[r.group[0]], modes))
      && ShuffledRuns(cands, modes, s[..m], runs[..|runs| - 1], out[..n])
  }

  lemma NextRun(cands: seq<Candidate>, modes: Modes, s: seq<nat>, start: nat, end: nat, runs: seq<Run>, out: seq<nat>,
                r: Run)
    requires Within(cands, s) && start < end <= |s| && ShuffledRuns(cands, modes, s[..start], runs, out)
    requires IsRun(cands, modes, r) && r.group == s[start..end]
    requires start > 0 ==> KeyOf(cands[s[start - 1]], modes) != KeyOf(cands[s[start]], modes)
    ensures ShuffledRuns(cands, modes, s[..end], runs + [r], out + r.out)
  {
    Cut(s, start, end);
    var more, longer := runs + [r], out + r.out;
    assert more[..|more| - 1] == runs;
    assert longer[..|out|] == out && longer[|out|..] == r.out;
  }

  lemma Cut(s: seq<nat>, start: nat, end: nat)
    requires start <= end <= |s|
    ensures s[..end][start..] == s[start..end] && s[..end][..start] == s[..start]
  {
  }

  /** Sort by key, then shuffle inside each run of equal keys. */
  method KeyedOrder(cands: seq<Candidate>, modes: Modes, idx: seq<nat>, rnd: bool)
    returns (out: seq<nat>, ghost runs: seq<Run>)
    requires Within(cands, idx) && !modes.percent && forall i, j | 0 <= i < j < |idx| :: idx[i] < idx[j]
    ensures multiset(out) == multiset(idx)
    ensures Within(cands, out) && KeySorted(cands, modes, out)
    ensures ShuffledRuns(cands, modes, StableSort(cands, modes, idx), runs, out)
    ensures !rnd ==> out == StableSort(cands, modes, idx)
  {
    var s := StableSort(cands, modes, idx);
    StableSortSorts(cands, modes, idx);
    out, runs := [], [];
    var start := 0;
    NothingKeyed(cands, modes, s);
    while start < |s|
      invariant 0 <= start <= |s| && KeyedSoFar(cands, modes, s, start, runs, out)
      invariant !rnd ==> out == s[..start]
    {
      start, out, runs := ShuffleNext(cands, modes, s, start, out, rnd, runs);
    }
    assert s[..start] == s;
  }

  lemma NothingKeyed(cands: seq<Candidate>, modes: Modes, s: seq<nat>)
    requires Within(cands, s)
    ensures KeyedSoFar(cands, modes, s, 0, [], [])
  {
  }

  /** The runs before start are shuffled into out, and a new run begins at start. */
  ghost predicate KeyedSoFar(cands: seq<Candidate>, modes: Modes, s: seq<nat>, start: nat, runs: seq<Run>,
                             out: seq<nat>)
    requires Within(cands, s) && start <= |s|
  {
    && multiset(out) == multiset(s[..start])
    && Within(cands, out) && KeySorted(cands, modes, out)
    && (0 < start < |s| ==> KeyOf(cands[s[start - 1]], modes) != KeyOf(cands[s[start]], modes))
    && ShuffledRuns(cands, modes, s[..start], runs, out)
  }

  method ShuffleNext(cands: seq<Candidate>, modes: Modes, s: seq<nat>, start: nat, out: seq<nat>, rnd: bool,
                     ghost runs: seq<Run>)
    returns (end: nat, longer: seq<nat>, ghost more: seq<Run>)
    requires Within(cands, s) && Sorted(cands, modes, s) && !modes.percent && start < |s|
    requires KeyedSoFar(cands, modes, s, start, runs, out)
    ensures start < end <= |s| && KeyedSoFar(cands, modes, s, end, more, longer)
    ensures !rnd && out == s[..start] ==> longer == s[..end]
  {
    end := EndOfRun(cands, modes, s, start);
    var group := s[start..end];
    var shuffled;
    ghost var turns: seq<Turn>;
    shuffled, turns := WeightedShuffle(cands, group, rnd);
    KeyedNext(cands, modes, s, start, end, runs, out, Run(group, turns, shuffled));
    longer, more := out + shuffled, runs + [Run(group, turns, shuffled)];
  }

  lemma KeyedNext(cands: seq<Candidate>, modes: Modes, s: seq<nat>, start: nat, end: nat, runs: seq<Run>, out: seq<nat>,
                  r: Run)
    requires Within(cands, s) && Sorted(cands, modes, s) && !modes.percent && start < end <= |s|
    requires KeyedSoFar(cands, modes, s, start, runs, out)
    requires r.group == s[start..end] && DrawnInTurns(cands, r.group, r.turns, r.out, [])
    requires multiset(r.out) == multiset(r.group)
    requires forall k | start <= k < end :: KeyOf(cands[s[k]], modes) == KeyOf(cands[s[start]], modes)
    requires end < |s| ==> KeyOf(cands[s[end - 1]], modes) != KeyOf(cands[s[end]], modes)
    ensures KeyedSoFar(cands, modes, s, end, runs + [r], out + r.out)
    ensures out == s[..start] && r.out == r.group ==> out + r.out == s[..end]
  {
    Extend(cands, modes, s, start, end, out, r.out);
    GroupIsRun(cands, modes, s, start, end, r);
    NextRun(cands, modes, s, start, end, runs, out, r);
  }

  lemma GroupIsRun(cands: seq<Candidate>, modes: Modes, s: seq<nat>, start: nat, end: nat, r: Run)
    requires Within(cands, s) && start < end <= |s|
    requires r.group == s[start..end] && DrawnInTurns(cands, r.group, r.turns, r.out, [])
    requires forall k | start <= k < end :: KeyOf(cands[s[k]], modes) == KeyOf(cands[s[start]], modes)
    ensures IsRun(cands, modes, r)
  {
  }

  /** Where the run of equal keys that begins at start ends. */
  method EndOfRun(cands: seq<Candidate>, modes: Modes, s: seq<nat>, start: nat) returns (end: nat)
    requires Within(cands, s) && start < |s|
    ensures start < end <= |s|
    ensures forall k | start <= k < end :: KeyOf(cands[s[k]], modes) == KeyOf(cands[s[start]], modes)
    ensures end < |s| ==> KeyOf(cands[s[end - 1]], modes) != KeyOf(cands[s[end]], modes)
  {
    end := start + 1;
    while end < |s| && KeyOf(cands[s[end]], modes) == KeyOf(cands[s[start]], modes)
      invariant start < end <= |s|
      invariant forall k | start <= k < end :: KeyOf(cands[s[k]], modes) == KeyOf(cands[s[start]], modes)
    {
      end := end + 1;
    }
  }

  lemma Extend(cands: seq<Candidate>, modes: Modes, s: seq<nat>, start: nat, end: nat, out: seq<nat>,
               shuffled: seq<nat>)
    requires Within(cands, s) && Sorted(cands, modes, s) && !modes.percent && start <= end <= |s|
    requires multiset(out) == multiset(s[..start]) && Within(cands, out) && KeySorted(cands, modes, out)
    requires multiset(shuffled) == multiset(s[start..end])
    requires forall k | start <= k < end :: KeyOf(cands[s[k]], modes) == KeyOf(cands[s[start]], modes)
    ensures multiset(out + shuffled) == multiset(s[..end])
    ensures Within(cands, out + shuffled) && KeySorted(cands, modes, out + shuffled)
    ensures out == s[..start] && shuffled == s[start..end] ==> out + shuffled == s[..end]
  {
    assert s[..end] == s[..start] + s[start..end];
    WithinPermutation(cands, s[start..end], shuffled);
    WithinPermutation(cands, s[..start], out);
    forall k | 0 <= k < |shuffled|
      ensures KeyOf(cands[shuffled[k]], modes) == KeyOf(cands[s[start]], modes)
    {
      assert shuffled[k] in s[start..end];
    }
    forall k | 0 <= k < |out| && start < end
      ensures !Before(cands[s[start]], cands[out[k]], modes)
    {
      assert out[k] in s[..start];
      var m :| 0 <= m < start && s[..start][m] == out[k];
      assert InOrder(cands, modes, s[m], s[start]);
    }
  }

  // ---- percent mode ----

  /** The position of the carrier to try first: drawn by share, or the head when nobody has a share
      or there is no randomness. */
  method DrawFirst(cands: seq<Candidate>, rest: seq<nat>, rnd: bool) returns (first: nat, ghost pick: nat)
    requires Within(cands, rest) && |rest| > 0
    ensures first < |rest|
    ensures if rnd && Total(Shares(cands, rest)) > 0 then DrawnBy(cands, rest, pick, first) else first == 0
  {
    var weights := Shares(cands, rest);
    var total := SumWeights(weights);
    first, pick := 0, 0;
    if total > 0 && rnd {
      var p := Intn(total);
      first := Choose(weights, p);
      pick := p;
    }
  }

  function ToFront(s: seq<nat>, f: nat): seq<nat>
    requires f < |s|
  {
    [s[f]] + (s[..f] + s[f + 1..])
  }

  lemma ToFrontKeeps(cands: seq<Candidate>, modes: Modes, s: seq<nat>, f: nat)
    requires f < |s| && Within(cands, s) && Sorted(cands, modes, s)
    ensures multiset(ToFront(s, f)) == multiset(s) && Within(cands, ToFront(s, f))
    ensures Within(cands, ToFront(s, f)[1..]) && Sorted(cands, modes, ToFront(s, f)[1..])
  {
    RemoveOne(s, f);
    WithinPermutation(cands, s, ToFront(s, f));
    assert ToFront(s, f)[1..] == s[..f] + s[f + 1..];
    RemoveKeepsSorted(cands, modes, s, f);
  }

  lemma RemoveKeepsSorted(cands: seq<Candidate>, modes: Modes, s: seq<nat>, f: nat)
    requires f < |s| && Within(cands, s) && Sorted(cands, modes, s)
    ensures var t := s[..f] + s[f + 1..];
      Within(cands, t) && Sorted(cands, modes, t)
  {
    var t := s[..f] + s[f + 1..];
    assert forall i | 0 <= i < |t| :: t[i] == s[if i < f then i else i + 1];
  }

  /** Draw the first by share, then the others by descending share. */
  method PercentOrder(cands: seq<Candidate>, modes: Modes, idx: seq<nat>, rnd: bool)
    returns (out: seq<nat>, ghost first: nat, ghost pick: nat)
    requires Within(cands, idx) && modes.percent && forall i, j | 0 <= i < j < |idx| :: idx[i] < idx[j]
    ensures multiset(out) == multiset(idx) && Within(cands, out)
    ensures idx == [] ==> out == []
    ensures idx != [] ==>
      var rest := StableSort(cands, modes, idx);
      && first < |rest| && out == ToFront(rest, first) && Sorted(cands, modes, out[1..])
      && if rnd && Total(Shares(cands, rest)) > 0 then DrawnBy(cands, rest, pick, first) else first == 0
  {
    first, pick := 0, 0;
    if |idx| == 0 {
      return [], 0, 0;
    }
    var rest := StableSort(cands, modes, idx);
    StableSortSorts(cands, modes, idx);
    var f: nat;
    f, pick := DrawFirst(cands, rest, rnd);
    first := f;
    out := [rest[f]] + (rest[..f] + rest[f + 1..]);
    ToFrontKeeps(cands, modes, rest, f);
  }

  /** Position j of the sorted list is what a pick below the total share chooses. */
  ghost predicate DrawnBy(cands: seq<Candidate>, rest: seq<nat>, pick: nat, j: nat)
    requires Within(cands, rest)
  {
    && j < |rest| && pick < Total(Shares(cands, rest))
    && FallsOn(Shares(cands, rest), pick, j)
  }

  /** A carrier without a share is never the drawn one. */
  lemma ZeroShareNeverDrawn(cands: seq<Candidate>, rest: seq<nat>, pick: nat, j: nat)
    requires Within(cands, rest) && DrawnBy(cands, rest, pick, j)
    ensures Share(cands[rest[j]]) > 0
  {
    assert Shares(cands, rest)[j] == Share(cands[rest[j]]);
  }

  // ---- the dial order ----

  /** What may stand before what: outside percent mode nothing out of key order; in percent mode the
      drawn carrier leads and the others follow in order of share. */
  ghost predicate MayPrecede(cands: seq<Candidate>, modes: Modes, drawn: nat, a: nat, b: nat)
    requires a < |cands| && b < |cands|
  {
    if modes.percent then a == drawn || (b != drawn && InOrder(cands, modes, a, b))
    else !Before(cands[b], cands[a], modes)
  }

  ghost predicate Arranged(cands: seq<Candidate>, modes: Modes, drawn: nat, s: seq<nat>)
    requires Within(cands, s)
  {
    forall i, j | 0 <= i < j < |s| :: MayPrecede(cands, modes, drawn, s[i], s[j])
  }

  /** How a dial order came about before degraded candidates were moved back: the shuffled runs of equal keys,
      or the position of the one drawn by share. */
  datatype Plan = Keyed(base: seq<nat>, runs: seq<Run>) | ByShare(base: seq<nat>, first: nat, pick: nat)

  ghost predicate IsPlan(cands: seq<Candidate>, modes: Modes, rnd: bool, plan: Plan) {
    var sorted := StableSort(cands, modes, Indexes(|cands|));
    match plan
    case Keyed(base, runs) =>
      !modes.percent && ShuffledRuns(cands, modes, sorted, runs, base) && (!rnd ==> base == sorted)
    case ByShare(base, first, pick) =>
      && modes.percent
      && if cands == [] then base == []
         else
           && first < |sorted| && base == ToFront(sorted, first)
           && if rnd && Total(Shares(cands, sorted)) > 0 then DrawnBy(cands, sorted, pick, first) else first == 0
  }

  /** The dial order before degraded carriers are moved back. */
  method BaseOrder(cands: seq<Candidate>, modes: Modes, rnd: bool)
    returns (out: seq<nat>, ghost drawn: nat, ghost plan: Plan)
    ensures Within(cands, out) && multiset(out) == multiset(Indexes(|cands|))
    ensures Arranged(cands, modes, drawn, out)
    ensures IsPlan(cands, modes, rnd, plan) && plan.base == out
    ensures modes.percent && |cands| > 0 ==> drawn < |cands| && |out| > 0 && out[0] == drawn
    ensures modes.percent && rnd && SomeShare(cands) ==> drawn < |cands| && Share(cands[drawn]) > 0
  {
    var idx := Indexes(|cands|);
    drawn := 0;
    if modes.percent {
      ghost var first: nat, pick: nat;
      out, first, pick := PercentOrder(cands, modes, idx, rnd);
      plan := ByShare(out, first, pick);
      WithinPermutation(cands, idx, out);
      if |cands| > 0 {
        drawn := out[0];
        DrawnHasShare(cands, modes, idx, first, pick, rnd);
        NoRepeat(idx, out);
        HeadLeads(cands, modes, out);
      }
    } else {
      ghost var runs: seq<Run>;
      out, runs := KeyedOrder(cands, modes, idx, rnd);
      plan := Keyed(out, runs);
      WithinPermutation(cands, idx, out);
    }
  }

  lemma HeadLeads(cands: seq<Candidate>, modes: Modes, out: seq<nat>)
    requires modes.percent && |out| > 0 && Within(cands, out) && Sorted(cands, modes, out[1..])
    requires forall i, j | 0 <= i < j < |out| :: out[i] != out[j]
    ensures Arranged(cands, modes, out[0], out)
  {
    var tail := out[1..];
    assert forall i | 0 < i < |out| :: out[i] == tail[i - 1];
  }

  ghost predicate SomeShare(cands: seq<Candidate>) {
    exists k | 0 <= k < |cands| :: Share(cands[k]) > 0
  }

  function Indexes(n: nat): (s: seq<nat>)
    ensures |s| == n && forall i | 0 <= i < n :: s[i] == i
  {
    seq(n, i requires 0 <= i => i)
  }

  /** A permutation of ascending indexes has no repetition. */
  lemma NoRepeat(idx: seq<nat>, out: seq<nat>)
    requires multiset(out) == multiset(idx) && forall i, j | 0 <= i < j < |idx| :: idx[i] < idx[j]
    ensures forall i, j | 0 <= i < j < |out| :: out[i] != out[j]
  {
    forall i, j | 0 <= i < j < |out|
      ensures out[i] != out[j]
    {
      if out[i] == out[j] {
        var x := out[i];
        assert out == out[..i] + [x] + out[i + 1..j] + [x] + out[j + 1..];
        assert multiset(out)[x] >= 2;
        AtMostOnce(idx, x);
      }
    }
  }

  lemma {:induction false} AtMostOnce(idx: seq<nat>, x: nat)
    requires forall i, j | 0 <= i < j < |idx| :: idx[i] < idx[j]
    ensures multiset(idx)[x] <= 1
  {
    if idx != [] {
      var init, last := idx[..|idx| - 1], idx[|idx| - 1];
      assert idx == init + [last];
      AtMostOnce(init, x);
      if last == x {
        assert x !in init;
        assert x !in multiset(init);
      }
    }
  }

  lemma DrawnHasShare(cands: seq<Candidate>, modes: Modes, idx: seq<nat>, first: nat, pick: nat, rnd: bool)
    requires Within(cands, idx) && idx == Indexes(|cands|) && first < |idx|
    requires rnd && Total(Shares(cands, StableSort(cands, modes, idx))) > 0 ==>
               DrawnBy(cands, StableSort(cands, modes, idx), pick, first)
    ensures rnd && SomeShare(cands) ==> Share(cands[StableSort(cands, modes, idx)[first]]) > 0
  {
    var rest := StableSort(cands, modes, idx);
    if rnd && SomeShare(cands) {
      var k :| 0 <= k < |cands| && Share(cands[k]) > 0;
      assert idx[k] == k;
      assert k in multiset(idx);
      assert k in multiset(rest);
      var m :| 0 <= m < |rest| && rest[m] == k;
      TotalPositive(Shares(cands, rest), m);
      ZeroShareNeverDrawn(cands, rest, pick, first);
    }
  }

  lemma TotalPositive(weights: seq<nat>, m: nat)
    requires m < |weights| && weights[m] > 0
    ensures Total(weights) > 0
  {
    assert weights[..m + 1][..m] == weights[..m];
    TotalMonotone(weights, m + 1, |weights|);
    assert weights[..|weights|] == weights;
  }

  /** Everything in s may precede everything in base from position k on. */
  ghost predicate Leads(cands: seq<Candidate>, modes: Modes, drawn: nat, s: seq<nat>, base: seq<nat>, k: nat)
    requires Within(cands, s) && Within(cands, base)
  {
    forall i, j | 0 <= i < |s| && k <= j < |base| :: MayPrecede(cands, modes, drawn, s[i], base[j])
  }

  lemma AppendArranged(cands: seq<Candidate>, modes: Modes, drawn: nat, s: seq<nat>, base: seq<nat>, k: nat)
    requires Within(cands, s) && Within(cands, base) && k < |base|
    requires Arranged(cands, modes, drawn, base) && Arranged(cands, modes, drawn, s)
    requires Leads(cands, modes, drawn, s, base, k)
    ensures Within(cands, s + [base[k]]) && Arranged(cands, modes, drawn, s + [base[k]])
    ensures Leads(cands, modes, drawn, s + [base[k]], base, k + 1) && Leads(cands, modes, drawn, s, base, k + 1)
  {
  }

  predicate AllDegraded(cands: seq<Candidate>, s: seq<nat>, degraded: bool)
    requires Within(cands, s)
  {
    forall i | 0 <= i < |s| :: cands[s[i]].degraded == degraded
  }

  /** The healthy, or the degraded, candidates of s in its order. */
  function Part(cands: seq<Candidate>, s: seq<nat>, degraded: bool): seq<nat>
    requires Within(cands, s)
  {
    if s == [] then []
    else
      var init, x := Part(cands, s[..|s| - 1], degraded), s[|s| - 1];
      if cands[x].degraded == degraded then init + [x] else init
  }

  /** A part keeps the arrangement of the whole. */
  lemma {:induction false} PartArranged(cands: seq<Candidate>, modes: Modes, drawn: nat, base: seq<nat>, k: nat,
                                        degraded: bool)
    requires Within(cands, base) && Arranged(cands, modes, drawn, base) && k <= |base|
    ensures var part := Part(cands, base[..k], degraded);
      && Within(cands, part) && AllDegraded(cands, part, degraded)
      && Arranged(cands, modes, drawn, part) && Leads(cands, modes, drawn, part, base, k)
  {
    if k > 0 {
      assert base[..k][..k - 1] == base[..k - 1];
      PartArranged(cands, modes, drawn, base, k - 1, degraded);
      AppendArranged(cands, modes, drawn, Part(cands, base[..k - 1], degraded), base, k - 1);
    }
  }

  lemma {:induction false} PartsPermute(cands: seq<Candidate>, base: seq<nat>)
    requires Within(cands, base)
    ensures multiset(Part(cands, base, false)) + multiset(Part(cands, base, true)) == multiset(base)
  {
    if base != [] {
      var init, x := base[..|base| - 1], base[|base| - 1];
      PartsPermute(cands, init);
      AddToPart(Part(cands, init, false), Part(cands, init, true), init, x);
      assert base == init + [x];
    }
  }

  lemma AddToPart(a: seq<nat>, b: seq<nat>, whole: seq<nat>, x: nat)
    requires multiset(a) + multiset(b) == multiset(whole)
    ensures multiset(a + [x]) + multiset(b) == multiset(whole + [x])
    ensures multiset(a) + multiset(b + [x]) == multiset(whole + [x])
  {
  }

  /** Separate the degraded candidates, keeping each part's order. */
  method SplitDegraded(cands: seq<Candidate>, base: seq<nat>) returns (healthy: seq<nat>, degraded: seq<nat>)
    requires Within(cands, base)
    ensures healthy == Part(cands, base, false) && degraded == Part(cands, base, true)
  {
    healthy, degraded := [], [];
    for k := 0 to |base|
      invariant healthy == Part(cands, base[..k], false) && degraded == Part(cands, base[..k], true)
    {
      assert base[..k + 1][..k] == base[..k];
      if cands[base[k]].degraded {
        degraded := degraded + [base[k]];
      } else {
        healthy := healthy + [base[k]];
      }
    }
    assert base[..|base|] == base;
  }

  /** Healthy candidates first, both parts arranged. */
  ghost predicate DegradedLast(cands: seq<Candidate>, modes: Modes, drawn: nat, out: seq<nat>)
    requires Within(cands, out)
  {
    && (forall i, j | 0 <= i < j < |out| :: cands[out[i]].degraded ==> cands[out[j]].degraded)
    && (forall i, j | 0 <= i < j < |out| && cands[out[i]].degraded == cands[out[j]].degraded ::
          MayPrecede(cands, modes, drawn, out[i], out[j]))
  }

  lemma SplitKeeps(cands: seq<Candidate>, modes: Modes, drawn: nat, base: seq<nat>, healthy: seq<nat>,
                   degraded: seq<nat>)
    requires Within(cands, base) && Arranged(cands, modes, drawn, base)
    requires healthy == Part(cands, base, false) && degraded == Part(cands, base, true)
    ensures multiset(healthy) + multiset(degraded) == multiset(base)
    ensures Within(cands, healthy) && Within(cands, degraded)
    ensures AllDegraded(cands, degraded, true) && Arranged(cands, modes, drawn, healthy)
    ensures Within(cands, healthy + degraded) && DegradedLast(cands, modes, drawn, healthy + degraded)
  {
    PartsPermute(cands, base);
    assert base[..|base|] == base;
    PartArranged(cands, modes, drawn, base, |base|, false);
    PartArranged(cands, modes, drawn, base, |base|, true);
    PartsTogether(cands, modes, drawn, healthy, degraded);
  }

  lemma PartsTogether(cands: seq<Candidate>, modes: Modes, drawn: nat, healthy: seq<nat>, degraded: seq<nat>)
    requires Within(cands, healthy) && Within(cands, degraded)
    requires AllDegraded(cands, healthy, false) && AllDegraded(cands, degraded, true)
    requires Arranged(cands, modes, drawn, healthy) && Arranged(cands, modes, drawn, degraded)
    ensures Within(cands, healthy + degraded) && DegradedLast(cands, modes, drawn, healthy + degraded)
  {
  }

  /** In percent mode the drawn carrier heads its part. */
  lemma DrawnHeads(cands: seq<Candidate>, modes: Modes, drawn: nat, part: seq<nat>)
    requires modes.percent && Within(cands, part) && Arranged(cands, modes, drawn, part) && drawn in part
    ensures part[0] == drawn
  {
    var j :| 0 <= j < |part| && part[j] == drawn;
    if j > 0 {
      assert MayPrecede(cands, modes, drawn, part[0], part[j]);
    }
  }

  lemma DrawnIsHealthy(cands: seq<Candidate>, drawn: nat, healthy: seq<nat>, degraded: seq<nat>)
    requires drawn < |cands| && !cands[drawn].degraded && Within(cands, healthy) && Within(cands, degraded)
    requires AllDegraded(cands, degraded, true) && multiset(healthy) + multiset(degraded) == multiset(Indexes(|cands|))
    ensures drawn in healthy
  {
    assert Indexes(|cands|)[drawn] == drawn;
    assert drawn in multiset(Indexes(|cands|));
    assert drawn in multiset(healthy) + multiset(degraded);
    assert drawn !in degraded;
  }

  /** The order comes from the draws of the plan, with degraded candidates last; inside each part the modes
      decide who may precede whom; in percent mode the drawn one leads unless it is degraded, and has a share
      while anyone has. */
  ghost predicate ModesFollowed(cands: seq<Candidate>, modes: Modes, rnd: bool, order: seq<nat>, drawn: nat,
                                plan: Plan) {
    && Within(cands, order) && IsPlan(cands, modes, rnd, plan) && Within(cands, plan.base)
    && order == Part(cands, plan.base, false) + Part(cands, plan.base, true)
    && DegradedLast(cands, modes, drawn, order)
    && (modes.percent && |cands| > 0 ==>
         drawn < |cands| && (!cands[drawn].degraded ==> |order| > 0 && order[0] == drawn))
    && (modes.percent && rnd && SomeShare(cands) ==> drawn < |cands| && Share(cands[drawn]) > 0)
  }

  /** The dial order: all candidates, healthy ones first, each part arranged by the mode. */
  method OrderCandidates(cands: seq<Candidate>, modes: Modes, rnd: bool)
    returns (out: seq<nat>, ghost drawn: nat, ghost plan: Plan)
    ensures multiset(out) == multiset(Indexes(|cands|))
    ensures ModesFollowed(cands, modes, rnd, out, drawn, plan)
  {
    var base: seq<nat>;
    base, drawn, plan := BaseOrder(cands, modes, rnd);
    var healthy, degraded := SplitDegraded(cands, base);
    out := healthy + degraded;
    SplitKeeps(cands, modes, drawn, base, healthy, degraded);
    if modes.percent && |cands| > 0 && !cands[drawn].degraded {
      DrawnIsHealthy(cands, drawn, healthy, degraded);
      DrawnHeads(cands, modes, drawn, healthy);
    }
  }
}
