/** The dial order of carriers and endpoints: keyed or by share, weighted draws, degraded last.

Random choices are the results of Intn, about which nothing is known but their range.
*/
module Order {

  datatype Candidate = Candidate(priority: int, weight: int, degraded: bool, buyRate: real, quality: real)

  datatype Modes = Modes(lcr: bool, quality: bool, percent: bool)

  // ---- the order relations ----

  datatype Key = Key(quality: real, rate: real, priority: int)

  function KeyOf(c: Candidate, modes: Modes): Key {
    Key(if modes.quality then -c.quality else 0.0, if modes.lcr then c.buyRate else 0.0, c.priority)
  }

  predicate KeyLess(a: Key, b: Key) {
    if a.quality != b.quality then a.quality < b.quality
    else if a.rate != b.rate then a.rate < b.rate
    else a.priority < b.priority
  }

  function Share(c: Candidate): nat {
    if c.weight < 0 then 0 else c.weight
  }

  /** a sorts strictly before b: by key, or in percent mode by larger share and then priority. */
  predicate Before(a: Candidate, b: Candidate, modes: Modes) {
    if modes.percent then
      if Share(a) != Share(b) then Share(a) > Share(b) else a.priority < b.priority
    else KeyLess(KeyOf(a, modes), KeyOf(b, modes))
  }

  /** The order is strict, and candidates that neither sorts before the other agree in all the modes look at. */
  lemma BeforeIsStrict(a: Candidate, b: Candidate, modes: Modes)
    ensures !(Before(a, b, modes) && Before(b, a, modes))
    ensures !Before(a, b, modes) && !Before(b, a, modes) ==>
      && a.priority == b.priority
      && (modes.percent ==> Share(a) == Share(b))
      && (modes.lcr && !modes.percent ==> a.buyRate == b.buyRate)
      && (modes.quality && !modes.percent ==> a.quality == b.quality)
  {
  }

  /** Index i may stand before j: not out of order, and ties keep the original order. */
  predicate InOrder(cands: seq<Candidate>, modes: Modes, i: nat, j: nat)
    requires i < |cands| && j < |cands|
  {
    Before(cands[i], cands[j], modes) || (!Before(cands[j], cands[i], modes) && i < j)
  }

  predicate Within(cands: seq<Candidate>, s: seq<nat>) {
    forall k | 0 <= k < |s| :: s[k] < |cands|
  }

  predicate Sorted(cands: seq<Candidate>, modes: Modes, s: seq<nat>)
    requires Within(cands, s)
  {
    forall i, j | 0 <= i < j < |s| :: InOrder(cands, modes, s[i], s[j])
  }

  // ---- stable sort ----

  function InsertStable(cands: seq<Candidate>, modes: Modes, s: seq<nat>, x: nat): (r: seq<nat>)
    requires Within(cands, s) && x < |cands|
    ensures |r| == |s| + 1 && multiset(r) == multiset(s) + multiset{x} && Within(cands, r)
  {
    if s == [] || !Before(cands[x], cands[s[|s| - 1]], modes) then
      s + [x]
    else
      var init := s[..|s| - 1];
      assert s == init + [s[|s| - 1]];
      InsertStable(cands, modes, init, x) + [s[|s| - 1]]
  }

  function StableSort(cands: seq<Candidate>, modes: Modes, idx: seq<nat>): (r: seq<nat>)
    requires Within(cands, idx)
    ensures |r| == |idx| && multiset(r) == multiset(idx) && Within(cands, r)
  {
    if idx == [] then []
    else
      var init := idx[..|idx| - 1];
      assert idx == init + [idx[|idx| - 1]];
      InsertStable(cands, modes, StableSort(cands, modes, init), idx[|idx| - 1])
  }

  lemma InOrderTrans(cands: seq<Candidate>, modes: Modes, a: nat, b: nat, c: nat)
    requires a < |cands| && b < |cands| && c < |cands|
    requires InOrder(cands, modes, a, b) && InOrder(cands, modes, b, c)
    ensures InOrder(cands, modes, a, c)
  {
  }

  /** x is a later index than everything in s, so inserting it stably keeps the order. */
  lemma {:induction false} InsertKeepsSorted(cands: seq<Candidate>, modes: Modes, s: seq<nat>, x: nat)
    requires Within(cands, s) && x < |cands| && Sorted(cands, modes, s)
    requires forall k | 0 <= k < |s| :: s[k] < x
    ensures Sorted(cands, modes, InsertStable(cands, modes, s, x))
  {
    var r := InsertStable(cands, modes, s, x);
    if s == [] {
    } else if Before(cands[x], cands[s[|s| - 1]], modes) {
      var last, init := s[|s| - 1], s[..|s| - 1];
      var r0 := InsertStable(cands, modes, init, x);
      InsertKeepsSorted(cands, modes, init, x);
      assert r == r0 + [last];
      forall i | 0 <= i < |r0|
        ensures InOrder(cands, modes, r0[i], last)
      {
        assert r0[i] in multiset(r0);
        assert r0[i] in init || r0[i] == x;
      }
    } else {
      forall i | 0 <= i < |s|
        ensures InOrder(cands, modes, s[i], x)
      {
        if i < |s| - 1 {
          InOrderTrans(cands, modes, s[i], s[|s| - 1], x);
        }
      }
    }
  }

  /** Sorting ascending indexes leaves them sorted with ties in the original order. */
  lemma {:induction false} StableSortSorts(cands: seq<Candidate>, modes: Modes, idx: seq<nat>)
    requires Within(cands, idx) && forall i, j | 0 <= i < j < |idx| :: idx[i] < idx[j]
    ensures Sorted(cands, modes, StableSort(cands, modes, idx))
  {
    if idx != [] {
      var init, x := idx[..|idx| - 1], idx[|idx| - 1];
      StableSortSorts(cands, modes, init);
      var s := StableSort(cands, modes, init);
      forall k | 0 <= k < |s|
        ensures s[k] < x
      {
        assert s[k] in multiset(s);
        assert s[k] in init;
      }
      InsertKeepsSorted(cands, modes, s, x);
    }
  }
}
