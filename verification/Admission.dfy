/** The concurrency and calls-per-second counters, under every interleaving of the calls that use them. */
module Admission {
  datatype Key = Customer(id: nat) | Carrier(id: nat) | Global

  /** Zero or less is unlimited. */
  datatype Limits = Limits(concurrent: int, cps: int)

  function LimitsOf(limits: map<Key, Limits>, k: Key): Limits {
    if k in limits then limits[k] else Limits(0, 0)
  }

  predicate OverConcurrent(l: Limits, concurrent: int) {
    l.concurrent > 0 && concurrent > l.concurrent
  }

  predicate OverCps(l: Limits, cps: int) {
    l.cps > 0 && cps > l.cps
  }

  function Value<K>(counters: map<K, int>, k: K): int {
    if k in counters then counters[k] else 0
  }

  // ---- one caller ----

  /** Where a caller stands with its keys, which it asks for in order:
      Asking(n) holds the first n; Refused(n) holds the first n and has counted itself over the limit at
      the next one; Leaving(from, to) still holds those from `from` to `to`; BelowZero has seen a negative
      counter while leaving `from` and is about to overwrite it. */
  datatype Phase = Asking(n: nat) | Refused(n: nat) | Leaving(from: nat, to: nat) | BelowZero(from: nat, to: nat)

  datatype Caller = Caller(keys: seq<Key>, phase: Phase) {
    predicate Valid() {
      && (forall i, j | 0 <= i < j < |keys| :: keys[i] != keys[j])
      && match phase
         case Asking(n) => n <= |keys|
         case Refused(n) => n < |keys|
         case Leaving(from, to) => from <= to <= |keys|
         case BelowZero(from, to) => from < to <= |keys|
    }

    function Held(): set<Key>
      requires Valid()
    {
      match phase
      case Asking(n) => Keys(keys[..n])
      case Refused(n) => Keys(keys[..n])
      case Leaving(from, to) => Keys(keys[from..to])
      case BelowZero(from, to) => Keys(keys[from + 1..to])
    }

    predicate Holds(k: Key)
      requires Valid()
    {
      k in Held()
    }

    predicate Pending(k: Key)
      requires Valid()
    {
      phase.Refused? && keys[phase.n] == k
    }
  }

  function Keys(s: seq<Key>): set<Key> {
    set k | k in s
  }

  // ---- all callers and the counters ----

  datatype Answer = Answer(key: Key, second: int, admitted: bool)

  datatype State = State(concurrent: map<Key, int>, cps: map<(Key, int), int>, callers: seq<Caller>,
                         answers: seq<Answer>)

  const START := State(map[], map[], [], [])

  /** The keys a customer's call asks for, and those of an attempt on a carrier. */
  predicate IsPlan(keys: seq<Key>) {
    || (|keys| == 1 && (keys[0].Customer? || keys[0].Carrier?))
    || (|keys| == 2 && keys[0].Customer? && keys[1].Global?)
  }

  /** One atomic command against the store, or a local decision of one caller. */
  datatype Step =
    | Arrive(keys: seq<Key>)
    | Ask(caller: nat, second: int)
    | Unavailable(caller: nat)
    | Undo(caller: nat)
    | Hangup(caller: nat)
    | Drop(caller: nat)
    | Reset(caller: nat)

  function Move(st: State, i: nat, phase: Phase): State
    requires i < |st.callers|
  {
    st.(callers := st.callers[i := st.callers[i].(phase := phase)])
  }

  predicate Enabled(st: State, s: Step) {
    if s.Arrive? then IsPlan(s.keys)
    else
      && s.caller < |st.callers|
      && var c := st.callers[s.caller];
         match s
         case Ask(_, _) => c.phase.Asking? && c.phase.n < |c.keys|
         case Unavailable(_) => c.phase.Asking? && c.phase.n < |c.keys|
         case Undo(_) => c.phase.Refused? && c.phase.n < |c.keys|
         case Hangup(_) => c.phase.Asking? && c.phase.n == |c.keys|
         case Drop(_) => c.phase.Leaving? && c.phase.from < c.phase.to <= |c.keys|
         case Reset(_) => c.phase.BelowZero? && c.phase.from < c.phase.to <= |c.keys|
  }

  function Next(limits: map<Key, Limits>, st: State, s: Step): State
    requires Enabled(st, s)
  {
    match s
    case Arrive(keys) => st.(callers := st.callers + [Caller(keys, Asking(0))])
    case Ask(i, second) =>
      var c := st.callers[i];
      var k, n := c.keys[c.phase.n], c.phase.n;
      var concurrent, cps := Value(st.concurrent, k) + 1, Value(st.cps, (k, second)) + 1;
      var over := OverConcurrent(LimitsOf(limits, k), concurrent) || OverCps(LimitsOf(limits, k), cps);
      Move(st, i, if over then Refused(n) else Asking(n + 1))
      .(concurrent := st.concurrent[k := concurrent], cps := st.cps[(k, second) := cps],
        answers := st.answers + [Answer(k, second, !over)])
    case Unavailable(i) => Move(st, i, Leaving(0, st.callers[i].phase.n))
    case Undo(i) =>
      var c := st.callers[i];
      var k := c.keys[c.phase.n];
      Move(st, i, Leaving(0, c.phase.n)).(concurrent := st.concurrent[k := Value(st.concurrent, k) - 1])
    case Hangup(i) => Move(st, i, Leaving(0, |st.callers[i].keys|))
    case Drop(i) =>
      var c := st.callers[i];
      var k, from, to := c.keys[c.phase.from], c.phase.from, c.phase.to;
      var n := Value(st.concurrent, k) - 1;
      Move(st, i, if n < 0 then BelowZero(from, to) else Leaving(from + 1, to)).(concurrent := st.concurrent[k := n])
    case Reset(i) =>
      var c := st.callers[i];
      Move(st, i, Leaving(c.phase.from + 1, c.phase.to)).(concurrent := st.concurrent[c.keys[c.phase.from] := 0])
  }

  /** Runs: steps that are not enabled do nothing. */
  function Run(limits: map<Key, Limits>, st: State, steps: seq<Step>): State {
    if steps == [] then st
    else
      var before := Run(limits, st, steps[..|steps| - 1]);
      var s := steps[|steps| - 1];
      if Enabled(before, s) then Next(limits, before, s) else before
  }

  // ---- what the counters mean ----

  ghost predicate AllValid(callers: seq<Caller>) {
    forall i | 0 <= i < |callers| :: callers[i].Valid()
  }

  ghost function Holders(callers: seq<Caller>, k: Key): nat
    requires AllValid(callers)
  {
    if callers == [] then 0
    else Holders(callers[..|callers| - 1], k) + if callers[|callers| - 1].Holds(k) then 1 else 0
  }

  /** Callers counted over the limit that have not undone it yet. */
  ghost function Undone(callers: seq<Caller>, k: Key): nat
    requires AllValid(callers)
  {
    if callers == [] then 0
    else Undone(callers[..|callers| - 1], k) + if callers[|callers| - 1].Pending(k) then 1 else 0
  }

  ghost function Asked(answers: seq<Answer>, k: Key, second: int): nat {
    if answers == [] then 0
    else
      var a := answers[|answers| - 1];
      Asked(answers[..|answers| - 1], k, second) + if a.key == k && a.second == second then 1 else 0
  }

  ghost function Admitted(answers: seq<Answer>, k: Key, second: int): nat {
    if answers == [] then 0
    else
      var a := answers[|answers| - 1];
      Admitted(answers[..|answers| - 1], k, second) + if a.key == k && a.second == second && a.admitted then 1 else 0
  }

  ghost predicate ConcurrentExact(st: State)
    requires AllValid(st.callers)
  {
    forall k: Key :: Value(st.concurrent, k) == Holders(st.callers, k) + Undone(st.callers, k)
  }

  ghost predicate WithinConcurrent(limits: map<Key, Limits>, st: State)
    requires AllValid(st.callers)
  {
    forall k: Key :: LimitsOf(limits, k).concurrent > 0 ==> Holders(st.callers, k) <= LimitsOf(limits, k).concurrent
  }

  ghost predicate CpsExact(st: State) {
    forall k: Key, second: int :: Value(st.cps, (k, second)) == Asked(st.answers, k, second)
  }

  ghost predicate WithinCps(limits: map<Key, Limits>, st: State) {
    forall k: Key, second: int ::
      LimitsOf(limits, k).cps > 0 ==> Admitted(st.answers, k, second) <= LimitsOf(limits, k).cps
  }

  ghost predicate NeverBelowZero(st: State) {
    forall i | 0 <= i < |st.callers| :: !st.callers[i].phase.BelowZero?
  }

  ghost predicate Inv(limits: map<Key, Limits>, st: State) {
    && AllValid(st.callers)
    && ConcurrentExact(st)
    && WithinConcurrent(limits, st)
    && CpsExact(st)
    && WithinCps(limits, st)
    && NeverBelowZero(st)
  }

  // ---- counting lemmas ----

  function Bit(b: bool): nat {
    if b then 1 else 0
  }

  lemma {:induction false} HoldersUpdate(callers: seq<Caller>, i: nat, c: Caller, k: Key)
    requires AllValid(callers) && i < |callers| && c.Valid()
    ensures AllValid(callers[i := c])
    ensures Holders(callers[i := c], k) + Bit(callers[i].Holds(k)) == Holders(callers, k) + Bit(c.Holds(k))
    ensures Undone(callers[i := c], k) + Bit(callers[i].Pending(k)) == Undone(callers, k) + Bit(c.Pending(k))
  {
    var n := |callers| - 1;
    if i == n {
      assert callers[i := c][..n] == callers[..n];
    } else {
      HoldersUpdate(callers[..n], i, c, k);
      assert callers[i := c][..n] == callers[..n][i := c];
    }
  }

  lemma {:induction false} HolderCounts(callers: seq<Caller>, i: nat, k: Key)
    requires AllValid(callers) && i < |callers| && callers[i].Holds(k)
    ensures Holders(callers, k) >= 1
  {
    if i < |callers| - 1 {
      HolderCounts(callers[..|callers| - 1], i, k);
    }
  }

  lemma {:induction false} AdmittedWereAsked(answers: seq<Answer>, k: Key, second: int)
    ensures Admitted(answers, k, second) <= Asked(answers, k, second)
  {
    if answers != [] {
      AdmittedWereAsked(answers[..|answers| - 1], k, second);
    }
  }

  /** Taking one more key, or giving one up, changes what is held by just that key. */
  lemma TakesOne(keys: seq<Key>, n: nat)
    requires n < |keys| && forall i, j | 0 <= i < j < |keys| :: keys[i] != keys[j]
    ensures keys[n] !in Keys(keys[..n]) && Keys(keys[..n + 1]) == Keys(keys[..n]) + {keys[n]}
  {
    assert keys[..n + 1] == keys[..n] + [keys[n]];
  }

  lemma DropsOne(keys: seq<Key>, from: nat, to: nat)
    requires from < to <= |keys| && forall i, j | 0 <= i < j < |keys| :: keys[i] != keys[j]
    ensures keys[from] !in Keys(keys[from + 1..to]) && Keys(keys[from..to]) == Keys(keys[from + 1..to]) + {keys[from]}
  {
    assert keys[from..to] == [keys[from]] + keys[from + 1..to];
  }

  // ---- preservation ----

  lemma ArriveKeepsInv(limits: map<Key, Limits>, st: State, keys: seq<Key>)
    requires Inv(limits, st) && IsPlan(keys)
    ensures Inv(limits, Next(limits, st, Arrive(keys)))
  {
    var t := Next(limits, st, Arrive(keys));
    assert t.callers[..|st.callers|] == st.callers;
    assert AllValid(t.callers);
    assert t.callers[|st.callers|].Held() == {};
    assert forall k: Key ::
      Holders(t.callers, k) == Holders(st.callers, k) && Undone(t.callers, k) == Undone(st.callers, k);
  }

  lemma AskKeepsCps(limits: map<Key, Limits>, st: State, i: nat, second: int)
    requires Inv(limits, st) && Enabled(st, Ask(i, second))
    ensures var t := Next(limits, st, Ask(i, second)); CpsExact(t) && WithinCps(limits, t)
  {
    var t := Next(limits, st, Ask(i, second));
    assert t.answers[..|st.answers|] == st.answers;
    var k := st.callers[i].keys[st.callers[i].phase.n];
    AdmittedWereAsked(st.answers, k, second);
  }

  lemma AskKeepsConcurrent(limits: map<Key, Limits>, st: State, i: nat, second: int)
    requires Inv(limits, st) && Enabled(st, Ask(i, second))
    ensures var t := Next(limits, st, Ask(i, second));
      AllValid(t.callers) && ConcurrentExact(t) && WithinConcurrent(limits, t) && NeverBelowZero(t)
  {
    var t := Next(limits, st, Ask(i, second));
    var c := st.callers[i];
    var n := c.phase.n;
    TakesOne(c.keys, n);
    assert t.callers == st.callers[i := t.callers[i]] && t.callers[i].Valid();
    forall k: Key
      ensures Value(t.concurrent, k) == Holders(t.callers, k) + Undone(t.callers, k)
      ensures LimitsOf(limits, k).concurrent > 0 ==> Holders(t.callers, k) <= LimitsOf(limits, k).concurrent
    {
      HoldersUpdate(st.callers, i, t.callers[i], k);
      assert Value(st.concurrent, k) == Holders(st.callers, k) + Undone(st.callers, k);
    }
  }

  /** A move that only gives up the key k, or nothing when gone is false, and lowers that counter with it. */
  lemma GiveUpKeepsInv(limits: map<Key, Limits>, st: State, t: State, i: nat, k: Key, gone: bool)
    requires Inv(limits, st) && i < |st.callers|
    requires |t.callers| == |st.callers| && t.callers == st.callers[i := t.callers[i]]
    requires t.callers[i].Valid() && !t.callers[i].phase.BelowZero?
    requires t.cps == st.cps && t.answers == st.answers
    requires t.concurrent == if gone then st.concurrent[k := Value(st.concurrent, k) - 1] else st.concurrent
    requires t.callers[i].Held() <= st.callers[i].Held()
    requires forall x: Key ::
      Bit(t.callers[i].Holds(x)) + Bit(t.callers[i].Pending(x)) + Bit(gone && x == k)
      == Bit(st.callers[i].Holds(x)) + Bit(st.callers[i].Pending(x))
    ensures Inv(limits, t)
  {
    assert AllValid(t.callers);
    forall x: Key
      ensures Value(t.concurrent, x) == Holders(t.callers, x) + Undone(t.callers, x)
      ensures Holders(t.callers, x) <= Holders(st.callers, x)
    {
      HoldersUpdate(st.callers, i, t.callers[i], x);
      assert Value(st.concurrent, x) == Holders(st.callers, x) + Undone(st.callers, x);
      assert t.callers[i].Holds(x) ==> st.callers[i].Holds(x);
    }
  }

  lemma LocalMoveKeepsInv(limits: map<Key, Limits>, st: State, s: Step)
    requires Inv(limits, st) && Enabled(st, s) && (s.Unavailable? || s.Hangup?)
    ensures Inv(limits, Next(limits, st, s))
  {
    var t, c := Next(limits, st, s), st.callers[s.caller];
    assert c.keys[0..c.phase.n] == c.keys[..c.phase.n];
    GiveUpKeepsInv(limits, st, t, s.caller, Global, false);
  }

  lemma UndoKeepsInv(limits: map<Key, Limits>, st: State, i: nat)
    requires Inv(limits, st) && Enabled(st, Undo(i))
    ensures Inv(limits, Next(limits, st, Undo(i)))
  {
    var t, c := Next(limits, st, Undo(i)), st.callers[i];
    assert c.keys[0..c.phase.n] == c.keys[..c.phase.n];
    TakesOne(c.keys, c.phase.n);
    GiveUpKeepsInv(limits, st, t, i, c.keys[c.phase.n], true);
  }

  /** Whoever leaves is still counted, so the counter cannot go below zero. */
  lemma DropKeepsInv(limits: map<Key, Limits>, st: State, i: nat)
    requires Inv(limits, st) && Enabled(st, Drop(i))
    ensures Inv(limits, Next(limits, st, Drop(i)))
  {
    var t, c := Next(limits, st, Drop(i)), st.callers[i];
    var k := c.keys[c.phase.from];
    DropsOne(c.keys, c.phase.from, c.phase.to);
    HolderCounts(st.callers, i, k);
    assert Value(st.concurrent, k) >= 1;
    GiveUpKeepsInv(limits, st, t, i, k, true);
  }

  lemma StepKeepsInv(limits: map<Key, Limits>, st: State, s: Step)
    requires Inv(limits, st) && Enabled(st, s)
    ensures Inv(limits, Next(limits, st, s))
  {
    match s
    case Arrive(keys) => ArriveKeepsInv(limits, st, keys);
    case Ask(i, second) =>
      AskKeepsCps(limits, st, i, second);
      AskKeepsConcurrent(limits, st, i, second);
    case Unavailable(_) => LocalMoveKeepsInv(limits, st, s);
    case Hangup(_) => LocalMoveKeepsInv(limits, st, s);
    case Undo(i) => UndoKeepsInv(limits, st, i);
    case Drop(i) => DropKeepsInv(limits, st, i);
    case Reset(_) =>
  }

  /** Safety of admission over every interleaving of any number of callers: each counter is the number
      of holders plus the refusals not undone yet, no positive limit is exceeded, no second admits more
      than the CPS limit, and the below-zero repair is never reached. */
  lemma {:induction false} AdmissionSafe(limits: map<Key, Limits>, steps: seq<Step>)
    ensures Inv(limits, Run(limits, START, steps))
  {
    if steps != [] {
      AdmissionSafe(limits, steps[..|steps| - 1]);
      var st := Run(limits, START, steps[..|steps| - 1]);
      if Enabled(st, steps[|steps| - 1]) {
        StepKeepsInv(limits, st, steps[|steps| - 1]);
      }
    }
  }

  ghost predicate Quiet(st: State)
    requires AllValid(st.callers)
  {
    forall i | 0 <= i < |st.callers| :: st.callers[i].Held() == {} && !st.callers[i].phase.Refused?
  }

  /** When every caller is gone, no slot is left behind. */
  lemma NoSlotLeaks(limits: map<Key, Limits>, steps: seq<Step>, k: Key)
    ensures Inv(limits, Run(limits, START, steps))
    ensures Quiet(Run(limits, START, steps)) ==> Value(Run(limits, START, steps).concurrent, k) == 0
  {
    AdmissionSafe(limits, steps);
    var st := Run(limits, START, steps);
    if Quiet(st) {
      NobodyHolds(st.callers, k);
      assert Value(st.concurrent, k) == Holders(st.callers, k) + Undone(st.callers, k);
    }
  }

  // ---- everyone can leave ----

  lemma {:induction false} RunCons(limits: map<Key, Limits>, st: State, s: Step, steps: seq<Step>)
    requires Enabled(st, s)
    ensures Run(limits, st, [s] + steps) == Run(limits, Next(limits, st, s), steps)
  {
    var all := [s] + steps;
    if steps == [] {
      assert all[..0] == [] && all == [s];
    } else {
      assert all[..|all| - 1] == [s] + steps[..|steps| - 1];
      RunCons(limits, st, s, steps[..|steps| - 1]);
    }
  }

  lemma {:induction false} RunTogether(limits: map<Key, Limits>, st: State, a: seq<Step>, b: seq<Step>)
    ensures Run(limits, st, a + b) == Run(limits, Run(limits, st, a), b)
  {
    if b == [] {
      assert a + b == a;
    } else {
      assert (a + b)[..|a + b| - 1] == a + b[..|b| - 1];
      RunTogether(limits, st, a, b[..|b| - 1]);
    }
  }

  /** The caller holds nothing and owes no undo. */
  predicate Gone(c: Caller)
    requires c.Valid()
  {
    c.Held() == {} && !c.phase.Refused?
  }

  /** t is st but for caller i. */
  ghost predicate OnlyMoved(st: State, t: State, i: nat) {
    |t.callers| == |st.callers| && forall j | 0 <= j < |st.callers| && j != i :: t.callers[j] == st.callers[j]
  }

  /** What is left for a caller to do before it is gone. */
  function ToDo(c: Caller): nat
    requires c.Valid()
  {
    match c.phase
    case Asking(_) => |c.keys| + 2
    case Refused(_) => |c.keys| + 1
    case Leaving(from, to) => to - from
    case BelowZero(from, to) => to - from
  }

  /** The step that brings a caller closer to being gone. */
  lemma NextToDo(limits: map<Key, Limits>, st: State, i: nat) returns (s: Step)
    requires Inv(limits, st) && i < |st.callers| && ToDo(st.callers[i]) > 0
    ensures Enabled(st, s)
    ensures var t := Next(limits, st, s);
      && Inv(limits, t) && OnlyMoved(st, t, i) && t.callers[i].keys == st.callers[i].keys
      && ToDo(t.callers[i]) < ToDo(st.callers[i])
  {
    var c := st.callers[i];
    assert c.Valid();
    match c.phase {
      case Asking(n) => s := if n == |c.keys| then Hangup(i) else Unavailable(i);
      case Refused(_) => s := Undo(i);
      case Leaving(_, _) => s := Drop(i);
      case BelowZero(_, _) => s := Reset(i);
    }
    StepKeepsInv(limits, st, s);
    assert Next(limits, st, s).callers[i].Valid();
  }

  /** In every reachable state every caller can leave by itself, whatever the others do not do. */
  lemma {:induction false} CanLeave(limits: map<Key, Limits>, st: State, i: nat) returns (steps: seq<Step>)
    requires Inv(limits, st) && i < |st.callers|
    ensures var t := Run(limits, st, steps);
      Inv(limits, t) && OnlyMoved(st, t, i) && Gone(t.callers[i])
    decreases ToDo(st.callers[i])
  {
    if ToDo(st.callers[i]) == 0 {
      steps := [];
      assert st.callers[i].phase.Leaving?;
    } else {
      var s := NextToDo(limits, st, i);
      var rest := CanLeave(limits, Next(limits, st, s), i);
      RunCons(limits, st, s, rest);
      steps := [s] + rest;
    }
  }

  /** So every slot can come back: from every reachable state some run ends with all counters at zero. */
  lemma {:induction false} EverySlotComesBack(limits: map<Key, Limits>, st: State, n: nat) returns (steps: seq<Step>)
    requires Inv(limits, st) && n <= |st.callers| && forall i | 0 <= i < n :: Gone(st.callers[i])
    ensures var t := Run(limits, st, steps);
      Inv(limits, t) && Quiet(t) && forall k: Key :: Value(t.concurrent, k) == 0
    decreases |st.callers| - n
  {
    if n == |st.callers| {
      steps := [];
      forall k: Key
        ensures Value(st.concurrent, k) == 0
      {
        NobodyHolds(st.callers, k);
        assert Value(st.concurrent, k) == Holders(st.callers, k) + Undone(st.callers, k);
      }
    } else {
      var leave := CanLeave(limits, st, n);
      var t := Run(limits, st, leave);
      var rest := EverySlotComesBack(limits, t, n + 1);
      RunTogether(limits, st, leave, rest);
      steps := leave + rest;
    }
  }

  lemma {:induction false} NobodyHolds(callers: seq<Caller>, k: Key)
    requires AllValid(callers) && forall i | 0 <= i < |callers| :: callers[i].Held() == {}
    ensures Holders(callers, k) == 0
    ensures (forall i | 0 <= i < |callers| :: !callers[i].phase.Refused?) ==> Undone(callers, k) == 0
  {
    if callers != [] {
      NobodyHolds(callers[..|callers| - 1], k);
    }
  }

  /** A call is refused exactly when holders and pending refusals together fill the concurrency limit, or the calls
      counted in the second fill the rate limit. */
  lemma RefusedIff(limits: map<Key, Limits>, st: State, i: nat, second: int)
    requires Inv(limits, st) && Enabled(st, Ask(i, second))
    ensures var k := st.callers[i].keys[st.callers[i].phase.n];
      Next(limits, st, Ask(i, second)).callers[i].phase.Refused? <==>
        && k in limits
        && var max, rate := limits[k].concurrent, limits[k].cps;
           || (max > 0 && Holders(st.callers, k) + Undone(st.callers, k) >= max)
           || (rate > 0 && Asked(st.answers, k, second) >= rate)
  {
    var k := st.callers[i].keys[st.callers[i].phase.n];
    assert Value(st.concurrent, k) == Holders(st.callers, k) + Undone(st.callers, k);
    assert Value(st.cps, (k, second)) == Asked(st.answers, k, second);
  }

  /** The key has room: neither limit is filled. */
  ghost predicate Fits(limits: map<Key, Limits>, st: State, k: Key, second: int)
    requires AllValid(st.callers)
  {
    k in limits ==>
      && (limits[k].concurrent > 0 ==> Holders(st.callers, k) + Undone(st.callers, k) < limits[k].concurrent)
      && (limits[k].cps > 0 ==> Asked(st.answers, k, second) < limits[k].cps)
  }

  /** The caller's next key is granted exactly when it has room. */
  lemma GrantedIff(limits: map<Key, Limits>, st: State, i: nat, second: int)
    requires Inv(limits, st) && Enabled(st, Ask(i, second))
    ensures var c, t := st.callers[i], Next(limits, st, Ask(i, second));
      Fits(limits, st, c.keys[c.phase.n], second) <==> t.callers[i].phase == Asking(c.phase.n + 1)
  {
    RefusedIff(limits, st, i, second);
  }

  /** A caller that has just arrived for its own slot and the node's gets both exactly when both have room. */
  lemma BothSlots(limits: map<Key, Limits>, st: State, i: nat, c: nat, second: int)
    requires Inv(limits, st) && i < |st.callers| && st.callers[i] == Caller([Customer(c), Global], Asking(0))
    ensures var asked := Next(limits, st, Ask(i, second));
      && (Fits(limits, st, Customer(c), second) <==> asked.callers[i].phase == Asking(1))
      && (Fits(limits, st, Customer(c), second) ==>
            && Enabled(asked, Ask(i, second))
            && (Fits(limits, st, Global, second)
                <==> Next(limits, asked, Ask(i, second)).callers[i].phase == Asking(2)))
  {
    GrantedIff(limits, st, i, second);
    if Fits(limits, st, Customer(c), second) {
      OtherKeyUntouched(limits, st, i, second, Global);
      GrantedIff(limits, Next(limits, st, Ask(i, second)), i, second);
    }
  }

  /** Asking for one key changes nothing about another. */
  lemma OtherKeyUntouched(limits: map<Key, Limits>, st: State, i: nat, second: int, k: Key)
    requires Inv(limits, st) && Enabled(st, Ask(i, second)) && st.callers[i].keys[st.callers[i].phase.n] != k
    ensures var t := Next(limits, st, Ask(i, second));
      && Inv(limits, t)
      && Holders(t.callers, k) + Undone(t.callers, k) == Holders(st.callers, k) + Undone(st.callers, k)
      && Asked(t.answers, k, second) == Asked(st.answers, k, second)
  {
    var t := Next(limits, st, Ask(i, second));
    StepKeepsInv(limits, st, Ask(i, second));
    assert Value(t.concurrent, k) == Holders(t.callers, k) + Undone(t.callers, k);
    assert Value(st.concurrent, k) == Holders(st.callers, k) + Undone(st.callers, k);
    assert Value(t.cps, (k, second)) == Asked(t.answers, k, second);
    assert Value(st.cps, (k, second)) == Asked(st.answers, k, second);
  }

  lemma RunAppend(limits: map<Key, Limits>, steps: seq<Step>, s: Step)
    requires Enabled(Run(limits, START, steps), s)
    ensures Run(limits, START, steps + [s]) == Next(limits, Run(limits, START, steps), s)
  {
    assert (steps + [s])[..|steps|] == steps;
  }

  const ONE_SLOT := map[Customer(7) := Limits(1, 0)]

  /** The first caller has asked for the only slot and holds it. */
  lemma OneAsked() returns (steps: seq<Step>)
    ensures Run(ONE_SLOT, START, steps)
         == State(map[Customer(7) := 1], map[(Customer(7), 0) := 1], [Caller([Customer(7)], Asking(1))],
                  [Answer(Customer(7), 0, true)])
  {
    var k := Customer(7);
    steps := [];
    RunAppend(ONE_SLOT, steps, Arrive([k]));
    steps := [Arrive([k])];
    assert Run(ONE_SLOT, START, steps) == State(map[], map[], [Caller([k], Asking(0))], []);
    RunAppend(ONE_SLOT, steps, Ask(0, 0));
    steps := steps + [Ask(0, 0)];
  }

  /** Two callers have asked for the only slot: the first holds it, the second is refused and has not undone its
      count. */
  lemma TwoAsked() returns (steps: seq<Step>)
    ensures Run(ONE_SLOT, START, steps)
         == State(map[Customer(7) := 2], map[(Customer(7), 0) := 2],
                  [Caller([Customer(7)], Asking(1)), Caller([Customer(7)], Refused(0))],
                  [Answer(Customer(7), 0, true), Answer(Customer(7), 0, false)])
  {
    var k := Customer(7);
    steps := OneAsked();
    var one := Run(ONE_SLOT, START, steps);
    RunAppend(ONE_SLOT, steps, Arrive([k]));
    steps := steps + [Arrive([k])];
    assert Run(ONE_SLOT, START, steps) == one.(callers := [Caller([k], Asking(1)), Caller([k], Asking(0))]);
    RunAppend(ONE_SLOT, steps, Ask(1, 0));
    steps := steps + [Ask(1, 0)];
  }

  /** The first caller is gone, the second still counts, and a third arrives. */
  lemma HolderGone() returns (steps: seq<Step>)
    ensures var st := Run(ONE_SLOT, START, steps);
      && st.concurrent == map[Customer(7) := 1]
      && st.callers
             == [Caller([Customer(7)], Leaving(1, 1)), Caller([Customer(7)], Refused(0)),
                    Caller([Customer(7)], Asking(0))]
  {
    steps := TwoAsked();
    RunAppend(ONE_SLOT, steps, Hangup(0));
    steps := steps + [Hangup(0)];
    RunAppend(ONE_SLOT, steps, Drop(0));
    steps := steps + [Drop(0)];
    RunAppend(ONE_SLOT, steps, Arrive([Customer(7)]));
    steps := steps + [Arrive([Customer(7)])];
  }

  /** A refused call can occupy a slot for a moment: nobody holds the only slot and the next caller is refused. */
  lemma RefusedWhileFree() returns (steps: seq<Step>)
    ensures var st := Run(ONE_SLOT, START, steps);
      && AllValid(st.callers) && Holders(st.callers, Customer(7)) == 0
      && Enabled(st, Ask(2, 0)) && Next(ONE_SLOT, st, Ask(2, 0)).callers[2].phase == Refused(0)
  {
    steps := HolderGone();
    var st := Run(ONE_SLOT, START, steps);
    NobodyHolds(st.callers, Customer(7));
  }
}
