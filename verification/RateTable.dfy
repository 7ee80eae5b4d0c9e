/** A rate deck searched through the trie gives what the reference query gives. */
module RateTable {
  import opened Basics
  import opened Trie

  /** A row of the rates table of one group; times are instants. */
  datatype RateRow = RateRow(id: nat, prefix: string, effectiveFrom: int, effectiveTo: Option<int>, enabled: bool)

  predicate Live(r: RateRow, at: int) {
    r.enabled && r.effectiveFrom <= at && (r.effectiveTo.None? || r.effectiveTo.value > at)
  }

  /** A row that ends when its successor starts hands over without a gap and without an overlap. */
  lemma HandsOver(r: RateRow, s: RateRow, at: int)
    requires r.enabled && s.enabled && r.effectiveTo == Some(s.effectiveFrom) && s.effectiveTo == None
    requires r.effectiveFrom <= at
    ensures Live(r, at) <==> !Live(s, at)
    ensures !Live(r.(enabled := false), at)
  {
  }

  /** What the table's constraints promise: digit prefixes, one row per prefix and start. */
  ghost predicate WellFormedDeck(deck: set<RateRow>) {
    && (forall r | r in deck :: r.prefix != "" && AllDigits(r.prefix))
    && (forall r, s | r in deck && s in deck && r.prefix == s.prefix && r.effectiveFrom == s.effectiveFrom :: r == s)
  }

  /** A result of the query for the effective rates: one row per prefix that has a live row, the latest. */
  ghost predicate IsEffectiveRates(deck: set<RateRow>, at: int, rows: seq<RateRow>) {
    && (forall i | 0 <= i < |rows| :: IsLatest(deck, at, rows[i]))
    && (forall i, j | 0 <= i < j < |rows| :: rows[i].prefix != rows[j].prefix)
    && (forall r | r in deck && Live(r, at) :: exists i | 0 <= i < |rows| :: rows[i].prefix == r.prefix)
  }

  ghost predicate IsLatest(deck: set<RateRow>, at: int, r: RateRow) {
    r in deck && Live(r, at) &&
    forall s | s in deck && Live(s, at) && s.prefix == r.prefix :: s.effectiveFrom <= r.effectiveFrom
  }

  /** A result of the reference query: longest matching prefix first, latest start first, one row. */
  ghost predicate IsLongestPrefixRow(deck: set<RateRow>, at: int, number: string, answer: Option<RateRow>) {
    match answer
    case None => forall r | r in deck && Live(r, at) :: !(r.prefix <= number)
    case Some(r) =>
      && r in deck && Live(r, at) && r.prefix <= number
      && forall s | s in deck && Live(s, at) && s.prefix <= number ::
           |s.prefix| < |r.prefix| || (|s.prefix| == |r.prefix| && s.effectiveFrom <= r.effectiveFrom)
  }

  /** The reference query has one possible answer. */
  lemma LongestPrefixRowUnique(deck: set<RateRow>, at: int, number: string, a: Option<RateRow>, b: Option<RateRow>)
    requires WellFormedDeck(deck)
    requires IsLongestPrefixRow(deck, at, number, a) && IsLongestPrefixRow(deck, at, number, b)
    ensures a == b
  {
    if a.Some? && b.Some? {
      assert a.value.prefix == number[..|a.value.prefix|] == b.value.prefix;
    }
  }

  /** The rows a table holds, by prefix. */
  ghost predicate Tabled(rows: seq<RateRow>, contents: map<string, RateRow>) {
    && (forall i | 0 <= i < |rows| :: rows[i].prefix in contents && contents[rows[i].prefix] == rows[i])
    && (forall p | p in contents :: exists i | 0 <= i < |rows| :: rows[i].prefix == p)
  }

  /** Load the effective rates into a fresh trie. */
  method BuildTable(rows: seq<RateRow>) returns (t: DigitTrie<RateRow>)
    requires forall i | 0 <= i < |rows| :: AllDigits(rows[i].prefix)
    requires forall i, j | 0 <= i < j < |rows| :: rows[i].prefix != rows[j].prefix
    ensures t.Valid() && fresh(t) && Tabled(rows, t.contents) && t.size == |rows|
  {
    t := new DigitTrie();
    for i := 0 to |rows|
      invariant t.Valid() && fresh(t) && fresh(t.repr)
      invariant Tabled(rows[..i], t.contents) && |t.contents| == i
    {
      ghost var before := t.contents;
      var ok := t.Insert(rows[i].prefix, rows[i]);
      UpdateSize(before, rows[i].prefix, rows[i]);
      TabledNext(rows, i, before);
    }
    assert rows[..|rows|] == rows;
  }

  lemma TabledNext(rows: seq<RateRow>, i: nat, contents: map<string, RateRow>)
    requires i < |rows| && Tabled(rows[..i], contents)
    requires forall k, j | 0 <= k < j < |rows| :: rows[k].prefix != rows[j].prefix
    ensures Tabled(rows[..i + 1], contents[rows[i].prefix := rows[i]]) && rows[i].prefix !in contents
  {
    var m, next := contents[rows[i].prefix := rows[i]], rows[..i + 1];
    assert next == rows[..i] + [rows[i]];
    forall p | p in m
      ensures exists j | 0 <= j < |next| :: next[j].prefix == p
    {
      if p == rows[i].prefix {
        assert next[i].prefix == p;
      } else {
        var j :| 0 <= j < i && rows[..i][j].prefix == p;
        assert next[j].prefix == p;
      }
    }
  }

  /** The longest stored prefix of the effective rates leads to the reference query's row. */
  lemma LongestKeyIsReference(deck: set<RateRow>, at: int, rows: seq<RateRow>, contents: map<string, RateRow>,
                              number: string, k: Option<string>)
    requires IsEffectiveRates(deck, at, rows) && Tabled(rows, contents) && IsLongestKey(contents, number, k)
    ensures IsLongestPrefixRow(deck, at, number, if k.Some? then Some(contents[k.value]) else None)
  {
    match k
    case None =>
      forall s | s in deck && Live(s, at)
        ensures !(s.prefix <= number)
      {
        TableHasLatest(deck, at, rows, contents, s);
      }
    case Some(key) =>
      TableRow(deck, at, rows, contents, key);
      var r := contents[key];
      forall s | s in deck && Live(s, at) && s.prefix <= number
        ensures |s.prefix| < |r.prefix| || (|s.prefix| == |r.prefix| && s.effectiveFrom <= r.effectiveFrom)
      {
        TableHasLatest(deck, at, rows, contents, s);
        if |s.prefix| == |key| {
          SamePrefix(s.prefix, key, number);
        }
      }
  }

  lemma SamePrefix(a: string, b: string, number: string)
    requires a <= number && b <= number && |a| == |b|
    ensures a == b
  {
  }

  lemma TableRow(deck: set<RateRow>, at: int, rows: seq<RateRow>, contents: map<string, RateRow>, key: string)
    requires IsEffectiveRates(deck, at, rows) && Tabled(rows, contents) && key in contents
    ensures contents[key].prefix == key && IsLatest(deck, at, contents[key])
  {
    var i :| 0 <= i < |rows| && rows[i].prefix == key;
    assert IsLatest(deck, at, rows[i]);
  }

  lemma TableHasLatest(deck: set<RateRow>, at: int, rows: seq<RateRow>, contents: map<string, RateRow>, s: RateRow)
    requires IsEffectiveRates(deck, at, rows) && Tabled(rows, contents) && s in deck && Live(s, at)
    ensures s.prefix in contents && s.effectiveFrom <= contents[s.prefix].effectiveFrom
  {
    var i :| 0 <= i < |rows| && rows[i].prefix == s.prefix;
    assert IsLatest(deck, at, rows[i]);
  }

  /** Matching a number in a group: the trie over its effective rates answers as the reference query. */
  method MatchRate(rows: seq<RateRow>, number: string, ghost deck: set<RateRow>, ghost at: int)
    returns (answer: Option<RateRow>)
    requires WellFormedDeck(deck) && IsEffectiveRates(deck, at, rows)
    ensures IsLongestPrefixRow(deck, at, number, answer)
  {
    assert forall i | 0 <= i < |rows| :: IsLatest(deck, at, rows[i]);
    var t := BuildTable(rows);
    var found := t.Match(number);
    LongestKeyIsReference(deck, at, rows, t.contents, number, if found.Some? then Some(found.value.1) else None);
    answer := if found.Some? then Some(found.value.0) else None;
  }
}
