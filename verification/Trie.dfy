/** The digit trie: nodes linked in place, searched by walking down. */
module Trie {
  import opened Basics

  predicate IsDigit(c: char) {
    '0' <= c <= '9'
  }

  predicate AllDigits(s: string) {
    forall i | 0 <= i < |s| :: IsDigit(s[i])
  }

  function Digit(d: int): (c: char)
    requires 0 <= d < 10
    ensures IsDigit(c) && c as int - '0' as int == d
  {
    (d + '0' as int) as char
  }

  lemma TakeNext(s: string, i: nat)
    requires i < |s|
    ensures s[..i + 1] == s[..i] + [s[i]]
    ensures AllDigits(s[..i + 1]) <==> AllDigits(s[..i]) && IsDigit(s[i])
  {
    assert forall k | 0 <= k < i :: s[..i + 1][k] == s[..i][k];
    assert s[..i + 1][i] == s[i];
  }

  /** k is the longest key of m that is a prefix of number; None when no key is. */
  ghost predicate IsLongestKey<T(!new)>(m: map<string, T>, number: string, k: Option<string>) {
    match k
    case None => forall p | p in m :: !(p <= number)
    case Some(s) => s in m && s <= number && forall p | p in m && p <= number :: |p| <= |s|
  }

  class Node<T> {
    var children: seq<Node?<T>>
    var value: Option<T>
    /** The digits that lead to this node. */
    ghost const path: string

    constructor (ghost path: string)
      ensures children == EmptyChildren() && value == None && this.path == path
    {
      children := EmptyChildren();
      value := None;
      this.path := path;
    }
  }

  function EmptyChildren<T>(): (s: seq<Node?<T>>)
    ensures |s| == 10 && forall d | 0 <= d < 10 :: s[d] == null
  {
    seq(10, _ => null)
  }

  // ---- the shape of the linked nodes, as a value ----

  /** The child link of p for digit d agrees with the table of nodes. */
  ghost predicate Linked<T(!new)>(nodes: map<string, Node<T>>, kids: map<string, seq<Node?<T>>>, p: string, d: int) {
    p in nodes && p in kids && 0 <= d < 10 ==>
      && |kids[p]| == 10
      && var q := p + [Digit(d)];
      && (kids[p][d] == null <==> q !in nodes)
      && (q in nodes ==> kids[p][d] == nodes[q])
  }

  /** Every node but the root hangs under the node of the shorter string. */
  ghost predicate Rooted<T(!new)>(nodes: map<string, Node<T>>, p: string) {
    p in nodes && p != "" ==> IsDigit(p[|p| - 1]) && p[..|p| - 1] in nodes
  }

  ghost predicate Shape<T(!new)>(nodes: map<string, Node<T>>, kids: map<string, seq<Node?<T>>>) {
    && kids.Keys == nodes.Keys
    && (forall p | p in kids :: |kids[p]| == 10)
    && (forall p, d {:trigger Linked(nodes, kids, p, d)} :: Linked(nodes, kids, p, d))
    && (forall p {:trigger Rooted(nodes, p)} :: Rooted(nodes, p))
  }

  /** Hanging one new childless node under p keeps the shape. */
  lemma {:induction false} ChildKeepsShape<T(!new)>(nodes: map<string, Node<T>>, kids: map<string, seq<Node?<T>>>,
                                                    p: string, d: int, child: Node<T>)
    requires Shape(nodes, kids) && p in nodes && 0 <= d < 10 && kids[p][d] == null
    ensures p + [Digit(d)] !in nodes
    ensures Shape(nodes[p + [Digit(d)] := child],
                  kids[p := kids[p][d := child]][p + [Digit(d)] := EmptyChildren()])
  {
    var q := p + [Digit(d)];
    var nodes', kids' := nodes[q := child], kids[p := kids[p][d := child]][q := EmptyChildren()];
    assert Linked(nodes, kids, p, d);
    assert q[..|q| - 1] == p;
    forall r, e
      ensures Linked(nodes', kids', r, e)
    {
      assert Linked(nodes, kids, r, e);
      if r in nodes && 0 <= e < 10 && r + [Digit(e)] == q {
        assert (r + [Digit(e)])[..|r|] == r;
      }
      if r == q && 0 <= e < 10 {
        assert Rooted(nodes, q + [Digit(e)]);
        assert (q + [Digit(e)])[..|q|] == q;
      }
    }
    forall r
      ensures Rooted(nodes', r)
    {
      assert Rooted(nodes, r);
    }
  }

  /** Where the walk along number stops, no longer prefix has a node. */
  lemma {:induction false} NothingBeyond<T(!new)>(nodes: map<string, Node<T>>, kids: map<string, seq<Node?<T>>>,
                                                  number: string, i: nat, k: nat)
    requires Shape(nodes, kids) && i < k <= |number|
    requires !IsDigit(number[i]) || number[..i + 1] !in nodes
    ensures number[..k] !in nodes
    decreases k
  {
    assert Rooted(nodes, number[..k]);
    if k == i + 1 {
      assert number[..k][i] == number[i];
    } else {
      assert number[..k][..k - 1] == number[..k - 1];
      NothingBeyond(nodes, kids, number, i, k - 1);
    }
  }

  ghost function Lookup<T>(m: map<string, T>, p: string): Option<T> {
    if p in m then Some(m[p]) else None
  }

  lemma UpdateSize<T>(m: map<string, T>, p: string, v: T)
    ensures |m[p := v]| == |m| + (if p in m then 0 else 1)
  {
    assert m[p := v].Keys == m.Keys + {p};
  }

  class DigitTrie<T(!new)> {
    var root: Node?<T>
    var size: nat
    /** The stored prefixes and their values. */
    ghost var contents: map<string, T>
    /** The node each digit string leads to, and its children. */
    ghost var nodes: map<string, Node<T>>
    ghost var kids: map<string, seq<Node?<T>>>
    ghost var repr: set<Node<T>>

    /** The node of p holds p's children and p's value. */
    ghost predicate Held(p: string)
      reads this, repr
    {
      p in nodes && p in kids ==>
        && nodes[p] in repr
        && nodes[p].path == p
        && nodes[p].children == kids[p]
        && nodes[p].value == Lookup(contents, p)
    }

    ghost predicate AllHeld()
      reads this, repr
    {
      forall p {:trigger Held(p)} :: Held(p)
    }

    ghost predicate Valid()
      reads this, repr
    {
      && (root == null ==> nodes == map[])
      && (root != null ==> "" in nodes && nodes[""] == root)
      && Shape(nodes, kids)
      && (forall p | p in contents :: p in nodes)
      && AllHeld()
      && size == |contents|
    }

    constructor ()
      ensures Valid() && contents == map[] && fresh(repr)
    {
      var n := new Node("");
      root, size := n, 0;
      nodes, kids, contents, repr := map["" := n], map["" := EmptyChildren()], map[], {n};
    }

    /** Len, and that it counts the distinct stored prefixes. */
    method Len() returns (n: nat)
      requires Valid()
      ensures n == |contents|
    {
      n := size;
    }

    /** Store a value under a prefix.  A non-digit anywhere refuses it: nodes may have been added, but
        what the trie represents has not changed. */
    method Insert(prefix: string, value: T) returns (ok: bool)
      requires Valid()
      modifies this, repr
      ensures Valid() && (forall m | m in repr :: m in old(repr) || fresh(m))
      ensures ok == AllDigits(prefix)
      ensures contents == if ok then old(contents)[prefix := value] else old(contents)
    {
      EnsureRoot();
      ok := Place(prefix, value);
    }

    method Place(prefix: string, value: T) returns (ok: bool)
      requires Valid() && root != null
      modifies this`nodes, this`kids, this`repr, this`size, this`contents, repr
      ensures Valid() && (forall m | m in repr :: m in old(repr) || fresh(m))
      ensures ok == AllDigits(prefix)
      ensures contents == if ok then old(contents)[prefix := value] else old(contents)
    {
      var n := Walk(prefix);
      ok := n != null;
      if ok {
        SetValue(prefix, n, value);
      }
    }

    /** Walk down along prefix, creating what is missing; null at the first character that is no digit. */
    method Walk(prefix: string) returns (n: Node?<T>)
      requires Valid() && root != null
      modifies this`nodes, this`kids, this`repr, repr`children
      ensures Valid() && (forall m | m in repr :: m in old(repr) || fresh(m))
      ensures n != null <==> AllDigits(prefix)
      ensures n != null ==> prefix in nodes && nodes[prefix] == n && n in repr
    {
      n := root;
      assert Held("");
      var i := 0;
      while i < |prefix|
        invariant 0 <= i <= |prefix| && AllDigits(prefix[..i])
        invariant Valid() && (forall m | m in repr :: m in old(repr) || fresh(m))
        invariant n != null && prefix[..i] in nodes && nodes[prefix[..i]] == n && n in repr
      {
        if !IsDigit(prefix[i]) {
          return null;
        }
        TakeNext(prefix, i);
        n := Descend(prefix[..i], n, prefix[i] as int - '0' as int);
        i := i + 1;
      }
      assert prefix[..i] == prefix;
    }

    /** Hang a new node under n, the node of p. */
    method AddChild(p: string, n: Node<T>, d: int, child: Node<T>)
      requires Valid() && p in nodes && nodes[p] == n && n in repr && 0 <= d < 10
      requires |n.children| == 10 && n.children[d] == null
      requires child !in repr && child.path == p + [Digit(d)] && child.children == EmptyChildren()
      requires child.value == None
      modifies this`nodes, this`kids, this`repr, n`children
      ensures Valid() && repr == old(repr) + {child}
      ensures p + [Digit(d)] in nodes && nodes[p + [Digit(d)]] == child
    {
      assert Held(p);
      ChildKeepsShape(nodes, kids, p, d, child);
      Link(p, n, d, child);
    }

    /** The link itself: every node still holds what the tables say. */
    method Link(p: string, n: Node<T>, d: int, child: Node<T>)
      requires AllHeld() && p in nodes && p in kids && nodes[p] == n && n in repr && 0 <= d < 10 && |kids[p]| == 10
      requires child !in repr && child.path == p + [Digit(d)] && child.children == EmptyChildren()
      requires child.value == None
      requires child.path !in nodes && child.path !in contents
      modifies this`nodes, this`kids, this`repr, n`children
      ensures AllHeld() && repr == old(repr) + {child}
      ensures nodes == old(nodes)[p + [Digit(d)] := child]
      ensures kids == old(kids)[p := old(kids)[p][d := child]][p + [Digit(d)] := EmptyChildren()]
    {
      assert Held(p);
      n.children := n.children[d := child];
      nodes, kids, repr :=
        nodes[child.path := child], kids[p := n.children][child.path := EmptyChildren()], repr + {child};
      forall r
        ensures Held(r)
      {
        assert old(Held(r));
      }
    }

    /** A trie that never held anything gets its root. */
    method EnsureRoot()
      requires Valid()
      modifies this
      ensures Valid() && (forall m | m in repr :: m in old(repr) || fresh(m)) && contents == old(contents)
      ensures root != null && "" in nodes && nodes[""] == root && root in repr
    {
      assert Held("");
      if root == null {
        var n := new Node("");
        root, nodes, kids := n, map["" := n], map["" := EmptyChildren()];
        repr := repr + {n};
        assert forall p :: Held(p);
      }
    }

    /** One step down from n, the node of p, creating the child when it is missing. */
    method Descend(p: string, n: Node<T>, d: int) returns (child: Node<T>)
      requires Valid() && p in nodes && nodes[p] == n && n in repr && 0 <= d < 10
      modifies this`nodes, this`kids, this`repr, n`children
      ensures Valid() && (forall m | m in repr :: m in old(repr) || fresh(m))
      ensures p + [Digit(d)] in nodes && nodes[p + [Digit(d)]] == child && child in repr
    {
      assert Linked(nodes, kids, p, d) && Held(p) && Held(p + [Digit(d)]);
      if n.children[d] == null {
        child := new Node(p + [Digit(d)]);
        AddChild(p, n, d, child);
      } else {
        child := n.children[d];
      }
      assert Held(p + [Digit(d)]);
    }

    method SetValue(p: string, n: Node<T>, value: T)
      requires Valid() && p in nodes && nodes[p] == n && n in repr
      modifies this`size, this`contents, n`value
      ensures Valid()
      ensures contents == old(contents)[p := value]
    {
      assert Held(p);
      UpdateSize(contents, p, value);
      if n.value.None? {
        size := size + 1;
      }
      n.value := Some(value);
      contents := contents[p := value];
      forall r
        ensures Held(r)
      {
        assert old(Held(r));
      }
    }

    /** The value under the longest stored prefix of number, and that prefix. */
    method Match(number: string) returns (found: Option<(T, string)>)
      requires Valid()
      ensures IsLongestKey(contents, number, if found.Some? then Some(found.value.1) else None)
      ensures found.Some? ==> found.value.1 in contents && found.value.0 == contents[found.value.1]
    {
      if root == null {
        return None;
      }
      var n: Node<T> := root;
      assert Held("");
      var best: Option<T> := n.value;
      var bestLen := 0;
      var i := 0;
      while i < |number|
        invariant 0 <= i <= |number| && 0 <= bestLen <= i
        invariant number[..i] in nodes && nodes[number[..i]] == n
        invariant best.Some? ==> best == Lookup(contents, number[..bestLen])
        invariant forall k | 0 <= k <= i && number[..k] in contents :: best.Some? && k <= bestLen
      {
        if !IsDigit(number[i]) {
          break;
        }
        var d := number[i] as int - '0' as int;
        assert Linked(nodes, kids, number[..i], d) && Held(number[..i]);
        assert number[..i + 1] == number[..i] + [Digit(d)];
        if n.children[d] == null {
          break;
        }
        n := n.children[d];
        i := i + 1;
        assert Held(number[..i]);
        if n.value.Some? {
          best, bestLen := n.value, i;
        }
      }
      forall p | p in contents && p <= number
        ensures best.Some? && |p| <= bestLen
      {
        assert p == number[..|p|];
        if i < |p| {
          NothingBeyond(nodes, kids, number, i, |p|);
        }
      }
      if best.None? {
        return None;
      }
      return Some((best.value, number[..bestLen]));
    }
  }
}
