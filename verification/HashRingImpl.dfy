/** The ring as the object of the source, each method proved against the functions of HashRing. */
module HashRingImpl {
  import opened Common
  import opened HashRing

  function DigitChar(d: nat): char
    requires d < 10
  {
    ('0' as int + d) as char
  }

  /** strconv.Itoa for a non-negative number. */
  function Itoa(i: nat): string {
    if i < 10 then [DigitChar(i)] else Itoa(i / 10) + [DigitChar(i % 10)]
  }

  predicate Digits(s: string) {
    forall i | 0 <= i < |s| :: '0' <= s[i] <= '9'
  }

  /** A decimal number without leading zeros. */
  predicate Decimal(s: string) {
    s != [] && Digits(s) && (|s| > 1 ==> s[0] != '0')
  }

  function Digit(c: char): int {
    c as int - '0' as int
  }

  function Value(s: string): int {
    if s == [] then 0 else Value(s[..|s| - 1]) * 10 + Digit(s[|s| - 1])
  }

  lemma DigitOf(d: nat)
    requires d < 10
    ensures Digit(DigitChar(d)) == d && '0' <= DigitChar(d) <= '9'
  {
  }

  lemma ValueAppend(s: string, c: char)
    ensures Value(s + [c]) == Value(s) * 10 + Digit(c)
    ensures Digits(s) && '0' <= c <= '9' ==> Digits(s + [c])
  {
    assert (s + [c])[..|s|] == s;
  }

  lemma OneDigit(d: nat)
    requires d < 10
    ensures var s := [DigitChar(d)]; Decimal(s) && Value(s) == d && (d > 0 ==> s[0] != '0')
  {
    DigitOf(d);
    ValueAppend([], DigitChar(d));
    assert [] + [DigitChar(d)] == [DigitChar(d)];
  }

  lemma MoreDigits(s: string, v: nat, d: nat)
    requires Decimal(s) && Value(s) == v && s[0] != '0' && d < 10
    ensures var t := s + [DigitChar(d)]; Decimal(t) && Value(t) == v * 10 + d && t[0] != '0'
  {
    DigitOf(d);
    ValueAppend(s, DigitChar(d));
  }

  /** `Itoa` writes the number in decimal. */
  lemma {:induction false} ItoaIsDecimal(i: nat)
    ensures Decimal(Itoa(i)) && Value(Itoa(i)) == i && (i > 0 ==> Itoa(i)[0] != '0')
  {
    if i < 10 {
      OneDigit(i);
    } else {
      ItoaIsDecimal(i / 10);
      MoreDigits(Itoa(i / 10), i / 10, i % 10);
    }
  }

  lemma {:induction false} DigitsBound(s: string)
    requires Digits(s)
    ensures Value(s) >= 0 && (s != [] && s[0] != '0' ==> Value(s) > 0)
    decreases |s|
  {
    if s == [] {
    } else {
      DigitsBound(s[..|s| - 1]);
    }
  }

  lemma LastDigit(v: int, w: int, c: char, d: char)
    requires '0' <= c <= '9' && '0' <= d <= '9' && v * 10 + Digit(c) == w * 10 + Digit(d)
    ensures v == w && c == d
  {
  }

  /** A number has one decimal. */
  lemma {:induction false} DecimalUnique(s: string, t: string)
    requires Decimal(s) && Decimal(t) && Value(s) == Value(t)
    ensures s == t
    decreases |s|
  {
    var a, b := s[..|s| - 1], t[..|t| - 1];
    DigitsBound(a);
    DigitsBound(b);
    LastDigit(Value(a), Value(b), s[|s| - 1], t[|t| - 1]);
    assert (a != [] ==> a[0] == s[0]) && (b != [] ==> b[0] == t[0]);
    assert a == [] <==> b == [];
    if a == [] {
    } else {
      DecimalUnique(a, b);
    }
    assert s == a + [s[|s| - 1]] && t == b + [t[|t| - 1]];
  }

  /** The vnodes of one node: one per index, placed by the hash of `node#i`. */
  function VNodesOf(hashKey: string -> nat, node: string, count: nat): seq<VNode> {
    if count == 0 then []
    else VNodesOf(hashKey, node, count - 1) + [VNode(hashKey(node + "#" + Itoa(count - 1)), node)]
  }

  lemma {:induction false} VNodesOfFacts(hashKey: string -> nat, node: string, count: nat)
    ensures |VNodesOf(hashKey, node, count)| == count && AllOf(VNodesOf(hashKey, node, count), node)
  {
    if count == 0 {
    } else {
      VNodesOfFacts(hashKey, node, count - 1);
    }
  }

  /** v lies at the hash of the node, `#` and the decimal of a number below the count. */
  ghost predicate Labelled(hashKey: string -> nat, node: string, count: nat, v: VNode) {
    exists d :: Decimal(d) && Value(d) < count && v == VNode(hashKey(node + "#" + d), node)
  }

  lemma {:induction false} VNodesLabelled(hashKey: string -> nat, node: string, count: nat, v: VNode)
    ensures v in VNodesOf(hashKey, node, count) <==> Labelled(hashKey, node, count, v)
  {
    if count == 0 {
      forall d | Decimal(d) ensures Value(d) >= 0 { DigitsBound(d); }
    } else {
      VNodesLabelled(hashKey, node, count - 1, v);
      ItoaIsDecimal(count - 1);
      assert VNodesOf(hashKey, node, count)
        == VNodesOf(hashKey, node, count - 1) + [VNode(hashKey(node + "#" + Itoa(count - 1)), node)];
      if d :| Decimal(d) && Value(d) < count && v == VNode(hashKey(node + "#" + d), node) {
        if Value(d) == count - 1 { DecimalUnique(d, Itoa(count - 1)); }
      }
    }
  }

  lemma AddedLabels(vs: seq<VNode>, hashKey: string -> nat, node: string, count: nat, sorted: seq<VNode>)
    requires Arranged(sorted, vs + VNodesOf(hashKey, node, count))
    ensures forall v :: v in sorted <==> v in vs || Labelled(hashKey, node, count, v)
  {
    forall v ensures v in sorted <==> v in vs || Labelled(hashKey, node, count, v) {
      VNodesLabelled(hashKey, node, count, v);
      assert v in sorted <==> v in multiset(sorted);
      assert v in multiset(vs + VNodesOf(hashKey, node, count)) <==> v in vs + VNodesOf(hashKey, node, count);
    }
  }

  /** The labels of a node's vnodes are all different. */
  lemma LabelsDistinct(node: string, i: nat, j: nat)
    ensures node + "#" + Itoa(i) == node + "#" + Itoa(j) ==> i == j
  {
    ItoaIsDecimal(i);
    ItoaIsDecimal(j);
    var a, b := node + "#" + Itoa(i), node + "#" + Itoa(j);
    assert a[|node| + 1..] == Itoa(i) && b[|node| + 1..] == Itoa(j);
  }

  class Ring {
    const hashKey: string -> nat
    const vnodesPerNode: nat
    var vnodes: seq<VNode>
    var nodes: set<string>
    ghost var weights: map<string, nat>   // the weight each node was added with

    /** Sorted, and each node has vnodesPerNode times its weight in vnodes. */
    ghost predicate Valid()
      reads this
    {
      && vnodesPerNode > 0 && Sorted(vnodes) && nodes == weights.Keys
      && (forall x | x in weights :: weights[x] > 0)
      && (forall x :: Count(vnodes, x) == if x in weights then vnodesPerNode * weights[x] else 0)
    }

    constructor (hashKey: string -> nat, perNode: int)
      ensures Valid() && vnodes == [] && weights == map[]
      ensures this.hashKey == hashKey && vnodesPerNode == if perNode <= 0 then 100 else perNode
    {
      this.hashKey := hashKey;
      vnodesPerNode := if perNode <= 0 then 100 else perNode;
      vnodes, nodes, weights := [], {}, map[];
    }

    method Add(node: string, weight: int)
      requires Valid()
      modifies this
      ensures Valid()
      ensures node in old(nodes) ==> vnodes == old(vnodes) && weights == old(weights)
      ensures node !in old(nodes) ==>
        var w := if weight <= 0 then 1 else weight;
        weights == old(weights)[node := w] &&
        Arranged(vnodes, old(vnodes) + VNodesOf(hashKey, node, vnodesPerNode * w))
      ensures node !in old(nodes) ==>
        var count := vnodesPerNode * if weight <= 0 then 1 else weight;
        forall v :: v in vnodes <==> v in old(vnodes) || Labelled(hashKey, node, count, v)
    {
      var w: nat := if weight <= 0 then 1 else weight;
      if node in nodes { return; }
      nodes := nodes + {node};
      var count := vnodesPerNode * w;
      var vs := Append(vnodes, hashKey, node, count);
      var sorted := Sort(vs);
      AddedCounts(vnodes, hashKey, node, count, sorted);
      AddedLabels(vnodes, hashKey, node, count, sorted);
      vnodes, weights := sorted, weights[node := w];
    }

    method Remove(node: string)
      requires Valid()
      modifies this
      ensures Valid() && vnodes == Drop(old(vnodes), node)
      ensures nodes == old(nodes) - {node} && weights == old(weights) - {node}
    {
      DropSorted(vnodes, node);
      forall y ensures Count(Drop(vnodes, node), y) == if y == node then 0 else Count(vnodes, y) {
        DropCount(vnodes, node, y);
      }
      if node !in nodes {
        DropNothing(vnodes, node);
        return;
      }
      var filtered := Filter(vnodes, node);
      nodes, vnodes, weights := nodes - {node}, filtered, weights - {node};
    }

    method Get(key: string) returns (owner: Option<string>)
      requires Valid()
      ensures owner == Owner(vnodes, hashKey(key))
    {
      if |vnodes| == 0 { return None; }
      var i := Search(vnodes, hashKey(key));
      SearchIsWalk(vnodes, hashKey(key), i);
      if i == |vnodes| { i := 0; }
      return Some(vnodes[i].node);
    }

    method GetN(key: string, n: int) returns (out: seq<string>)
      requires Valid()
      ensures out == Replicas(vnodes, hashKey(key), n)
    {
      out := [];
      if n <= 0 { return; }
      if |nodes| == 0 {
        NoNodes();
        return;
      }
      var i := Search(vnodes, hashKey(key));
      SearchIsWalk(vnodes, hashKey(key), i);
      if i == |vnodes| {
        i := 0;
        assert vnodes[0..] + vnodes[..0] == vnodes[|vnodes|..] + vnodes[..|vnodes|];
      }
      out := Collect(vnodes, i, n);
    }

    lemma NoNodes()
      requires Valid() && |nodes| == 0
      ensures vnodes == []
    {
      if vnodes != [] {
        var last := vnodes[|vnodes| - 1];
        assert Count(vnodes, last.node) > 0;
      }
    }
  }

  /** The loop of `Add`. */
  method Append(vs: seq<VNode>, hashKey: string -> nat, node: string, count: nat) returns (r: seq<VNode>)
    ensures r == vs + VNodesOf(hashKey, node, count)
  {
    r := vs;
    for i := 0 to count
      invariant r == vs + VNodesOf(hashKey, node, i)
    {
      r := r + [VNode(hashKey(node + "#" + Itoa(i)), node)];
    }
  }

  /** The loop of `GetN`: round the ring from index `i` until `n` nodes are collected. */
  method Collect(vs: seq<VNode>, i: nat, n: nat) returns (out: seq<string>)
    requires n > 0 && (i < |vs| || (i == 0 && vs == []))
    ensures out == Take(Firsts(vs[i..] + vs[..i]), n)
  {
    ghost var walk := vs[i..] + vs[..i];
    out := [];
    var seen := {};
    var j := 0;
    while j < |vs| && |out| < n
      invariant j <= |vs| && |out| <= n
      invariant out == Firsts(walk[..j]) && forall x :: x in seen <==> x in out
    {
      RoundTheRing(vs, i, j);
      var v := vs[(i + j) % |vs|];
      FirstsStep(walk, j);
      if v.node !in seen {
        seen := seen + {v.node};
        out := out + [v.node];
      }
      j := j + 1;
    }
    FirstsPrefix(walk, j);
    assert j == |walk| ==> walk[..j] == walk;
  }

  lemma FirstsStep(ws: seq<VNode>, j: nat)
    requires j < |ws|
    ensures var p := Firsts(ws[..j]);
      Firsts(ws[..j + 1]) == if ws[j].node in p then p else p + [ws[j].node]
  {
    assert ws[..j + 1][..j] == ws[..j];
  }

  lemma {:induction false} FirstsPrefix(ws: seq<VNode>, j: nat)
    requires j <= |ws|
    ensures Firsts(ws[..j]) <= Firsts(ws)
    decreases |ws|
  {
    if j == |ws| {
      assert ws[..j] == ws;
    } else {
      assert ws[..|ws| - 1][..j] == ws[..j];
      FirstsPrefix(ws[..|ws| - 1], j);
    }
  }

  /** The counts after an add: the new node has what was appended, every other node what it had. */
  lemma AddedCounts(vs: seq<VNode>, hashKey: string -> nat, node: string, count: nat, sorted: seq<VNode>)
    requires Count(vs, node) == 0 && Arranged(sorted, vs + VNodesOf(hashKey, node, count))
    ensures forall x :: Count(sorted, x) == if x == node then count else Count(vs, x)
  {
    var added := VNodesOf(hashKey, node, count);
    VNodesOfFacts(hashKey, node, count);
    CountAllOf(added, node);
    forall x ensures Count(sorted, x) == if x == node then count else Count(vs, x) {
      CountPermutes(sorted, vs + added, x);
      CountConcat(vs, added, x);
    }
  }

  /** sort.Search on the hashes. */
  method Search(vs: seq<VNode>, h: nat) returns (i: nat)
    requires Sorted(vs)
    ensures i <= |vs| && OnSide(vs[..i], h, false) && OnSide(vs[i..], h, true)
  {
    i := 0;
    var j := |vs|;
    while i < j
      invariant i <= j <= |vs|
      invariant forall k | 0 <= k < i :: vs[k].hash < h
      invariant forall k | j <= k < |vs| :: vs[k].hash >= h
    {
      var m := (i + j) / 2;
      if vs[m].hash < h { i := m + 1; } else { j := m; }
    }
  }

  method Filter(vs: seq<VNode>, x: string) returns (r: seq<VNode>)
    ensures r == Drop(vs, x)
  {
    r := [];
    var i := 0;
    while i < |vs|
      invariant i <= |vs| && r == Drop(vs[..i], x)
    {
      assert vs[..i + 1][..i] == vs[..i];
      if vs[i].node != x { r := r + [vs[i]]; }
      i := i + 1;
    }
    assert vs[..|vs|] == vs;
  }

  /** Stands for sort.Slice: callers know only that the result is sorted and has the same vnodes. */
  method Sort(vs: seq<VNode>) returns (r: seq<VNode>)
    ensures Arranged(r, vs)
  {
    r := [];
    var i := 0;
    while i < |vs|
      invariant i <= |vs| && Arranged(r, vs[..i])
    {
      assert vs[..i + 1] == vs[..i] + [vs[i]];
      r := Insert(r, vs[i]);
      i := i + 1;
    }
    assert vs[..|vs|] == vs;
  }

  method Insert(vs: seq<VNode>, v: VNode) returns (r: seq<VNode>)
    requires Sorted(vs)
    ensures Arranged(r, vs + [v])
  {
    var i := Search(vs, v.hash);
    r := vs[..i] + [v] + vs[i..];
    Inserted(vs, v, i);
  }

  lemma Inserted(vs: seq<VNode>, v: VNode, i: nat)
    requires Sorted(vs) && i <= |vs| && OnSide(vs[..i], v.hash, false) && OnSide(vs[i..], v.hash, true)
    ensures Arranged(vs[..i] + [v] + vs[i..], vs + [v])
  {
    var a, b := vs[..i], vs[i..];
    assert vs == a + b;
    SortedConcat(a, [v], v.hash);
    SortedConcat(a + [v], b, v.hash);
  }
}
