/**
 * The consistent hash ring (internal/hashring/hashring.go): vnodes on a circle of hashes, the owner of a key,
 * and what adding and removing a node moves. Hashes are any function; sort.Slice is not stable, so a sort
 * may leave vnodes of equal hash in any order.
 */
module HashRing {
  import opened Arith
  import opened Common

  datatype VNode = VNode(hash: nat, node: string)

  predicate Sorted(vs: seq<VNode>) {
    forall i, j | 0 <= i < j < |vs| :: vs[i].hash <= vs[j].hash
  }

  // ---- The clockwise walk, independent of how it is searched for ----

  /** The vnodes at or after `h`. */
  function From(vs: seq<VNode>, h: nat): seq<VNode> {
    if vs == [] then []
    else From(vs[..|vs| - 1], h) + if vs[|vs| - 1].hash >= h then [vs[|vs| - 1]] else []
  }

  /** The vnodes before `h`. */
  function Before(vs: seq<VNode>, h: nat): seq<VNode> {
    if vs == [] then []
    else Before(vs[..|vs| - 1], h) + if vs[|vs| - 1].hash < h then [vs[|vs| - 1]] else []
  }

  /** All vnodes in the order a key of hash `h` meets them. */
  function Walk(vs: seq<VNode>, h: nat): seq<VNode> {
    From(vs, h) + Before(vs, h)
  }

  function Owner(vs: seq<VNode>, h: nat): Option<string> {
    if Walk(vs, h) == [] then None else Some(Walk(vs, h)[0].node)
  }

  /** The nodes of a walk, each once, in the order of first appearance. */
  function Firsts(ws: seq<VNode>): seq<string> {
    if ws == [] then []
    else
      var p := Firsts(ws[..|ws| - 1]);
      if ws[|ws| - 1].node in p then p else p + [ws[|ws| - 1].node]
  }

  function Take<T>(s: seq<T>, n: int): seq<T> {
    if n <= 0 then [] else if n >= |s| then s else s[..n]
  }

  function Replicas(vs: seq<VNode>, h: nat, n: int): seq<string> {
    Take(Firsts(Walk(vs, h)), n)
  }

  /** The vnodes that are not `x`'s. */
  function Drop(vs: seq<VNode>, x: string): seq<VNode> {
    if vs == [] then []
    else Drop(vs[..|vs| - 1], x) + if vs[|vs| - 1].node != x then [vs[|vs| - 1]] else []
  }

  function Without(s: seq<string>, x: string): seq<string> {
    if s == [] then []
    else Without(s[..|s| - 1], x) + if s[|s| - 1] != x then [s[|s| - 1]] else []
  }

  function Count(vs: seq<VNode>, x: string): nat {
    if vs == [] then 0 else Count(vs[..|vs| - 1], x) + if vs[|vs| - 1].node == x then 1 else 0
  }

  // ---- The binary search finds the walk ----

  lemma {:induction false} FromConcat(a: seq<VNode>, b: seq<VNode>, h: nat)
    ensures From(a + b, h) == From(a, h) + From(b, h)
  {
    if b == [] {
      assert a + b == a;
    } else {
      FromConcat(a, b[..|b| - 1], h);
      assert (a + b)[..|a + b| - 1] == a + b[..|b| - 1];
    }
  }

  lemma {:induction false} BeforeConcat(a: seq<VNode>, b: seq<VNode>, h: nat)
    ensures Before(a + b, h) == Before(a, h) + Before(b, h)
  {
    if b == [] {
      assert a + b == a;
    } else {
      BeforeConcat(a, b[..|b| - 1], h);
      assert (a + b)[..|a + b| - 1] == a + b[..|b| - 1];
    }
  }

  predicate OnSide(vs: seq<VNode>, h: nat, after: bool) {
    forall v | v in vs :: (v.hash >= h) == after
  }

  lemma {:induction false} OneSide(vs: seq<VNode>, h: nat, after: bool)
    requires OnSide(vs, h, after)
    ensures From(vs, h) == (if after then vs else []) && Before(vs, h) == if after then [] else vs
  {
    if vs == [] {
    } else {
      var init, last := vs[..|vs| - 1], vs[|vs| - 1];
      assert vs == init + [last] && last in vs;
      OneSide(init, h, after);
    }
  }

  lemma WalkOf(a: seq<VNode>, b: seq<VNode>, h: nat)
    requires OnSide(a, h, false) && OnSide(b, h, true)
    ensures From(a + b, h) == b && Before(a + b, h) == a
  {
    FromConcat(a, b, h);
    BeforeConcat(a, b, h);
    OneSide(a, h, false);
    OneSide(b, h, true);
    assert [] + b == b && a + [] == a;
  }

  /** In a sorted ring, splitting at the first hash not below `h` gives the walk. */
  lemma SearchIsWalk(vs: seq<VNode>, h: nat, i: nat)
    requires i <= |vs| && OnSide(vs[..i], h, false) && OnSide(vs[i..], h, true)
    ensures From(vs, h) == vs[i..] && Before(vs, h) == vs[..i] && Walk(vs, h) == vs[i..] + vs[..i]
  {
    var a, b := vs[..i], vs[i..];
    assert vs == a + b;
    WalkOf(a, b, h);
  }

  lemma SplitAt(vs: seq<VNode>, h: nat, i: nat)
    requires Sorted(vs) && i <= |vs| && (i == 0 || vs[i - 1].hash < h) && (i == |vs| || vs[i].hash >= h)
    ensures OnSide(vs[..i], h, false) && OnSide(vs[i..], h, true)
  {
    forall v | v in vs[..i] ensures v.hash < h {
      var j :| 0 <= j < i && vs[j] == v;
      assert j < i - 1 ==> vs[j].hash <= vs[i - 1].hash;
    }
    forall v | v in vs[i..] ensures v.hash >= h {
      var j :| i <= j < |vs| && vs[j] == v;
      assert j > i ==> vs[i].hash <= vs[j].hash;
    }
  }

  /** The owner of a hash: the node of the first vnode at or after it, or of the very first one. */
  lemma OwnerIsNext(vs: seq<VNode>, h: nat, i: nat)
    requires Sorted(vs) && i <= |vs| && (i == 0 || vs[i - 1].hash < h) && (i == |vs| || vs[i].hash >= h)
    ensures Owner(vs, h) == if i < |vs| then Some(vs[i].node) else if vs != [] then Some(vs[0].node) else None
  {
    SplitAt(vs, h, i);
    SearchIsWalk(vs, h, i);
  }

  /** The k-th vnode met when walking round from index `i`. */
  lemma RoundTheRing(vs: seq<VNode>, i: nat, k: nat)
    requires i < |vs| && k < |vs|
    ensures (vs[i..] + vs[..i])[k] == vs[(i + k) % |vs|]
  {
    if i + k < |vs| {
      ModUnique(i + k, |vs|, 0, i + k);
    } else {
      ModUnique(i + k, |vs|, 1, i + k - |vs|);
    }
  }

  // ---- Removing a node ----

  lemma {:induction false} DropConcat(a: seq<VNode>, b: seq<VNode>, x: string)
    ensures Drop(a + b, x) == Drop(a, x) + Drop(b, x)
  {
    if b == [] {
      assert a + b == a;
    } else {
      DropConcat(a, b[..|b| - 1], x);
      assert (a + b)[..|a + b| - 1] == a + b[..|b| - 1];
    }
  }

  lemma {:induction false} DropFrom(vs: seq<VNode>, h: nat, x: string)
    ensures From(Drop(vs, x), h) == Drop(From(vs, h), x) && Before(Drop(vs, x), h) == Drop(Before(vs, h), x)
  {
    if vs == [] {
    } else {
      var init, last := vs[..|vs| - 1], vs[|vs| - 1];
      DropFrom(init, h, x);
      if last.node != x {
        assert (Drop(init, x) + [last])[..|Drop(init, x)|] == Drop(init, x);
      } else {
        assert Drop(vs, x) == Drop(init, x);
      }
      DropLast(From(init, h), last, x);
      DropLast(Before(init, h), last, x);
    }
  }

  lemma DropLast(vs: seq<VNode>, v: VNode, x: string)
    ensures Drop(vs + [v], x) == Drop(vs, x) + if v.node != x then [v] else []
    ensures Drop(vs + [], x) == Drop(vs, x)
  {
    assert (vs + [v])[..|vs|] == vs;
    assert vs + [] == vs;
  }

  lemma DropWalk(vs: seq<VNode>, h: nat, x: string)
    ensures Walk(Drop(vs, x), h) == Drop(Walk(vs, h), x)
  {
    DropFrom(vs, h, x);
    DropConcat(From(vs, h), Before(vs, h), x);
  }

  predicate Distinct(s: seq<string>) {
    forall i, j | 0 <= i < j < |s| :: s[i] != s[j]
  }

  lemma {:induction false} FirstsFacts(ws: seq<VNode>)
    ensures Distinct(Firsts(ws)) && forall x :: x in Firsts(ws) <==> Count(ws, x) > 0
    ensures ws != [] ==> Firsts(ws) != [] && Firsts(ws)[0] == ws[0].node
  {
    if ws == [] {
    } else {
      FirstsFacts(ws[..|ws| - 1]);
    }
  }

  /** The nodes come in the order in which the walk first meets them. */
  lemma {:induction false} FirstsInOrder(ws: seq<VNode>, i: nat, j: nat)
    requires i < j < |Firsts(ws)|
    ensures exists a :: 0 <= a < |ws| && ws[a].node == Firsts(ws)[i] && Unmet(ws[..a], Firsts(ws)[j])
    decreases |ws|
  {
    var p, init := Firsts(ws[..|ws| - 1]), ws[..|ws| - 1];
    FirstsFacts(init);
    if j < |p| {
      FirstsInOrder(init, i, j);
      var a :| 0 <= a < |init| && init[a].node == p[i] && Unmet(init[..a], p[j]);
      assert ws[a] == init[a] && ws[..a] == init[..a];
    } else {
      CountMet(init, p[i]);
      var a :| 0 <= a < |init| && init[a].node == p[i];
      assert Firsts(ws)[j] == ws[|ws| - 1].node && Count(init, Firsts(ws)[j]) == 0;
      CountUnmet(init, Firsts(ws)[j]);
      assert ws[a] == init[a] && Unmet(ws[..a], Firsts(ws)[j]);
    }
  }

  predicate Unmet(ws: seq<VNode>, x: string) {
    forall v | v in ws :: v.node != x
  }

  lemma {:induction false} CountMet(ws: seq<VNode>, x: string)
    requires Count(ws, x) > 0
    ensures exists a :: 0 <= a < |ws| && ws[a].node == x
  {
    if ws[|ws| - 1].node == x {
    } else {
      CountMet(ws[..|ws| - 1], x);
      var a :| 0 <= a < |ws| - 1 && ws[..|ws| - 1][a].node == x;
      assert ws[a].node == x;
    }
  }

  lemma {:induction false} CountUnmet(ws: seq<VNode>, x: string)
    requires Count(ws, x) == 0
    ensures Unmet(ws, x)
  {
    if ws == [] {
    } else {
      CountUnmet(ws[..|ws| - 1], x);
      assert ws == ws[..|ws| - 1] + [ws[|ws| - 1]];
    }
  }

  lemma WithoutLast(s: seq<string>, y: string, x: string)
    ensures Without(s + [y], x) == Without(s, x) + if y != x then [y] else []
  {
    assert (s + [y])[..|s|] == s;
  }

  lemma {:induction false} WithoutFacts(s: seq<string>, x: string)
    ensures forall y :: y in Without(s, x) <==> y in s && y != x
    ensures x !in s ==> Without(s, x) == s
  {
    if s == [] {
    } else {
      WithoutFacts(s[..|s| - 1], x);
    }
  }

  lemma {:induction false} FirstsDrop(ws: seq<VNode>, x: string)
    ensures Firsts(Drop(ws, x)) == Without(Firsts(ws), x)
  {
    if ws == [] {
    } else {
      var init, last := ws[..|ws| - 1], ws[|ws| - 1];
      FirstsDrop(init, x);
      WithoutFacts(Firsts(init), x);
      WithoutLast(Firsts(init), last.node, x);
      if last.node != x {
        assert (Drop(init, x) + [last])[..|Drop(init, x)|] == Drop(init, x);
      } else {
        assert Drop(ws, x) == Drop(init, x);
      }
    }
  }

  /** The owner is the first replica. */
  lemma OwnerIsFirst(vs: seq<VNode>, h: nat)
    ensures Owner(vs, h) == if Firsts(Walk(vs, h)) == [] then None else Some(Firsts(Walk(vs, h))[0])
  {
    FirstsFacts(Walk(vs, h));
  }

  lemma {:induction false} WithoutHead(s: seq<string>, x: string)
    requires s != [] && s[0] != x
    ensures Without(s, x) != [] && Without(s, x)[0] == s[0]
  {
    if |s| <= 1 {
    } else {
      WithoutHead(s[..|s| - 1], x);
    }
  }

  /** Removing `x` changes the owner of exactly the keys `x` owned. */
  lemma RemoveMovesOnlyOwned(vs: seq<VNode>, h: nat, x: string)
    ensures Owner(Drop(vs, x), h) != Owner(vs, h) <==> Owner(vs, h) == Some(x)
    ensures Owner(Drop(vs, x), h) != Some(x)
  {
    DropWalk(vs, h, x);
    FirstsDrop(Walk(vs, h), x);
    OwnerIsFirst(vs, h);
    OwnerIsFirst(Drop(vs, x), h);
    var f := Firsts(Walk(vs, h));
    WithoutFacts(f, x);
    if f != [] && f[0] != x { WithoutHead(f, x); }
  }

  lemma {:induction false} WithoutLength(s: seq<string>, x: string)
    requires Distinct(s)
    ensures |Without(s, x)| == |s| - if x in s then 1 else 0
  {
    if s == [] {
    } else {
      WithoutLength(s[..|s| - 1], x);
      assert s == s[..|s| - 1] + [s[|s| - 1]];
    }
  }

  lemma TakePrefix<T>(a: seq<T>, b: seq<T>, n: nat)
    requires n <= |a|
    ensures Take(a + b, n) == Take(a, n)
  {
    assert (a + b)[..n] == a[..n];
  }

  lemma {:induction false} WithoutTake(s: seq<string>, x: string, n: nat)
    requires Distinct(s)
    ensures Take(Without(s, x), n) == Take(Without(Take(s, n + 1), x), n)
    decreases |s|
  {
    if n + 1 >= |s| {
    } else {
      var init, last := s[..|s| - 1], s[|s| - 1];
      assert init[..n + 1] == s[..n + 1];
      WithoutTake(init, x, n);
      WithoutLength(init, x);
      TakePrefix(Without(init, x), if last != x then [last] else [], n);
    }
  }

  /** After removing `x` the replicas are the old ones, one more, with `x` dropped and cut to `n`. */
  lemma ReplicasAfterRemove(vs: seq<VNode>, h: nat, n: nat, x: string)
    ensures Replicas(Drop(vs, x), h, n) == Take(Without(Replicas(vs, h, n + 1), x), n)
  {
    DropWalk(vs, h, x);
    FirstsDrop(Walk(vs, h), x);
    FirstsFacts(Walk(vs, h));
    WithoutTake(Firsts(Walk(vs, h)), x, n);
  }

  // ---- Adding a node ----

  /** One of the orders the sort may leave the vnodes in. */
  predicate Arranged(sorted: seq<VNode>, vs: seq<VNode>) {
    Sorted(sorted) && multiset(sorted) == multiset(vs)
  }

  /** Vnodes of different nodes never share a hash. */
  predicate ClashFree(vs: seq<VNode>) {
    forall i, j | 0 <= i < j < |vs| :: vs[i].hash == vs[j].hash ==> vs[i].node == vs[j].node
  }

  lemma FirstsAgree(a: seq<VNode>, b: seq<VNode>)
    requires a != [] && b != [] && Sorted(a) && Sorted(b) && multiset(a) == multiset(b) && ClashFree(a)
    ensures a[0] == b[0]
  {
    assert a[0] in multiset(b) && b[0] in multiset(a);
    var i :| 0 <= i < |a| && a[i] == b[0];
    var j :| 0 <= j < |b| && b[j] == a[0];
    assert a[0].hash <= a[i].hash && b[0].hash <= b[j].hash;
  }

  lemma TailsAgree(a: seq<VNode>, b: seq<VNode>)
    requires a != [] && b != [] && multiset(a) == multiset(b) && a[0] == b[0]
    ensures multiset(a[1..]) == multiset(b[1..])
  {
    assert a == [a[0]] + a[1..] && b == [b[0]] + b[1..];
    assert multiset(a[1..]) == multiset(a) - multiset{a[0]};
    assert multiset(b[1..]) == multiset(b) - multiset{b[0]};
  }

  lemma {:induction false} OneArrangement(a: seq<VNode>, b: seq<VNode>)
    requires Sorted(a) && Sorted(b) && multiset(a) == multiset(b) && ClashFree(a)
    ensures a == b
    decreases |a|
  {
    assert |multiset(a)| == |a| && |multiset(b)| == |b|;
    if a == [] {
    } else {
      FirstsAgree(a, b);
      TailsAgree(a, b);
      OneArrangement(a[1..], b[1..]);
      assert a == [a[0]] + a[1..] && b == [b[0]] + b[1..];
    }
  }

  lemma {:induction false} DropNothing(vs: seq<VNode>, x: string)
    requires Count(vs, x) == 0
    ensures Drop(vs, x) == vs
  {
    if vs == [] {
    } else {
      DropNothing(vs[..|vs| - 1], x);
    }
  }

  lemma {:induction false} DropCount(vs: seq<VNode>, x: string, y: string)
    ensures Count(Drop(vs, x), y) == if y == x then 0 else Count(vs, y)
  {
    if vs == [] {
    } else {
      var init, last := vs[..|vs| - 1], vs[|vs| - 1];
      DropCount(init, x, y);
      if last.node != x {
        assert (Drop(init, x) + [last])[..|Drop(init, x)|] == Drop(init, x);
      } else {
        assert Drop(vs, x) == Drop(init, x);
      }
    }
  }

  lemma BagLast(vs: seq<VNode>, last: VNode, v: VNode)
    ensures multiset(vs + [last])[v] == multiset(vs)[v] + if last == v then 1 else 0
  {
  }

  lemma DropLastBag(vs: seq<VNode>, last: VNode, x: string, v: VNode)
    ensures multiset(Drop(vs + [last], x))[v] == multiset(Drop(vs, x))[v] + if last == v && v.node != x then 1 else 0
  {
    DropLast(vs, last, x);
    if last.node != x {
      BagLast(Drop(vs, x), last, v);
    } else {
      assert Drop(vs, x) + [] == Drop(vs, x);
    }
  }

  lemma {:induction false} DropBag(vs: seq<VNode>, x: string, v: VNode)
    ensures multiset(Drop(vs, x))[v] == if v.node == x then 0 else multiset(vs)[v]
  {
    if vs == [] {
    } else {
      var init, last := vs[..|vs| - 1], vs[|vs| - 1];
      DropBag(init, x, v);
      assert vs == init + [last];
      BagLast(init, last, v);
      DropLastBag(init, last, x, v);
    }
  }

  lemma {:induction false} DropSorted(vs: seq<VNode>, x: string)
    requires Sorted(vs)
    ensures Sorted(Drop(vs, x)) && forall v | v in Drop(vs, x) :: v in vs
  {
    if vs == [] {
    } else {
      var init, last := vs[..|vs| - 1], vs[|vs| - 1];
      DropSorted(init, x);
      forall v | v in Drop(init, x) ensures v in vs && v.hash <= last.hash {
        assert v in init;
      }
    }
  }

  /** The vnodes `Add` appends. */
  predicate AllOf(added: seq<VNode>, x: string) {
    forall i | 0 <= i < |added| :: added[i].node == x
  }

  lemma {:induction false} CountAllOf(added: seq<VNode>, x: string)
    requires AllOf(added, x)
    ensures Drop(added, x) == [] && Count(added, x) == |added| && forall y | y != x :: Count(added, y) == 0
  {
    if added == [] {
    } else {
      CountAllOf(added[..|added| - 1], x);
    }
  }

  lemma DropAdded(vs: seq<VNode>, added: seq<VNode>, sorted: seq<VNode>, x: string)
    requires Count(vs, x) == 0 && AllOf(added, x) && Arranged(sorted, vs + added)
    ensures Arranged(Drop(sorted, x), vs)
  {
    DropSorted(sorted, x);
    DropConcat(vs, added, x);
    DropNothing(vs, x);
    CountAllOf(added, x);
    assert Drop(vs + added, x) == vs + [] == vs;
    forall v ensures multiset(Drop(sorted, x))[v] == multiset(vs)[v] {
      DropBag(sorted, x, v);
      DropBag(vs + added, x, v);
    }
  }

  /** Adding then removing a node gives back the very same ring. */
  lemma AddThenRemove(vs: seq<VNode>, added: seq<VNode>, sorted: seq<VNode>, x: string)
    requires Sorted(vs) && Count(vs, x) == 0 && AllOf(added, x) && Arranged(sorted, vs + added) && ClashFree(vs)
    ensures Drop(sorted, x) == vs
  {
    DropAdded(vs, added, sorted, x);
    OneArrangement(vs, Drop(sorted, x));
  }

  /** Adding `x` moves keys only to `x`. */
  lemma AddMovesOnlyToNew(vs: seq<VNode>, added: seq<VNode>, sorted: seq<VNode>, x: string, h: nat)
    requires Sorted(vs) && Count(vs, x) == 0 && AllOf(added, x) && Arranged(sorted, vs + added) && ClashFree(vs)
    ensures Owner(sorted, h) == Owner(vs, h) || Owner(sorted, h) == Some(x)
  {
    AddThenRemove(vs, added, sorted, x);
    RemoveMovesOnlyOwned(sorted, h, x);
  }

  ghost predicate Stable(vs: seq<VNode>) {
    forall sorted, h | Arranged(sorted, vs) :: Owner(sorted, h) == Owner(vs, h)
  }

  /** Where two nodes clash on a hash, a re-sort alone may move the key of that hash. */
  lemma ClashMoves(vs: seq<VNode>, f: nat, k: nat) returns (sorted: seq<VNode>)
    requires Sorted(vs) && f < k < |vs| && vs[f].hash == vs[k].hash && vs[f].node != vs[k].node
    requires forall j | 0 <= j < f :: vs[j].hash < vs[f].hash
    ensures Arranged(sorted, vs) && Owner(sorted, vs[f].hash) != Owner(vs, vs[f].hash)
  {
    sorted := vs[f := vs[k]][k := vs[f]];
    FirstOwns(vs, f);
    FirstOwns(sorted, f);
  }

  lemma FirstOwns(vs: seq<VNode>, f: nat)
    requires Sorted(vs) && f < |vs| && forall j | 0 <= j < f :: vs[j].hash < vs[f].hash
    ensures Owner(vs, vs[f].hash) == Some(vs[f].node)
  {
    SearchIsWalk(vs, vs[f].hash, f);
  }

  lemma {:induction false} FirstOfHash(vs: seq<VNode>, i: nat) returns (f: nat)
    requires Sorted(vs) && i < |vs|
    ensures f <= i && vs[f].hash == vs[i].hash && forall j | 0 <= j < f :: vs[j].hash < vs[f].hash
  {
    if i == 0 || vs[i - 1].hash != vs[i].hash {
      f := i;
    } else {
      f := FirstOfHash(vs, i - 1);
    }
  }

  /** Keys stay put under every sort exactly when no two nodes share a hash. */
  lemma StableIffClashFree(vs: seq<VNode>)
    requires Sorted(vs)
    ensures Stable(vs) <==> ClashFree(vs)
  {
    if ClashFree(vs) {
      forall sorted, h | Arranged(sorted, vs) ensures Owner(sorted, h) == Owner(vs, h) {
        OneArrangement(vs, sorted);
      }
    } else {
      var i, j :| 0 <= i < j < |vs| && vs[i].hash == vs[j].hash && vs[i].node != vs[j].node;
      var f := FirstOfHash(vs, i);
      var sorted := ClashMoves(vs, f, if vs[f].node != vs[i].node then i else j);
      assert Owner(sorted, vs[f].hash) != Owner(vs, vs[f].hash);
    }
  }

  // ---- Exactly when adding moves keys only to the new node ----

  lemma SortedConcat(a: seq<VNode>, b: seq<VNode>, h: nat)
    requires Sorted(a) && Sorted(b)
    requires (forall v | v in a :: v.hash <= h) && (forall v | v in b :: v.hash >= h)
    ensures Sorted(a + b)
  {
    assert forall i | 0 <= i < |a| :: a[i] in a;
    assert forall i | 0 <= i < |b| :: b[i] in b;
  }

  /** Where a vnode goes that comes after all of its own hash. */
  lemma {:induction false} AfterEquals(vs: seq<VNode>, h: nat) returns (i: nat)
    requires Sorted(vs)
    ensures i <= |vs| && (forall v | v in vs[..i] :: v.hash <= h) && forall v | v in vs[i..] :: v.hash > h
  {
    if vs == [] || vs[|vs| - 1].hash <= h {
      i := |vs|;
    } else {
      var n := |vs| - 1;
      i := AfterEquals(vs[..n], h);
      assert vs[..n][..i] == vs[..i];
      assert vs[i..] == vs[..n][i..] + [vs[n]];
    }
  }

  /** Vnode f is the first of its hash. */
  predicate FirstAt(vs: seq<VNode>, f: nat) {
    f < |vs| && forall j | 0 <= j < f :: vs[j].hash < vs[f].hash
  }

  /** A vnode put after the equal hashes leaves the first of every hash where keys find it. */
  lemma InsertAfterEquals(vs: seq<VNode>, f: nat, v: VNode) returns (r: seq<VNode>, g: nat)
    requires Sorted(vs) && FirstAt(vs, f)
    ensures Arranged(r, vs + [v]) && FirstAt(r, g) && r[g] == vs[f]
  {
    var i := AfterEquals(vs, v.hash);
    var a, b := vs[..i], vs[i..];
    assert vs == a + b;
    InsertedArranged(a, b, v);
    g := InsertedFirst(a, b, v, f);
    r := a + [v] + b;
  }

  lemma InsertedArranged(a: seq<VNode>, b: seq<VNode>, v: VNode)
    requires Sorted(a) && Sorted(b)
    requires (forall x | x in a :: x.hash <= v.hash) && (forall x | x in b :: x.hash >= v.hash)
    ensures Arranged(a + [v] + b, a + b + [v])
  {
    SortedConcat(a, [v], v.hash);
    SortedConcat(a + [v], b, v.hash);
  }

  lemma InsertedFirst(a: seq<VNode>, b: seq<VNode>, v: VNode, f: nat) returns (g: nat)
    requires FirstAt(a + b, f) && forall x | x in b :: x.hash > v.hash
    ensures FirstAt(a + [v] + b, g) && (a + [v] + b)[g] == (a + b)[f]
  {
    var vs, r := a + b, a + [v] + b;
    g := if f < |a| then f else f + 1;
    if f >= |a| { assert vs[f] == b[f - |a|] && vs[f] in b; }
    forall j | 0 <= j < g ensures r[j].hash < r[g].hash {
      if j < |a| { assert r[j] == vs[j]; } else if j > |a| { assert r[j] == vs[j - 1]; }
    }
  }

  lemma {:induction false} InsertAllAfterEquals(vs: seq<VNode>, f: nat, added: seq<VNode>)
    returns (r: seq<VNode>, g: nat)
    requires Sorted(vs) && FirstAt(vs, f)
    ensures Arranged(r, vs + added) && FirstAt(r, g) && r[g] == vs[f]
  {
    if added == [] {
      r, g := vs, f;
      assert vs + added == vs;
    } else {
      var n := |added| - 1;
      var r', g' := InsertAllAfterEquals(vs, f, added[..n]);
      r, g := InsertAfterEquals(r', g', added[n]);
      assert vs + added == vs + added[..n] + [added[n]];
    }
  }

  lemma {:induction false} CountsOwnNode(vs: seq<VNode>, k: nat)
    requires k < |vs|
    ensures Count(vs, vs[k].node) > 0
  {
    if k == |vs| - 1 {
    } else {
      CountsOwnNode(vs[..|vs| - 1], k);
    }
  }

  lemma SwapArranged(vs: seq<VNode>, f: nat, k: nat)
    requires Sorted(vs) && FirstAt(vs, f) && f < k < |vs| && vs[f].hash == vs[k].hash
    ensures var swapped := vs[f := vs[k]][k := vs[f]]; Arranged(swapped, vs) && FirstAt(swapped, f)
  {
  }

  /** Where two old nodes clash on a hash, some sort after an add moves the key of that hash between old nodes. */
  lemma ClashMovesOnAdd(vs: seq<VNode>, added: seq<VNode>, x: string) returns (sorted: seq<VNode>, h: nat)
    requires Sorted(vs) && Count(vs, x) == 0 && !ClashFree(vs)
    ensures Arranged(sorted, vs + added) && Owner(sorted, h) != Owner(vs, h) && Owner(sorted, h) != Some(x)
  {
    var i, j :| 0 <= i < j < |vs| && vs[i].hash == vs[j].hash && vs[i].node != vs[j].node;
    var f := FirstOfHash(vs, i);
    var k := if vs[f].node != vs[i].node then i else j;
    var swapped := vs[f := vs[k]][k := vs[f]];
    SwapArranged(vs, f, k);
    var g;
    sorted, g := InsertAllAfterEquals(swapped, f, added);
    h := vs[f].hash;
    FirstOwns(vs, f);
    FirstOwns(sorted, g);
    CountsOwnNode(vs, k);
  }

  ghost predicate AddMovesOnly(vs: seq<VNode>, added: seq<VNode>, x: string) {
    forall sorted, h | Arranged(sorted, vs + added) :: Owner(sorted, h) == Owner(vs, h) || Owner(sorted, h) == Some(x)
  }

  ghost predicate AddIsUndone(vs: seq<VNode>, added: seq<VNode>, x: string) {
    forall sorted, h | Arranged(sorted, vs + added) :: Owner(Drop(sorted, x), h) == Owner(vs, h)
  }

  /**
   * However the sort of `Add` breaks ties, it moves keys only to the new node, and removing that node restores
   * every owner, exactly when no two old nodes share a vnode hash.
   */
  lemma AddIff(vs: seq<VNode>, added: seq<VNode>, x: string)
    requires Sorted(vs) && Count(vs, x) == 0 && AllOf(added, x)
    ensures AddMovesOnly(vs, added, x) <==> ClashFree(vs)
    ensures AddIsUndone(vs, added, x) <==> ClashFree(vs)
  {
    if ClashFree(vs) {
      forall sorted, h | Arranged(sorted, vs + added)
        ensures Owner(sorted, h) == Owner(vs, h) || Owner(sorted, h) == Some(x)
        ensures Owner(Drop(sorted, x), h) == Owner(vs, h)
      {
        AddMovesOnlyToNew(vs, added, sorted, x, h);
        AddThenRemove(vs, added, sorted, x);
      }
    } else {
      var sorted, h := ClashMovesOnAdd(vs, added, x);
      RemoveMovesOnlyOwned(sorted, h, x);
      assert Owner(Drop(sorted, x), h) != Owner(vs, h);
    }
  }

  // ---- Counting vnodes per node ----

  lemma {:induction false} CountConcat(a: seq<VNode>, b: seq<VNode>, x: string)
    ensures Count(a + b, x) == Count(a, x) + Count(b, x)
  {
    if b == [] {
      assert a + b == a;
    } else {
      CountConcat(a, b[..|b| - 1], x);
      assert (a + b)[..|a + b| - 1] == a + b[..|b| - 1];
    }
  }

  lemma BagWithout(left: seq<VNode>, right: seq<VNode>, v: VNode)
    ensures multiset(left + right) == multiset(left + [v] + right) - multiset{v}
  {
  }

  lemma CutOne(a: seq<VNode>, b: seq<VNode>, k: nat)
    requires a != [] && multiset(a) == multiset(b) && k < |b| && b[k] == a[|a| - 1]
    ensures multiset(a[..|a| - 1]) == multiset(b[..k] + b[k + 1..]) && b == b[..k] + [b[k]] + b[k + 1..]
  {
    var init, left, right := a[..|a| - 1], b[..k], b[k + 1..];
    assert a == init + [b[k]];
    assert b == left + [b[k]] + right;
    BagWithout(init, [], b[k]);
    BagWithout(left, right, b[k]);
    assert init + [] == init && a + [] == a;
  }

  lemma {:induction false} CountPermutes(a: seq<VNode>, b: seq<VNode>, x: string)
    requires multiset(a) == multiset(b)
    ensures Count(a, x) == Count(b, x)
    decreases |a|
  {
    if a == [] {
      assert |multiset(b)| == |b|;
    } else {
      var last := a[|a| - 1];
      assert last in multiset(a) && last in b;
      var k :| 0 <= k < |b| && b[k] == last;
      var left, right := b[..k], b[k + 1..];
      CutOne(a, b, k);
      CountPermutes(a[..|a| - 1], left + right, x);
      CountConcat(left + [last], right, x);
      CountConcat(left, right, x);
      assert (left + [last])[..k] == left;
    }
  }

  /** A list that holds each node of `nodes` once, and nothing else, is as long as `nodes` is large. */
  lemma {:induction false} DistinctLength(s: seq<string>, nodes: set<string>)
    requires Distinct(s) && forall x :: x in s <==> x in nodes
    ensures |s| == |nodes|
    decreases |s|
  {
    if s == [] {
      assert nodes == {};
    } else {
      var last := s[|s| - 1];
      assert forall x :: x in s[..|s| - 1] <==> x in nodes - {last};
      DistinctLength(s[..|s| - 1], nodes - {last});
    }
  }

  lemma CountLast(vs: seq<VNode>, v: VNode, x: string)
    ensures Count(vs + [v], x) == Count(vs, x) + if v.node == x then 1 else 0
  {
    assert (vs + [v])[..|vs|] == vs;
  }

  lemma {:induction false} PartsCount(vs: seq<VNode>, h: nat, x: string)
    ensures Count(From(vs, h), x) + Count(Before(vs, h), x) == Count(vs, x)
    ensures |From(vs, h)| + |Before(vs, h)| == |vs|
  {
    if vs == [] {
    } else {
      var init, last := vs[..|vs| - 1], vs[|vs| - 1];
      PartsCount(init, h, x);
      if last.hash >= h {
        CountLast(From(init, h), last, x);
        assert Before(vs, h) == Before(init, h);
      } else {
        CountLast(Before(init, h), last, x);
        assert From(vs, h) == From(init, h);
      }
    }
  }

  lemma WalkCounts(vs: seq<VNode>, h: nat, x: string)
    ensures Count(Walk(vs, h), x) == Count(vs, x) && |Walk(vs, h)| == |vs|
  {
    PartsCount(vs, h, x);
    CountConcat(From(vs, h), Before(vs, h), x);
  }

  /** The replica list: distinct, as many as asked for and available, all of them nodes of the ring. */
  lemma ReplicaList(vs: seq<VNode>, nodes: set<string>, h: nat, n: nat)
    requires forall x :: x in nodes <==> Count(vs, x) > 0
    ensures var r := Replicas(vs, h, n);
      Distinct(r) && |r| == (if n <= |nodes| then n else |nodes|) && forall x | x in r :: x in nodes
    ensures n > 0 && nodes != {} ==> Owner(vs, h) == Some(Replicas(vs, h, n)[0])
  {
    var w := Walk(vs, h);
    FirstsFacts(w);
    forall x ensures Count(w, x) == Count(vs, x) { WalkCounts(vs, h, x); }
    DistinctLength(Firsts(w), nodes);
    OwnerIsFirst(vs, h);
  }
}
