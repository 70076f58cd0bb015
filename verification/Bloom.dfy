/**
 * The double-generation Bloom filter (internal/cache/bloom.go). A generation is a set of bit positions; which
 * positions a key has is any function (there: k combinations of two hashes, modulo the bitmap size).
 * `Add` is one step, a rebuild is several, and rebuilds do not overlap.
 */
module Bloom {
  import opened Arith
  import opened Common

  /** Any bitmap size, number of hashes and pair of 64-bit hash functions. */
  datatype Params = Params(mBits: nat, k: nat, h1: int -> nat, h2: int -> nat)

  const WORD := 0x1_0000_0000_0000_0000

  /** The positions of a key; sums and products wrap at 64 bits. */
  function Hashes(p: Params, key: int): (r: seq<nat>)
    requires p.mBits > 0
    ensures forall q | q in r :: q < p.mBits
  {
    seq(p.k, i => (p.h1(key) + i * p.h2(key)) % WORD % p.mBits)
  }

  /** Position i of a key: h1 + i * h2, less whole multiples of 2^64, less whole multiples of the bitmap size. */
  lemma PositionIs(p: Params, key: int, i: nat) returns (wraps: int, laps: int)
    requires p.mBits > 0 && i < p.k
    ensures |Hashes(p, key)| == p.k && 0 <= Hashes(p, key)[i] < p.mBits
    ensures p.h1(key) + i * p.h2(key) == wraps * 0x1_0000_0000_0000_0000 + laps * p.mBits + Hashes(p, key)[i]
    ensures 0 <= laps * p.mBits + Hashes(p, key)[i] < 0x1_0000_0000_0000_0000
  {
    var x := p.h1(key) + i * p.h2(key);
    DivMod(x, WORD);
    DivMod(x % WORD, p.mBits);
    wraps, laps := x / WORD, x % WORD / p.mBits;
  }

  function Positions(p: Params, key: int): set<nat>
    requires p.mBits > 0
  {
    set q | q in Hashes(p, key)
  }

  /**
   * `known`: the keys added since the last completed rebuild began, or returned by its loader.
   * `upcoming`: the same for the rebuild under way.
   */
  datatype State = State(cur: set<nat>, building: Option<set<nat>>, known: set<int>, upcoming: set<int>)

  datatype Action = Add(key: int) | Begin | Load(key: int) | Swap | Fail

  const EMPTY := State({}, None, {}, {})

  function Step(p: Params, s: State, a: Action): State
    requires p.mBits > 0
  {
    match a
    case Add(key) =>
      State(s.cur + Positions(p, key), if s.building.Some? then Some(s.building.value + Positions(p, key)) else None,
            s.known + {key}, if s.building.Some? then s.upcoming + {key} else s.upcoming)
    case Begin => if s.building.Some? then s else s.(building := Some({}), upcoming := {})
    case Load(key) =>
      if s.building.None? then s
      else s.(building := Some(s.building.value + Positions(p, key)), upcoming := s.upcoming + {key})
    case Swap => if s.building.None? then s else State(s.building.value, None, s.upcoming, {})
    case Fail => if s.building.None? then s else s.(building := None, upcoming := {})
  }

  function Run(p: Params, s: State, acts: seq<Action>): State
    requires p.mBits > 0
    decreases |acts|
  {
    if acts == [] then s else Run(p, Step(p, s, acts[0]), acts[1..])
  }

  predicate MightContain(p: Params, s: State, key: int)
    requires p.mBits > 0
  {
    Positions(p, key) <= s.cur
  }

  /** Some key of `keys` sets bit `q`. */
  ghost predicate SetBy(p: Params, keys: set<int>, q: nat)
    requires p.mBits > 0
  {
    exists key :: key in keys && q in Positions(p, key)
  }

  ghost predicate Holds(p: Params, bits: set<nat>, keys: set<int>)
    requires p.mBits > 0
  {
    forall q :: q in bits <==> SetBy(p, keys, q)
  }

  ghost predicate Inv(p: Params, s: State)
    requires p.mBits > 0
  {
    Holds(p, s.cur, s.known) && (s.building.Some? ==> Holds(p, s.building.value, s.upcoming))
  }

  lemma HoldsMore(p: Params, bits: set<nat>, keys: set<int>, key: int)
    requires p.mBits > 0 && Holds(p, bits, keys)
    ensures Holds(p, bits + Positions(p, key), keys + {key})
  {
    forall q ensures q in bits + Positions(p, key) <==> SetBy(p, keys + {key}, q) {
      if q in Positions(p, key) { assert key in keys + {key}; }
      if SetBy(p, keys, q) {
        var j :| j in keys && q in Positions(p, j);
        assert j in keys + {key};
      }
    }
  }

  lemma {:induction false} RunHolds(p: Params, s: State, acts: seq<Action>)
    requires p.mBits > 0 && Inv(p, s)
    ensures Inv(p, Run(p, s, acts))
    decreases |acts|
  {
    if acts == [] {
    } else {
      var a := acts[0];
      if a.Add? || a.Load? {
        HoldsMore(p, s.cur, s.known, a.key);
        if s.building.Some? { HoldsMore(p, s.building.value, s.upcoming, a.key); }
      }
      assert forall q :: !SetBy(p, {}, q);
      RunHolds(p, Step(p, s, a), acts[1..]);
    }
  }

  /** Exactly the keys whose positions are all set by known keys test positive: a known key always does. */
  lemma AnswersExactly(p: Params, acts: seq<Action>, key: int)
    requires p.mBits > 0
    ensures var s := Run(p, EMPTY, acts);
      MightContain(p, s, key) <==> forall q | q in Positions(p, key) :: SetBy(p, s.known, q)
    ensures var s := Run(p, EMPTY, acts); key in s.known ==> MightContain(p, s, key)
  {
    assert forall q :: !SetBy(p, {}, q);
    RunHolds(p, EMPTY, acts);
    var s := Run(p, EMPTY, acts);
    if key in s.known {
      assert forall q | q in Positions(p, key) :: SetBy(p, s.known, q);
    }
  }

  // ---- What `known` means for a history ----

  predicate Completes(acts: seq<Action>) {
    exists e :: 0 <= e < |acts| && acts[e].Swap?
  }

  /** Until a rebuild completes, nothing is forgotten. */
  lemma {:induction false} KnownStays(p: Params, s: State, acts: seq<Action>, key: int)
    requires p.mBits > 0 && key in s.known && !Completes(acts)
    ensures key in Run(p, s, acts).known
    decreases |acts|
  {
    if acts == [] {
    } else {
      assert !acts[0].Swap?;
      assert forall e | 0 <= e < |acts[1..]| :: acts[1..][e] == acts[e + 1];
      KnownStays(p, Step(p, s, acts[0]), acts[1..], key);
    }
  }

  predicate Quiet(acts: seq<Action>) {
    forall i | 0 <= i < |acts| :: acts[i].Add? || acts[i].Load?
  }

  /** During a rebuild every key added or loaded is carried over. */
  lemma {:induction false} UpcomingGrows(p: Params, s: State, acts: seq<Action>, key: int)
    requires p.mBits > 0 && s.building.Some? && Quiet(acts)
    requires key in s.upcoming || Add(key) in acts || Load(key) in acts
    ensures var t := Run(p, s, acts); t.building.Some? && key in t.upcoming
    decreases |acts|
  {
    if acts == [] {
    } else {
      assert acts == [acts[0]] + acts[1..];
      UpcomingGrows(p, Step(p, s, acts[0]), acts[1..], key);
    }
  }

  lemma {:induction false} RunSplit(p: Params, s: State, a: seq<Action>, b: seq<Action>)
    requires p.mBits > 0
    ensures Run(p, s, a + b) == Run(p, Run(p, s, a), b)
    decreases |a|
  {
    if a == [] {
      assert a + b == b;
    } else {
      assert (a + b)[1..] == a[1..] + b;
      RunSplit(p, Step(p, s, a[0]), a[1..], b);
    }
  }

  /** A key added during a completed rebuild, or returned by its loader, tests positive until the next one completes. */
  lemma RebuildForgetsNothingNew(p: Params, before: seq<Action>, during: seq<Action>, after: seq<Action>, key: int)
    requires p.mBits > 0 && Run(p, EMPTY, before).building.None? && Quiet(during) && !Completes(after)
    requires Add(key) in during || Load(key) in during
    ensures MightContain(p, Run(p, EMPTY, before + [Begin] + during + [Swap] + after), key)
  {
    var s := Run(p, EMPTY, before + [Begin]);
    RunSplit(p, EMPTY, before, [Begin]);
    assert s == Step(p, Run(p, EMPTY, before), Begin) by { assert [Begin][1..] == []; }
    UpcomingGrows(p, s, during, key);
    RunSplit(p, EMPTY, before + [Begin], during);
    RunSplit(p, EMPTY, before + [Begin] + during, [Swap]);
    var t := Run(p, EMPTY, before + [Begin] + during + [Swap]);
    assert t == Step(p, Run(p, s, during), Swap) by { assert [Swap][1..] == []; }
    KnownStays(p, t, after, key);
    RunSplit(p, EMPTY, before + [Begin] + during + [Swap], after);
    AnswersExactly(p, before + [Begin] + during + [Swap] + after, key);
  }

  function Adds(acts: seq<Action>): seq<Action> {
    if acts == [] then [] else (if acts[0].Add? then [acts[0]] else []) + Adds(acts[1..])
  }

  lemma {:induction false} SameWithoutLoads(p: Params, s: State, t: State, acts: seq<Action>)
    requires p.mBits > 0 && Quiet(acts) && s.building.Some? && t == s.(building := None, upcoming := {})
    ensures var u := Run(p, s, acts);
      u.building.Some? && Run(p, t, Adds(acts)) == u.(building := None, upcoming := {})
    decreases |acts|
  {
    if acts == [] {
    } else {
      var a := acts[0];
      var rest := Adds(acts[1..]);
      if a.Add? {
        assert ([a] + rest)[1..] == rest;
        SameWithoutLoads(p, Step(p, s, a), Step(p, t, a), acts[1..]);
      } else {
        assert [] + rest == rest;
        SameWithoutLoads(p, Step(p, s, a), t, acts[1..]);
      }
    }
  }

  /** A rebuild whose loader fails leaves exactly the filter the adds alone would have left. */
  lemma FailedLoaderLosesNothing(p: Params, s: State, during: seq<Action>)
    requires p.mBits > 0 && s.building.None? && s.upcoming == {} && Quiet(during)
    ensures Run(p, s, [Begin] + during + [Fail]) == Run(p, s, Adds(during))
  {
    var b := Step(p, s, Begin);
    SameWithoutLoads(p, b, s, during);
    assert ([Begin] + during + [Fail])[1..] == during + [Fail];
    RunSplit(p, b, during, [Fail]);
    assert [Fail][1..] == [];
  }
}
