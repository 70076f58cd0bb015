/** The bit arrays of the filter, word by word, proved against the position sets of Bloom. */
module BloomImpl {
  import opened Common
  import opened Bloom

  function Mask(r: nat): bv64
    requires r < 64
  {
    1 << r
  }

  lemma MaskNonZero(r: nat)
    requires r < 64
    ensures Mask(r) != 0
  {
  }

  lemma LowByte(r: nat)
    requires r < 8
    ensures Mask(r) < 256
  {
  }

  lemma LowByteApart(r: nat, q: nat)
    requires r < q < 8
    ensures Mask(r) & Mask(q) == 0
  {
  }

  lemma Byte1(r: nat)
    requires 8 <= r < 16
    ensures Mask(r) == Mask(r - 8) << 8
  {
  }

  lemma Byte2(r: nat)
    requires 16 <= r < 24
    ensures Mask(r) == Mask(r - 8) << 8
  {
  }

  lemma Byte3(r: nat)
    requires 24 <= r < 32
    ensures Mask(r) == Mask(r - 8) << 8
  {
  }

  lemma Byte4(r: nat)
    requires 32 <= r < 40
    ensures Mask(r) == Mask(r - 8) << 8
  {
  }

  lemma Byte5(r: nat)
    requires 40 <= r < 48
    ensures Mask(r) == Mask(r - 8) << 8
  {
  }

  lemma Byte6(r: nat)
    requires 48 <= r < 56
    ensures Mask(r) == Mask(r - 8) << 8
  {
  }

  lemma Byte7(r: nat)
    requires 56 <= r < 64
    ensures Mask(r) == Mask(r - 8) << 8
  {
  }

  /** A mask is the mask eight bits lower, shifted by a byte. */
  lemma Shifted(r: nat)
    requires 8 <= r < 64
    ensures Mask(r) == Mask(r - 8) << 8
  {
    if r < 32 {
      if r < 16 { Byte1(r); } else if r < 24 { Byte2(r); } else { Byte3(r); }
    } else if r < 48 {
      if r < 40 { Byte4(r); } else { Byte5(r); }
    } else {
      if r < 56 { Byte6(r); } else { Byte7(r); }
    }
  }

  lemma ByteApart(a: bv64, b: bv64)
    ensures a & b == 0 ==> (a << 8) & (b << 8) == 0
    ensures a < 256 ==> a & (b << 8) == 0
  {
  }

  lemma {:induction false} Ordered(r: nat, q: nat)
    requires r < q < 64
    ensures Mask(r) & Mask(q) == 0
  {
    if q < 8 {
      LowByteApart(r, q);
    } else if r < 8 {
      LowByte(r);
      Shifted(q);
      ByteApart(Mask(r), Mask(q - 8));
    } else {
      Ordered(r - 8, q - 8);
      Shifted(r);
      Shifted(q);
      ByteApart(Mask(r - 8), Mask(q - 8));
    }
  }

  /** One bit of a word set: a test with the same mask succeeds, a test with a disjoint one is as before. */
  lemma OrMask(w: bv64, a: bv64, b: bv64)
    ensures (w | a) & a == a && (a & b == 0 || b & a == 0 ==> (w | a) & b == w & b)
  {
  }

  lemma SetOther(w: bv64, r: nat, q: nat)
    requires r < 64 && q < 64 && r != q
    ensures (w | Mask(r)) & Mask(q) == w & Mask(q)
  {
    if r < q { Ordered(r, q); } else { Ordered(q, r); }
    OrMask(w, Mask(r), Mask(q));
  }

  lemma SetSame(w: bv64, r: nat)
    requires r < 64
    ensures (w | Mask(r)) & Mask(r) != 0
  {
    MaskNonZero(r);
    OrMask(w, Mask(r), Mask(r));
  }

  /** Setting one bit of a word sets that bit and no other. */
  lemma SetBit(w: bv64, r: nat, q: nat)
    requires r < 64 && q < 64
    ensures (w | Mask(r)) & Mask(q) != 0 <==> q == r || w & Mask(q) != 0
  {
    if q == r { SetSame(w, r); } else { SetOther(w, r, q); }
  }

  predicate Has(words: seq<bv64>, q: nat)
    requires q / 64 < |words|
  {
    words[q / 64] & Mask(q % 64) != 0
  }

  function BitsOf(words: seq<bv64>): (r: set<nat>)
    ensures forall q: nat :: q in r <==> q < 64 * |words| && Has(words, q)
  {
    set q: nat | q < 64 * |words| && Has(words, q)
  }

  lemma AddBit(words: seq<bv64>, p: nat)
    requires p < 64 * |words|
    ensures BitsOf(words[p / 64 := words[p / 64] | Mask(p % 64)]) == BitsOf(words) + {p}
  {
    var after := words[p / 64 := words[p / 64] | Mask(p % 64)];
    forall q: nat | q < 64 * |words| ensures Has(after, q) <==> Has(words, q) || q == p {
      if q / 64 == p / 64 { SetBit(words[p / 64], p % 64, q % 64); }
    }
  }

  class BloomGen {
    const bits: array<bv64>

    /** All words zero. */
    constructor (words: nat)
      ensures bits.Length == words && fresh(bits) && Bits() == {}
    {
      bits := new bv64[words](_ => 0);
    }

    ghost function Bits(): set<nat>
      reads bits
    {
      BitsOf(bits[..])
    }

    method Add(pos: seq<nat>)
      requires forall q | q in pos :: q < 64 * bits.Length
      modifies bits
      ensures Bits() == old(Bits()) + set q | q in pos
    {
      for i := 0 to |pos|
        invariant Bits() == old(Bits()) + set q | q in pos[..i]
      {
        assert pos[..i + 1] == pos[..i] + [pos[i]] && pos[i] in pos;
        AddOne(pos[i]);
      }
      assert pos[..|pos|] == pos;
    }

    method AddOne(p: nat)
      requires p < 64 * bits.Length
      modifies bits
      ensures Bits() == old(Bits()) + {p}
    {
      AddBit(bits[..], p);
      bits[p / 64] := bits[p / 64] | Mask(p % 64);
    }

    method MightContain(pos: seq<nat>) returns (all: bool)
      requires forall q | q in pos :: q < 64 * bits.Length
      ensures all <==> forall q | q in pos :: q in Bits()
    {
      for i := 0 to |pos|
        invariant forall q | q in pos[..i] :: q in Bits()
      {
        assert pos[i] in pos;
        if bits[pos[i] / 64] & Mask(pos[i] % 64) == 0 {
          assert pos[i] in pos && pos[i] !in Bits();
          return false;
        }
        assert pos[..i + 1] == pos[..i] + [pos[i]];
      }
      assert pos[..|pos|] == pos;
      return true;
    }
  }

  class Filter {
    const p: Params
    var cur: BloomGen
    var building: BloomGen?
    ghost var known: set<int>
    ghost var upcoming: set<int>

    ghost predicate Valid()
      reads this, cur, building
    {
      && p.mBits > 0 && p.k > 0
      && cur.bits.Length == (p.mBits + 63) / 64
      && (building != null ==> building.bits.Length == (p.mBits + 63) / 64 && building.bits != cur.bits)
    }

    ghost function View(): State
      reads this, cur, building, cur.bits, if building != null then {building.bits} else {}
    {
      State(cur.Bits(), if building != null then Some(building.Bits()) else None, known, upcoming)
    }

    /** A zero size or count stands for the default. */
    constructor (q: Params)
      ensures Valid() && View() == EMPTY && fresh(cur) && fresh(cur.bits) && building == null
      ensures p == q.(mBits := if q.mBits == 0 then 33554432 else q.mBits, k := if q.k == 0 then 4 else q.k)
    {
      p := q.(mBits := if q.mBits == 0 then 33554432 else q.mBits, k := if q.k == 0 then 4 else q.k);
      building, known, upcoming := null, {}, {};
      var m := if q.mBits == 0 then 33554432 else q.mBits;
      cur := new BloomGen((m + 63) / 64);
    }

    method Add(key: int)
      requires Valid()
      modifies this`known, this`upcoming, cur.bits, if building != null then {building.bits} else {}
      ensures Valid() && View() == Step(p, old(View()), Action.Add(key))
    {
      var pos := Hashes(p, key);
      cur.Add(pos);
      known := known + {key};
      if building != null {
        building.Add(pos);
        upcoming := upcoming + {key};
      }
    }

    method MightContain(key: int) returns (maybe: bool)
      requires Valid()
      ensures maybe == Bloom.MightContain(p, View(), key)
    {
      maybe := cur.MightContain(Hashes(p, key));
    }

    // The steps of Rebuild, between which adds may come.

    method BeginRebuild()
      requires Valid() && building == null
      modifies this`building, this`upcoming
      ensures Valid() && View() == Step(p, old(View()), Begin)
      ensures building != null && fresh(building) && fresh(building.bits)
    {
      var bg := new BloomGen((p.mBits + 63) / 64);
      building, upcoming := bg, {};
    }

    method LoadKey(key: int)
      requires Valid() && building != null
      modifies this`upcoming, building.bits
      ensures Valid() && View() == Step(p, old(View()), Load(key))
    {
      building.Add(Hashes(p, key));
      upcoming := upcoming + {key};
    }

    method FinishRebuild(loaded: bool)
      requires Valid() && building != null
      modifies this`cur, this`building, this`known, this`upcoming
      ensures Valid() && View() == Step(p, old(View()), if loaded then Swap else Fail)
    {
      if loaded { cur, known := building, upcoming; }
      building, upcoming := null, {};
    }
  }
}
