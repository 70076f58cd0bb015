/**
 * The client's cumulative-ACK watermark (ackBatcher in cmd/yim-bench/main.go): per conversation the end of
 * the contiguous run received so far, and a stash of what arrived above it.
 */
module Watermark {
  import opened Delivery

  /** One conversation. */
  datatype Track = Track(seen: bool, wm: int, stash: set<int>)

  function Elements(arrivals: seq<int>): (r: set<int>)
    ensures forall s :: s in r <==> s in arrivals
  {
    set s | s in arrivals
  }

  const UNSEEN := Track(false, 0, {})

  /** Fills holes from the stash. */
  function Advance(wm: int, stash: set<int>): (int, set<int>)
    decreases |stash|
  {
    if wm + 1 in stash then Advance(wm + 1, stash - {wm + 1}) else (wm, stash)
  }

  function Observe(t: Track, s: int): Track {
    if !t.seen then t.(seen := true, wm := s)
    else if s <= t.wm then t
    else if s == t.wm + 1 then
      var (wm, stash) := Advance(s, t.stash);
      t.(wm := wm, stash := stash)
    else t.(stash := t.stash + {s})
  }

  function ObserveAll(t: Track, arrivals: seq<int>): Track
    decreases |arrivals|
  {
    if arrivals == [] then t else ObserveAll(Observe(t, arrivals[0]), arrivals[1..])
  }

  /** `w` is the largest number such that everything from `first` to it has been observed. */
  ghost predicate LongestRun(first: int, w: int, observed: set<int>) {
    first <= w && (forall s | first <= s <= w :: s in observed) && w + 1 !in observed
  }

  ghost predicate Tracks(t: Track, first: int, observed: set<int>) {
    && t.seen && LongestRun(first, t.wm, observed)
    && forall s :: s in t.stash <==> s in observed && s > t.wm
  }

  lemma LongestRunIsUnique(first: int, v: int, w: int, observed: set<int>)
    requires LongestRun(first, v, observed) && LongestRun(first, w, observed)
    ensures v == w
  {
    assert v < w ==> v + 1 in observed;
    assert w < v ==> w + 1 in observed;
  }

  lemma {:induction false} AdvanceTracks(wm: int, stash: set<int>, first: int, observed: set<int>)
    requires first <= wm && forall s | first <= s <= wm :: s in observed
    requires forall s :: s in stash <==> s in observed && s > wm
    ensures var (w, rest) := Advance(wm, stash);
      LongestRun(first, w, observed) && forall s :: s in rest <==> s in observed && s > w
    decreases |stash|
  {
    if wm + 1 !in stash {
    } else {
      AdvanceTracks(wm + 1, stash - {wm + 1}, first, observed);
    }
  }

  lemma ObserveTracks(t: Track, s: int, first: int, observed: set<int>)
    requires Tracks(t, first, observed)
    ensures Tracks(Observe(t, s), first, observed + {s})
  {
    if s == t.wm + 1 {
      AdvanceTracks(s, t.stash, first, observed + {s});
    }
  }

  lemma {:induction false} ObserveAllTracks(t: Track, arrivals: seq<int>, first: int, observed: set<int>)
    requires Tracks(t, first, observed)
    ensures Tracks(ObserveAll(t, arrivals), first, observed + Elements(arrivals))
    decreases |arrivals|
  {
    if arrivals == [] {
      assert observed + Elements(arrivals) == observed;
    } else {
      ObserveTracks(t, arrivals[0], first, observed);
      ObserveAllTracks(Observe(t, arrivals[0]), arrivals[1..], first, observed + {arrivals[0]});
      assert arrivals == [arrivals[0]] + arrivals[1..];
      assert observed + {arrivals[0]} + Elements(arrivals[1..]) == observed + Elements(arrivals);
    }
  }

  /** Whatever arrives in whatever order: the watermark is the longest run from the first, the stash the rest. */
  lemma WatermarkIsLongestRun(arrivals: seq<int>)
    requires arrivals != []
    ensures Tracks(ObserveAll(UNSEEN, arrivals), arrivals[0], Elements(arrivals))
  {
    ObserveAllTracks(Observe(UNSEEN, arrivals[0]), arrivals[1..], arrivals[0], {arrivals[0]});
    assert arrivals == [arrivals[0]] + arrivals[1..];
    assert {arrivals[0]} + Elements(arrivals[1..]) == Elements(arrivals);
  }

  /** After the first arrival neither order nor repetition matters. */
  lemma OrderDoesNotMatter(a: seq<int>, b: seq<int>)
    requires a != [] && b != [] && a[0] == b[0] && forall s :: s in a <==> s in b
    ensures ObserveAll(UNSEEN, a) == ObserveAll(UNSEEN, b)
  {
    WatermarkIsLongestRun(a);
    WatermarkIsLongestRun(b);
    var t, u, observed := ObserveAll(UNSEEN, a), ObserveAll(UNSEEN, b), Elements(a);
    forall s ensures s in observed <==> s in Elements(b) {
      assert s in a <==> s in b;
    }
    LongestRunIsUnique(a[0], t.wm, u.wm, observed);
    assert forall s :: s in t.stash <==> s in u.stash;
  }

  /** Acknowledging the watermark cancels a push that was not received exactly if it is below the first arrival. */
  lemma AckCancelsUnseenIffBelowFirst(b: Books, uid: int, conv: int, arrivals: seq<int>, k: Key)
    requires arrivals != [] && k.uid == uid && k.conv == conv && k in b.pending && k.seqNo !in arrivals
    ensures k !in Ack(b, (uid, conv, ObserveAll(UNSEEN, arrivals).wm)).pending <==> k.seqNo < arrivals[0]
  {
    WatermarkIsLongestRun(arrivals);
  }

  // ---- The batcher ----

  class AckBatcher {
    var seen: set<int>
    var wm: map<int, int>
    var stash: map<int, set<int>>
    var dirty: set<int>
    ghost var sent: map<int, int>   // the last watermark sent per conversation

    /** No empty stash is kept; a conversation whose last acknowledgement is behind its watermark is dirty. */
    ghost predicate Valid()
      reads this
    {
      && seen == wm.Keys && stash.Keys <= seen && dirty <= seen && sent.Keys <= seen
      && (forall c | c in stash :: stash[c] != {})
      && (forall c | c in sent :: sent[c] <= wm[c] && (c in dirty || sent[c] == wm[c]))
    }

    ghost function Of(conv: int): Track
      requires Valid()
      reads this
    {
      if conv in seen then Track(true, wm[conv], if conv in stash then stash[conv] else {}) else UNSEEN
    }

    constructor ()
      ensures Valid() && seen == {} && dirty == {}
    {
      seen, wm, stash, dirty, sent := {}, map[], map[], {}, map[];
    }

    /** `first`: the caller sends the watermark at once. */
    method ObservePush(conv: int, s: int) returns (first: bool)
      requires Valid()
      modifies this
      ensures Valid() && first == (conv !in old(seen))
      ensures Of(conv) == Observe(old(Of(conv)), s)
      ensures forall c | c != conv :: Of(c) == old(Of(c))
      ensures dirty == if !first && Of(conv).wm != old(Of(conv)).wm then old(dirty) + {conv} else old(dirty)
      ensures sent == old(sent)
    {
      if conv !in seen {
        seen, wm := seen + {conv}, wm[conv := s];
        return true;
      }
      var w := wm[conv];
      if s <= w {
      } else if s == w + 1 {
        w := s;
        AdvanceRises(s, if conv in stash then stash[conv] else {});
        if conv in stash {
          var g := stash[conv];
          w, g := FillHoles(w, g);
          stash := if |g| == 0 then stash - {conv} else stash[conv := g];
        }
        wm, dirty := wm[conv := w], dirty + {conv};
      } else {
        stash := stash[conv := (if conv in stash then stash[conv] else {}) + {s}];
      }
      return false;
    }

    method SendWatermark(conv: int) returns (ackSeq: int)
      requires Valid()
      modifies this`sent
      ensures Valid() && ackSeq == if conv in seen then Of(conv).wm else 0
      ensures sent == if conv in seen then old(sent)[conv := ackSeq] else old(sent)
    {
      ackSeq := if conv in wm then wm[conv] else 0;
      if conv in seen { sent := sent[conv := ackSeq]; }
    }

    /** One frame per dirty conversation, with its current watermark; afterwards every acknowledgement is up to date. */
    method FlushAll() returns (frames: map<int, int>)
      requires Valid()
      modifies this`dirty, this`sent
      ensures Valid() && dirty == {} && frames.Keys == old(dirty)
      ensures forall c | c in frames :: frames[c] == Of(c).wm
      ensures forall c | c in sent :: sent[c] == Of(c).wm
      ensures forall c | c in old(sent) || c in old(dirty) :: c in sent
    {
      frames := map c | c in dirty :: wm[c];
      dirty, sent := {}, sent + frames;
    }
  }

  lemma {:induction false} AdvanceRises(wm: int, stash: set<int>)
    ensures Advance(wm, stash).0 >= wm
    decreases |stash|
  {
    if wm + 1 !in stash {
    } else {
      AdvanceRises(wm + 1, stash - {wm + 1});
    }
  }

  /** The hole-filling loop. */
  method FillHoles(start: int, stash: set<int>) returns (wm: int, g: set<int>)
    ensures (wm, g) == Advance(start, stash)
  {
    wm, g := start, stash;
    while wm + 1 in g
      invariant Advance(wm, g) == Advance(start, stash)
      decreases |g|
    {
      wm := wm + 1;
      g := g - {wm};
    }
  }
}
