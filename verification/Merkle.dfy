/** merkle_root of crates/crypto/src/lib.rs over an abstract hash of 32 bytes. A chunk index out of
    range, on which the source stops, is the result `None`. */
module Merkle {
  import opened Wrappers
  import opened Bytes

  /** The hash of two nodes: both are fed to the hasher one after the other. */
  function Combine(h: Hash, left: Digest, right: Digest): Digest {
    h(left + right)
  }

  function PairUp(h: Hash, level: seq<Digest>): (r: seq<Digest>)
    requires |level| % 2 == 0
    ensures |r| == |level| / 2
  {
    seq(|level| / 2, i requires 0 <= i < |level| / 2 => Combine(h, level[2 * i], level[2 * i + 1]))
  }

  /** The level loop, bottom up. */
  function Rounds(h: Hash, level: seq<Digest>): Option<Digest>
    requires |level| > 0
    decreases |level|
  {
    if |level| == 1 then Some(level[0])
    else if |level| % 2 != 0 then None
    else Rounds(h, PairUp(h, level))
  }

  /** Padding happens once, before the first level. */
  function Pad(hashes: seq<Digest>): (r: seq<Digest>)
    ensures |hashes| >= 2 ==> |r| >= 2 && |r| % 2 == 0
  {
    if |hashes| % 2 != 0 then hashes + [Zeros(32)] else hashes
  }

  function Root(h: Hash, hashes: seq<Digest>): Option<Digest> {
    if |hashes| == 0 then Some(Zeros(32))
    else if |hashes| == 1 then Some(hashes[0])
    else Rounds(h, Pad(hashes))
  }

  method MerkleRoot(h: Hash, hashes: seq<Digest>) returns (root: Option<Digest>)
    ensures root == Root(h, hashes)
  {
    if |hashes| == 0 {
      return Some(Zeros(32));
    }
    if |hashes| == 1 {
      return Some(hashes[0]);
    }
    var level: seq<Digest> := hashes;
    while |level| % 2 != 0
      invariant level == hashes || level == Pad(hashes)
      decreases |level| % 2
    {
      level := level + [Zeros(32)];
    }
    while |level| > 1
      invariant |level| > 0 && Rounds(h, level) == Root(h, hashes)
      decreases |level|
    {
      var next := NextLevel(h, level);
      if next.None? {
        return None;
      }
      level := next.value;
    }
    root := Some(level[0]);
  }

  /** One pass over the level, two nodes at a time. */
  method NextLevel(h: Hash, level: seq<Digest>) returns (next: Option<seq<Digest>>)
    ensures next == if |level| % 2 == 0 then Some(PairUp(h, level)) else None
  {
    var nextLevel: seq<Digest> := [];
    var i := 0;
    while i < |level|
      invariant 0 <= i <= |level| && i % 2 == 0 && |nextLevel| == i / 2
      invariant |level| % 2 == 0 ==> nextLevel == PairUp(h, level)[..i / 2]
      decreases |level| - i
    {
      if i + 1 >= |level| {
        return None;
      }
      nextLevel := nextLevel + [Combine(h, level[i], level[i + 1])];
      i := i + 2;
    }
    assert PairUp(h, level)[..i / 2] == PairUp(h, level);
    next := Some(nextLevel);
  }

  // ------------------------------------------------------- where it is defined

  predicate IsPowerOfTwo(n: nat) {
    n == 1 || (n > 0 && n % 2 == 0 && IsPowerOfTwo(n / 2))
  }

  lemma {:induction false} RoundsFinishIff(h: Hash, level: seq<Digest>)
    requires |level| > 0
    ensures Rounds(h, level).Some? <==> IsPowerOfTwo(|level|)
    decreases |level|
  {
    if |level| == 1 || |level| % 2 != 0 {
    } else {
      RoundsFinishIff(h, PairUp(h, level));
    }
  }

  /** The exact domain: no leaf or one, or a count that is a power of two or one less. */
  lemma RootDefinedIff(h: Hash, hashes: seq<Digest>)
    ensures Root(h, hashes).Some? <==>
      |hashes| == 0 || |hashes| == 1 || IsPowerOfTwo(|hashes|) || IsPowerOfTwo(|hashes| + 1)
  {
    hide Rounds, Pad, IsPowerOfTwo;
    if |hashes| >= 2 {
      PadLength(hashes);
      RoundsFinishIff(h, Pad(hashes));
      OddPowers(|hashes|);
    } else {
      SmallPowers();
    }
  }

  lemma PadLength(hashes: seq<Digest>)
    ensures |Pad(hashes)| == if |hashes| % 2 == 0 then |hashes| else |hashes| + 1
  {
  }

  lemma SmallPowers()
    ensures IsPowerOfTwo(1)
  {
  }

  lemma OddPowers(n: nat)
    requires n >= 2
    ensures IsPowerOfTwo(n) ==> n % 2 == 0
    ensures IsPowerOfTwo(n + 1) ==> n % 2 != 0
  {
  }

  // ------------------------------------------------------------- its meaning

  /** The textbook tree: hash of the root of the left half and the root of the right half. */
  function TopDown(h: Hash, leaves: seq<Digest>): Digest
    requires IsPowerOfTwo(|leaves|)
    decreases |leaves|
  {
    if |leaves| == 1 then leaves[0]
    else
      var half := |leaves| / 2;
      Combine(h, TopDown(h, leaves[..half]), TopDown(h, leaves[half..]))
  }

  lemma PairUpSplits(h: Hash, leaves: seq<Digest>, half: nat)
    requires |leaves| == 2 * half && half % 2 == 0
    ensures PairUp(h, leaves)[..half / 2] == PairUp(h, leaves[..half])
    ensures PairUp(h, leaves)[half / 2..] == PairUp(h, leaves[half..])
  {
    forall i | 0 <= i < half / 2
      ensures PairUp(h, leaves)[half / 2..][i] == PairUp(h, leaves[half..])[i]
    {
      assert 2 * (half / 2 + i) == half + 2 * i;
      assert leaves[half..][2 * i] == leaves[half + 2 * i];
      assert leaves[half..][2 * i + 1] == leaves[half + 2 * i + 1];
    }
  }

  /** Pairing up one level does not change the top-down root. */
  lemma {:induction false} PairUpKeepsTopDown(h: Hash, leaves: seq<Digest>)
    requires IsPowerOfTwo(|leaves|) && |leaves| >= 2
    ensures IsPowerOfTwo(|PairUp(h, leaves)|)
    ensures TopDown(h, PairUp(h, leaves)) == TopDown(h, leaves)
    decreases |leaves|
  {
    var half := |leaves| / 2;
    var pairs := PairUp(h, leaves);
    if half > 1 {
      PairUpSplits(h, leaves, half);
      PairUpKeepsTopDown(h, leaves[..half]);
      PairUpKeepsTopDown(h, leaves[half..]);
    } else {
      assert leaves[..half] == [leaves[0]] && leaves[half..] == [leaves[1]];
    }
  }

  lemma {:induction false} RoundsIsTopDown(h: Hash, level: seq<Digest>)
    requires IsPowerOfTwo(|level|)
    ensures Rounds(h, level) == Some(TopDown(h, level))
    decreases |level|
  {
    if |level| == 1 {
    } else {
      PairUpKeepsTopDown(h, level);
      RoundsIsTopDown(h, PairUp(h, level));
    }
  }

  /** Wherever the loop finishes on two leaves or more, it computes the top-down root of the padded list. */
  lemma BottomUpIsTopDown(h: Hash, hashes: seq<Digest>)
    requires |hashes| >= 2 && Root(h, hashes).Some?
    ensures IsPowerOfTwo(|Pad(hashes)|) && Root(h, hashes) == Some(TopDown(h, Pad(hashes)))
  {
    RoundsFinishIff(h, Pad(hashes));
    RoundsIsTopDown(h, Pad(hashes));
  }

  lemma HalvesOfPower(n: nat)
    requires IsPowerOfTwo(n) && n >= 2
    ensures n % 2 == 0 && IsPowerOfTwo(n / 2) && IsPowerOfTwo(n) && (n > 2 ==> n / 2 >= 2 && n / 2 % 2 == 0)
  {
  }

  lemma RootOfPower(h: Hash, hashes: seq<Digest>)
    requires IsPowerOfTwo(|hashes|)
    ensures Root(h, hashes) == Some(TopDown(h, hashes))
  {
    if |hashes| >= 2 {
      HalvesOfPower(|hashes|);
      RoundsIsTopDown(h, hashes);
    }
  }

  /** The root in terms of roots and the hash alone: no leaf, one leaf, an odd list filled up with a zero
      leaf, and two halves of a power of two, the left root hashed before the right one. */
  lemma RootOfHalves(h: Hash, hashes: seq<Digest>)
    ensures |hashes| == 0 ==> Root(h, hashes) == Some(Zeros(32))
    ensures |hashes| == 1 ==> Root(h, hashes) == Some(hashes[0])
    ensures |hashes| >= 3 && |hashes| % 2 != 0 ==> Root(h, hashes) == Root(h, hashes + [Zeros(32)])
    ensures |hashes| >= 2 && |hashes| % 2 == 0 && Root(h, hashes).Some? ==>
      var left, right := Root(h, hashes[..|hashes| / 2]), Root(h, hashes[|hashes| / 2..]);
      left.Some? && right.Some? && Root(h, hashes) == Some(h(left.value + right.value))
  {
    if |hashes| >= 2 && |hashes| % 2 == 0 && Root(h, hashes).Some? {
      hide Root, TopDown, IsPowerOfTwo;
      EvenRoots(h, hashes);
      HalvesOfPower(|hashes|);
      RootOfPower(h, hashes);
      RootOfPower(h, hashes[..|hashes| / 2]);
      RootOfPower(h, hashes[|hashes| / 2..]);
      TopDownUnfolds(h, hashes);
    }
  }

  lemma EvenRoots(h: Hash, hashes: seq<Digest>)
    requires |hashes| >= 2 && |hashes| % 2 == 0 && Root(h, hashes).Some?
    ensures IsPowerOfTwo(|hashes|)
  {
    RoundsFinishIff(h, hashes);
  }

  // ------------------------------------------------------------- commitment

  /** The byte strings hashed on the way to the root. */
  function Hashed(h: Hash, leaves: seq<Digest>): set<Bytes>
    requires IsPowerOfTwo(|leaves|)
    decreases |leaves|
  {
    if |leaves| == 1 then {}
    else
      var half := |leaves| / 2;
      {TopDown(h, leaves[..half]) + TopDown(h, leaves[half..])}
      + Hashed(h, leaves[..half]) + Hashed(h, leaves[half..])
  }

  /** Two different inputs, one from each set, with the same digest. */
  ghost predicate Collision(h: Hash, xs: set<Bytes>, ys: set<Bytes>) {
    exists x, y :: x in xs && y in ys && x != y && h(x) == h(y)
  }

  lemma TopDownUnfolds(h: Hash, a: seq<Digest>)
    requires IsPowerOfTwo(|a|)
    ensures |a| == 1 ==> TopDown(h, a) == a[0]
    ensures |a| != 1 ==>
      && |a| % 2 == 0 && 0 < |a| / 2 < |a| && IsPowerOfTwo(|a| / 2)
      && TopDown(h, a) == h(TopDown(h, a[..|a| / 2]) + TopDown(h, a[|a| / 2..]))
      && Hashed(h, a) == {TopDown(h, a[..|a| / 2]) + TopDown(h, a[|a| / 2..])}
                         + Hashed(h, a[..|a| / 2]) + Hashed(h, a[|a| / 2..])
  {
  }

  lemma CollisionGrows(h: Hash, xs: set<Bytes>, ys: set<Bytes>, xs': set<Bytes>, ys': set<Bytes>)
    requires xs <= xs' && ys <= ys' && Collision(h, xs, ys)
    ensures Collision(h, xs', ys')
  {
  }

  lemma {:induction false} TopDownBinds(h: Hash, a: seq<Digest>, b: seq<Digest>)
    requires |a| == |b| && IsPowerOfTwo(|a|)
    requires TopDown(h, a) == TopDown(h, b)
    ensures a == b || Collision(h, Hashed(h, a), Hashed(h, b))
    decreases |a|
  {
    hide TopDown, IsPowerOfTwo, Hashed, Collision;
    TopDownUnfolds(h, a);
    TopDownUnfolds(h, b);
    if |a| == 1 {
      assert a == [a[0]] && b == [b[0]];
    } else {
      var half := |a| / 2;
      var al, ar, bl, br := a[..half], a[half..], b[..half], b[half..];
      var x, y := TopDown(h, al) + TopDown(h, ar), TopDown(h, bl) + TopDown(h, br);
      if x != y {
        CollisionHere(h, x, y);
        CollisionGrows(h, {x}, {y}, Hashed(h, a), Hashed(h, b));
      } else {
        SplitAt(TopDown(h, al), TopDown(h, bl), TopDown(h, ar), TopDown(h, br));
        TopDownBinds(h, al, bl);
        TopDownBinds(h, ar, br);
        if al != bl {
          CollisionGrows(h, Hashed(h, al), Hashed(h, bl), Hashed(h, a), Hashed(h, b));
        } else if ar != br {
          CollisionGrows(h, Hashed(h, ar), Hashed(h, br), Hashed(h, a), Hashed(h, b));
        } else {
          assert a == al + ar && b == bl + br;
        }
      }
    }
  }

  lemma CollisionHere(h: Hash, x: Bytes, y: Bytes)
    requires x != y && h(x) == h(y)
    ensures Collision(h, {x}, {y})
  {
    assert x in {x} && y in {y};
  }

  /** The level of the tree over `leaves` that has `size` nodes. */
  function Level(h: Hash, leaves: seq<Digest>, size: nat): seq<Digest>
    requires IsPowerOfTwo(|leaves|)
    decreases |leaves|
  {
    if |leaves| <= size || |leaves| == 1 then leaves else Level(h, PairUp(h, leaves), size)
  }

  lemma {:induction false} HashedOfPairs(h: Hash, leaves: seq<Digest>)
    requires IsPowerOfTwo(|leaves|) && |leaves| >= 2
    ensures IsPowerOfTwo(|PairUp(h, leaves)|) && Hashed(h, PairUp(h, leaves)) <= Hashed(h, leaves)
    decreases |leaves|
  {
    var half, pairs := |leaves| / 2, PairUp(h, leaves);
    if half == 1 {
    } else {
      PairUpSplits(h, leaves, half);
      PairUpKeepsTopDown(h, leaves[..half]);
      PairUpKeepsTopDown(h, leaves[half..]);
      HashedOfPairs(h, leaves[..half]);
      HashedOfPairs(h, leaves[half..]);
    }
  }

  lemma {:induction false} PowersDoubleUp(m: nat, n: nat)
    requires IsPowerOfTwo(m) && IsPowerOfTwo(n) && n < m
    ensures m % 2 == 0 && n <= m / 2
  {
    if n == 1 {
    } else {
      PowersDoubleUp(m / 2, n / 2);
    }
  }

  /** A level has the root of the whole tree, and its own tree is a part of it. */
  lemma {:induction false} LevelKeepsRoot(h: Hash, leaves: seq<Digest>, size: nat)
    requires IsPowerOfTwo(|leaves|) && IsPowerOfTwo(size) && size <= |leaves|
    ensures var level := Level(h, leaves, size);
            && |level| == size && TopDown(h, level) == TopDown(h, leaves) && Hashed(h, level) <= Hashed(h, leaves)
    decreases |leaves|
  {
    hide TopDown, Hashed, PairUp;
    if |leaves| == size {
    } else {
      PowersDoubleUp(|leaves|, size);
      PairUpKeepsTopDown(h, leaves);
      HashedOfPairs(h, leaves);
      LevelKeepsRoot(h, PairUp(h, leaves), size);
    }
  }

  /** The bottom level: the padded list, a zero leaf where there is none. */
  function Bottom(hashes: seq<Digest>): (r: seq<Digest>)
    ensures |r| > 0
  {
    if |hashes| == 0 then [Zeros(32)] else if |hashes| == 1 then hashes else Pad(hashes)
  }

  lemma RootOfBottom(h: Hash, hashes: seq<Digest>)
    requires Root(h, hashes).Some?
    ensures IsPowerOfTwo(|Bottom(hashes)|) && Root(h, hashes) == Some(TopDown(h, Bottom(hashes)))
  {
    if |hashes| >= 2 {
      BottomUpIsTopDown(h, hashes);
    }
  }

  /** Leaves and inner nodes are hashed alike, so the root does not tell the depth: two lists of any
      lengths have one root exactly when the shorter one, padded, is a level of the longer one's tree,
      or their trees contain a collision. */
  lemma SharedRootIff(h: Hash, a: seq<Digest>, b: seq<Digest>)
    requires Root(h, a).Some? && Root(h, b).Some? && |Bottom(b)| <= |Bottom(a)|
    ensures IsPowerOfTwo(|Bottom(a)|) && IsPowerOfTwo(|Bottom(b)|)
    ensures Collision(h, Hashed(h, Bottom(a)), Hashed(h, Bottom(b)))
         || (Root(h, a) == Root(h, b) <==> Bottom(b) == Level(h, Bottom(a), |Bottom(b)|))
  {
    hide Root, Collision, Hashed, TopDown, Bottom, Level;
    RootOfBottom(h, a);
    RootOfBottom(h, b);
    var level := Level(h, Bottom(a), |Bottom(b)|);
    LevelKeepsRoot(h, Bottom(a), |Bottom(b)|);
    if Root(h, a) == Root(h, b) {
      TopDownBinds(h, level, Bottom(b));
      if level != Bottom(b) {
        CollisionGrows(h, Hashed(h, level), Hashed(h, Bottom(b)), Hashed(h, Bottom(a)), Hashed(h, Bottom(b)));
      }
    }
  }

  /** Among lists of equal padded length the root binds the padded list, and so the leaves whenever
      the lengths agree. */
  lemma RootBindsLeaves(h: Hash, a: seq<Digest>, b: seq<Digest>)
    requires |a| >= 2 && |b| >= 2 && |Pad(a)| == |Pad(b)| && IsPowerOfTwo(|Pad(a)|)
    requires !Collision(h, Hashed(h, Pad(a)), Hashed(h, Pad(b)))
    ensures Root(h, a).Some? && Root(h, b).Some?
    ensures Root(h, a) == Root(h, b) <==> Pad(a) == Pad(b)
    ensures |a| == |b| ==> (Root(h, a) == Root(h, b) <==> a == b)
  {
    hide Collision, Hashed, Rounds;
    RoundsFinishIff(h, Pad(a));
    RoundsFinishIff(h, Pad(b));
    SharedRootIff(h, a, b);
    if |a| == |b| && Pad(a) == Pad(b) {
      assert a == Pad(a)[..|a|] && b == Pad(b)[..|b|];
    }
  }

  /** The padding is not marked: an odd list and the same list ending in a zero leaf share a root. */
  lemma PaddingIsTransparent(h: Hash, hashes: seq<Digest>)
    requires |hashes| >= 3 && |hashes| % 2 != 0
    ensures Root(h, hashes) == Root(h, hashes + [Zeros(32)])
  {
  }
}
