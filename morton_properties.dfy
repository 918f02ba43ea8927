// What `branch_id` promises about well-formed keys: `push`/`pop` undo each
// other, `truncate` and `pop(d)` move to an ancestor of the right depth, and
// decoding an encoded point gives back its coordinates up to the cell size.

module MortonProperties {
  import opened Bits
  import opened MortonBranchId

  // ---------------------------------------------------------------------
  // Well-formed ids

  /** A well-formed id has its sentinel as its highest set bit. */
  lemma WellFormedSentinel(dim: nat, bits: nat, id: nat)
    requires Shape(dim, bits) && WellFormed(dim, bits, id)
    ensures var top := DepthOf(dim, id) * dim + Offset(dim, bits);
      BitOf(id, top) == 1 && Shr(id, top + 1) == 0 && id < Pow2(top + 1)
  {
    var n := DepthOf(dim, id) * dim;
    var off := Offset(dim, bits);
    ShrAdd(id, n, off);
    ShrSplit(1, off, 0);
    assert Shr(id, n + off) == 1;
    ShrAdd(id, n + off, 1);
    ShrParts(id, n + off + 1);
  }

  /** The null id is not well formed, and the root is, at depth 0. */
  lemma RootAndNull(dim: nat, bits: nat)
    requires Shape(dim, bits)
    ensures DepthOf(dim, RootValue(dim, bits)) == 0 && WellFormed(dim, bits, RootValue(dim, bits))
    ensures DepthOf(dim, NullValue) == 0 && !WellFormed(dim, bits, NullValue)
  {
    Pow2Strict(Offset(dim, bits), dim);
    ShrSmall(RootValue(dim, bits), dim);
    ShrSmall(0, dim);
  }

  /** A well-formed id is not null. */
  lemma WellFormedNotNull(dim: nat, bits: nat, id: nat)
    requires Shape(dim, bits) && WellFormed(dim, bits, id)
    ensures id != NullValue
  {
    ShrSmall(0, DepthOf(dim, id) * dim);
  }

  // ---------------------------------------------------------------------
  // push and pop

  /** Below `max_depth`, a well-formed id has room for one more group. */
  lemma PushRoom(dim: nat, bits: nat, id: nat)
    requires Shape(dim, bits) && WellFormed(dim, bits, id) && DepthOf(dim, id) < MaxDepth(dim, bits)
    ensures id * Pow2(dim) < Pow2(bits)
  {
    var n := DepthOf(dim, id) * dim;
    var off := Offset(dim, bits);
    WellFormedSentinel(dim, bits, id);
    assert n + dim <= MaxDepth(dim, bits) * dim by {
      MulLe(DepthOf(dim, id) + 1, MaxDepth(dim, bits), dim);
      AddMul(DepthOf(dim, id), 1, dim);
    }
    TopSentinel(dim, bits);
    Pow2Add(n + off + 1, dim);
    Pow2Monotone(n + off + 1 + dim, bits);
    MulStrict(id, Pow2(n + off + 1), Pow2(dim));
  }

  lemma MulStrict(a: nat, b: nat, p: nat)
    requires a < b && 1 <= p
    ensures a * p < b * p
  {
  }

  /** `push(b)` on a well-formed id below `max_depth` appends one group: the result is
      well formed, one level deeper, and its `parent()` (and `pop()`) is the id again. */
  lemma PushPop(dim: nat, bits: nat, id: nat, b: nat)
    requires Shape(dim, bits) && WellFormed(dim, bits, id) && DepthOf(dim, id) < MaxDepth(dim, bits)
    requires b < Pow2(dim)
    ensures PushValue(dim, bits, id, b) == id * Pow2(dim) + b
    ensures ParentValue(dim, PushValue(dim, bits, id, b)) == id
    ensures DepthOf(dim, PushValue(dim, bits, id, b)) == DepthOf(dim, id) + 1
    ensures WellFormed(dim, bits, PushValue(dim, bits, id, b))
  {
    var d := DepthOf(dim, id);
    var v := id * Pow2(dim) + b;
    PushRoom(dim, bits, id);
    PushNoWrap(dim, bits, id, b);
    ShrSplit(id, dim, b);
    WellFormedNotNull(dim, bits, id);
    assert DepthOf(dim, v) == d + 1;
    ShrGroup(v, dim, d);
  }

  /** Without overflow, `push(b)` is `id * 2^dim + b`. */
  lemma PushNoWrap(dim: nat, bits: nat, id: nat, b: nat)
    requires Shape(dim, bits) && id * Pow2(dim) < Pow2(bits) && b < Pow2(dim)
    ensures PushValue(dim, bits, id, b) == id * Pow2(dim) + b
  {
    ModSmall(id * Pow2(dim), Pow2(bits));
    OrDisjoint(id, b, dim);
  }

  /** Dropping `d + 1` groups is dropping one group, then `d`. */
  lemma ShrGroup(v: nat, dim: nat, d: nat)
    ensures Shr(v, (d + 1) * dim) == Shr(Shr(v, dim), d * dim)
  {
    AddMul(d, 1, dim);
    ShrAdd(v, dim, d * dim);
  }

  /** `pop()` on a well-formed id below the root gives a well-formed id one level up. */
  lemma PopWellFormed(dim: nat, bits: nat, id: nat)
    requires Shape(dim, bits) && WellFormed(dim, bits, id) && DepthOf(dim, id) > 0
    ensures DepthOf(dim, ParentValue(dim, id)) == DepthOf(dim, id) - 1
    ensures WellFormed(dim, bits, ParentValue(dim, id))
  {
    var d := DepthOf(dim, id);
    var m: nat := d - 1;
    AddMul(1, m, dim);
    ShrAdd(id, dim, m * dim);
  }

  /** `push` of the dropped group undoes `pop()`. */
  lemma PopPush(dim: nat, bits: nat, id: nat)
    requires Shape(dim, bits) && WellFormed(dim, bits, id) && DepthOf(dim, id) > 0
    ensures id % Pow2(dim) < Pow2(dim)
    ensures PushValue(dim, bits, ParentValue(dim, id), id % Pow2(dim)) == id
  {
    PopWellFormed(dim, bits, id);
    ShrParts(id, dim);
    PushPop(dim, bits, ParentValue(dim, id), id % Pow2(dim));
  }

  /** A child id is greater than its parent, and siblings are ordered by their group. */
  lemma ChildOrder(dim: nat, bits: nat, id: nat, b: nat, b': nat)
    requires Shape(dim, bits) && WellFormed(dim, bits, id) && DepthOf(dim, id) < MaxDepth(dim, bits)
    requires b < b' < Pow2(dim)
    ensures id < PushValue(dim, bits, id, b) < PushValue(dim, bits, id, b')
  {
    PushPop(dim, bits, id, b);
    PushPop(dim, bits, id, b');
    WellFormedNotNull(dim, bits, id);
    Pow2Strict(0, dim);
    MulLe(2, Pow2(dim), id);
  }

  // ---------------------------------------------------------------------
  // Ancestors, truncate and pop(d)

  /** The `k`-th ancestor drops the `k` lowest groups. */
  lemma {:induction false} AncestorIsShr(dim: nat, id: nat, k: nat)
    requires 1 <= dim
    ensures Ancestor(dim, id, k) == Shr(id, k * dim)
  {
    if k > 0 {
      var m: nat := k - 1;
      AncestorIsShr(dim, id, m);
      ShrAdd(id, m * dim, dim);
      AddMul(m, 1, dim);
    }
  }

  /** Dropping `k <= depth` groups lowers the depth by `k`. */
  lemma {:induction false} ShrDepth(dim: nat, id: nat, k: nat)
    requires 1 <= dim && k <= DepthOf(dim, id)
    ensures DepthOf(dim, Shr(id, k * dim)) == DepthOf(dim, id) - k
  {
    if k > 0 {
      var m: nat := k - 1;
      var up := Shr(id, dim);
      ShrDepth(dim, up, m);
      AddMul(1, m, dim);
      ShrAdd(id, dim, m * dim);
    }
  }

  /** Dropping `k <= depth` groups of a well-formed id leaves a well-formed id. */
  lemma AncestorWellFormed(dim: nat, bits: nat, id: nat, k: nat)
    requires Shape(dim, bits) && WellFormed(dim, bits, id) && k <= DepthOf(dim, id)
    ensures DepthOf(dim, Shr(id, k * dim)) == DepthOf(dim, id) - k
    ensures WellFormed(dim, bits, Shr(id, k * dim))
  {
    var d := DepthOf(dim, id);
    var rest: nat := d - k;
    ShrDepth(dim, id, k);
    AddMul(k, rest, dim);
    ShrAdd(id, k * dim, rest * dim);
  }

  /** `truncate(t)` keeps an id shallower than `t`; otherwise it gives the well-formed
      ancestor at depth `t`. */
  lemma TruncateWellFormed(dim: nat, bits: nat, id: nat, t: nat)
    requires Shape(dim, bits) && WellFormed(dim, bits, id)
    ensures DepthOf(dim, id) < t ==> TruncateValue(dim, id, t) == id
    ensures DepthOf(dim, id) >= t ==>
      && TruncateValue(dim, id, t) == Ancestor(dim, id, DepthOf(dim, id) - t)
      && DepthOf(dim, TruncateValue(dim, id, t)) == t
      && WellFormed(dim, bits, TruncateValue(dim, id, t))
  {
    var d := DepthOf(dim, id);
    if d >= t {
      var k: nat := d - t;
      AncestorIsShr(dim, id, k);
      AncestorWellFormed(dim, bits, id, k);
    }
  }

  /** `pop(d)` as its comment intends, with `d <= depth()`: the ancestor `d` levels up. */
  lemma PopLevelsIntendedIsAncestor(dim: nat, bits: nat, id: nat, d: nat)
    requires Shape(dim, bits) && WellFormed(dim, bits, id) && d <= DepthOf(dim, id)
    ensures TruncateValue(dim, id, DepthOf(dim, id) - d) == Ancestor(dim, id, d)
    ensures DepthOf(dim, Ancestor(dim, id, d)) == DepthOf(dim, id) - d
    ensures WellFormed(dim, bits, Ancestor(dim, id, d))
  {
    TruncateWellFormed(dim, bits, id, DepthOf(dim, id) - d);
    assert DepthOf(dim, id) - (DepthOf(dim, id) - d) == d;
  }

  /** `pop(d)` as written accepts only `d >= depth()`, and then all groups go: the result
      is the root (for `d == depth()`) or the null id. */
  lemma PopLevelsAsWritten(dim: nat, bits: nat, id: nat, d: nat)
    requires Shape(dim, bits) && WellFormed(dim, bits, id) && d >= DepthOf(dim, id)
    ensures d == DepthOf(dim, id) ==> Shr(id, d * dim) == RootValue(dim, bits)
    ensures d > DepthOf(dim, id) ==> Shr(id, d * dim) == NullValue
  {
    var depth := DepthOf(dim, id);
    if d > depth {
      WellFormedSentinel(dim, bits, id);
      MulLe(depth + 1, d, dim);
      AddMul(depth, 1, dim);
      Pow2Monotone(depth * dim + Offset(dim, bits) + 1, d * dim);
      ShrSmall(id, d * dim);
    }
  }

  /** The key of a cell two levels deep (3-D, 64-bit keys, root sentinel at bit 0):
      `pop(1)` fails its assertion although one level can be popped. */
  lemma PopOneLevelRejected()
    ensures DepthOf(3, 64) == 2
    ensures !(1 >= DepthOf(3, 64))
    ensures TruncateValue(3, 64, DepthOf(3, 64) - 1) == 8
  {
    assert Shr(8, 3) == 1 by {
      assert Shr(8, 3) == Shr(4, 2) == Shr(2, 1) == Shr(1, 0);
    }
    assert Shr(1, 3) == 0 by {
      assert Shr(1, 3) == Shr(0, 2) == Shr(0, 1) == Shr(0, 0);
    }
    assert Shr(64, 3) == 8 by {
      assert Shr(64, 3) == Shr(32, 2) == Shr(16, 1) == Shr(8, 0);
    }
    assert DepthOf(3, 1) == 0;
    assert DepthOf(3, 8) == 1;
  }

  // ---------------------------------------------------------------------
  // Decoding an encoded point

  /** `v` with its low `s` bits cleared, `(v >> s) << s`. */
  function ClearLow(v: nat, s: nat): (r: nat)
    ensures r <= v
  {
    ShrParts(v, s);
    Shr(v, s) * Pow2(s)
  }

  /** Bit `jj` of a digit is bit `lvl` of coordinate `jj`. */
  lemma {:induction false} DigitBit(coords: seq<nat>, lvl: nat, j: nat, jj: nat)
    requires jj < j <= |coords|
    ensures BitOf(DigitUpTo(coords, lvl, j), jj) == BitOf(coords[jj], lvl)
  {
    var prev := DigitUpTo(coords, lvl, j - 1);
    var bit := BitOf(coords[j - 1], lvl);
    if jj == j - 1 {
      BitOfTop(bit, j - 1, prev);
    } else {
      BitOfAddHigh(bit, j - 1, prev, jj);
      DigitBit(coords, lvl, j - 1, jj);
    }
  }

  /** The decode loop reads back, for coordinate `j`, the `depth` bits the encoder took. */
  lemma {:induction false} LowCoordEncode(dim: nat, bits: nat, coords: seq<nat>, depth: nat, j: nat)
    requires Shape(dim, bits) && |coords| == dim && depth <= MaxDepth(dim, bits) && j < dim
    ensures LowCoord(dim, EncodeValue(dim, bits, coords, depth), j)
      == BitsRange(coords[j], MaxDepth(dim, bits) - depth, depth)
  {
    var e := EncodeValue(dim, bits, coords, depth);
    if depth == 0 {
      assert e == RootValue(dim, bits);
      Pow2Strict(Offset(dim, bits), dim);
      ShrSmall(e, dim);
    } else {
      var m: nat := depth - 1;
      var lo := MaxDepth(dim, bits) - depth;
      var prev := EncodeValue(dim, bits, coords, m);
      var g := Digit(coords, lo);
      EncodeStep(dim, bits, coords, depth);
      ShrSplit(prev, dim, g);
      EncodeIsNotNull(dim, bits, coords, m);
      BitOfAddHigh(prev, dim, g, j);
      DigitBit(coords, lo, dim, j);
      LowCoordEncode(dim, bits, coords, m, j);
      assert MaxDepth(dim, bits) - m == lo + 1;
    }
  }

  /** Reading `n` bits from `lo` is `v >> lo` when nothing lies above them. */
  lemma {:induction false} BitsRangeIsShr(v: nat, lo: nat, n: nat)
    requires Shr(v, lo) < Pow2(n)
    ensures BitsRange(v, lo, n) == Shr(v, lo)
    decreases n
  {
    var y := Shr(v, lo);
    if n > 0 {
      ShrAdd(v, lo, 1);
      assert Shr(v, lo + 1) == y / 2;
      BitsRangeIsShr(v, lo + 1, n - 1);
    }
  }

  /** A coordinate below `2^max_depth` shifted by `max_depth - depth` fits in `depth` bits. */
  lemma CoordShrBound(c: nat, maxDepth: nat, depth: nat)
    requires c < Pow2(maxDepth) && depth <= maxDepth
    ensures Shr(c, maxDepth - depth) < Pow2(depth)
  {
    Pow2Add(depth, maxDepth - depth);
    assert depth + (maxDepth - depth) == maxDepth;
    ShrBound(c, maxDepth - depth, Pow2(depth));
  }

  /** `coordinates()` of the id of a point at depth `d` gives the point's grid coordinates
      with their `max_depth - d` low bits cleared: the corner of the point's cell. */
  lemma DecodeEncode(dim: nat, bits: nat, coords: seq<nat>, depth: nat)
    requires Shape(dim, bits) && |coords| == dim && depth <= MaxDepth(dim, bits)
    requires forall j :: 0 <= j < dim ==> coords[j] < Pow2(MaxDepth(dim, bits))
    ensures EncodeValue(dim, bits, coords, depth) < Pow2(bits)
    ensures DecodeValue(dim, bits, EncodeValue(dim, bits, coords, depth))
      == seq(dim, j requires 0 <= j < dim => ClearLow(coords[j], MaxDepth(dim, bits) - depth))
  {
    var maxDepth := MaxDepth(dim, bits);
    var e := EncodeValue(dim, bits, coords, depth);
    EncodeFits(dim, bits, coords, depth);
    DepthOfEncode(dim, bits, coords, depth);
    forall j | 0 <= j < dim
      ensures DecodeValue(dim, bits, e)[j] == ClearLow(coords[j], maxDepth - depth)
    {
      LowCoordEncode(dim, bits, coords, depth, j);
      CoordShrBound(coords[j], maxDepth, depth);
      BitsRangeIsShr(coords[j], maxDepth - depth, depth);
    }
  }

  /** At `max_depth` the round trip is exact. */
  lemma DecodeEncodeFull(dim: nat, bits: nat, coords: seq<nat>)
    requires Shape(dim, bits) && |coords| == dim
    requires forall j :: 0 <= j < dim ==> coords[j] < Pow2(MaxDepth(dim, bits))
    ensures EncodeValue(dim, bits, coords, MaxDepth(dim, bits)) < Pow2(bits)
    ensures DecodeValue(dim, bits, EncodeValue(dim, bits, coords, MaxDepth(dim, bits))) == coords
  {
    var maxDepth := MaxDepth(dim, bits);
    DecodeEncode(dim, bits, coords, maxDepth);
    var r := DecodeValue(dim, bits, EncodeValue(dim, bits, coords, maxDepth));
    forall j | 0 <= j < dim
      ensures r[j] == coords[j]
    {
      assert maxDepth - maxDepth == 0;
      assert Shr(coords[j], 0) == coords[j];
    }
  }
}
