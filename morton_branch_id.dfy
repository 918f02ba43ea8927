// Hashed/Morton branch id: a point's integer grid coordinates packed into one
// unsigned integer of `bits` bits, D bits per tree level interleaved, with a
// sentinel 1-bit above them that records the depth.
//
// The integer type `int_t` is modelled as a `nat` below 2^bits; the template
// parameters D and the bit width are the `dim` and `bits` of every member.

module MortonBranchId {
  import opened Bits

  /** A key type is usable when it has at least one dimension and room for one level. */
  predicate Shape(dim: nat, bits: nat)
  {
    1 <= dim < bits
  }

  /** `max_depth = (bits - 1) / dimension`. */
  function MaxDepth(dim: nat, bits: nat): nat
    requires Shape(dim, bits)
  {
    Quot(bits - 1, dim)
  }

  /** Position of the root's sentinel bit, `(bits - 1) % dimension`. */
  function Offset(dim: nat, bits: nat): (r: nat)
    requires Shape(dim, bits)
    ensures r < dim
  {
    Rem(bits - 1, dim)
  }

  /** The deepest sentinel is the top bit of the integer. */
  lemma TopSentinel(dim: nat, bits: nat)
    requires Shape(dim, bits)
    ensures MaxDepth(dim, bits) * dim + Offset(dim, bits) == bits - 1
  {
    QuotRem(bits - 1, dim);
  }

  /** The sentinel of an id at depth `depth`: `1 << depth * dimension + (bits - 1) % dimension`. */
  function Sentinel(dim: nat, bits: nat, depth: nat): nat
    requires Shape(dim, bits)
  {
    SentinelAt(dim, Offset(dim, bits), depth)
  }

  /** The sentinel bit `depth` groups above bit `off`. */
  function SentinelAt(dim: nat, off: nat, depth: nat): nat
  {
    Pow2(depth * dim + off)
  }

  /** `root()`: the sentinel alone. */
  function RootValue(dim: nat, bits: nat): nat
    requires Shape(dim, bits)
  {
    Pow2(Offset(dim, bits))
  }

  /** `null()`. */
  const NullValue: nat := 0

  /** The depth recovered by `depth()`: how often `id >>= dimension` stays non-zero. */
  function DepthOf(dim: nat, id: nat): nat
    requires 1 <= dim
    decreases id
  {
    var up := Shr(id, dim);
    if up == 0 then 0
    else
      assert up < id by { ShrShrinks(id, dim); }
      1 + DepthOf(dim, up)
  }

  /** An id whose bits above its `depth * dim` interleaved bits are exactly the sentinel. */
  ghost predicate WellFormed(dim: nat, bits: nat, id: nat)
    requires Shape(dim, bits)
  {
    DepthOf(dim, id) <= MaxDepth(dim, bits)
    && Shr(id, DepthOf(dim, id) * dim) == RootValue(dim, bits)
  }

  // ---------------------------------------------------------------------
  // Encoding

  /** Bits `lvl` of the first `j` coordinates, bit of coordinate `j'` at position `j'`. */
  function DigitUpTo(coords: seq<nat>, lvl: nat, j: nat): (r: nat)
    requires j <= |coords|
    ensures r < Pow2(j)
  {
    if j == 0 then 0
    else DigitUpTo(coords, lvl, j - 1) + BitOf(coords[j - 1], lvl) * Pow2(j - 1)
  }

  /** The D-bit group a point contributes for coordinate bit `lvl`. */
  function Digit(coords: seq<nat>, lvl: nat): (r: nat)
  {
    DigitUpTo(coords, lvl, |coords|)
  }

  /** Groups for coordinate bits `lo .. lo + n - 1`, group `k` at bit `k * dim`. */
  function Interleave(dim: nat, coords: seq<nat>, lo: nat, n: nat): nat
    requires |coords| == dim
  {
    if n == 0 then 0
    else Interleave(dim, coords, lo, n - 1) + Digit(coords, lo + n - 1) * Pow2((n - 1) * dim)
  }

  /** `n` interleaved groups take `n * dim` bits. */
  lemma {:induction false} InterleaveBound(dim: nat, coords: seq<nat>, lo: nat, n: nat)
    requires |coords| == dim
    ensures Interleave(dim, coords, lo, n) < Pow2(n * dim)
  {
    if n > 0 {
      var m: nat := n - 1;
      InterleaveBound(dim, coords, lo, m);
      PlaceAbove(Interleave(dim, coords, lo, m), Digit(coords, lo + m), m * dim, dim);
      AddMul(m, 1, dim);
    }
  }

  /** The id built from integer grid coordinates at `depth`: the sentinel above the
      interleaved bits `max_depth - depth .. max_depth - 1` of the coordinates. */
  function EncodeValue(dim: nat, bits: nat, coords: seq<nat>, depth: nat): nat
    requires Shape(dim, bits) && |coords| == dim && depth <= MaxDepth(dim, bits)
  {
    Sentinel(dim, bits, depth) + Interleave(dim, coords, MaxDepth(dim, bits) - depth, depth)
  }

  // ---------------------------------------------------------------------
  // Navigation on values

  /** `push(b)`: `id_ <<= dimension; id_ |= b;` on a `bits`-bit unsigned integer. */
  function PushValue(dim: nat, bits: nat, id: nat, b: nat): nat
    requires Shape(dim, bits)
  {
    Or((id * Pow2(dim)) % Pow2(bits), b)
  }

  /** `parent()`, and `pop()`: `id_ >> dimension`. */
  function ParentValue(dim: nat, id: nat): nat
    requires 1 <= dim
  {
    Shr(id, dim)
  }

  /** The `k`-th ancestor: `parent()` applied `k` times. */
  function Ancestor(dim: nat, id: nat, k: nat): nat
    requires 1 <= dim
  {
    if k == 0 then id else ParentValue(dim, Ancestor(dim, id, k - 1))
  }

  /** `truncate(t)`: no change below depth `t`, otherwise drop `(depth - t) * dimension` bits. */
  function TruncateValue(dim: nat, id: nat, t: nat): nat
    requires 1 <= dim
  {
    var d := DepthOf(dim, id);
    if d < t then id else Shr(id, (d - t) * dim)
  }

  // ---------------------------------------------------------------------
  // Decoding

  /** Bit `j` of every D-bit group below the sentinel, lowest group first, as the
      decode loop of `coordinates()` collects them. */
  function LowCoord(dim: nat, id: nat, j: nat): nat
    requires 1 <= dim
    decreases id
  {
    var up := Shr(id, dim);
    if up == 0 then 0
    else
      assert up < id by { ShrShrinks(id, dim); }
      BitOf(id, j) + 2 * LowCoord(dim, up, j)
  }

  /** `coordinates()` on integer grid coordinates: the collected bits shifted up by
      `max_depth - depth`. */
  function DecodeValue(dim: nat, bits: nat, id: nat): (r: seq<nat>)
    requires Shape(dim, bits) && id < Pow2(bits)
    ensures |r| == dim
  {
    seq(dim, j requires 0 <= j < dim => ScaledCoord(dim, bits, id, j))
  }

  /** Coordinate `j` of `id`, shifted up by `max_depth - depth`. */
  function ScaledCoord(dim: nat, bits: nat, id: nat, j: nat): nat
    requires Shape(dim, bits) && id < Pow2(bits)
  {
    DepthBound(dim, bits, id);
    LowCoord(dim, id, j) * Pow2(MaxDepth(dim, bits) - DepthOf(dim, id))
  }

  /** Bits `lo .. lo + n - 1` of `v`, read as a number. */
  function BitsRange(v: nat, lo: nat, n: nat): nat
    decreases n
  {
    if n == 0 then 0 else BitOf(v, lo) + 2 * BitsRange(v, lo + 1, n - 1)
  }

  // ---------------------------------------------------------------------
  // The key object

  /** `branch_id<T, D>`: the key whose `push`, `pop` and `truncate` change it in place. */
  class BranchId {
    const dim: nat
    const bits: nat
    var id: nat

    ghost predicate Valid()
      reads this
    {
      Shape(dim, bits) && id < Pow2(bits)
    }

    /** The default constructor: the null id. */
    constructor Null(dim: nat, bits: nat)
      requires Shape(dim, bits)
      ensures Valid() && this.dim == dim && this.bits == bits && id == NullValue
    {
      this.dim, this.bits := dim, bits;
      id := 0;
    }

    /** `root()`. */
    constructor Root(dim: nat, bits: nat)
      requires Shape(dim, bits)
      ensures Valid() && this.dim == dim && this.bits == bits && id == RootValue(dim, bits)
    {
      this.dim, this.bits := dim, bits;
      Pow2Monotone(Offset(dim, bits) + 1, bits);
      Pow2Strict(Offset(dim, bits), Offset(dim, bits) + 1);
      id := Pow2(Offset(dim, bits));
    }

    /** The constructor from a point, on the point's integer grid coordinates
        (each the point's quantised position below `2^max_depth`). */
    constructor Encode(dim: nat, bits: nat, coords: seq<nat>, depth: nat)
      requires Shape(dim, bits) && |coords| == dim && depth <= MaxDepth(dim, bits)
      ensures Valid() && this.dim == dim && this.bits == bits
      ensures id == EncodeValue(dim, bits, coords, depth)
    {
      this.dim, this.bits := dim, bits;
      var maxDepth := MaxDepth(dim, bits);
      var lo := maxDepth - depth;
      var sentinel := Sentinel(dim, bits, depth);
      var v: nat := sentinel;
      var k: nat := 0;
      var i: nat := lo;
      var base: nat := 0;
      while i < maxDepth
        invariant k <= depth && i == lo + k && base == k * dim
        invariant v == sentinel + Interleave(dim, coords, lo, k)
      {
        var j: nat := 0;
        assert EncodePartial(dim, coords, lo, k, 0) == Interleave(dim, coords, lo, k);
        while j < dim
          invariant j <= dim
          invariant v == sentinel + EncodePartial(dim, coords, lo, k, j)
        {
          EncodeBitStep(dim, bits, coords, depth, k, j);
          assert base + j == k * dim + j;
          if BitOf(coords[j], i) == 1 {
            v := Or(v, Pow2(base + j));
          }
          j := j + 1;
        }
        AddMul(k, 1, dim);
        k := k + 1;
        i := i + 1;
        base := base + dim;
      }
      EncodeFits(dim, bits, coords, depth);
      id := v;
    }

    /** `is_null()`: only the default id is null; it has depth 0 and carries no
        sentinel, so it is not the key of any branch. */
    function IsNull(): (r: bool)
      reads this
      ensures r <==> id == NullValue
      ensures r && Valid() ==> DepthOf(dim, id) == 0 && !WellFormed(dim, bits, id)
    {
      ShrSmall(0, 0);
      if dim >= 1 then
        ShrSmall(0, dim);
        id == NullValue
      else id == NullValue
    }

    /** `depth()`: shift right by `dimension` until nothing is left. */
    method Depth() returns (d: nat)
      requires Valid()
      ensures d == DepthOf(dim, id)
    {
      var x := id;
      d := 0;
      while Shr(x, dim) != 0
        invariant d + DepthOf(dim, x) == DepthOf(dim, id)
        decreases x
      {
        DivBound(x, Pow2(dim), x);
        x := Shr(x, dim);
        d := d + 1;
      }
    }

    /** `push(bits)`: append one D-bit group below the current ones. */
    method Push(b: nat)
      requires Valid() && b < Pow2(dim)
      modifies this`id
      ensures Valid() && id == PushValue(dim, bits, old(id), b)
    {
      PushFits(dim, bits, id, b);
      id := Or((id * Pow2(dim)) % Pow2(bits), b);
    }

    /** `pop()`: drop the deepest D-bit group; the id must not be the root. */
    method Pop()
      requires Valid() && DepthOf(dim, id) > 0
      modifies this`id
      ensures Valid() && id == ParentValue(dim, old(id))
    {
      id := Shr(id, dim);
    }

    /** `pop(d)` as written: it asserts `d >= depth()` and shifts by `d * dimension`
        bits (a shift by the full width or more is undefined). */
    method PopLevels(d: nat)
      requires Valid() && d >= DepthOf(dim, id) && d * dim < bits
      modifies this`id
      ensures Valid() && id == Shr(old(id), d * dim)
    {
      id := Shr(id, d * dim);
    }

    /** `pop(d)` as its comment intends: drop the `d` deepest groups, `d <= depth()`. */
    method PopLevelsIntended(d: nat)
      requires Valid() && d <= DepthOf(dim, id)
      modifies this`id
      ensures Valid() && id == TruncateValue(dim, old(id), DepthOf(dim, old(id)) - d)
    {
      id := Shr(id, d * dim);
    }

    /** `parent()`: a new id one level up; this id is left as it is. */
    method Parent() returns (p: BranchId)
      requires Valid()
      ensures fresh(p) && p.Valid() && p.dim == dim && p.bits == bits
      ensures p.id == ParentValue(dim, id)
    {
      p := new BranchId.Null(dim, bits);
      p.id := Shr(id, dim);
    }

    /** `truncate(to_depth)`. */
    method Truncate(toDepth: nat)
      requires Valid()
      modifies this`id
      ensures Valid() && id == TruncateValue(dim, old(id), toDepth)
    {
      var d := Depth();
      if d < toDepth {
        return;
      }
      id := Shr(id, (d - toDepth) * dim);
    }

    /** `operator==`: equal exactly when neither key sorts before the other. */
    function Equals(other: BranchId): (r: bool)
      reads this, other
      ensures r <==> id == other.id
      ensures r <==> !Less(other) && !other.Less(this)
    {
      id == other.id
    }

    /** `operator<`: the order of the integer keys, in which a parent sorts before
        each of its children. */
    function Less(other: BranchId): (r: bool)
      reads this, other
      ensures r <==> id < other.id
      ensures dim >= 1 && other.id != NullValue && id == ParentValue(dim, other.id) ==> r
    {
      if dim >= 1 then
        ShrShrinks(other.id, dim);
        id < other.id
      else id < other.id
    }

    /** `coordinates()` on integer grid coordinates (the final scaling into the
        floating-point range is not modelled). */
    method Coordinates() returns (coords: seq<nat>)
      requires Valid()
      ensures coords == DecodeValue(dim, bits, id)
    {
      coords := seq(dim, _ => 0);
      var x: nat := id;
      var d: nat := 0;
      while Shr(x, dim) != 0
        invariant |coords| == dim
        invariant d + DepthOf(dim, x) == DepthOf(dim, id)
        invariant forall j :: 0 <= j < dim ==> Collected(dim, id, x, j, d, coords[j])
        decreases x
      {
        ghost var prev := coords;
        var j := 0;
        while j < dim
          invariant j <= dim && |coords| == dim
          invariant forall j' :: 0 <= j' < j ==> Collected(dim, id, Shr(x, dim), j', d + 1, coords[j'])
          invariant forall j' :: j <= j' < dim ==> coords[j'] == prev[j']
        {
          CollectStep(dim, id, x, j, d, coords[j]);
          if BitOf(x, j) == 1 {
            coords := coords[j := Or(coords[j], Pow2(d))];
          }
          j := j + 1;
        }
        ShrShrinks(x, dim);
        x := Shr(x, dim);
        d := d + 1;
      }
      DepthBound(dim, bits, id);
      var j := 0;
      while j < dim
        invariant j <= dim && |coords| == dim
        invariant forall j' :: 0 <= j' < j ==> coords[j'] == DecodeValue(dim, bits, id)[j']
        invariant forall j' :: j <= j' < dim ==> coords[j'] == LowCoord(dim, id, j')
      {
        coords := coords[j := coords[j] * Pow2(MaxDepth(dim, bits) - d)];
        j := j + 1;
      }
    }
  }

  // ---------------------------------------------------------------------
  // Lemmas used by the methods

  /** After `d` levels of the decode loop, `c` holds bit `j` of the `d` lowest groups
      of `id`, and `x` holds the groups still to be read. */
  ghost predicate Collected(dim: nat, id: nat, x: nat, j: nat, d: nat, c: nat)
    requires 1 <= dim
  {
    c < Pow2(d) && c + Pow2(d) * LowCoord(dim, x, j) == LowCoord(dim, id, j)
  }

  /** One OR of the decode loop moves bit `j` of the lowest remaining group into `c`. */
  lemma CollectStep(dim: nat, id: nat, x: nat, j: nat, d: nat, c: nat)
    requires 1 <= dim && Shr(x, dim) != 0 && Collected(dim, id, x, j, d, c)
    ensures Collected(dim, id, Shr(x, dim), j, d + 1, if BitOf(x, j) == 1 then Or(c, Pow2(d)) else c)
  {
    var b := BitOf(x, j);
    var rest := LowCoord(dim, Shr(x, dim), j);
    assert LowCoord(dim, x, j) == b + 2 * rest;
    var c' := if b == 1 then Or(c, Pow2(d)) else c;
    assert c' == c + b * Pow2(d) by {
      ShrSmall(c, d);
      if b == 1 {
        OrSingleBit(c, d);
      }
    }
    assert Pow2(d + 1) == 2 * Pow2(d);
    PlaceBit(c, b, rest, Pow2(d));
  }

  lemma PlaceBit(c: nat, b: nat, rest: nat, p: nat)
    requires c < p && b < 2
    ensures c + b * p < 2 * p
    ensures c + b * p + (2 * p) * rest == c + p * (b + 2 * rest)
  {
  }

  /** The encode loop's value below the sentinel after `k` whole groups and the
      first `j` bits of group `k`. */
  function EncodePartial(dim: nat, coords: seq<nat>, lo: nat, k: nat, j: nat): nat
    requires |coords| == dim && j <= dim
  {
    Interleave(dim, coords, lo, k) + DigitUpTo(coords, lo + k, j) * Pow2(k * dim)
  }

  /** One OR of the encode loop adds the next coordinate bit in place. */
  lemma EncodeBitStep(dim: nat, bits: nat, coords: seq<nat>, depth: nat, k: nat, j: nat)
    requires Shape(dim, bits) && |coords| == dim && depth <= MaxDepth(dim, bits)
    requires k < depth && j < dim
    ensures
      var lo := MaxDepth(dim, bits) - depth;
      var v := Sentinel(dim, bits, depth) + EncodePartial(dim, coords, lo, k, j);
      (if BitOf(coords[j], lo + k) == 1 then Or(v, Pow2(k * dim + j)) else v)
      == Sentinel(dim, bits, depth) + EncodePartial(dim, coords, lo, k, j + 1)
  {
    var lo := MaxDepth(dim, bits) - depth;
    var pos := k * dim + j;
    var v := Sentinel(dim, bits, depth) + EncodePartial(dim, coords, lo, k, j);
    PartialStep(dim, coords, lo, k, j);
    if BitOf(coords[j], lo + k) == 1 {
      EncodeBitIsClear(dim, bits, coords, depth, k, j);
      OrSingleBit(v, pos);
    }
  }

  /** Adding coordinate `j`'s bit to group `k` adds it at position `k * dim + j`. */
  lemma PartialStep(dim: nat, coords: seq<nat>, lo: nat, k: nat, j: nat)
    requires |coords| == dim && j < dim
    ensures EncodePartial(dim, coords, lo, k, j + 1) == EncodePartial(dim, coords, lo, k, j)
      + (if BitOf(coords[j], lo + k) == 1 then Pow2(k * dim + j) else 0)
  {
    var dj := DigitUpTo(coords, lo + k, j);
    if BitOf(coords[j], lo + k) == 1 {
      assert DigitUpTo(coords, lo + k, j + 1) == dj + Pow2(j);
      assert Pow2(j) * Pow2(k * dim) == Pow2(k * dim + j) by {
        Pow2Add(j, k * dim);
        assert j + k * dim == k * dim + j;
      }
      AddMul(dj, Pow2(j), Pow2(k * dim));
    } else {
      assert DigitUpTo(coords, lo + k, j + 1) == dj;
    }
  }

  /** Inside the encode loop, the bit about to be OR-ed in is still clear. */
  lemma EncodeBitIsClear(dim: nat, bits: nat, coords: seq<nat>, depth: nat, k: nat, j: nat)
    requires Shape(dim, bits) && |coords| == dim && depth <= MaxDepth(dim, bits)
    requires k < depth && j < dim
    ensures
      var lo := MaxDepth(dim, bits) - depth;
      BitOf(Sentinel(dim, bits, depth) + EncodePartial(dim, coords, lo, k, j), k * dim + j) == 0
  {
    var lo := MaxDepth(dim, bits) - depth;
    var pos := k * dim + j;
    var low := EncodePartial(dim, coords, lo, k, j);
    InterleaveBound(dim, coords, lo, k);
    PlaceAbove(Interleave(dim, coords, lo, k), DigitUpTo(coords, lo + k, j), k * dim, j);
    GroupBelow(k, j, dim, depth);
    SentinelSplit(dim, bits, depth, pos);
    BitClearBelowHigh(Pow2(depth * dim + Offset(dim, bits) - (pos + 1)), pos, low);
  }

  /** Bit `j` of group `k` lies below the first `depth` groups when `k < depth`. */
  lemma GroupBelow(k: nat, j: nat, dim: nat, depth: nat)
    requires k < depth && j < dim
    ensures k * dim + j < depth * dim
  {
    MulLe(k + 1, depth, dim);
  }

  /** The sentinel is a multiple of `2^(pos + 1)` for every position below it. */
  lemma SentinelSplit(dim: nat, bits: nat, depth: nat, pos: nat)
    requires Shape(dim, bits) && pos < depth * dim
    ensures Sentinel(dim, bits, depth)
      == Pow2(depth * dim + Offset(dim, bits) - (pos + 1)) * Pow2(pos + 1)
  {
    var top := depth * dim + Offset(dim, bits);
    Pow2Add(top - (pos + 1), pos + 1);
    assert top - (pos + 1) + (pos + 1) == top;
  }

  /** An encoded id fits in `bits` bits. */
  lemma EncodeFits(dim: nat, bits: nat, coords: seq<nat>, depth: nat)
    requires Shape(dim, bits) && |coords| == dim && depth <= MaxDepth(dim, bits)
    ensures EncodeValue(dim, bits, coords, depth) < Pow2(bits)
  {
    var top := depth * dim + Offset(dim, bits);
    InterleaveBound(dim, coords, MaxDepth(dim, bits) - depth, depth);
    MulLe(depth, MaxDepth(dim, bits), dim);
    TopSentinel(dim, bits);
    Pow2Monotone(depth * dim, top);
    Pow2Monotone(top + 1, bits);
  }

  /** `push` on a valid id leaves a valid id. */
  lemma PushFits(dim: nat, bits: nat, id: nat, b: nat)
    requires Shape(dim, bits) && b < Pow2(dim)
    ensures PushValue(dim, bits, id, b) < Pow2(bits)
  {
    var r := id % Pow2(bits - dim);
    Pow2Add(bits - dim, dim);
    assert bits - dim + dim == bits;
    ShlMod(id, Pow2(dim), Pow2(bits - dim));
    OrDisjoint(r, b, dim);
    PlaceAbove(b, r, dim, bits - dim);
  }

  /** Every `bits`-bit id has depth at most `max_depth`. */
  lemma DepthBound(dim: nat, bits: nat, id: nat)
    requires Shape(dim, bits) && id < Pow2(bits)
    ensures DepthOf(dim, id) <= MaxDepth(dim, bits)
  {
    var d := DepthOf(dim, id);
    if d > 0 {
      DepthLower(dim, id);
      if d * dim >= bits {
        Pow2Monotone(bits, d * dim);
      }
      QuotUpper(bits - 1, dim, d);
    }
  }

  /** An id of depth `d` is at least `2^(d * dim)`. */
  lemma {:induction false} DepthLower(dim: nat, id: nat)
    requires 1 <= dim
    ensures Pow2(DepthOf(dim, id) * dim) <= id || id == 0
    decreases id
  {
    var up := Shr(id, dim);
    if up != 0 {
      ShrShrinks(id, dim);
      DepthLower(dim, up);
      var d := DepthOf(dim, up);
      assert DepthOf(dim, id) == 1 + d;
      AddMul(1, d, dim);
      Pow2Add(dim, d * dim);
      ShrParts(id, dim);
      ScaleLower(Pow2(d * dim), up, Pow2(dim), id);
    }
  }

  lemma ScaleLower(p: nat, up: nat, m: nat, x: nat)
    requires p <= up && up * m <= x
    ensures m * p <= x
  {
    MulLe(p, up, m);
  }

  // ---------------------------------------------------------------------
  // Properties of the encoding

  /** Interleaving split off at its highest group. */
  lemma InterleaveTop(dim: nat, coords: seq<nat>, lo: nat, n: nat, m: nat)
    requires |coords| == dim && m + 1 == n
    ensures Interleave(dim, coords, lo, n)
      == Interleave(dim, coords, lo, m) + Digit(coords, lo + m) * Pow2(m * dim)
  {
  }

  /** Interleaving split off at its lowest group. */
  lemma {:induction false} InterleaveBottom(dim: nat, coords: seq<nat>, lo: nat, n: nat, m: nat)
    requires |coords| == dim && m + 1 == n
    ensures Interleave(dim, coords, lo, n)
      == Digit(coords, lo) + Pow2(dim) * Interleave(dim, coords, lo + 1, m)
  {
    InterleaveTop(dim, coords, lo, n, m);
    if m > 0 {
      var m': nat := m - 1;
      InterleaveBottom(dim, coords, lo, m, m');
      InterleaveBottomStep(dim, coords, lo, n, m, m');
    }
  }

  /** The inductive step of `InterleaveBottom`, from its claim for `m` groups. */
  lemma InterleaveBottomStep(dim: nat, coords: seq<nat>, lo: nat, n: nat, m: nat, m': nat)
    requires |coords| == dim && m + 1 == n && m' + 1 == m
    requires Interleave(dim, coords, lo, n)
      == Interleave(dim, coords, lo, m) + Digit(coords, lo + m) * Pow2(m * dim)
    requires Interleave(dim, coords, lo, m)
      == Digit(coords, lo) + Pow2(dim) * Interleave(dim, coords, lo + 1, m')
    ensures Interleave(dim, coords, lo, n)
      == Digit(coords, lo) + Pow2(dim) * Interleave(dim, coords, lo + 1, m)
  {
    var q := Pow2(m * dim);
    var q' := Pow2(m' * dim);
    InterleaveTop(dim, coords, lo + 1, m, m');
    assert lo + 1 + m' == lo + m;
    Pow2Group(dim, m, m', 0);
    Regroup(Interleave(dim, coords, lo, m), Digit(coords, lo), Pow2(dim),
            Interleave(dim, coords, lo + 1, m'), Interleave(dim, coords, lo + 1, m),
            Digit(coords, lo + m), q, q');
  }

  lemma Regroup(low: int, d0: int, p: int, rest: int, upper: int, g: int, q: int, q': int)
    requires low == d0 + p * rest && upper == rest + g * q' && q == p * q'
    ensures low + g * q == d0 + p * upper
  {
    DistributeShift(p, rest, g, q');
  }

  /** One more group is one more factor `2^dim`. */
  lemma Pow2Group(dim: nat, n: nat, m: nat, off: nat)
    requires m + 1 == n
    ensures Pow2(n * dim + off) == Pow2(dim) * Pow2(m * dim + off)
  {
    var a := m * dim + off;
    assert n * dim + off == dim + a by {
      AddMul(m, 1, dim);
    }
    Pow2Add(dim, a);
  }

  lemma DistributeShift(p: int, rest: int, g: int, q: int)
    ensures p * (rest + g * q) == p * rest + g * (p * q)
  {
  }

  /** The sentinel one level deeper is the sentinel shifted by one group. */
  lemma SentinelStep(dim: nat, bits: nat, depth: nat)
    requires Shape(dim, bits) && 1 <= depth
    ensures Sentinel(dim, bits, depth) == Pow2(dim) * Sentinel(dim, bits, depth - 1)
  {
    SentinelAtStep(dim, Offset(dim, bits), depth);
  }

  lemma SentinelAtStep(dim: nat, off: nat, depth: nat)
    requires 1 <= depth
    ensures SentinelAt(dim, off, depth) == Pow2(dim) * SentinelAt(dim, off, depth - 1)
  {
    Pow2Group(dim, depth, depth - 1, off);
  }


  /** The id of a point at depth `d` is its id at depth `d - 1` followed by one more
      group, the point's coordinate bits `max_depth - d`. */
  lemma EncodeStep(dim: nat, bits: nat, coords: seq<nat>, depth: nat)
    requires Shape(dim, bits) && |coords| == dim && 1 <= depth <= MaxDepth(dim, bits)
    ensures Digit(coords, MaxDepth(dim, bits) - depth) < Pow2(dim)
    ensures EncodeValue(dim, bits, coords, depth)
      == EncodeValue(dim, bits, coords, depth - 1) * Pow2(dim) + Digit(coords, MaxDepth(dim, bits) - depth)
  {
    var lo := MaxDepth(dim, bits) - depth;
    var m: nat := depth - 1;
    InterleaveBottom(dim, coords, lo, depth, m);
    SentinelStep(dim, bits, depth);
    assert MaxDepth(dim, bits) - m == lo + 1;
    ShiftUp(EncodeValue(dim, bits, coords, depth), Sentinel(dim, bits, depth), Interleave(dim, coords, lo, depth),
            EncodeValue(dim, bits, coords, m), Sentinel(dim, bits, m), Interleave(dim, coords, lo + 1, m),
            Pow2(dim), Digit(coords, lo));
  }

  lemma ShiftUp(e: int, s: int, i: int, e': int, s': int, i': int, p: int, g: int)
    requires e == s + i && i == g + p * i' && s == p * s' && e' == s' + i'
    ensures e == e' * p + g
  {
    AddMul(s', i', p);
  }

  /** The constructor from a point is the root followed by one `push` per level. */
  lemma EncodeIsPush(dim: nat, bits: nat, coords: seq<nat>, depth: nat)
    requires Shape(dim, bits) && |coords| == dim && depth <= MaxDepth(dim, bits)
    ensures depth == 0 ==> EncodeValue(dim, bits, coords, depth) == RootValue(dim, bits)
    ensures depth > 0 ==>
      (EncodeValue(dim, bits, coords, depth)
       == PushValue(dim, bits, EncodeValue(dim, bits, coords, depth - 1), Digit(coords, MaxDepth(dim, bits) - depth)))
  {
    if depth > 0 {
      EncodeStep(dim, bits, coords, depth);
      var prev := EncodeValue(dim, bits, coords, depth - 1);
      var g := Digit(coords, MaxDepth(dim, bits) - depth);
      EncodeFits(dim, bits, coords, depth);
      ModSmall(prev * Pow2(dim), Pow2(bits));
      OrDisjoint(prev, g, dim);
    }
  }

  /** `parent()` of the id of a point is its id one level up. */
  lemma ParentOfEncode(dim: nat, bits: nat, coords: seq<nat>, depth: nat)
    requires Shape(dim, bits) && |coords| == dim && 1 <= depth <= MaxDepth(dim, bits)
    ensures ParentValue(dim, EncodeValue(dim, bits, coords, depth)) == EncodeValue(dim, bits, coords, depth - 1)
  {
    EncodeStep(dim, bits, coords, depth);
    ShrSplit(EncodeValue(dim, bits, coords, depth - 1), dim, Digit(coords, MaxDepth(dim, bits) - depth));
  }

  /** The id of a point at depth `d` has depth `d`. */
  lemma {:induction false} DepthOfEncode(dim: nat, bits: nat, coords: seq<nat>, depth: nat)
    requires Shape(dim, bits) && |coords| == dim && depth <= MaxDepth(dim, bits)
    ensures DepthOf(dim, EncodeValue(dim, bits, coords, depth)) == depth
  {
    if depth == 0 {
      Pow2Strict(Offset(dim, bits), dim);
      ShrSmall(RootValue(dim, bits), dim);
    } else {
      ParentOfEncode(dim, bits, coords, depth);
      DepthOfEncode(dim, bits, coords, depth - 1);
      EncodeIsNotNull(dim, bits, coords, depth - 1);
    }
  }

  /** No id built from a point is the null id. */
  lemma EncodeIsNotNull(dim: nat, bits: nat, coords: seq<nat>, depth: nat)
    requires Shape(dim, bits) && |coords| == dim && depth <= MaxDepth(dim, bits)
    ensures EncodeValue(dim, bits, coords, depth) != NullValue
  {
  }

  /** Dropping `k` groups from the id of a point gives its id `k` levels up. */
  lemma {:induction false} AncestorOfEncode(dim: nat, bits: nat, coords: seq<nat>, depth: nat, k: nat)
    requires Shape(dim, bits) && |coords| == dim && k <= depth <= MaxDepth(dim, bits)
    ensures Shr(EncodeValue(dim, bits, coords, depth), k * dim) == EncodeValue(dim, bits, coords, depth - k)
  {
    if k > 0 {
      var e := EncodeValue(dim, bits, coords, depth);
      AddMul(1, k - 1, dim);
      ShrAdd(e, dim, (k - 1) * dim);
      ParentOfEncode(dim, bits, coords, depth);
      AncestorOfEncode(dim, bits, coords, depth - 1, k - 1);
      assert depth - 1 - (k - 1) == depth - k;
    }
  }

  /** Every id built from a point is well formed. */
  lemma EncodeWellFormed(dim: nat, bits: nat, coords: seq<nat>, depth: nat)
    requires Shape(dim, bits) && |coords| == dim && depth <= MaxDepth(dim, bits)
    ensures WellFormed(dim, bits, EncodeValue(dim, bits, coords, depth))
  {
    DepthOfEncode(dim, bits, coords, depth);
    AncestorOfEncode(dim, bits, coords, depth, depth);
  }

  /** `truncate(t)` of the id of a point at depth `d >= t` is the id of the same
      point at depth `t`: keys of points in the same cell share that cell's key as prefix. */
  lemma TruncateEncode(dim: nat, bits: nat, coords: seq<nat>, depth: nat, t: nat)
    requires Shape(dim, bits) && |coords| == dim && t <= depth <= MaxDepth(dim, bits)
    ensures TruncateValue(dim, EncodeValue(dim, bits, coords, depth), t) == EncodeValue(dim, bits, coords, t)
  {
    DepthOfEncode(dim, bits, coords, depth);
    AncestorOfEncode(dim, bits, coords, depth, depth - t);
    assert depth - (depth - t) == t;
  }
}
