// The array utilities of the stellar-collapse equation-of-state reader:
// the running minimum and maximum of a table, the first index whose entry
// reaches a value, and the clamping of the abscissa at the start of the
// one-dimensional interpolator. Doubles are modelled as reals extended by
// the two infinities the reductions start from.

module ArrayUtil {

  /** A double that is finite or one of the two infinities. */
  datatype Extended = NegInf | Finite(v: real) | PosInf

  /** The C comparison `a < b` on extended values. */
  predicate Below(a: Extended, b: Extended)
  {
    match (a, b)
    case (NegInf, NegInf) => false
    case (NegInf, _) => true
    case (Finite(u), Finite(w)) => u < w
    case (Finite(_), PosInf) => true
    case (_, _) => false
  }

  /** `a <= b` on extended values. */
  predicate AtMost(a: Extended, b: Extended)
  {
    Below(a, b) || a == b
  }

  /** The number of entries a loop `for (i = 0; i < size; i++)` visits. */
  function Visited(size: int): nat
  {
    if size < 0 then 0 else size
  }

  /**
   * `find_min`: the running minimum of the first `size` entries, starting
   * from +infinity. It is at most every visited entry, equals one of them
   * when there is one, and is +infinity otherwise.
   */
  method FindMin(a: array<real>, size: int) returns (m: Extended)
    requires size <= a.Length
    ensures forall k :: 0 <= k < size ==> AtMost(m, Finite(a[k]))
    ensures size > 0 ==> exists k :: 0 <= k < size && m == Finite(a[k])
    ensures size <= 0 ==> m == PosInf
  {
    m := PosInf;
    ghost var at := -1;
    var i := 0;
    while i < size
      invariant 0 <= i <= Visited(size)
      invariant forall k :: 0 <= k < i ==> AtMost(m, Finite(a[k]))
      invariant i == 0 ==> m == PosInf
      invariant i > 0 ==> 0 <= at < i && m == Finite(a[at])
    {
      if Below(Finite(a[i]), m) {
        m := Finite(a[i]);
        at := i;
      }
      i := i + 1;
    }
  }

  /**
   * `find_max`: the running maximum of the first `size` entries, starting
   * from -infinity. It is at least every visited entry, equals one of them
   * when there is one, and is -infinity otherwise.
   */
  method FindMax(a: array<real>, size: int) returns (m: Extended)
    requires size <= a.Length
    ensures forall k :: 0 <= k < size ==> AtMost(Finite(a[k]), m)
    ensures size > 0 ==> exists k :: 0 <= k < size && m == Finite(a[k])
    ensures size <= 0 ==> m == NegInf
  {
    m := NegInf;
    ghost var at := -1;
    var i := 0;
    while i < size
      invariant 0 <= i <= Visited(size)
      invariant forall k :: 0 <= k < i ==> AtMost(Finite(a[k]), m)
      invariant i == 0 ==> m == NegInf
      invariant i > 0 ==> 0 <= at < i && m == Finite(a[at])
    {
      if Below(m, Finite(a[i])) {
        m := Finite(a[i]);
        at := i;
      }
      i := i + 1;
    }
  }

  /**
   * `find_index`: the first index among the first `size` whose entry is at
   * least `value`, or -1 when there is none.
   */
  method FindIndex(value: real, a: array<real>, size: int) returns (r: int)
    requires size <= a.Length
    ensures -1 <= r < Visited(size)
    ensures r >= 0 ==> a[r] >= value && forall k :: 0 <= k < r ==> a[k] < value
    ensures r == -1 <==> forall k :: 0 <= k < size ==> a[k] < value
  {
    var i := 0;
    while i < size
      invariant 0 <= i <= Visited(size)
      invariant forall k :: 0 <= k < i ==> a[k] < value
    {
      if a[i] >= value {
        return i;
      }
      i := i + 1;
    }
    return -1;
  }

  /**
   * The clamp at the start of `interp_1d`: below `xmin` the abscissa is
   * raised to `xmin`; then, above `xmax`, it is lowered to `xmax - small`.
   * `small` is the constant SMALL of the build configuration.
   */
  method ClampAbscissa(x0: real, xmin: real, xmax: real, small: real) returns (x: real)
    ensures xmin <= x0 <= xmax ==> x == x0
    ensures x0 < xmin && xmin <= xmax ==> x == xmin
    ensures x0 > xmax ==> x == xmax - small
    ensures x0 < xmin && xmin > xmax ==> x == xmax - small
    ensures xmin <= xmax ==> x == Clamped(x0, xmin, xmax, small)
  {
    x := x0;
    if x < xmin {
      x := xmin;
    }
    if x > xmax {
      x := xmax - small;
    }
  }

  /** The clamp on a well-formed table, where `xmin <= xmax`, by cases. */
  function Clamped(x: real, xmin: real, xmax: real, small: real): real
  {
    if x > xmax then xmax - small else if x < xmin then xmin else x
  }

  /**
   * When SMALL is positive and below the table's width, the clamped
   * abscissa lies in [xmin, xmax], strictly below xmax when it was
   * clamped from above.
   */
  lemma ClampedInTable(x: real, xmin: real, xmax: real, small: real)
    requires 0.0 < small <= xmax - xmin
    ensures xmin <= Clamped(x, xmin, xmax, small) <= xmax
    ensures x > xmax ==> Clamped(x, xmin, xmax, small) < xmax
  {
  }

  /** Clamping an abscissa that is already clamped changes nothing. */
  lemma ClampedIdempotent(x: real, xmin: real, xmax: real, small: real)
    requires 0.0 <= small <= xmax - xmin
    ensures Clamped(Clamped(x, xmin, xmax, small), xmin, xmax, small) == Clamped(x, xmin, xmax, small)
  {
  }
}
