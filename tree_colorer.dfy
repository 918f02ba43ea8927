// The sequential parts of the tree colorer's distributed sort: the local
// (key, id) sort, the bucketing of the sorted bodies against the splitters,
// the choice of sample positions, the construction of the splitters on the
// master, and the local bounding range. Whatever a collective would deliver
// (gathered samples, broadcast splitters) is a parameter here.

module TreeColorer {

  /** The (key, id) pair the sort and the splitters work with. */
  datatype KeyId = KeyId(key: nat, id: int)

  /** The part of a body the colorer reads. */
  datatype Body = Body(key: nat, id: int, coordinates: seq<real>, radius: real)

  function KeyIdOf(b: Body): KeyId
  {
    KeyId(b.key, b.id)
  }

  function Identity(k: KeyId): KeyId
  {
    k
  }

  /** `LONG_MAX`, the id of the last splitter. */
  const LongMax: int := 0x7FFF_FFFF_FFFF_FFFF

  /** The comparator of both sorts: smaller key first, smaller id on equal keys. */
  predicate Less(a: KeyId, b: KeyId)
  {
    a.key < b.key || (a.key == b.key && a.id < b.id)
  }

  /** `s` is ordered by the comparator `Less` on the pairs `f` extracts. */
  predicate SortedBy<T>(s: seq<T>, f: T -> KeyId)
  {
    forall i, j :: 0 <= i < j < |s| ==> !Less(f(s[j]), f(s[i]))
  }

  /** Keys never decrease along `bodies`. */
  predicate KeysSorted(bodies: seq<Body>)
  {
    forall i, j :: 0 <= i < j < |bodies| ==> bodies[i].key <= bodies[j].key
  }

  // ---------------------------------------------------------------------
  // The local sort

  /** Inserts `x` in front of the first element that `x` does not come after. */
  function Insert<T>(x: T, s: seq<T>, f: T -> KeyId): (r: seq<T>)
    ensures |r| == |s| + 1
  {
    if s == [] then [x]
    else if Less(f(s[0]), f(x)) then [s[0]] + Insert(x, s[1..], f)
    else [x] + s
  }

  /** The sorted order the library sort produces (an insertion sort as reference). */
  function Sort<T>(s: seq<T>, f: T -> KeyId): (r: seq<T>)
    ensures |r| == |s|
  {
    if s == [] then [] else Insert(s[0], Sort(s[1..], f), f)
  }

  /** Every element of `s` comes no earlier than `y`. */
  predicate NoneBefore<T>(s: seq<T>, f: T -> KeyId, y: KeyId)
  {
    forall i :: 0 <= i < |s| ==> !Less(f(s[i]), y)
  }

  /** The comparator is a strict order: not coming before is transitive. */
  lemma NotBeforeTransitive(a: KeyId, b: KeyId, c: KeyId)
    requires !Less(c, b) && !Less(b, a)
    ensures !Less(c, a)
  {
  }

  lemma SortedCons<T>(a: T, t: seq<T>, f: T -> KeyId)
    ensures SortedBy([a] + t, f) <==> NoneBefore(t, f, f(a)) && SortedBy(t, f)
  {
    var s := [a] + t;
    if SortedBy(s, f) {
      forall i | 0 <= i < |t| ensures !Less(f(t[i]), f(a)) {
        assert s[i + 1] == t[i] && s[0] == a;
        assert !Less(f(s[i + 1]), f(s[0]));
      }
      forall i, j | 0 <= i < j < |t| ensures !Less(f(t[j]), f(t[i])) {
        assert s[i + 1] == t[i] && s[j + 1] == t[j];
      }
    }
    if NoneBefore(t, f, f(a)) && SortedBy(t, f) {
      forall i, j | 0 <= i < j < |s| ensures !Less(f(s[j]), f(s[i])) {
        assert s[j] == t[j - 1];
        if i > 0 {
          assert s[i] == t[i - 1];
        } else {
          assert s[i] == a;
        }
      }
    }
  }

  lemma {:induction false} InsertKeepsBound<T>(x: T, s: seq<T>, f: T -> KeyId, y: KeyId)
    requires NoneBefore(s, f, y) && !Less(f(x), y)
    ensures NoneBefore(Insert(x, s, f), f, y)
    decreases |s|
  {
    if s != [] && Less(f(s[0]), f(x)) {
      InsertKeepsBound(x, s[1..], f, y);
      var r := Insert(x, s, f);
      forall i | 0 <= i < |r| ensures !Less(f(r[i]), y) {
        if i > 0 {
          assert r[i] == Insert(x, s[1..], f)[i - 1];
        }
      }
    } else if s != [] {
      var r := Insert(x, s, f);
      forall i | 0 <= i < |r| ensures !Less(f(r[i]), y) {
        if i > 0 {
          assert r[i] == s[i - 1];
        }
      }
    }
  }

  lemma {:induction false} InsertSorted<T>(x: T, s: seq<T>, f: T -> KeyId)
    requires SortedBy(s, f)
    ensures SortedBy(Insert(x, s, f), f)
    decreases |s|
  {
    if s == [] {
    } else if Less(f(s[0]), f(x)) {
      assert s == [s[0]] + s[1..];
      SortedCons(s[0], s[1..], f);
      InsertSorted(x, s[1..], f);
      InsertKeepsBound(x, s[1..], f, f(s[0]));
      SortedCons(s[0], Insert(x, s[1..], f), f);
    } else {
      forall i | 0 <= i < |s| ensures !Less(f(s[i]), f(x)) {
        if i > 0 {
          NotBeforeTransitive(f(x), f(s[0]), f(s[i]));
        }
      }
      SortedCons(x, s, f);
    }
  }

  lemma {:induction false} InsertPermutation<T>(x: T, s: seq<T>, f: T -> KeyId)
    ensures multiset(Insert(x, s, f)) == multiset(s) + multiset{x}
    decreases |s|
  {
    if s != [] && Less(f(s[0]), f(x)) {
      InsertPermutation(x, s[1..], f);
      assert s == [s[0]] + s[1..];
    }
  }

  /** The local sort leaves the bodies ordered by (key, id), as a permutation of its input. */
  lemma {:induction false} SortIsSortedPermutation<T>(s: seq<T>, f: T -> KeyId)
    ensures SortedBy(Sort(s, f), f)
    ensures multiset(Sort(s, f)) == multiset(s)
    decreases |s|
  {
    if s != [] {
      SortIsSortedPermutation(s[1..], f);
      InsertSorted(s[0], Sort(s[1..], f), f);
      InsertPermutation(s[0], Sort(s[1..], f), f);
      assert s == [s[0]] + s[1..];
    }
  }

  /** Ordered by (key, id) implies ordered by key. */
  lemma SortedByKeys(bodies: seq<Body>)
    requires SortedBy(bodies, KeyIdOf)
    ensures KeysSorted(bodies)
  {
    forall i, j | 0 <= i < j < |bodies| ensures bodies[i].key <= bodies[j].key {
      assert !Less(KeyIdOf(bodies[j]), KeyIdOf(bodies[i]));
    }
  }

  // ---------------------------------------------------------------------
  // Counting for the bucketing

  /** The number of bodies whose key lies in `[lo, hi)`. */
  function CountBetween(bodies: seq<Body>, lo: nat, hi: nat): nat
  {
    if bodies == [] then 0
    else CountBetween(bodies[..|bodies| - 1], lo, hi)
         + (if lo <= bodies[|bodies| - 1].key < hi then 1 else 0)
  }

  lemma CountStep(bodies: seq<Body>, i: nat, lo: nat, hi: nat)
    requires i < |bodies|
    ensures CountBetween(bodies[..i + 1], lo, hi)
            == CountBetween(bodies[..i], lo, hi) + (if lo <= bodies[i].key < hi then 1 else 0)
  {
    assert bodies[..i + 1][..i] == bodies[..i];
  }

  /** Bodies at or above `hi` from index `i` on add nothing to the count. */
  lemma {:induction false} CountTail(bodies: seq<Body>, i: nat, n: nat, lo: nat, hi: nat)
    requires i <= n <= |bodies|
    requires forall j :: i <= j < n ==> hi <= bodies[j].key
    ensures CountBetween(bodies[..n], lo, hi) == CountBetween(bodies[..i], lo, hi)
    decreases n
  {
    if n > i {
      CountTail(bodies, i, n - 1, lo, hi);
      CountStep(bodies, n - 1, lo, hi);
    }
  }

  /** The state of the bucketing loop after `i` bodies with process `cur` current:
      earlier processes hold their final counts, the current one the count so
      far, later ones nothing; the remaining bodies are at or above the current
      splitter and the counted ones below the next. */
  ghost predicate Bucketed(bodies: seq<Body>, splitters: seq<KeyId>, size: nat, scount: seq<nat>,
                           i: nat, cur: nat)
  {
    |splitters| == size + 1 && i <= |bodies| && cur < size && |scount| == size
    && (forall p :: 0 <= p < cur ==>
          scount[p] == CountBetween(bodies, splitters[p].key, splitters[p + 1].key))
    && scount[cur] == CountBetween(bodies[..i], splitters[cur].key, splitters[cur + 1].key)
    && (forall p :: cur < p < size ==> scount[p] == 0)
    && (forall j :: i <= j < |bodies| ==> splitters[cur].key <= bodies[j].key)
    && (forall j :: 0 <= j < i ==> bodies[j].key < splitters[cur + 1].key)
    && Sum(scount) == i
  }

  /** A body inside the current process's range is counted for it. */
  lemma BucketTake(bodies: seq<Body>, splitters: seq<KeyId>, size: nat, scount: seq<nat>,
                   i: nat, cur: nat)
    requires Bucketed(bodies, splitters, size, scount, i, cur) && i < |bodies|
    requires splitters[cur].key <= bodies[i].key < splitters[cur + 1].key
    ensures Bucketed(bodies, splitters, size, scount[cur := scount[cur] + 1], i + 1, cur)
  {
    CountStep(bodies, i, splitters[cur].key, splitters[cur + 1].key);
    SumIncrement(scount, cur);
  }

  /** A body that reaches the next splitter closes the current process's count:
      the next process exists and has seen nothing yet. */
  lemma BucketNext(bodies: seq<Body>, splitters: seq<KeyId>, size: nat, scount: seq<nat>,
                   i: nat, cur: nat)
    requires Bucketed(bodies, splitters, size, scount, i, cur) && i < |bodies|
    requires KeysSorted(bodies)
    requires forall p, q :: 0 <= p < q <= size ==> splitters[p].key <= splitters[q].key
    requires bodies[i].key < splitters[size].key
    requires !(splitters[cur].key <= bodies[i].key < splitters[cur + 1].key)
    ensures Bucketed(bodies, splitters, size, scount, i, cur + 1)
  {
    CountTail(bodies, i, |bodies|, splitters[cur].key, splitters[cur + 1].key);
    assert bodies[..|bodies|] == bodies;
    CountNone(bodies[..i], splitters[cur + 1].key, splitters[cur + 2].key);
  }

  /** Once every body is placed, each process holds exactly the bodies of its range. */
  lemma BucketDone(bodies: seq<Body>, splitters: seq<KeyId>, size: nat, scount: seq<nat>, cur: nat)
    requires Bucketed(bodies, splitters, size, scount, |bodies|, cur)
    requires forall p, q :: 0 <= p < q <= size ==> splitters[p].key <= splitters[q].key
    ensures forall p :: 0 <= p < size ==>
              scount[p] == CountBetween(bodies, splitters[p].key, splitters[p + 1].key)
    ensures Sum(scount) == |bodies|
  {
    assert bodies[..|bodies|] == bodies;
    forall p | cur < p < size
      ensures scount[p] == CountBetween(bodies, splitters[p].key, splitters[p + 1].key)
    {
      CountNone(bodies, splitters[p].key, splitters[p + 1].key);
    }
  }

  /** No body at or above `lo`: the count is zero. */
  lemma {:induction false} CountNone(bodies: seq<Body>, lo: nat, hi: nat)
    requires forall j :: 0 <= j < |bodies| ==> bodies[j].key < lo
    ensures CountBetween(bodies, lo, hi) == 0
    decreases |bodies|
  {
    if bodies != [] {
      CountNone(bodies[..|bodies| - 1], lo, hi);
    }
  }

  function Sum(s: seq<nat>): nat
  {
    if s == [] then 0 else Sum(s[..|s| - 1]) + s[|s| - 1]
  }

  lemma {:induction false} SumIncrement(s: seq<nat>, k: nat)
    requires k < |s|
    ensures Sum(s[k := s[k] + 1]) == Sum(s) + 1
    decreases |s|
  {
    var t := s[k := s[k] + 1];
    assert t[..|t| - 1] == if k < |s| - 1 then s[..|s| - 1][k := s[k] + 1] else s[..|s| - 1];
    if k < |s| - 1 {
      SumIncrement(s[..|s| - 1], k);
    }
  }

  lemma {:induction false} SumZeros(n: nat)
    ensures Sum(seq(n, p => 0)) == 0
    decreases n
  {
    if n > 0 {
      assert seq(n, p => 0)[..n - 1] == seq(n - 1, p => 0);
      SumZeros(n - 1);
    }
  }

  // ---------------------------------------------------------------------
  // Sampling and splitters

  /** `noct`: the byte budget for the samples sent to the master. */
  const Noct: nat := 256 * 1024

  /** How many (key, id) pairs fit in the budget (a pair takes 16 bytes). */
  const MaxSamples: nat := Noct / 16

  /** The number of samples a process takes: its share of the budget, truncated,
      and never more than it holds. */
  function SampleCount(nvalues: nat, totalnbodies: nat): (n: nat)
    requires totalnbodies > 0
    ensures n <= nvalues
    ensures n <= MaxSamples * nvalues / totalnbodies
  {
    var share := MaxSamples as real * (nvalues as real / totalnbodies as real);
    DivisionFloor(MaxSamples, nvalues, totalnbodies, share);
    var raw := share.Floor;
    if nvalues < raw then nvalues else raw
  }

  lemma DivisionFloor(m: nat, v: nat, t: nat, share: real)
    requires t > 0 && share == m as real * (v as real / t as real)
    ensures 0 <= share.Floor <= m * v / t
  {
    var raw := share.Floor;
    FloorBelow(share);
    assert share >= 0.0;
    var x := v as real / t as real;
    var y := m as real * x;
    assert x * t as real == v as real;
    assert y * t as real == m as real * (x * t as real);
    var q := m * v / t;
    assert m * v < (q + 1) * t by {
      assert m * v == q * t + (m * v) % t;
    }
    assert y == (m * v) as real / t as real;
    assert (q + 1) as real - y == ((q + 1) * t - m * v) as real / t as real;
    assert ((q + 1) * t - m * v) as real / t as real > 0.0;
  }

  lemma FloorBelow(a: real)
    ensures a.Floor as real <= a
  {
  }

  lemma RealMulLe(a: real, b: real, c: real)
    requires a <= b && c >= 0.0
    ensures a * c <= b * c
  {
  }

  /** The index of sample `i`: `floor(nvalues / (nsample + 1) * (i + 1))`, always a
      valid index. */
  function SamplePosition(nvalues: nat, nsample: nat, i: nat): (p: nat)
    requires i < nsample <= nvalues
    ensures p < nvalues
  {
    var step := nvalues as real / (nsample + 1) as real;
    StepBelow(nvalues, nsample, i, step);
    (step * (i + 1) as real).Floor
  }

  lemma StepBelow(v: nat, n: nat, i: nat, step: real)
    requires i < n <= v && step == v as real / (n + 1) as real
    ensures 0.0 <= step * (i + 1) as real < v as real
  {
    assert step * (n + 1) as real == v as real;
    assert step > 0.0;
    RealMulLe((i + 1) as real, n as real, step);
    assert step * (n + 1) as real == step * n as real + step;
  }

  /** Consecutive samples do not go backwards. */
  lemma SamplePositionMonotone(nvalues: nat, nsample: nat, i: nat, j: nat)
    requires i <= j < nsample <= nvalues
    ensures SamplePosition(nvalues, nsample, i) <= SamplePosition(nvalues, nsample, j)
  {
    var step := nvalues as real / (nsample + 1) as real;
    assert step >= 0.0;
    RealMulLe((i + 1) as real, (j + 1) as real, step);
    FloorMonotone(step * (i + 1) as real, step * (j + 1) as real);
  }

  lemma FloorMonotone(a: real, b: real)
    requires a <= b
    ensures a.Floor <= b.Floor
  {
    assert a.Floor as real <= a && b < b.Floor as real + 1.0;
  }

  /** The index of middle splitter `i` in the sorted samples: `(master_nkeys / size) * (i + 1)`. */
  function SplitterPosition(nkeys: nat, size: nat, i: nat): (p: nat)
    requires nkeys >= 1 && i + 1 < size
    ensures p < nkeys
  {
    var q := nkeys / size;
    assert q * size <= nkeys;
    assert q * (i + 1) <= q * (size - 1) by {
      MulMono(q, i + 1, size - 1);
    }
    q * (i + 1)
  }

  lemma MulMono(q: nat, a: nat, b: nat)
    requires a <= b
    ensures q * a <= q * b
  {
  }

  lemma SplitterPositionMonotone(nkeys: nat, size: nat, i: nat, j: nat)
    requires nkeys >= 1 && i <= j && j + 1 < size
    ensures SplitterPosition(nkeys, size, i) <= SplitterPosition(nkeys, size, j)
  {
    MulMono(nkeys / size, i + 1, j + 1);
  }

  // ---------------------------------------------------------------------
  // The local bounding range

  /** The lower end of the local range in dimension `d` after the first `n` bodies:
      it starts at the last body's coordinate. */
  function RangeLower(bodies: seq<Body>, n: nat, d: nat): real
    requires 0 < |bodies| && n <= |bodies|
    requires forall i :: 0 <= i < |bodies| ==> d < |bodies[i].coordinates|
  {
    if n == 0 then bodies[|bodies| - 1].coordinates[d]
    else
      var low := RangeLower(bodies, n - 1, d);
      var x := bodies[n - 1].coordinates[d] - bodies[n - 1].radius;
      if x < low then x else low
  }

  function RangeUpper(bodies: seq<Body>, n: nat, d: nat): real
    requires 0 < |bodies| && n <= |bodies|
    requires forall i :: 0 <= i < |bodies| ==> d < |bodies[i].coordinates|
  {
    if n == 0 then bodies[|bodies| - 1].coordinates[d]
    else
      var high := RangeUpper(bodies, n - 1, d);
      var x := bodies[n - 1].coordinates[d] + bodies[n - 1].radius;
      if x > high then x else high
  }

  /** The range holds every body's ball: lower <= x - r and x + r <= upper. */
  lemma {:induction false} RangeContains(bodies: seq<Body>, n: nat, d: nat, i: nat)
    requires 0 < |bodies| && i < n <= |bodies|
    requires forall k :: 0 <= k < |bodies| ==> d < |bodies[k].coordinates|
    ensures RangeLower(bodies, n, d) <= bodies[i].coordinates[d] - bodies[i].radius
    ensures bodies[i].coordinates[d] + bodies[i].radius <= RangeUpper(bodies, n, d)
    decreases n
  {
    if i < n - 1 {
      RangeContains(bodies, n - 1, d, i);
    }
  }

  /** The range is tight: each end is the starting coordinate or some body's
      extreme. */
  lemma {:induction false} RangeAttained(bodies: seq<Body>, n: nat, d: nat)
    requires 0 < |bodies| && n <= |bodies|
    requires forall k :: 0 <= k < |bodies| ==> d < |bodies[k].coordinates|
    ensures RangeLower(bodies, n, d) == bodies[|bodies| - 1].coordinates[d]
            || exists i :: 0 <= i < n && RangeLower(bodies, n, d) == bodies[i].coordinates[d] - bodies[i].radius
    ensures RangeUpper(bodies, n, d) == bodies[|bodies| - 1].coordinates[d]
            || exists i :: 0 <= i < n && RangeUpper(bodies, n, d) == bodies[i].coordinates[d] + bodies[i].radius
    decreases n
  {
    if n > 0 {
      RangeAttained(bodies, n - 1, d);
    }
  }

  // ---------------------------------------------------------------------
  // The colorer

  /** `tree_colorer`: its communication buffers sized by the number of processes.
      Only `scount`, the per-process send counts, takes part in the model. */
  class Colorer {
    const size: nat
    const rank: nat
    var scount: seq<nat>

    /** The communicator's size and this process's rank are parameters. */
    constructor (size: nat, rank: nat)
      requires rank < size
      ensures this.size == size && this.rank == rank
      ensures scount == seq(size, p => 0)
    {
      this.size := size;
      this.rank := rank;
      scount := seq(size, p => 0);
    }

    /** `reset_buffers`: every send count back to zero. */
    method ResetBuffers()
      modifies this`scount
      ensures scount == seq(size, p => 0)
    {
      scount := seq(size, p => 0);
    }

    /** The bucketing loop of `mpi_qsort`: one cursor walks the sorted bodies, the
        other the processes; a body goes to the current process while its key is
        below the next splitter's key. */
    method Bucket(bodies: seq<Body>, splitters: seq<KeyId>)
      requires size >= 1 && |splitters| == size + 1
      requires KeysSorted(bodies)
      requires forall p, q :: 0 <= p < q <= size ==> splitters[p].key <= splitters[q].key
      requires forall j :: 0 <= j < |bodies| ==> splitters[0].key <= bodies[j].key < splitters[size].key
      modifies this`scount
      ensures |scount| == size
      ensures forall p :: 0 <= p < size ==>
                scount[p] == CountBetween(bodies, splitters[p].key, splitters[p + 1].key)
      ensures Sum(scount) == |bodies|
    {
      ResetBuffers();
      SumZeros(size);
      var cur: nat := 0;
      var i: nat := 0;
      assert bodies[..0] == [];
      while i < |bodies|
        invariant Bucketed(bodies, splitters, size, scount, i, cur)
        decreases |bodies| - i + size - cur
      {
        if splitters[cur].key <= bodies[i].key < splitters[cur + 1].key {
          BucketTake(bodies, splitters, size, scount, i, cur);
          scount := scount[cur := scount[cur] + 1];
          i := i + 1;
        } else {
          BucketNext(bodies, splitters, size, scount, i, cur);
          cur := cur + 1;
        }
      }
      BucketDone(bodies, splitters, size, scount, cur);
    }

    /** `mpi_qsort` on this process: sort the local bodies by (key, id); with one
        process that is all; otherwise count how many bodies go to each process
        under the broadcast splitters. The exchange itself is not modelled. */
    method Qsort(rbodies: seq<Body>, splitters: seq<KeyId>) returns (sorted: seq<Body>)
      requires size >= 1
      requires size > 1 ==> |splitters| == size + 1
      requires size > 1 ==> forall p, q :: 0 <= p < q <= size ==> splitters[p].key <= splitters[q].key
      requires size > 1 ==> forall j :: 0 <= j < |rbodies| ==>
                 splitters[0].key <= rbodies[j].key < splitters[size].key
      modifies this`scount
      ensures SortedBy(sorted, KeyIdOf) && multiset(sorted) == multiset(rbodies)
      ensures sorted == Sort(rbodies, KeyIdOf)
      ensures size == 1 ==> scount == old(scount)
      ensures size > 1 ==> |scount| == size && Sum(scount) == |rbodies|
      ensures size > 1 ==> forall p :: 0 <= p < size ==>
                scount[p] == CountBetween(sorted, splitters[p].key, splitters[p + 1].key)
    {
      sorted := Sort(rbodies, KeyIdOf);
      SortIsSortedPermutation(rbodies, KeyIdOf);
      if size == 1 {
        return;
      }
      SortedByKeys(sorted);
      forall j | 0 <= j < |sorted|
        ensures splitters[0].key <= sorted[j].key < splitters[size].key
      {
        assert sorted[j] in multiset(rbodies);
        var k :| 0 <= k < |rbodies| && rbodies[k] == sorted[j];
      }
      assert |sorted| == |multiset(sorted)| == |rbodies|;
      Bucket(sorted, splitters);
    }

    /** The samples this process sends to the master in
        `generate_splitters_samples`: `nsample` pairs read at evenly spread
        positions of the sorted bodies. */
    method SampleKeys(rbodies: seq<Body>, totalnbodies: nat) returns (keysSample: seq<KeyId>)
      requires totalnbodies > 0
      ensures |keysSample| == SampleCount(|rbodies|, totalnbodies) <= |rbodies|
      ensures forall i :: 0 <= i < |keysSample| ==>
                keysSample[i] == KeyIdOf(rbodies[SamplePosition(|rbodies|, |keysSample|, i)])
    {
      var nvalues := |rbodies|;
      var nsample := SampleCount(nvalues, totalnbodies);
      keysSample := [];
      var i: nat := 0;
      while i < nsample
        invariant i <= nsample && |keysSample| == i
        invariant forall k :: 0 <= k < i ==>
                    keysSample[k] == KeyIdOf(rbodies[SamplePosition(nvalues, nsample, k)])
      {
        var position := SamplePosition(nvalues, nsample, i);
        keysSample := keysSample + [KeyIdOf(rbodies[position])];
        i := i + 1;
      }
    }

    /** The master's half of `generate_splitters_samples`: sort the gathered
        samples and pick `size - 1` of them, evenly spaced, between a first
        splitter `(keyMin, 0)` and a last one `(keyMax, LONG_MAX)`. */
    method Splitters(gathered: seq<KeyId>, totalnbodies: nat, keyMin: nat, keyMax: nat)
      returns (splitters: seq<KeyId>)
      requires size >= 1 && keyMin < keyMax
      requires |gathered| <= totalnbodies
      requires size > 1 ==> |gathered| >= 1
      ensures |splitters| == size + 1
      ensures splitters[0] == KeyId(keyMin, 0) && splitters[size] == KeyId(keyMax, LongMax)
      ensures forall i :: 0 < i < size ==>
                splitters[i] == Sort(gathered, Identity)[SplitterPosition(|gathered|, size, i - 1)]
      ensures (forall g :: 0 <= g < |gathered| ==> keyMin < gathered[g].key < keyMax) ==>
                (forall i :: 0 < i < size ==> keyMin < splitters[i].key < keyMax)
                && SortedBy(splitters, Identity)
    {
      var nkeys := |gathered|;
      if totalnbodies < nkeys {
        nkeys := totalnbodies;
      }
      assert nkeys == |gathered|;
      var master := Sort(gathered, Identity);
      splitters := [KeyId(keyMin, 0)];
      var i: nat := 0;
      while i < size - 1
        invariant i <= size - 1 && |splitters| == i + 1
        invariant splitters[0] == KeyId(keyMin, 0)
        invariant forall k :: 0 < k <= i ==> splitters[k] == master[SplitterPosition(nkeys, size, k - 1)]
      {
        splitters := splitters + [master[SplitterPosition(nkeys, size, i)]];
        i := i + 1;
      }
      splitters := splitters + [KeyId(keyMax, LongMax)];
      if forall g :: 0 <= g < |gathered| ==> keyMin < gathered[g].key < keyMax {
        SortIsSortedPermutation(gathered, Identity);
        MiddleSplitters(gathered, master, splitters, keyMin, keyMax);
      }
    }
  }

  /** The middle splitters are sorted samples, hence strictly inside the key range
      and in order. */
  lemma MiddleSplitters(gathered: seq<KeyId>, master: seq<KeyId>, splitters: seq<KeyId>,
                        keyMin: nat, keyMax: nat)
    requires |gathered| >= 1 || |splitters| == 2
    requires |master| == |gathered|
    requires SortedBy(master, Identity) && multiset(master) == multiset(gathered)
    requires |splitters| >= 2 && keyMin < keyMax
    requires splitters[0] == KeyId(keyMin, 0) && splitters[|splitters| - 1] == KeyId(keyMax, LongMax)
    requires forall i :: 0 < i < |splitters| - 1 ==>
               splitters[i] == master[SplitterPosition(|gathered|, |splitters| - 1, i - 1)]
    requires forall g :: 0 <= g < |gathered| ==> keyMin < gathered[g].key < keyMax
    ensures forall i :: 0 < i < |splitters| - 1 ==> keyMin < splitters[i].key < keyMax
    ensures SortedBy(splitters, Identity)
  {
    var size := |splitters| - 1;
    forall i | 0 < i < size ensures keyMin < splitters[i].key < keyMax {
      SampleInRange(gathered, master, SplitterPosition(|gathered|, size, i - 1), keyMin, keyMax);
    }
    forall i, j | 0 <= i < j < |splitters| ensures !Less(Identity(splitters[j]), Identity(splitters[i])) {
      if 0 < i && j < size {
        SplitterPositionMonotone(|gathered|, size, i - 1, j - 1);
        SortedAt(master, SplitterPosition(|gathered|, size, i - 1), SplitterPosition(|gathered|, size, j - 1));
      }
    }
  }

  /** Every sorted sample is one of the gathered samples, so it shares their bounds. */
  lemma SampleInRange(gathered: seq<KeyId>, master: seq<KeyId>, p: nat, keyMin: nat, keyMax: nat)
    requires multiset(master) == multiset(gathered) && p < |master|
    requires forall g :: 0 <= g < |gathered| ==> keyMin < gathered[g].key < keyMax
    ensures keyMin < master[p].key < keyMax
  {
    assert master[p] in multiset(gathered);
    var g :| 0 <= g < |gathered| && gathered[g] == master[p];
  }

  lemma SortedAt(master: seq<KeyId>, p: nat, q: nat)
    requires SortedBy(master, Identity) && p <= q < |master|
    ensures !Less(master[q], master[p])
  {
    if p < q {
      assert !Less(Identity(master[q]), Identity(master[p]));
    }
  }

  /** `mpi_compute_range` before the global reduction: the componentwise extent of
      every body's ball, starting from the last body's coordinates. */
  method LocalRange(bodies: seq<Body>, dim: nat) returns (lower: seq<real>, upper: seq<real>)
    requires 0 < |bodies|
    requires forall i :: 0 <= i < |bodies| ==> |bodies[i].coordinates| == dim
    ensures |lower| == dim && |upper| == dim
    ensures forall d :: 0 <= d < dim ==>
              lower[d] == RangeLower(bodies, |bodies|, d) && upper[d] == RangeUpper(bodies, |bodies|, d)
  {
    lower := bodies[|bodies| - 1].coordinates;
    upper := bodies[|bodies| - 1].coordinates;
    var i: nat := 0;
    while i < |bodies|
      invariant i <= |bodies| && |lower| == dim && |upper| == dim
      invariant forall d :: 0 <= d < dim ==>
                  lower[d] == RangeLower(bodies, i, d) && upper[d] == RangeUpper(bodies, i, d)
    {
      var d: nat := 0;
      while d < dim
        invariant d <= dim && |lower| == dim && |upper| == dim
        invariant forall e :: 0 <= e < d ==>
                    lower[e] == RangeLower(bodies, i + 1, e) && upper[e] == RangeUpper(bodies, i + 1, e)
        invariant forall e :: d <= e < dim ==>
                    lower[e] == RangeLower(bodies, i, e) && upper[e] == RangeUpper(bodies, i, e)
      {
        var x := bodies[i].coordinates[d];
        var r := bodies[i].radius;
        if x + r > upper[d] {
          upper := upper[d := x + r];
        }
        if x - r < lower[d] {
          lower := lower[d := x - r];
        }
        d := d + 1;
      }
      i := i + 1;
    }
  }
}
