// The branch exchange of the tree colorer: every process packs its top
// branches, swaps branch lists with a partner in each round of a hypercube
// schedule, and inserts the branches owned by other processes into its tree.
// The lists received in each round are parameters; a second part follows the
// schedule on all processes at once to say which processes' branches each one
// ends up holding.

module BranchExchange {
  import opened Bits
  import opened Wrappers

  /** `mpi_branch_t`: the summary of a branch sent to the other processes. */
  datatype MpiBranch = MpiBranch(coordinates: seq<real>, mass: real, bmin: seq<real>,
                                 bmax: seq<real>, key: nat, owner: int, subEntities: nat)

  // ---------------------------------------------------------------------
  // The schedule

  /** The integer part of `log2(n)`. */
  function FloorLog2(n: nat): (r: nat)
    requires n >= 1
    ensures Pow2(r) <= n < Pow2(r + 1)
    decreases n
  {
    if n == 1 then 0 else 1 + FloorLog2(n / 2)
  }

  /** The number of rounds, `ceil(log2(size))`: the least `d` with `2^d >= size`. */
  function RoundCount(size: nat): (d: nat)
    requires size >= 1
    ensures size <= Pow2(d)
    ensures d == 0 || Pow2(d - 1) < size
    decreases size
  {
    if size == 1 then 0 else 1 + RoundCount((size + 1) / 2)
  }

  /** Two least exponents are equal. */
  lemma {:induction false} LeastExponent(n: nat, c: nat, d: nat)
    requires n <= Pow2(c) && (c == 0 || Pow2(c - 1) < n)
    requires n <= Pow2(d) && (d == 0 || Pow2(d - 1) < n)
    ensures c == d
  {
    Pow2Order(c, d);
    Pow2Order(d, c);
    if c > 0 {
      Pow2Order(d, c - 1);
    }
    if d > 0 {
      Pow2Order(c, d - 1);
    }
  }

  /** `a < b` implies `2^a < 2^b`. */
  lemma Pow2Order(a: nat, b: nat)
    ensures a < b ==> Pow2(a) < Pow2(b)
  {
    if a < b {
      Pow2Strict(a, b);
    }
  }

  /** The count the exchange computes: `log2(size)` truncated, plus one when that
      power of two falls short of `size`. */
  lemma RoundCountFromLog(size: nat)
    requires size >= 1
    ensures RoundCount(size) == if Pow2(FloorLog2(size)) < size then FloorLog2(size) + 1
                                else FloorLog2(size)
  {
    var f := FloorLog2(size);
    var c := if Pow2(f) < size then f + 1 else f;
    if Pow2(f) >= size && f > 0 {
      Pow2Strict(f - 1, f);
    }
    LeastExponent(size, c, RoundCount(size));
  }

  /** The partner of `rank` in round `i`: `rank ^ (1 << i)`. */
  function Partner(rank: nat, i: nat): nat
  {
    Xor(rank, Pow2(i))
  }

  /** A process is never its own partner. */
  lemma PartnerDistinct(rank: nat, i: nat)
    ensures Partner(rank, i) != rank
  {
    XorPow2(rank, i);
  }

  /** The pairing is symmetric: the partner's partner is the process itself. */
  lemma PartnerSymmetric(rank: nat, i: nat)
    ensures Partner(Partner(rank, i), i) == rank
  {
    XorInvolution(rank, Pow2(i));
  }

  // ---------------------------------------------------------------------
  // One process

  /** The list a process holds after `k` rounds: its own branches followed by what
      each existing partner sent. */
  function Gathered(rank: nat, size: nat, own: seq<MpiBranch>, received: seq<seq<MpiBranch>>,
                    k: nat): seq<MpiBranch>
    requires k <= |received|
  {
    if k == 0 then own
    else Gathered(rank, size, own, received, k - 1)
         + (if Partner(rank, k - 1) < size then received[k - 1] else [])
  }

  /** The branches owned by a process other than `rank`, in order. */
  function Foreign(branches: seq<MpiBranch>, rank: int): seq<MpiBranch>
  {
    if branches == [] then []
    else Foreign(branches[..|branches| - 1], rank)
         + (if branches[|branches| - 1].owner != rank then [branches[|branches| - 1]] else [])
  }

  /** Exactly the branches of other owners are inserted. */
  lemma {:induction false} ForeignMembers(branches: seq<MpiBranch>, rank: int, b: MpiBranch)
    ensures b in Foreign(branches, rank) <==> b in branches && b.owner != rank
    decreases |branches|
  {
    if branches != [] {
      var front := branches[..|branches| - 1];
      ForeignMembers(front, rank, b);
      assert branches == front + [branches[|branches| - 1]];
    }
  }

  /** `mpi_branches_exchange` on process `rank`: pack the search branches (each
      holds at least one entity), run the hypercube rounds, then insert every
      branch another process owns. `received[i]` is the list arriving in round
      `i`; it is ignored in rounds whose partner does not exist. */
  method ExchangeBranches(rank: nat, size: nat, search: seq<MpiBranch>,
                          received: seq<seq<MpiBranch>>)
    returns (branches: seq<MpiBranch>, inserted: seq<MpiBranch>)
    requires rank < size && |received| == RoundCount(size)
    requires forall j :: 0 <= j < |search| ==> search[j].subEntities > 0
    ensures branches == Gathered(rank, size, search, received, |received|)
    ensures inserted == Foreign(branches, rank)
  {
    var packed: seq<MpiBranch> := [];
    var j: nat := 0;
    while j < |search|
      invariant j <= |search| && packed == search[..j]
    {
      packed := packed + [search[j]];
      j := j + 1;
    }
    assert search[..|search|] == search;
    branches := HypercubeRounds(rank, size, packed, received);
    inserted := InsertForeign(branches, rank);
  }

  /** The hypercube rounds: `ceil(log2(size))` of them; in round `i` the partner is
      `rank ^ (1 << i)`, never `rank` itself, and the lists are swapped only when
      that partner exists. */
  method HypercubeRounds(rank: nat, size: nat, own: seq<MpiBranch>, received: seq<seq<MpiBranch>>)
    returns (branches: seq<MpiBranch>)
    requires rank < size && |received| == RoundCount(size)
    ensures branches == Gathered(rank, size, own, received, |received|)
  {
    var dim := FloorLog2(size);
    if Pow2(dim) < size {
      dim := dim + 1;
    }
    RoundCountFromLog(size);
    branches := own;
    var i: nat := 0;
    while i < dim
      invariant i <= dim == |received|
      invariant branches == Gathered(rank, size, own, received, i)
    {
      var partner := Xor(rank, Pow2(i));
      PartnerDistinct(rank, i);
      assert partner != rank;
      if partner < size {
        branches := branches + received[i];
      }
      i := i + 1;
    }
  }

  /** The insertion loop: every received branch whose owner is not `rank` goes into
      the tree, in order. */
  method InsertForeign(branches: seq<MpiBranch>, rank: int) returns (inserted: seq<MpiBranch>)
    ensures inserted == Foreign(branches, rank)
  {
    inserted := [];
    var k: nat := 0;
    while k < |branches|
      invariant k <= |branches| && inserted == Foreign(branches[..k], rank)
    {
      assert branches[..k + 1][..k] == branches[..k];
      if branches[k].owner != rank {
        inserted := inserted + [branches[k]];
      }
      k := k + 1;
    }
    assert branches[..k] == branches;
  }

  // ---------------------------------------------------------------------
  // All processes together: whose branches each process holds

  /** Before the first round every process holds only its own branches. */
  function Initial(size: nat): (known: seq<set<nat>>)
    ensures |known| == size
  {
    seq(size, r => {r})
  }

  /** Every process: `{0, ..., size - 1}`. */
  function AllRanks(size: nat): (all: set<nat>)
    ensures forall q: nat :: q in all <==> q < size
    decreases size
  {
    if size == 0 then {} else
      var all := AllRanks(size - 1) + {size - 1};
      assert forall q: nat :: q in all <==> q < size;
      all
  }

  /** One round as written: a process merges its partner's holdings when the
      partner exists, and otherwise keeps what it has. */
  function AsWrittenRound(known: seq<set<nat>>, i: nat): (next: seq<set<nat>>)
    ensures |next| == |known|
  {
    seq(|known|, r requires 0 <= r < |known| =>
      if Partner(r, i) < |known| then known[r] + known[Partner(r, i)] else known[r])
  }

  function RunAsWritten(known: seq<set<nat>>, k: nat): (r: seq<set<nat>>)
    ensures |r| == |known|
  {
    if k == 0 then known else AsWrittenRound(RunAsWritten(known, k - 1), k - 1)
  }

  /** The first process of the partner's half-block in round `i`: the partner with
      its low `i` bits cleared. */
  function PartnerBase(rank: nat, i: nat): nat
  {
    Shr(Partner(rank, i), i) * Pow2(i)
  }

  /** The corrected schedule's source in round `i`: the partner if it exists,
      otherwise the first existing process of the partner's half-block, if any. */
  function Source(rank: nat, i: nat, size: nat): (s: Option<nat>)
    ensures s.Some? ==> s.value < size
  {
    if Partner(rank, i) < size then Some(Partner(rank, i))
    else if PartnerBase(rank, i) < size then Some(PartnerBase(rank, i))
    else None
  }

  function CorrectedRound(known: seq<set<nat>>, i: nat): (next: seq<set<nat>>)
    ensures |next| == |known|
  {
    seq(|known|, r requires 0 <= r < |known| =>
      match Source(r, i, |known|)
      case Some(s) => known[r] + known[s]
      case None => known[r])
  }

  function RunCorrected(known: seq<set<nat>>, k: nat): (r: seq<set<nat>>)
    ensures |r| == |known|
  {
    if k == 0 then known else CorrectedRound(RunCorrected(known, k - 1), k - 1)
  }

  /** The processes below `size` that agree with `r` above bit `k`. */
  function BlockOf(r: nat, k: nat, size: nat): set<nat>
  {
    set q | 0 <= q < size && Shr(q, k) == Shr(r, k)
  }

  /** The neighbour of `y` that differs only in the lowest bit. */
  function Flip(y: nat): nat
  {
    if y % 2 == 0 then y + 1 else y - 1
  }

  lemma ShrOne(x: nat)
    ensures Shr(x, 1) == x / 2
  {
  }

  /** The partner lies in the other half of the same block of size `2^(i+1)`. */
  lemma PartnerBlock(rank: nat, i: nat)
    ensures Shr(Partner(rank, i), i) == Flip(Shr(rank, i))
    ensures Shr(Partner(rank, i), i + 1) == Shr(rank, i + 1)
  {
    var p := Partner(rank, i);
    XorPow2(rank, i);
    var y := Shr(rank, i);
    if BitOf(rank, i) == 0 {
      assert p == 1 * Pow2(i) + rank;
      ShrAddMultiple(1, i, rank);
    } else {
      assert rank == 1 * Pow2(i) + p;
      ShrAddMultiple(1, i, p);
    }
    ShrAdd(p, i, 1);
    ShrAdd(rank, i, 1);
    ShrOne(Shr(p, i));
    ShrOne(y);
  }

  /** Two numbers share a half exactly when they are equal or neighbours. */
  lemma HalfEqual(x: nat, y: nat)
    ensures x / 2 == y / 2 <==> x == y || x == Flip(y)
  {
  }

  /** A round of the corrected schedule doubles a block: the block of size
      `2^(i+1)` is the process's own half plus the half the source holds. */
  lemma CorrectedStep(r: nat, i: nat, size: nat)
    requires r < size
    ensures BlockOf(r, i + 1, size)
            == BlockOf(r, i, size) + (match Source(r, i, size)
                                      case Some(s) => BlockOf(s, i, size)
                                      case None => {})
  {
    var p := Partner(r, i);
    var y := Shr(r, i);
    PartnerBlock(r, i);
    var half := Shr(p, i);
    assert half == Flip(y);
    var src := Source(r, i, size);
    if src.Some? {
      var s := src.value;
      if p >= size {
        ShrSplit(half, i, 0);
        assert Shr(s, i) == half;
      }
      assert Shr(s, i) == half;
    } else {
      forall q | 0 <= q < size ensures Shr(q, i) != half {
        ShrParts(q, i);
      }
    }
    forall q | 0 <= q < size
      ensures Shr(q, i + 1) == Shr(r, i + 1) <==> Shr(q, i) == y || Shr(q, i) == half
    {
      ShrAdd(q, i, 1);
      ShrAdd(r, i, 1);
      ShrOne(Shr(q, i));
      ShrOne(y);
      HalfEqual(Shr(q, i), y);
    }
  }

  /** After `k` corrected rounds each process holds exactly its block of size `2^k`. */
  lemma {:induction false} CorrectedHoldsBlock(size: nat, k: nat, r: nat)
    requires r < size
    ensures RunCorrected(Initial(size), k)[r] == BlockOf(r, k, size)
    decreases k
  {
    if k == 0 {
      forall q | q in BlockOf(r, 0, size) ensures q == r {
      }
      assert BlockOf(r, 0, size) == {r};
    } else {
      CorrectedHoldsBlock(size, k - 1, r);
      CorrectedStep(r, k - 1, size);
      match Source(r, k - 1, size)
      case Some(s) =>
        CorrectedHoldsBlock(size, k - 1, s);
      case None =>
    }
  }

  /** The corrected schedule is complete: after `RoundCount(size)` rounds every
      process holds the branches of every process, whatever `size` is. */
  lemma CorrectedComplete(size: nat, r: nat)
    requires 1 <= size && r < size
    ensures RunCorrected(Initial(size), RoundCount(size))[r] == AllRanks(size)
  {
    var d := RoundCount(size);
    CorrectedHoldsBlock(size, d, r);
    ShrSmall(r, d);
    forall q | 0 <= q < size ensures Shr(q, d) == Shr(r, d) {
      ShrSmall(q, d);
    }
  }

  /** Below `2^d`, every partner of a round `i < d` is below `2^d` too. */
  lemma PartnerBelow(d: nat, r: nat, i: nat)
    requires r < Pow2(d) && i < d
    ensures Partner(r, i) < Pow2(d)
  {
    var p := Partner(r, i);
    PartnerBlock(r, i);
    var m: nat := d - i - 1;
    assert (i + 1) + m == d;
    ShrAdd(p, i + 1, m);
    ShrAdd(r, i + 1, m);
    ShrSmall(r, d);
    assert Shr(p, d) == 0;
    ShrParts(p, d);
  }

  /** With `size = 2^d` every partner exists, so the written schedule is the
      corrected one. */
  lemma PowerOfTwoRound(d: nat, known: seq<set<nat>>, i: nat)
    requires |known| == Pow2(d) && i < d
    ensures AsWrittenRound(known, i) == CorrectedRound(known, i)
  {
    forall r | 0 <= r < |known|
      ensures AsWrittenRound(known, i)[r] == CorrectedRound(known, i)[r]
    {
      PartnerBelow(d, r, i);
      assert Source(r, i, |known|) == Some(Partner(r, i));
    }
  }

  lemma {:induction false} PowerOfTwoRun(d: nat, known: seq<set<nat>>, k: nat)
    requires |known| == Pow2(d) && k <= d
    ensures RunAsWritten(known, k) == RunCorrected(known, k)
    decreases k
  {
    if k > 0 {
      PowerOfTwoRun(d, known, k - 1);
      PowerOfTwoRound(d, RunCorrected(known, k - 1), k - 1);
    }
  }

  /** A power of two takes exactly its exponent in rounds. */
  lemma RoundCountPow2(d: nat)
    ensures RoundCount(Pow2(d)) == d
  {
    var n := Pow2(d);
    var c := RoundCount(n);
    assert n <= Pow2(c);
    assert c == 0 || Pow2(c - 1) < n;
    assert d == 0 || Pow2(d - 1) < n by {
      if d > 0 {
        Pow2Strict(d - 1, d);
      }
    }
    LeastExponent(n, c, d);
  }

  /** When the number of processes is a power of two the written schedule is
      complete. */
  lemma AsWrittenCompleteOnPowerOfTwo(d: nat, r: nat)
    requires r < Pow2(d)
    ensures RoundCount(Pow2(d)) == d
    ensures RunAsWritten(Initial(Pow2(d)), d)[r] == AllRanks(Pow2(d))
  {
    RoundCountPow2(d);
    PowerOfTwoRun(d, Initial(Pow2(d)), d);
    CorrectedComplete(Pow2(d), r);
  }

  /** With three processes the written schedule leaves process 1 without the
      branches of process 2: in round 0 process 2 has no partner, in round 1
      process 1 has none. */
  lemma AsWrittenIncomplete()
    ensures RoundCount(3) == 2
    ensures RunAsWritten(Initial(3), 2)[1] == {0, 1}
    ensures 2 in AllRanks(3) && 2 !in RunAsWritten(Initial(3), 2)[1]
  {
    assert FloorLog2(3) == 1;
    assert Xor(0, 1) == 1 && Xor(1, 1) == 0 && Xor(2, 1) == 3;
    assert Xor(0, 2) == 2 && Xor(1, 2) == 3 && Xor(2, 2) == 0;
    var k0 := Initial(3);
    var k1 := RunAsWritten(k0, 1);
    assert k1 == AsWrittenRound(k0, 0);
    assert k1[0] == {0, 1} && k1[1] == {0, 1} && k1[2] == {2};
    var k2 := RunAsWritten(k0, 2);
    assert k2 == AsWrittenRound(k1, 1);
    assert k2[1] == k1[1];
  }

  // ---------------------------------------------------------------------
  // From the lists each process gathers to whose branches it holds

  /** The owners of the branches in a list. */
  function Owners(bs: seq<MpiBranch>): set<int>
  {
    set b | b in bs :: b.owner
  }

  lemma OwnersAppend(a: seq<MpiBranch>, b: seq<MpiBranch>)
    ensures Owners(a + b) == Owners(a) + Owners(b)
  {
    forall o | o in Owners(a + b)
      ensures o in Owners(a) + Owners(b)
    {
      var x :| x in a + b && x.owner == o;
    }
  }

  lemma OwnersNone()
    ensures Owners([]) == {}
  {
  }

  /** Exactly the owners other than `rank` are inserted. */
  lemma ForeignOwners(branches: seq<MpiBranch>, rank: int)
    ensures Owners(Foreign(branches, rank)) == Owners(branches) - {rank}
  {
    forall o | o in Owners(branches) - {rank}
      ensures o in Owners(Foreign(branches, rank))
    {
      var x :| x in branches && x.owner == o;
      ForeignMembers(branches, rank, x);
    }
    forall o | o in Owners(Foreign(branches, rank))
      ensures o in Owners(branches) - {rank}
    {
      var x :| x in Foreign(branches, rank) && x.owner == o;
      ForeignMembers(branches, rank, x);
    }
  }

  /** Every process packs at least one branch, and only branches it owns. */
  predicate OwnLists(size: nat, own: seq<seq<MpiBranch>>)
  {
    |own| == size && forall q :: 0 <= q < size ==> Owners(own[q]) == {q}
  }

  /** What process `r` holds after `k` rounds when every process runs the exchange
      on the packed lists `own`: its own list, then in each round whose partner
      exists the list that partner held before the round. */
  function Held(size: nat, own: seq<seq<MpiBranch>>, r: nat, k: nat): seq<MpiBranch>
    requires r < size == |own|
    decreases k
  {
    if k == 0 then own[r]
    else Held(size, own, r, k - 1)
         + (if Partner(r, k - 1) < size then Held(size, own, Partner(r, k - 1), k - 1) else [])
  }

  /** The lists received in the first `k` rounds on all `size` processes: in round
      `i` process `r` receives what its partner holds before that round. */
  predicate Delivered(size: nat, own: seq<seq<MpiBranch>>, received: seq<seq<seq<MpiBranch>>>, k: nat)
  {
    |own| == size && |received| == size
    && (forall q :: 0 <= q < size ==> k <= |received[q]|)
    && forall r, i :: 0 <= r < size && 0 <= i < k && Partner(r, i) < size ==>
         received[r][i] == Held(size, own, Partner(r, i), i)
  }

  /** The first `i` rounds of a run of `k >= i` rounds form a run. */
  lemma DeliveredPrefix(size: nat, own: seq<seq<MpiBranch>>, received: seq<seq<seq<MpiBranch>>>,
                        k: nat, i: nat)
    requires i <= k && Delivered(size, own, received, k)
    ensures Delivered(size, own, received, i)
  {
  }

  /** One more round of the all-process view. */
  lemma HeldStep(size: nat, own: seq<seq<MpiBranch>>, r: nat, j: nat)
    requires r < size == |own|
    ensures Held(size, own, r, j + 1)
            == Held(size, own, r, j)
               + (if Partner(r, j) < size then Held(size, own, Partner(r, j), j) else [])
  {
  }

  /** One more round of the single-process view. */
  lemma GatheredStep(rank: nat, size: nat, own: seq<MpiBranch>, received: seq<seq<MpiBranch>>, j: nat)
    requires j + 1 <= |received|
    ensures Gathered(rank, size, own, received, j + 1)
            == Gathered(rank, size, own, received, j)
               + (if Partner(rank, j) < size then received[j] else [])
  {
  }

  /** The single-process view and the all-process view of the rounds agree. */
  lemma {:induction false} GatheredIsHeld(size: nat, own: seq<seq<MpiBranch>>,
                                          received: seq<seq<seq<MpiBranch>>>, k: nat, r: nat)
    requires r < size && Delivered(size, own, received, k)
    ensures Gathered(r, size, own[r], received[r], k) == Held(size, own, r, k)
    decreases k
  {
    if k > 0 {
      var j: nat := k - 1;
      DeliveredPrefix(size, own, received, k, j);
      GatheredIsHeld(size, own, received, j, r);
      GatheredStep(r, size, own[r], received[r], j);
      HeldStep(size, own, r, j);
      if Partner(r, j) < size {
        assert received[r][j] == Held(size, own, Partner(r, j), j);
      }
    }
  }

  /** In every round a process receives exactly the list its partner has gathered
      so far, as each process's own view of the exchange says. */
  lemma ReceivedIsGathered(size: nat, own: seq<seq<MpiBranch>>, received: seq<seq<seq<MpiBranch>>>,
                           k: nat, r: nat, i: nat)
    requires Delivered(size, own, received, k) && r < size && i < k && Partner(r, i) < size
    ensures received[r][i]
            == Gathered(Partner(r, i), size, own[Partner(r, i)], received[Partner(r, i)], i)
  {
    DeliveredPrefix(size, own, received, k, i);
    GatheredIsHeld(size, own, received, i, Partner(r, i));
  }

  /** What the written schedule says a process knows after round `j + 1`. */
  lemma RunAsWrittenStep(size: nat, j: nat, r: nat)
    requires r < size
    ensures var prev := RunAsWritten(Initial(size), j);
            RunAsWritten(Initial(size), j + 1)[r]
            == if Partner(r, j) < size then prev[r] + prev[Partner(r, j)] else prev[r]
  {
  }

  /** The owners held after round `k = j + 1` follow the written schedule when
      those held after round `j` by the process and its partner do. */
  lemma HeldOwnersStep(size: nat, own: seq<seq<MpiBranch>>, j: nat, k: nat, r: nat)
    requires r < size == |own| && k == j + 1
    requires Owners(Held(size, own, r, j)) == RunAsWritten(Initial(size), j)[r]
    requires Partner(r, j) < size
             ==> Owners(Held(size, own, Partner(r, j), j)) == RunAsWritten(Initial(size), j)[Partner(r, j)]
    ensures Owners(Held(size, own, r, k)) == RunAsWritten(Initial(size), k)[r]
  {
    HeldStep(size, own, r, j);
    RunAsWrittenStep(size, j, r);
    var before := Held(size, own, r, j);
    if Partner(r, j) < size {
      OwnersAppend(before, Held(size, own, Partner(r, j), j));
    } else {
      OwnersAppend(before, []);
      OwnersNone();
    }
  }

  /** Every process holds branches of exactly the processes the written schedule
      says it knows. */
  lemma {:induction false} HeldOwners(size: nat, own: seq<seq<MpiBranch>>, k: nat)
    requires OwnLists(size, own)
    ensures forall r :: 0 <= r < size ==> Owners(Held(size, own, r, k)) == RunAsWritten(Initial(size), k)[r]
    decreases k
  {
    if k == 0 {
      forall r | 0 <= r < size
        ensures Owners(Held(size, own, r, 0)) == RunAsWritten(Initial(size), 0)[r]
      {
        assert Initial(size)[r] == {r};
      }
    } else {
      var j: nat := k - 1;
      HeldOwners(size, own, j);
      forall r | 0 <= r < size
        ensures Owners(Held(size, own, r, k)) == RunAsWritten(Initial(size), k)[r]
      {
        HeldOwnersStep(size, own, j, k, r);
      }
    }
  }

  /** The list the exchange gathers on process `r` holds branches of exactly the
      processes the written schedule says it knows. */
  lemma GatheredOwners(size: nat, own: seq<seq<MpiBranch>>,
                       received: seq<seq<seq<MpiBranch>>>, k: nat, r: nat)
    requires r < size && OwnLists(size, own) && Delivered(size, own, received, k)
    ensures Owners(Gathered(r, size, own[r], received[r], k)) == RunAsWritten(Initial(size), k)[r]
  {
    GatheredIsHeld(size, own, received, k, r);
    HeldOwners(size, own, k);
  }

  /** On `2^d` processes the exchange leaves every process holding branches of
      every process, and it inserts those of every other process. */
  lemma ExchangeCompleteOnPowerOfTwo(d: nat, own: seq<seq<MpiBranch>>,
                                     received: seq<seq<seq<MpiBranch>>>, r: nat)
    requires r < Pow2(d) && OwnLists(Pow2(d), own) && Delivered(Pow2(d), own, received, d)
    ensures RoundCount(Pow2(d)) == d
    ensures Owners(Gathered(r, Pow2(d), own[r], received[r], d)) == AllRanks(Pow2(d))
    ensures Owners(Foreign(Gathered(r, Pow2(d), own[r], received[r], d), r)) == AllRanks(Pow2(d)) - {r}
  {
    GatheredOwners(Pow2(d), own, received, d, r);
    AsWrittenCompleteOnPowerOfTwo(d, r);
    ForeignOwners(Gathered(r, Pow2(d), own[r], received[r], d), r);
  }

  /** On three processes the exchange leaves process 1 without any branch of
      process 2. */
  lemma ExchangeIncompleteOnThree(own: seq<seq<MpiBranch>>, received: seq<seq<seq<MpiBranch>>>)
    requires OwnLists(3, own) && Delivered(3, own, received, 2)
    ensures RoundCount(3) == 2
    ensures Owners(Gathered(1, 3, own[1], received[1], 2)) == {0, 1}
    ensures forall b :: b in Gathered(1, 3, own[1], received[1], 2) ==> b.owner != 2
  {
    GatheredOwners(3, own, received, 2, 1);
    AsWrittenIncomplete();
  }
}
