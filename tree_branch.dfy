// `tree_branch`: a node of the distributed tree. It holds the ids of the
// entities it contains, a child mask with one bit per child, a locality tag
// and the counters and boxes `update_COM` fills in.

module TreeBranch {
  import opened Bits

  /** `b_locality`: LOCAL = 0, EMPTY = 1, NONLOCAL = 2, SHARED = 3. */
  datatype Locality = Local | Empty | NonLocal | Shared

  /** `is_local()`: the branch is LOCAL, EMPTY or SHARED. */
  predicate LocalityIsLocal(l: Locality)
  {
    l == Local || l == Empty || l == Shared
  }

  /** Every locality but NONLOCAL counts as local, and only SHARED as shared. */
  lemma LocalityCases(l: Locality)
    ensures LocalityIsLocal(l) <==> l != NonLocal
    ensures l == Shared ==> LocalityIsLocal(l)
  {
  }

  /** `num_children = 1 << dimension`: at least one child, and the 8-bit child
      mask has room for all of them exactly in up to three dimensions. */
  function NumChildren(dim: nat): (r: nat)
    ensures r >= 1
    ensures r <= MaskBits <==> dim <= 3
  {
    if dim <= 3 then
      Pow2Monotone(dim, 3);
      Pow2(dim)
    else
      Pow2Monotone(4, dim);
      Pow2(dim)
  }

  /** The child mask is a `char`: room for 8 children, so at most 3 dimensions. */
  const MaskBits: nat := 8

  /** An entity id (`entity_id_t`). */
  type EntityId = nat

  /** No id occurs twice. */
  predicate NoDup(s: seq<EntityId>)
  {
    forall i, j :: 0 <= i < j < |s| ==> s[i] != s[j]
  }

  /** The sequence `s` with its first occurrence of `x` erased: `erase(find(x))`. */
  function Erase(s: seq<EntityId>, x: EntityId): seq<EntityId>
  {
    if s == [] then []
    else if s[0] == x then s[1..]
    else [s[0]] + Erase(s[1..], x)
  }

  /** Index of the first occurrence of `x`: what `find` returns. */
  function FirstIndex(s: seq<EntityId>, x: EntityId): (k: nat)
    requires x in s
    ensures k < |s| && s[k] == x && x !in s[..k]
  {
    if s[0] == x then 0
    else
      var k := FirstIndex(s[1..], x);
      assert s[1..][..k] == s[1..k + 1];
      assert s[..k + 1] == [s[0]] + s[1..k + 1];
      k + 1
  }

  /** Erasing removes exactly the first occurrence: the ids before and after it keep
      their order. */
  lemma {:induction false} EraseSplices(s: seq<EntityId>, x: EntityId)
    requires x in s
    ensures Erase(s, x) == s[..FirstIndex(s, x)] + s[FirstIndex(s, x) + 1..]
  {
    assert s == [s[0]] + s[1..];
    if s[0] != x {
      EraseSplices(s[1..], x);
      var k := FirstIndex(s[1..], x);
      assert s[..k + 1] == [s[0]] + s[1..][..k];
      assert s[k + 2..] == s[1..][k + 1..];
    }
  }

  /** Erasing leaves one id fewer, and the multiset of ids loses one `x`. */
  lemma EraseCount(s: seq<EntityId>, x: EntityId)
    requires x in s
    ensures |Erase(s, x)| == |s| - 1
    ensures multiset(Erase(s, x)) == multiset(s) - multiset{x}
  {
    var k := FirstIndex(s, x);
    var before, after := s[..k], s[k + 1..];
    EraseSplices(s, x);
    assert s == before + [x] + after;
    assert multiset(s) == multiset(before) + multiset{x} + multiset(after);
    assert multiset(Erase(s, x)) == multiset(before) + multiset(after);
  }

  /** An occurrence with no earlier one is the first. */
  lemma FirstIndexIs(s: seq<EntityId>, x: EntityId, k: nat)
    requires k < |s| && s[k] == x && x !in s[..k]
    ensures FirstIndex(s, x) == k
  {
    var f := FirstIndex(s, x);
    assert forall i :: 0 <= i < f ==> s[i] != x by {
      forall i | 0 <= i < f
        ensures s[i] != x
      {
        assert s[..f][i] == s[i];
      }
    }
    assert forall i :: 0 <= i < k ==> s[i] != x by {
      forall i | 0 <= i < k
        ensures s[i] != x
      {
        assert s[..k][i] == s[i];
      }
    }
  }

  /** Erasing from a list without duplicates leaves one without duplicates and without `x`. */
  lemma EraseNoDup(s: seq<EntityId>, x: EntityId)
    requires NoDup(s) && x in s
    ensures NoDup(Erase(s, x)) && x !in Erase(s, x)
  {
    var k := FirstIndex(s, x);
    EraseSplices(s, x);
    var r := Erase(s, x);
    assert |r| == |s| - 1;
    assert forall i :: 0 <= i < k ==> r[i] == s[i];
    assert forall i :: k <= i < |r| ==> r[i] == s[i + 1];
    forall i, j | 0 <= i < j < |r|
      ensures r[i] != r[j]
    {
      var i' := if i < k then i else i + 1;
      var j' := if j < k then j else j + 1;
      assert r[i] == s[i'] && r[j] == s[j'] && i' < j';
    }
    forall i | 0 <= i < |r|
      ensures r[i] != x
    {
      var i' := if i < k then i else i + 1;
      assert r[i] == s[i'] && i' != k;
    }
  }

  /** Appending an absent id keeps the list free of duplicates. */
  lemma AppendNoDup(s: seq<EntityId>, x: EntityId)
    requires NoDup(s) && x !in s
    ensures NoDup(s + [x])
  {
    var r := s + [x];
    forall i, j | 0 <= i < j < |r|
      ensures r[i] != r[j]
    {
      if j == |s| {
        assert r[i] == s[i];
      }
    }
  }

  /** The ids a list holds. */
  function IdSet(s: seq<EntityId>): set<EntityId>
  {
    set e | e in s
  }

  /** A list without duplicates holds as many distinct ids as it has entries. */
  lemma {:induction false} NoDupCard(s: seq<EntityId>)
    requires NoDup(s)
    ensures |IdSet(s)| == |s|
    decreases |s|
  {
    if s != [] {
      var front := s[..|s| - 1];
      var x := s[|s| - 1];
      assert NoDup(front);
      NoDupCard(front);
      assert s == front + [x];
      assert x !in front;
      assert IdSet(s) == IdSet(front) + {x};
    }
  }

  /** Setting a clear bit `i` of the mask sets that bit, leaves every other bit as it
      was, and keeps the mask within its 8 bits. */
  lemma SetChildBit(mask: nat, i: nat)
    requires mask < Pow2(MaskBits) && i < MaskBits && BitOf(mask, i) == 0
    ensures Or(mask, Pow2(i)) < Pow2(MaskBits)
    ensures BitOf(Or(mask, Pow2(i)), i) == 1
    ensures forall k :: k != i ==> BitOf(Or(mask, Pow2(i)), k) == BitOf(mask, k)
  {
    OrSingleBit(mask, i);
    Pow2Strict(i, MaskBits);
    OrBound(mask, Pow2(i), MaskBits);
    forall k
      ensures BitOf(mask + Pow2(i), k) == if k == i then 1 else BitOf(mask, k)
    {
      AddBit(mask, i, k);
    }
  }

  /** `tree_branch<T, D, E>`. Points are sequences of `dim` reals; the key is kept as
      the integer value of the branch id. */
  class Branch {
    const dim: nat
    var id: nat
    var subEntities: nat
    var leaf: bool
    var locality: Locality
    var bmin: seq<real>
    var bmax: seq<real>
    var owner: int
    var coordinates: seq<real>
    var mass: real
    var ents: seq<EntityId>
    var ghostsLocal: bool
    var requested: bool
    var bitChild: nat
    var beginTreeEntities: nat
    var endTreeEntities: nat

    ghost predicate Valid()
      reads this
    {
      NumChildren(dim) <= MaskBits && bitChild < Pow2(MaskBits) && NoDup(ents)
    }

    /** The default constructor: the null key, owned by the calling rank. The box,
        centre, mass and tree-entity range are left uninitialised. */
    constructor (dim: nat, rank: int)
      requires NumChildren(dim) <= MaskBits
      ensures Valid() && this.dim == dim && id == 0 && owner == rank
      ensures Fresh()
    {
      this.dim := dim;
      id := 0;
      owner := rank;
      subEntities, leaf, locality := 0, true, Empty;
      ents, ghostsLocal, requested, bitChild := [], true, false, 0;
    }

    /** The constructor from a key. */
    constructor WithId(dim: nat, id: nat, rank: int)
      requires NumChildren(dim) <= MaskBits
      ensures Valid() && this.dim == dim && this.id == id && owner == rank
      ensures Fresh()
    {
      this.dim := dim;
      this.id := id;
      owner := rank;
      subEntities, leaf, locality := 0, true, Empty;
      ents, ghostsLocal, requested, bitChild := [], true, false, 0;
    }

    /** The constructor that sets key, centre, mass, box, locality and owner. */
    constructor Full(dim: nat, id: nat, coordinates: seq<real>, mass: real, bmin: seq<real>,
                     bmax: seq<real>, locality: Locality, owner: int)
      requires NumChildren(dim) <= MaskBits
      ensures Valid() && this.dim == dim && this.id == id && this.coordinates == coordinates
      ensures this.mass == mass && this.bmin == bmin && this.bmax == bmax
      ensures this.locality == locality && this.owner == owner
      ensures subEntities == 0 && leaf && ents == [] && ghostsLocal && !requested && bitChild == 0
    {
      this.dim := dim;
      this.id, this.coordinates, this.mass := id, coordinates, mass;
      this.bmin, this.bmax, this.locality, this.owner := bmin, bmax, locality, owner;
      subEntities, leaf := 0, true;
      ents, ghostsLocal, requested, bitChild := [], true, false, 0;
    }

    /** The state every new branch starts in: an empty leaf with locality EMPTY. */
    ghost predicate Fresh()
      reads this
    {
      subEntities == 0 && leaf && locality == Empty && ents == []
      && ghostsLocal && !requested && bitChild == 0
    }

    /** `is_local()`: every branch that is not NONLOCAL. */
    function IsLocal(): (r: bool)
      reads this
      ensures r <==> locality != NonLocal
    {
      LocalityIsLocal(locality)
    }

    /** `is_shared()`: a shared branch is also local. */
    function IsShared(): (r: bool)
      reads this
      ensures r <==> locality == Shared
      ensures r ==> IsLocal()
    {
      locality == Shared
    }

    /** `size()`: the number of entity ids held, each counted once. */
    function Size(): (n: nat)
      reads this
      ensures n == |ents|
      ensures Valid() ==> n == |IdSet(ents)|
    {
      assert NoDup(ents) ==> |IdSet(ents)| == |ents| by {
        if NoDup(ents) {
          NoDupCard(ents);
        }
      }
      |ents|
    }

    /** `as_child(i)`: bit `i` of the child mask. The mask is read as an unsigned
        8-bit value, so no child beyond the eighth is ever present. */
    function AsChild(i: nat): (r: bool)
      reads this
      ensures r <==> BitOf(bitChild, i) == 1
      ensures Valid() && i >= MaskBits ==> !r
    {
      if i >= MaskBits && bitChild < Pow2(MaskBits) then
        Pow2Monotone(MaskBits, i);
        ShrSmall(bitChild, i);
        BitOf(bitChild, i) == 1
      else BitOf(bitChild, i) == 1
    }

    /** `insert(id)`: the id must be absent; it goes at the end. */
    method Insert(e: EntityId)
      requires Valid() && e !in ents
      modifies this`ents
      ensures Valid() && ents == old(ents) + [e] && Size() == old(Size()) + 1
    {
      AppendNoDup(ents, e);
      ents := ents + [e];
    }

    /** `remove(id)`: `find` the id, which must be present, and erase it. */
    method Remove(e: EntityId)
      requires Valid() && e in ents
      modifies this`ents
      ensures Valid() && ents == Erase(old(ents), e) && e !in ents
      ensures Size() == old(Size()) - 1
    {
      var k: nat := 0;
      while ents[k] != e
        invariant k < |ents| && e in ents[k..] && ents[..k] == old(ents)[..k]
        invariant e !in ents[..k]
        decreases |ents| - k
      {
        assert ents[k..] == [ents[k]] + ents[k + 1..];
        assert ents[..k + 1] == ents[..k] + [ents[k]];
        k := k + 1;
      }
      FirstIndexIs(ents, e, k);
      EraseSplices(ents, e);
      EraseCount(ents, e);
      EraseNoDup(ents, e);
      ents := ents[..k] + ents[k + 1..];
    }

    /** `clear()`. */
    method Clear()
      requires Valid()
      modifies this`ents
      ensures Valid() && ents == []
    {
      ents := [];
    }

    /** `add_bit_child(i)`: bit `i` must be clear; it is set. */
    method AddBitChild(i: nat)
      requires Valid() && i < NumChildren(dim) && !AsChild(i)
      modifies this`bitChild
      ensures Valid() && bitChild == Or(old(bitChild), Pow2(i))
      ensures AsChild(i) && forall k :: k != i ==> (AsChild(k) <==> old(AsChild(k)))
    {
      SetChildBit(bitChild, i);
      bitChild := Or(bitChild, Pow2(i));
    }

    /** `set_bit_child(mask)`. */
    method SetBitChild(mask: nat)
      requires Valid() && mask < Pow2(MaskBits)
      modifies this`bitChild
      ensures Valid() && bitChild == mask
    {
      bitChild := mask;
    }

    /** `set_coordinates`. */
    method SetCoordinates(p: seq<real>)
      modifies this`coordinates
      ensures coordinates == p
    {
      coordinates := p;
    }

    /** `set_mass`. */
    method SetMass(m: real)
      modifies this`mass
      ensures mass == m
    {
      mass := m;
    }

    /** `set_bmax`. */
    method SetBmax(p: seq<real>)
      modifies this`bmax
      ensures bmax == p
    {
      bmax := p;
    }

    /** `set_bmin`. */
    method SetBmin(p: seq<real>)
      modifies this`bmin
      ensures bmin == p
    {
      bmin := p;
    }

    /** `set_begin_tree_entities`. */
    method SetBeginTreeEntities(n: nat)
      modifies this`beginTreeEntities
      ensures beginTreeEntities == n
    {
      beginTreeEntities := n;
    }

    /** `set_end_tree_entities`. */
    method SetEndTreeEntities(n: nat)
      modifies this`endTreeEntities
      ensures endTreeEntities == n
    {
      endTreeEntities := n;
    }

    /** `set_leaf`. */
    method SetLeaf(l: bool)
      modifies this`leaf
      ensures leaf == l
    {
      leaf := l;
    }

    /** `set_sub_entities`. */
    method SetSubEntities(n: nat)
      modifies this`subEntities
      ensures subEntities == n
    {
      subEntities := n;
    }

    /** `set_locality`. */
    method SetLocality(l: Locality)
      modifies this`locality
      ensures locality == l
    {
      locality := l;
    }

    /** `set_owner`. */
    method SetOwner(o: int)
      modifies this`owner
      ensures owner == o
    {
      owner := o;
    }

    /** `set_ghosts_local`. */
    method SetGhostsLocal(g: bool)
      modifies this`ghostsLocal
      ensures ghostsLocal == g
    {
      ghostsLocal := g;
    }

    /** `set_requested`. */
    method SetRequested(r: bool)
      modifies this`requested
      ensures requested == r
    {
      requested := r;
    }

    /** `set_id_`. */
    method SetId(k: nat)
      modifies this`id
      ensures id == k
    {
      id := k;
    }
  }

  /** A new branch is a local, childless leaf. */
  lemma FreshIsLocal(b: Branch)
    requires b.Fresh()
    ensures b.IsLocal() && !b.IsShared() && b.leaf && b.Size() == 0
    ensures forall i :: !b.AsChild(i)
  {
    forall i
      ensures !b.AsChild(i)
    {
      ShrSmall(0, i);
    }
  }
}
