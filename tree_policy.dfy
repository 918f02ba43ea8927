// The tree policy of the SPH tree: the body holders stored in the tree, the
// branch type that asks for refinement and coarsening as entities come and
// go, the bookkeeping part of `update_COM`, and the componentwise point
// operators.

module TreePolicy {
  import opened Bits
  import TreeBranch

  /** The largest finite double, `DBL_MAX`: the initial empty box is
      `[DBL_MAX, -DBL_MAX]` in every dimension. */
  const DblMax: real := 1.7976931348623157e308

  function Max(a: real, b: real): real
  {
    if a < b then b else a
  }

  function Min(a: real, b: real): real
  {
    if b < a then b else a
  }

  /** One term `mass * x` of a centre-of-mass sum. */
  function Weighted(mass: real, x: real): real
  {
    mass * x
  }

  // ---------------------------------------------------------------------
  // body_holder

  /** The locality tags a body holder takes. */
  datatype HolderLocality = Local | Excl | Shared | NonLocal

  /** A holder counts as local when it is LOCAL, EXCL or SHARED. */
  predicate HolderIsLocal(l: HolderLocality)
  {
    l == Local || l == Excl || l == Shared
  }

  /** `body_holder`: the light entity the tree stores for a body. The body pointer is
      modelled as an optional body index. */
  class BodyHolder {
    var key: nat
    var coordinates: seq<real>
    var mass: real
    var h: real
    var body: Option<nat>
    var locality: HolderLocality
    var globalId: nat
    var id: nat
    var owner: int

    /** The constructor from a body: a holder without a body is NONLOCAL, one with a
        body is EXCL. */
    constructor (key: nat, coordinates: seq<real>, body: Option<nat>, owner: nat, mass: real,
                 id: nat, h: real)
      ensures this.key == key && this.coordinates == coordinates && this.body == body
      ensures this.owner == owner && this.mass == mass && this.globalId == id && this.h == h
      ensures locality == (if body.None? then NonLocal else Excl)
      ensures HolderIsLocal(locality) <==> body.Some?
    {
      this.key, this.coordinates, this.body := key, coordinates, body;
      this.owner, this.mass, this.globalId, this.h := owner, mass, id, h;
      locality := if body.None? then NonLocal else Excl;
    }

    /** The default constructor: a NONLOCAL holder at the origin, without body, owner
        -1, mass 0 and smoothing length 0. */
    constructor Default(dim: nat)
      ensures key == 0 && coordinates == seq(dim, _ => 0.0) && body.None?
      ensures locality == NonLocal && !HolderIsLocal(locality)
      ensures owner == -1 && mass == 0.0 && h == 0.0 && globalId == 0
    {
      key, coordinates, body := 0, seq(dim, _ => 0.0), None;
      locality, owner, mass, h, globalId := NonLocal, -1, 0.0, 0.0, 0;
    }

    /** `set_shared()`. */
    method SetShared()
      modifies this`locality
      ensures locality == Shared && HolderIsLocal(locality)
    {
      locality := Shared;
    }

    /** `setBody`. */
    method SetBody(b: Option<nat>)
      modifies this`body
      ensures body == b
    {
      body := b;
    }

    /** `set_id`. */
    method SetId(i: nat)
      modifies this`id
      ensures id == i
    {
      id := i;
    }

    /** `set_h`. */
    method SetH(v: real)
      modifies this`h
      ensures h == v
    {
      h := v;
    }
  }

  datatype Option<T> = None | Some(value: T)

  // ---------------------------------------------------------------------
  // branch

  /** `tree_policy::branch`. Its own entity list, centre, mass and box shadow those of
      `tree_branch`; the leaf flag, sub-entity count and locality are the inherited ones. */
  class PolicyBranch {
    const dim: nat
    var id: nat
    var ents: seq<TreeBranch.EntityId>
    var coordinates: seq<real>
    var mass: real
    var bmin: seq<real>
    var bmax: seq<real>
    var leaf: bool
    var subEntities: nat
    var locality: TreeBranch.Locality

    constructor (dim: nat, id: nat)
      ensures this.dim == dim && this.id == id && ents == [] && leaf && subEntities == 0
      ensures locality == TreeBranch.Empty
    {
      this.dim, this.id := dim, id;
      ents, leaf, subEntities, locality := [], true, 0, TreeBranch.Empty;
    }

    /** `insert(id)`: append the id; ask for `refine()` once the branch holds more than
        `num_children` entities. Unlike `tree_branch::insert`, no check for duplicates. */
    method Insert(e: TreeBranch.EntityId) returns (refine: bool)
      modifies this`ents
      ensures ents == old(ents) + [e]
      ensures refine <==> |ents| > TreeBranch.NumChildren(dim)
    {
      ents := ents + [e];
      refine := |ents| > TreeBranch.NumChildren(dim);
    }

    /** `remove(id)`: erase the id, which must be present; ask for `coarsen()` once the
        branch is empty. */
    method Remove(e: TreeBranch.EntityId) returns (coarsen: bool)
      requires e in ents
      modifies this`ents
      ensures ents == TreeBranch.Erase(old(ents), e) && |ents| == |old(ents)| - 1
      ensures coarsen <==> ents == []
    {
      var k: nat := 0;
      while ents[k] != e
        invariant k < |ents| && e in ents[k..] && e !in ents[..k]
        decreases |ents| - k
      {
        assert ents[k..] == [ents[k]] + ents[k + 1..];
        assert ents[..k + 1] == ents[..k] + [ents[k]];
        k := k + 1;
      }
      TreeBranch.FirstIndexIs(ents, e, k);
      TreeBranch.EraseSplices(ents, e);
      TreeBranch.EraseCount(ents, e);
      ents := ents[..k] + ents[k + 1..];
      coarsen := ents == [];
    }
  }

  // ---------------------------------------------------------------------
  // update_COM

  /** What `tree->get(id)` tells `update_COM` about an entity. */
  datatype HolderView = HolderView(local: bool, mass: real, coords: seq<real>, h: real)

  /** What `tree->child(b, i)` tells `update_COM` about a child branch. */
  datatype ChildView = ChildView(local: bool, subEntities: nat, mass: real, coords: seq<real>,
                                 bmin: seq<real>, bmax: seq<real>)

  /** The totals `update_COM` writes into the branch (the radius is not modelled). */
  datatype Summary = Summary(local: bool, count: nat, mass: real, moment: seq<real>,
                             bmin: seq<real>, bmax: seq<real>)

  /** Every holder has a position in `dim` dimensions. */
  predicate HoldersIn(hs: seq<HolderView>, dim: nat)
  {
    forall i :: 0 <= i < |hs| ==> |hs[i].coords| == dim
  }

  /** Every child has a centre and a box in `dim` dimensions. */
  predicate ChildrenIn(cs: seq<ChildView>, dim: nat)
  {
    forall i :: 0 <= i < |cs| ==> |cs[i].coords| == dim && |cs[i].bmin| == dim && |cs[i].bmax| == dim
  }

  /** Whether a leaf entity enters the totals: all do, or only local ones under `local_only`. */
  predicate Considered(h: HolderView, localOnly: bool)
  {
    !localOnly || h.local
  }

  /** Some entity is local (skipped ones included). */
  predicate AnyLocalHolder(hs: seq<HolderView>)
  {
    if hs == [] then false else AnyLocalHolder(hs[..|hs| - 1]) || hs[|hs| - 1].local
  }

  /** Number of entities considered. */
  function LeafCount(hs: seq<HolderView>, localOnly: bool): nat
  {
    if hs == [] then 0
    else LeafCount(hs[..|hs| - 1], localOnly) + (if Considered(hs[|hs| - 1], localOnly) then 1 else 0)
  }

  /** Mass of the entities considered. */
  function LeafMass(hs: seq<HolderView>, localOnly: bool): real
  {
    if hs == [] then 0.0
    else LeafMass(hs[..|hs| - 1], localOnly) + (if Considered(hs[|hs| - 1], localOnly) then hs[|hs| - 1].mass else 0.0)
  }

  /** Mass-weighted sum of coordinate `d` of the entities considered. */
  function LeafMoment(hs: seq<HolderView>, localOnly: bool, d: nat): real
    requires forall i :: 0 <= i < |hs| ==> d < |hs[i].coords|
  {
    if hs == [] then 0.0
    else
      var last := hs[|hs| - 1];
      LeafMoment(hs[..|hs| - 1], localOnly, d) + (if Considered(last, localOnly) then Weighted(last.mass, last.coords[d]) else 0.0)
  }

  /** Upper box bound in dimension `d`: the largest `x + epsilon + h` considered. */
  function LeafUpper(hs: seq<HolderView>, localOnly: bool, epsilon: real, d: nat): real
    requires forall i :: 0 <= i < |hs| ==> d < |hs[i].coords|
  {
    if hs == [] then -DblMax
    else
      var last := hs[|hs| - 1];
      var prev := LeafUpper(hs[..|hs| - 1], localOnly, epsilon, d);
      if Considered(last, localOnly) then Max(prev, last.coords[d] + epsilon + last.h) else prev
  }

  /** Lower box bound in dimension `d`: the smallest `x - epsilon - h` considered. */
  function LeafLower(hs: seq<HolderView>, localOnly: bool, epsilon: real, d: nat): real
    requires forall i :: 0 <= i < |hs| ==> d < |hs[i].coords|
  {
    if hs == [] then DblMax
    else
      var last := hs[|hs| - 1];
      var prev := LeafLower(hs[..|hs| - 1], localOnly, epsilon, d);
      if Considered(last, localOnly) then Min(prev, last.coords[d] - epsilon - last.h) else prev
  }

  /** The totals of a leaf. */
  function LeafTotals(hs: seq<HolderView>, dim: nat, epsilon: real, localOnly: bool): Summary
    requires HoldersIn(hs, dim)
  {
    Summary(AnyLocalHolder(hs), LeafCount(hs, localOnly), LeafMass(hs, localOnly),
            seq(dim, d requires 0 <= d < dim => LeafMoment(hs, localOnly, d)),
            seq(dim, d requires 0 <= d < dim => LeafLower(hs, localOnly, epsilon, d)),
            seq(dim, d requires 0 <= d < dim => LeafUpper(hs, localOnly, epsilon, d)))
  }

  /** Some child is local. */
  predicate AnyLocalChild(cs: seq<ChildView>)
  {
    if cs == [] then false else AnyLocalChild(cs[..|cs| - 1]) || cs[|cs| - 1].local
  }

  /** Sum of the children's sub-entity counts. */
  function ChildCount(cs: seq<ChildView>): nat
  {
    if cs == [] then 0 else ChildCount(cs[..|cs| - 1]) + cs[|cs| - 1].subEntities
  }

  /** Sum of the children's masses. */
  function ChildMass(cs: seq<ChildView>): real
  {
    if cs == [] then 0.0 else ChildMass(cs[..|cs| - 1]) + cs[|cs| - 1].mass
  }

  /** Mass-weighted sum of coordinate `d` of the children's centres. */
  function ChildMoment(cs: seq<ChildView>, d: nat): real
    requires forall i :: 0 <= i < |cs| ==> d < |cs[i].coords|
  {
    if cs == [] then 0.0
    else ChildMoment(cs[..|cs| - 1], d) + Weighted(cs[|cs| - 1].mass, cs[|cs| - 1].coords[d])
  }

  /** Upper box bound in dimension `d` over the children with positive mass. */
  function ChildUpper(cs: seq<ChildView>, d: nat): real
    requires forall i :: 0 <= i < |cs| ==> d < |cs[i].bmax|
  {
    if cs == [] then -DblMax
    else
      var last := cs[|cs| - 1];
      var prev := ChildUpper(cs[..|cs| - 1], d);
      if last.mass > 0.0 then Max(prev, last.bmax[d]) else prev
  }

  /** Lower box bound in dimension `d` over the children with positive mass. */
  function ChildLower(cs: seq<ChildView>, d: nat): real
    requires forall i :: 0 <= i < |cs| ==> d < |cs[i].bmin|
  {
    if cs == [] then DblMax
    else
      var last := cs[|cs| - 1];
      var prev := ChildLower(cs[..|cs| - 1], d);
      if last.mass > 0.0 then Min(prev, last.bmin[d]) else prev
  }

  /** The totals of an internal branch. */
  function ChildTotals(cs: seq<ChildView>, dim: nat): Summary
    requires ChildrenIn(cs, dim)
  {
    Summary(AnyLocalChild(cs), ChildCount(cs), ChildMass(cs),
            seq(dim, d requires 0 <= d < dim => ChildMoment(cs, d)),
            seq(dim, d requires 0 <= d < dim => ChildLower(cs, d)),
            seq(dim, d requires 0 <= d < dim => ChildUpper(cs, d)))
  }

  /** The centre of mass: the moment divided by the mass when the mass is positive. */
  function Centre(moment: seq<real>, mass: real): (r: seq<real>)
    ensures |r| == |moment|
    ensures mass > 0.0 ==> forall d :: 0 <= d < |r| ==> r[d] * mass == moment[d]
    ensures mass <= 0.0 ==> r == moment
  {
    if mass > 0.0 then seq(|moment|, d requires 0 <= d < |moment| => moment[d] / mass) else moment
  }

  /** The per-dimension `std::min`/`std::max` loop: widen the box `[bmin, bmax]` to
      take in `[lo, hi]`. */
  method Widen(bmin: seq<real>, bmax: seq<real>, lo: seq<real>, hi: seq<real>)
    returns (bmin': seq<real>, bmax': seq<real>)
    requires |bmin| == |bmax| == |lo| == |hi|
    ensures |bmin'| == |bmin| && |bmax'| == |bmax|
    ensures forall d :: 0 <= d < |bmin| ==> bmin'[d] == Min(bmin[d], lo[d]) && bmax'[d] == Max(bmax[d], hi[d])
  {
    bmin', bmax' := bmin, bmax;
    var d := 0;
    while d < |bmin|
      invariant d <= |bmin| && |bmin'| == |bmin| && |bmax'| == |bmax|
      invariant forall k :: 0 <= k < d ==> bmin'[k] == Min(bmin[k], lo[k]) && bmax'[k] == Max(bmax[k], hi[k])
      invariant forall k :: d <= k < |bmin| ==> bmin'[k] == bmin[k] && bmax'[k] == bmax[k]
    {
      bmax' := bmax'[d := Max(bmax'[d], hi[d])];
      bmin' := bmin'[d := Min(bmin'[d], lo[d])];
      d := d + 1;
    }
  }

  /** The leaf's per-dimension loop: widen the box to take in `x +- r`. */
  method WidenAround(bmin: seq<real>, bmax: seq<real>, x: seq<real>, r: real)
    returns (bmin': seq<real>, bmax': seq<real>)
    requires |bmin| == |bmax| == |x|
    ensures |bmin'| == |bmin| && |bmax'| == |bmax|
    ensures forall d :: 0 <= d < |bmin| ==> bmin'[d] == Min(bmin[d], x[d] - r) && bmax'[d] == Max(bmax[d], x[d] + r)
  {
    bmin', bmax' := bmin, bmax;
    var d := 0;
    while d < |bmin|
      invariant d <= |bmin| && |bmin'| == |bmin| && |bmax'| == |bmax|
      invariant forall k :: 0 <= k < d ==> bmin'[k] == Min(bmin[k], x[k] - r) && bmax'[k] == Max(bmax[k], x[k] + r)
      invariant forall k :: d <= k < |bmin| ==> bmin'[k] == bmin[k] && bmax'[k] == bmax[k]
    {
      bmax' := bmax'[d := Max(bmax'[d], x[d] + r)];
      bmin' := bmin'[d := Min(bmin'[d], x[d] - r)];
      d := d + 1;
    }
  }

  /** `coordinates += mass * x`, component by component. */
  method AddMoment(moment: seq<real>, mass: real, x: seq<real>) returns (r: seq<real>)
    requires |moment| == |x|
    ensures |r| == |moment| && forall d :: 0 <= d < |r| ==> r[d] == moment[d] + Weighted(mass, x[d])
  {
    r := moment;
    var d := 0;
    while d < |r|
      invariant d <= |r| && |r| == |moment|
      invariant forall k :: 0 <= k < d ==> r[k] == moment[k] + Weighted(mass, x[k])
      invariant forall k :: d <= k < |r| ==> r[k] == moment[k]
    {
      r := r[d := r[d] + Weighted(mass, x[d])];
      d := d + 1;
    }
  }

  /** The leaf loop of `update_COM`: one pass over the entities, accumulating. */
  method LeafSummary(hs: seq<HolderView>, dim: nat, epsilon: real, localOnly: bool) returns (s: Summary)
    requires HoldersIn(hs, dim)
    ensures s == LeafTotals(hs, dim, epsilon, localOnly)
  {
    var local := false;
    var count: nat := 0;
    var mass := 0.0;
    var moment := seq(dim, _ => 0.0);
    var bmin := seq(dim, _ => DblMax);
    var bmax := seq(dim, _ => -DblMax);
    var i := 0;
    while i < |hs|
      invariant i <= |hs| && |moment| == dim && |bmin| == dim && |bmax| == dim
      invariant local == AnyLocalHolder(hs[..i])
      invariant count == LeafCount(hs[..i], localOnly) && mass == LeafMass(hs[..i], localOnly)
      invariant forall d :: 0 <= d < dim ==> moment[d] == LeafMoment(hs[..i], localOnly, d)
      invariant forall d :: 0 <= d < dim ==> bmin[d] == LeafLower(hs[..i], localOnly, epsilon, d)
      invariant forall d :: 0 <= d < dim ==> bmax[d] == LeafUpper(hs[..i], localOnly, epsilon, d)
    {
      var ent := hs[i];
      LeafPrefixStep(hs, i, dim, epsilon, localOnly);
      if ent.local {
        local := true;
      }
      if localOnly && !ent.local {
        i := i + 1;
        continue;
      }
      count := count + 1;
      bmin, bmax := WidenAround(bmin, bmax, ent.coords, epsilon + ent.h);
      moment := AddMoment(moment, ent.mass, ent.coords);
      mass := mass + ent.mass;
      i := i + 1;
    }
    assert hs[..|hs|] == hs;
    s := Summary(local, count, mass, moment, bmin, bmax);
  }

  /** How the leaf totals of the first `i + 1` entities follow from those of the first `i`. */
  lemma LeafPrefixStep(hs: seq<HolderView>, i: nat, dim: nat, epsilon: real, localOnly: bool)
    requires HoldersIn(hs, dim) && i < |hs|
    ensures AnyLocalHolder(hs[..i + 1]) == (AnyLocalHolder(hs[..i]) || hs[i].local)
    ensures LeafCount(hs[..i + 1], localOnly)
      == LeafCount(hs[..i], localOnly) + (if Considered(hs[i], localOnly) then 1 else 0)
    ensures LeafMass(hs[..i + 1], localOnly)
      == LeafMass(hs[..i], localOnly) + (if Considered(hs[i], localOnly) then hs[i].mass else 0.0)
    ensures forall d :: 0 <= d < dim ==>
      LeafMoment(hs[..i + 1], localOnly, d)
      == LeafMoment(hs[..i], localOnly, d) + (if Considered(hs[i], localOnly) then Weighted(hs[i].mass, hs[i].coords[d]) else 0.0)
    ensures forall d :: 0 <= d < dim ==>
      LeafLower(hs[..i + 1], localOnly, epsilon, d)
      == (if Considered(hs[i], localOnly)
          then Min(LeafLower(hs[..i], localOnly, epsilon, d), hs[i].coords[d] - epsilon - hs[i].h)
          else LeafLower(hs[..i], localOnly, epsilon, d))
    ensures forall d :: 0 <= d < dim ==>
      LeafUpper(hs[..i + 1], localOnly, epsilon, d)
      == (if Considered(hs[i], localOnly)
          then Max(LeafUpper(hs[..i], localOnly, epsilon, d), hs[i].coords[d] + epsilon + hs[i].h)
          else LeafUpper(hs[..i], localOnly, epsilon, d))
  {
    assert hs[..i + 1][..i] == hs[..i] && hs[..i + 1][i] == hs[i];
  }

  /** The internal-branch loop of `update_COM`: one pass over the `2^D` children. */
  method ChildSummary(cs: seq<ChildView>, dim: nat) returns (s: Summary)
    requires ChildrenIn(cs, dim)
    ensures s == ChildTotals(cs, dim)
  {
    var local := false;
    var count: nat := 0;
    var mass := 0.0;
    var moment := seq(dim, _ => 0.0);
    var bmin := seq(dim, _ => DblMax);
    var bmax := seq(dim, _ => -DblMax);
    var i := 0;
    while i < |cs|
      invariant i <= |cs| && |moment| == dim && |bmin| == dim && |bmax| == dim
      invariant local == AnyLocalChild(cs[..i])
      invariant count == ChildCount(cs[..i]) && mass == ChildMass(cs[..i])
      invariant forall d :: 0 <= d < dim ==> moment[d] == ChildMoment(cs[..i], d)
      invariant forall d :: 0 <= d < dim ==> bmin[d] == ChildLower(cs[..i], d)
      invariant forall d :: 0 <= d < dim ==> bmax[d] == ChildUpper(cs[..i], d)
    {
      var child := cs[i];
      assert cs[..i + 1][..i] == cs[..i] && cs[..i + 1][i] == child;
      if child.local {
        local := true;
      }
      count := count + child.subEntities;
      mass := mass + child.mass;
      if child.mass > 0.0 {
        bmin, bmax := Widen(bmin, bmax, child.bmin, child.bmax);
      }
      moment := AddMoment(moment, child.mass, child.coords);
      i := i + 1;
    }
    assert cs[..|cs|] == cs;
    s := Summary(local, count, mass, moment, bmin, bmax);
  }

  /** The holders of a leaf's entities, as `tree->get` returns them. */
  function Holders(ents: seq<TreeBranch.EntityId>, get: map<TreeBranch.EntityId, HolderView>): seq<HolderView>
    requires forall e :: e in ents ==> e in get
  {
    seq(|ents|, i requires 0 <= i < |ents| => get[ents[i]])
  }

  /** `update_COM(tree, b, epsilon, local_only)`: recompute the totals of `b` from its
      entities (a leaf) or its children, mark it LOCAL when any of them is local and
      NONLOCAL otherwise, and count one more non-local branch in the latter case. */
  method UpdateCom(b: PolicyBranch, get: map<TreeBranch.EntityId, HolderView>, children: seq<ChildView>,
                   epsilon: real, localOnly: bool, nonlocalBranches: nat) returns (nonlocalBranches': nat)
    requires b.leaf ==> forall e :: e in b.ents ==> e in get && |get[e].coords| == b.dim
    requires !b.leaf ==> |children| == TreeBranch.NumChildren(b.dim) && ChildrenIn(children, b.dim)
    modifies b`subEntities, b`coordinates, b`mass, b`bmin, b`bmax, b`locality
    ensures var s := if b.leaf then LeafTotals(Holders(b.ents, get), b.dim, epsilon, localOnly)
                     else ChildTotals(children, b.dim);
      && b.subEntities == s.count && b.mass == s.mass && b.coordinates == Centre(s.moment, s.mass)
      && b.bmin == s.bmin && b.bmax == s.bmax
      && b.locality == (if s.local then TreeBranch.Local else TreeBranch.NonLocal)
      && nonlocalBranches' == (if s.local then nonlocalBranches else nonlocalBranches + 1)
  {
    var s;
    if b.leaf {
      var hs := Holders(b.ents, get);
      s := LeafSummary(hs, b.dim, epsilon, localOnly);
    } else {
      s := ChildSummary(children, b.dim);
    }
    b.subEntities := s.count;
    b.coordinates := Centre(s.moment, s.mass);
    b.mass := s.mass;
    b.bmin := s.bmin;
    b.bmax := s.bmax;
    b.locality := if s.local then TreeBranch.Local else TreeBranch.NonLocal;
    nonlocalBranches' := nonlocalBranches;
    if !TreeBranch.LocalityIsLocal(b.locality) {
      nonlocalBranches' := nonlocalBranches + 1;
    }
  }

  // ---------------------------------------------------------------------
  // Properties of update_COM

  /** The branch is marked local exactly when one of its entities is local, whether or
      not `local_only` skipped it. */
  lemma {:induction false} AnyLocalHolderExists(hs: seq<HolderView>)
    ensures AnyLocalHolder(hs) <==> exists i :: 0 <= i < |hs| && hs[i].local
  {
    if hs != [] {
      var init := hs[..|hs| - 1];
      AnyLocalHolderExists(init);
      assert forall i :: 0 <= i < |init| ==> init[i] == hs[i];
    }
  }

  /** The same for an internal branch and its children. */
  lemma {:induction false} AnyLocalChildExists(cs: seq<ChildView>)
    ensures AnyLocalChild(cs) <==> exists i :: 0 <= i < |cs| && cs[i].local
  {
    if cs != [] {
      var init := cs[..|cs| - 1];
      AnyLocalChildExists(init);
      assert forall i :: 0 <= i < |init| ==> init[i] == cs[i];
    }
  }

  /** Every entity considered lies in the leaf's box, widened by `epsilon + h`. */
  lemma {:induction false} LeafBoxContains(hs: seq<HolderView>, localOnly: bool, epsilon: real, d: nat, i: nat)
    requires forall k :: 0 <= k < |hs| ==> d < |hs[k].coords|
    requires i < |hs| && Considered(hs[i], localOnly)
    ensures LeafLower(hs, localOnly, epsilon, d) <= hs[i].coords[d] - epsilon - hs[i].h
    ensures hs[i].coords[d] + epsilon + hs[i].h <= LeafUpper(hs, localOnly, epsilon, d)
  {
    if i < |hs| - 1 {
      var init := hs[..|hs| - 1];
      assert init[i] == hs[i];
      LeafBoxContains(init, localOnly, epsilon, d, i);
    }
  }

  /** The leaf's upper bound is attained: it is `-DBL_MAX` or the bound of an entity considered. */
  lemma {:induction false} LeafUpperAttained(hs: seq<HolderView>, localOnly: bool, epsilon: real, d: nat)
    requires forall k :: 0 <= k < |hs| ==> d < |hs[k].coords|
    ensures LeafUpper(hs, localOnly, epsilon, d) == -DblMax
      || exists i :: 0 <= i < |hs| && Considered(hs[i], localOnly)
           && LeafUpper(hs, localOnly, epsilon, d) == hs[i].coords[d] + epsilon + hs[i].h
  {
    if hs != [] {
      var init := hs[..|hs| - 1];
      LeafUpperAttained(init, localOnly, epsilon, d);
      assert forall k :: 0 <= k < |init| ==> init[k] == hs[k];
    }
  }

  /** The leaf's lower bound is attained: it is `DBL_MAX` or the bound of an entity considered. */
  lemma {:induction false} LeafLowerAttained(hs: seq<HolderView>, localOnly: bool, epsilon: real, d: nat)
    requires forall k :: 0 <= k < |hs| ==> d < |hs[k].coords|
    ensures LeafLower(hs, localOnly, epsilon, d) == DblMax
      || exists i :: 0 <= i < |hs| && Considered(hs[i], localOnly)
           && LeafLower(hs, localOnly, epsilon, d) == hs[i].coords[d] - epsilon - hs[i].h
  {
    if hs != [] {
      var init := hs[..|hs| - 1];
      LeafLowerAttained(init, localOnly, epsilon, d);
      assert forall k :: 0 <= k < |init| ==> init[k] == hs[k];
    }
  }

  /** Every child with positive mass lies in the branch's box. */
  lemma {:induction false} ChildBoxContains(cs: seq<ChildView>, d: nat, i: nat)
    requires forall k :: 0 <= k < |cs| ==> d < |cs[k].bmin| && d < |cs[k].bmax|
    requires i < |cs| && cs[i].mass > 0.0
    ensures ChildLower(cs, d) <= cs[i].bmin[d] && cs[i].bmax[d] <= ChildUpper(cs, d)
  {
    if i < |cs| - 1 {
      var init := cs[..|cs| - 1];
      assert init[i] == cs[i];
      ChildBoxContains(init, d, i);
    }
  }

  /** Children without positive mass do not shape the box: its upper bound is `-DBL_MAX`
      or the upper bound of a child with positive mass. */
  lemma {:induction false} ChildUpperAttained(cs: seq<ChildView>, d: nat)
    requires forall k :: 0 <= k < |cs| ==> d < |cs[k].bmax|
    ensures ChildUpper(cs, d) == -DblMax
      || exists i :: 0 <= i < |cs| && cs[i].mass > 0.0 && ChildUpper(cs, d) == cs[i].bmax[d]
  {
    if cs != [] {
      var init := cs[..|cs| - 1];
      ChildUpperAttained(init, d);
      assert forall k :: 0 <= k < |init| ==> init[k] == cs[k];
    }
  }

  /** The lower bound of the box is `DBL_MAX` or the lower bound of a child with
      positive mass. */
  lemma {:induction false} ChildLowerAttained(cs: seq<ChildView>, d: nat)
    requires forall k :: 0 <= k < |cs| ==> d < |cs[k].bmin|
    ensures ChildLower(cs, d) == DblMax
      || exists i :: 0 <= i < |cs| && cs[i].mass > 0.0 && ChildLower(cs, d) == cs[i].bmin[d]
  {
    if cs != [] {
      var init := cs[..|cs| - 1];
      ChildLowerAttained(init, d);
      assert forall k :: 0 <= k < |init| ==> init[k] == cs[k];
    }
  }

  /** The entities considered, in order: a reference definition of the leaf filter. */
  function Kept(hs: seq<HolderView>, localOnly: bool): seq<HolderView>
  {
    if hs == [] then [] else (if Considered(hs[0], localOnly) then [hs[0]] else []) + Kept(hs[1..], localOnly)
  }

  /** Total mass of a list of entities. */
  function MassSum(hs: seq<HolderView>): real
  {
    if hs == [] then 0.0 else hs[0].mass + MassSum(hs[1..])
  }

  lemma {:induction false} KeptAppend(hs: seq<HolderView>, h: HolderView, localOnly: bool)
    ensures Kept(hs + [h], localOnly) == Kept(hs, localOnly) + (if Considered(h, localOnly) then [h] else [])
  {
    if hs != [] {
      assert (hs + [h])[1..] == hs[1..] + [h];
      KeptAppend(hs[1..], h, localOnly);
    }
  }

  lemma {:induction false} MassSumAppend(hs: seq<HolderView>, extra: seq<HolderView>)
    ensures MassSum(hs + extra) == MassSum(hs) + MassSum(extra)
  {
    if hs == [] {
      assert hs + extra == extra;
    } else {
      assert (hs + extra)[1..] == hs[1..] + extra;
      MassSumAppend(hs[1..], extra);
    }
  }

  /** A leaf's count and mass are the number and the total mass of the entities
      considered: all of them, or the local ones under `local_only`. */
  lemma {:induction false} LeafTotalsAreKept(hs: seq<HolderView>, localOnly: bool)
    ensures LeafCount(hs, localOnly) == |Kept(hs, localOnly)|
    ensures LeafMass(hs, localOnly) == MassSum(Kept(hs, localOnly))
    ensures !localOnly ==> Kept(hs, localOnly) == hs
  {
    if hs != [] {
      var init := hs[..|hs| - 1];
      var last := hs[|hs| - 1];
      assert hs == init + [last];
      LeafTotalsAreKept(init, localOnly);
      KeptAppend(init, last, localOnly);
      var tail := if Considered(last, localOnly) then [last] else [];
      MassSumAppend(Kept(init, localOnly), tail);
      assert MassSum(tail) == if Considered(last, localOnly) then last.mass else 0.0 by {
        if Considered(last, localOnly) {
          assert tail[1..] == [];
        }
      }
    }
  }

  // ---------------------------------------------------------------------
  // Point operators

  /** `p + val`, `p - val` (as `p + (-val)`): every component shifted. */
  function Shifted(p: seq<real>, v: real): (r: seq<real>)
    ensures |r| == |p|
  {
    seq(|p|, i requires 0 <= i < |p| => p[i] + v)
  }

  /** Shifting back undoes a shift. */
  lemma ShiftInverse(p: seq<real>, v: real)
    ensures Shifted(Shifted(p, v), -v) == p
  {
    var r := Shifted(Shifted(p, v), -v);
    assert forall i :: 0 <= i < |p| ==> r[i] == p[i];
  }

  /** `operator==`: the first differing component answers false. */
  method PointEq(p: seq<real>, q: seq<real>) returns (r: bool)
    requires |p| == |q|
    ensures r <==> p == q
  {
    var i := 0;
    while i < |p|
      invariant i <= |p| && p[..i] == q[..i]
    {
      if p[i] != q[i] {
        return false;
      }
      assert p[..i + 1] == p[..i] + [p[i]] && q[..i + 1] == q[..i] + [q[i]];
      i := i + 1;
    }
    assert p == p[..i] && q == q[..i];
    return true;
  }

  /** `operator!=`: the first differing component answers true. */
  method PointNe(p: seq<real>, q: seq<real>) returns (r: bool)
    requires |p| == |q|
    ensures r <==> p != q
  {
    var i := 0;
    while i < |p|
      invariant i <= |p| && p[..i] == q[..i]
    {
      if p[i] != q[i] {
        return true;
      }
      assert p[..i + 1] == p[..i] + [p[i]] && q[..i + 1] == q[..i] + [q[i]];
      i := i + 1;
    }
    assert p == p[..i] && q == q[..i];
    return false;
  }

  /** `operator<`: false at the first component with `p[i] > q[i]`, so it is
      componentwise `<=` and holds for `p < p`. */
  method PointLess(p: seq<real>, q: seq<real>) returns (r: bool)
    requires |p| == |q|
    ensures r <==> forall i :: 0 <= i < |p| ==> p[i] <= q[i]
  {
    var i := 0;
    while i < |p|
      invariant i <= |p| && forall k :: 0 <= k < i ==> p[k] <= q[k]
    {
      if p[i] > q[i] {
        return false;
      }
      i := i + 1;
    }
    return true;
  }

  /** `operator>`: componentwise `>=`. */
  method PointGreater(p: seq<real>, q: seq<real>) returns (r: bool)
    requires |p| == |q|
    ensures r <==> forall i :: 0 <= i < |p| ==> p[i] >= q[i]
  {
    var i := 0;
    while i < |p|
      invariant i <= |p| && forall k :: 0 <= k < i ==> p[k] >= q[k]
    {
      if p[i] < q[i] {
        return false;
      }
      i := i + 1;
    }
    return true;
  }

  /** `operator+(p, val)`. */
  method PointAdd(p: seq<real>, v: real) returns (r: seq<real>)
    ensures r == Shifted(p, v)
  {
    r := p;
    var i := 0;
    while i < |p|
      invariant i <= |p| && |r| == |p|
      invariant forall k :: 0 <= k < i ==> r[k] == p[k] + v
      invariant forall k :: i <= k < |p| ==> r[k] == p[k]
    {
      r := r[i := r[i] + v];
      i := i + 1;
    }
  }

  /** `operator-(p, val)`. */
  method PointSub(p: seq<real>, v: real) returns (r: seq<real>)
    ensures r == Shifted(p, -v)
  {
    r := p;
    var i := 0;
    while i < |p|
      invariant i <= |p| && |r| == |p|
      invariant forall k :: 0 <= k < i ==> r[k] == p[k] - v
      invariant forall k :: i <= k < |p| ==> r[k] == p[k]
    {
      r := r[i := r[i] - v];
      i := i + 1;
    }
  }

  /** `operator*(p, q)`: componentwise product. */
  method PointMul(p: seq<real>, q: seq<real>) returns (r: seq<real>)
    requires |p| == |q|
    ensures |r| == |p| && forall i :: 0 <= i < |p| ==> r[i] == p[i] * q[i]
  {
    r := p;
    var i := 0;
    while i < |p|
      invariant i <= |p| && |r| == |p|
      invariant forall k :: 0 <= k < i ==> r[k] == p[k] * q[k]
      invariant forall k :: i <= k < |p| ==> r[k] == p[k]
    {
      r := r[i := r[i] * q[i]];
      i := i + 1;
    }
  }
}
