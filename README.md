# FleCSPH tree core in Dafny

This project models the sequential logic at the heart of FleCSPH's distributed SPH tree, and proves properties of it. It has six parts:

- **The hashed (Morton) branch key `branch_id<T, D>`** (`morton_branch_id.dfy`, `morton_properties.dfy`, with bit arithmetic on `nat` in `bits.dfy`).
  - The key interleaves one bit per dimension and tree level of a point's integer grid coordinates.
  - A sentinel 1-bit sits above those bits and records the depth.
  - The key's operations are `root`, `null`, `depth`, `push`, `pop`, `pop(d)`, `parent`, `truncate`, comparison, and the integer decode `coordinates`.
- **The tree branch node `tree_branch`** (`tree_branch.dfy`): its entity list, child mask, locality tag and setters, as a class changed in place.
- **The tree policy of `include/tree.h`** (`tree_policy.dfy`):
  - body holders and their locality;
  - the policy branch that asks for `refine()` and `coarsen()`;
  - the bookkeeping part of `update_COM`, which covers counts, mass, centre moment, bounding box, the locality decision and the non-local counter;
  - the componentwise point operators.
- **The sequential parts of the MPI colorer `tree_colorer`** (`tree_colorer.dfy`, `branch_exchange.dfy`):
  - the (key, id) sort order;
  - the bucketing of the sorted bodies against splitters;
  - sample and splitter selection;
  - the hypercube schedule of the branch exchange and the owner filter;
  - the local range reduction.

  Data that the MPI collectives gather, receive or broadcast becomes method inputs.
- **The lattice initial-data generators of `include/lattice.h`** (`lattice.dfy`):
  - the domain predicates `in_domain_1d/2d/3d`;
  - the inscribed radius;
  - `generate_lattice_1d/2d/3d`, which count the points in the domain and optionally store them into three coordinate arrays from `posid` on;
  - generator selection by dimension.
- **The array utilities of the stellar-collapse EOS reader** (`util.dfy`): `find_min`, `find_max`, `find_index` and the abscissa clamp of `interp_1d`.

Integers are unbounded. Where the source's width matters it is written out:

- A key's unsigned integer is a `nat` below `2^bits`.
- `push` reduces modulo `2^bits`.

Doubles are `real`. The infinities that start `find_min` and `find_max` are explicit.

Where the code and its comments disagree, the model follows the code and says so:

- `pop(d)` checks `d >= depth()`, although its comment says it pops `d` levels.
- The 3-D rectangular lattice starts its z loop at the x minimum and its x loop at the z minimum.

Both are modelled literally and discussed under Findings.

## Model

| member | source | states |
|---|---|---|
| MortonBranchId.TopSentinel | include/tree_topology/morton_branch_id.h:66-68 | `max_depth * D + (bits - 1) % D == bits - 1`: at full depth the sentinel is the integer's top bit |
| MortonBranchId.BranchId.Null | include/tree_topology/morton_branch_id.h:70-72 | the default id is the null value 0 |
| MortonBranchId.BranchId.Root | include/tree_topology/morton_branch_id.h:116-122 | `root()` is the sentinel `1 << (bits - 1) % D` alone |
| MortonBranchId.BranchId.IsNull | include/tree_topology/morton_branch_id.h:138-143 | `is_null()` holds iff the id is 0; a null id of a valid key has depth 0 and is not the key of any branch |
| MortonBranchId.BranchId.Encode | include/tree_topology/morton_branch_id.h:82-107 | the constructor's nested bit loop builds the sentinel at bit `depth * D + (bits - 1) % D`, plus the interleaved bits of coordinate levels `max_depth - depth .. max_depth - 1` |
| MortonBranchId.BranchId.Depth | include/tree_topology/morton_branch_id.h:148-160 | the shift loop returns how often `id >>= D` stays non-zero |
| MortonBranchId.BranchId.Push | include/tree_topology/morton_branch_id.h:192-198 | requires `b < 2^D`; the new id is `(id << D) mod 2^bits` or-ed with `b` |
| MortonBranchId.BranchId.Pop | include/tree_topology/morton_branch_id.h:203-207 | requires depth > 0; the new id is the parent value `id >> D` |
| MortonBranchId.BranchId.PopLevels | include/tree_topology/morton_branch_id.h:212-218 | `pop(d)` as written: requires `d >= depth()` and shifts by `d * D` |
| MortonBranchId.BranchId.PopLevelsIntended | include/tree_topology/morton_branch_id.h:212-218 | `pop(d)` as its comment intends: requires `d <= depth()` and truncates to depth `depth - d` |
| MortonBranchId.BranchId.Parent | include/tree_topology/morton_branch_id.h:223-228 | returns a new id holding the parent value; the receiver is not modified |
| MortonBranchId.BranchId.Truncate | include/tree_topology/morton_branch_id.h:233-246 | no change when depth < t, otherwise drops `(depth - t) * D` low bits |
| MortonBranchId.BranchId.Equals | include/tree_topology/morton_branch_id.h:171-178 | `==` holds iff the integer keys are equal, which is exactly when neither id sorts before the other |
| MortonBranchId.BranchId.Less | include/tree_topology/morton_branch_id.h:295-302 | `<` is the order of the integer keys, and a branch's parent sorts before it |
| MortonBranchId.BranchId.Coordinates | include/tree_topology/morton_branch_id.h:315-339 | the decode loops give, per dimension, the collected bits shifted up by `max_depth - depth` |
| MortonBranchId.InterleaveBound | include/tree_topology/morton_branch_id.h:97-106 | `n` interleaved levels occupy exactly the low `n * D` bits |
| MortonBranchId.EncodeFits | include/tree_topology/morton_branch_id.h:86-107 | an id encoded at depth ≤ max_depth fits in `bits` bits |
| MortonBranchId.DepthBound | include/tree_topology/morton_branch_id.h:148-160 | the depth of any `bits`-bit value is at most max_depth |
| MortonBranchId.EncodeIsPush | include/tree_topology/morton_branch_id.h:97-106 | encoding at depth 0 is `root()`; encoding at depth d is the depth d-1 encoding shifted up one level with the next digit pushed in |
| MortonBranchId.ParentOfEncode | include/tree_topology/morton_branch_id.h:223-228 | the parent of a point's depth-d id is the same point's depth d-1 id |
| MortonBranchId.DepthOfEncode | include/tree_topology/morton_branch_id.h:86-107 | `depth()` of an id encoded at depth d is d |
| MortonBranchId.EncodeIsNotNull | include/tree_topology/morton_branch_id.h:138-143 | an encoded id is never null |
| MortonBranchId.AncestorOfEncode | include/tree_topology/morton_branch_id.h:233-246 | dropping k levels of a depth-d encoding gives the same point's depth d-k encoding |
| MortonBranchId.EncodeWellFormed | include/tree_topology/morton_branch_id.h:86-107 | an encoded id has exactly the root sentinel above its interleaved bits |
| MortonBranchId.TruncateEncode | include/tree_topology/morton_branch_id.h:233-246 | truncating a depth-d encoding to t ≤ d gives the depth-t encoding of the same point |
| MortonProperties.WellFormedSentinel | include/tree_topology/morton_branch_id.h:86 | in a well-formed id, bit `top = depth * D + (bits - 1) % D` is set and no bit above it is: one sentinel bit above the level bits |
| MortonProperties.RootAndNull | include/tree_topology/morton_branch_id.h:116-143 | root has depth 0 and is well formed; null has depth 0 and is not well formed |
| MortonProperties.WellFormedNotNull | include/tree_topology/morton_branch_id.h:138-143 | `is_null` holds for no well-formed id |
| MortonProperties.PushRoom | include/tree_topology/morton_branch_id.h:192-198 | below max_depth, shifting a well-formed id up one level does not overflow |
| MortonProperties.PushPop | include/tree_topology/morton_branch_id.h:192-207 | below max_depth, `push(b)` raises the depth by one and keeps the id well formed, and `pop()` restores the original id |
| MortonProperties.PushNoWrap | include/tree_topology/morton_branch_id.h:192-198 | without overflow, `push(b)` is `id * 2^D + b` |
| MortonProperties.PopWellFormed | include/tree_topology/morton_branch_id.h:203-207 | `pop()` on a well-formed id of positive depth lowers the depth by one and keeps it well formed |
| MortonProperties.PopPush | include/tree_topology/morton_branch_id.h:192-207 | pushing back the popped digit restores the id |
| MortonProperties.ChildOrder | include/tree_topology/morton_branch_id.h:296-302 | under `<`, a parent comes before its children, and the children are ordered by their digit |
| MortonProperties.AncestorIsShr | include/tree_topology/morton_branch_id.h:223-228 | k applications of `parent()` equal one shift by `k * D` |
| MortonProperties.ShrDepth | include/tree_topology/morton_branch_id.h:148-160 | shifting out k ≤ depth levels lowers the depth by k |
| MortonProperties.AncestorWellFormed | include/tree_topology/morton_branch_id.h:245 | dropping k ≤ depth levels keeps a well-formed id well formed |
| MortonProperties.TruncateWellFormed | include/tree_topology/morton_branch_id.h:233-246 | `truncate(t)` is a no-op when depth < t, and otherwise yields a well-formed id of depth t |
| MortonProperties.PopLevelsIntendedIsAncestor | include/tree_topology/morton_branch_id.h:212-218 | the intended `pop(d)` gives the d-th ancestor, of depth `depth - d`, still well formed |
| MortonProperties.PopLevelsAsWritten | include/tree_topology/morton_branch_id.h:212-218 | under the written check `d >= depth()`, `pop(d)` can only give root (d = depth) or null (d > depth) |
| MortonProperties.PopOneLevelRejected | include/tree_topology/morton_branch_id.h:216 | the 3-D depth-2 id 64: the written check rejects `pop(1)`, whose intended result is 8 |
| MortonProperties.LowCoordEncode | include/tree_topology/morton_branch_id.h:321-330 | the decode loop collects, per dimension, the top `depth` bits of the encoded coordinate |
| MortonProperties.DecodeEncode | include/tree_topology/morton_branch_id.h:315-339 | decoding an id encoded at depth d gives the input coordinates with their low `max_depth - d` bits cleared |
| MortonProperties.DecodeEncodeFull | include/tree_topology/morton_branch_id.h:315-339 | at full depth, decode after encode is the identity on grid coordinates |
| TreeBranch.NumChildren | include/tree_topology/tree_branch.h:69 | `num_children = 1 << dimension` is at least 1, and fits the 8-bit child mask exactly when the dimension is at most 3 |
| TreeBranch.LocalityCases | include/tree_topology/tree_branch.h:131-135 | `is_local` holds iff the locality is not NONLOCAL; a SHARED branch is local |
| TreeBranch.Branch.IsLocal | include/tree_topology/tree_branch.h:131-132 | `is_local()` holds iff the locality is LOCAL, EMPTY or SHARED, that is, not NONLOCAL |
| TreeBranch.Branch.IsShared | include/tree_topology/tree_branch.h:133-135 | `is_shared()` holds iff the locality is SHARED, and a shared branch is local |
| TreeBranch.Branch.Size | include/tree_topology/tree_branch.h:148-152 | `size()` is the length of the entity list; for a well-formed branch it is the number of distinct ids held |
| TreeBranch.NoDupCard | include/tree_topology/tree_branch.h:143-152 | a duplicate-free entity list has as many distinct ids as entries |
| TreeBranch.Branch.AsChild | include/tree_topology/tree_branch.h:171 | `as_child(i)` is bit i of the child mask; with the mask read as unsigned, a well-formed branch has no bit from 8 up set |
| TreeBranch.EraseSplices | include/tree_topology/tree_branch.h:154-158 | erasing removes exactly the first occurrence; the ids before and after it keep their order |
| TreeBranch.EraseCount | include/tree_topology/tree_branch.h:154-158 | erasing leaves one id fewer, and the multiset of ids loses one copy of the id |
| TreeBranch.EraseNoDup | include/tree_topology/tree_branch.h:154-158 | erasing from a duplicate-free list keeps it duplicate-free and leaves the id absent |
| TreeBranch.AppendNoDup | include/tree_topology/tree_branch.h:143-146 | appending an absent id keeps the list duplicate-free |
| TreeBranch.SetChildBit | include/tree_topology/tree_branch.h:166-171 | or-ing in bit i of a mask sets bit i, leaves every other bit unchanged, and stays within the 8-bit `char` |
| TreeBranch.Branch.constructor | include/tree_topology/tree_branch.h:73-78 | the default branch is fresh: an empty leaf with locality EMPTY, no sub-entities and no child bits, owned by the calling rank |
| TreeBranch.Branch.WithId | include/tree_topology/tree_branch.h:80-86 | the same fresh branch, with the given key |
| TreeBranch.Branch.Full | include/tree_topology/tree_branch.h:88-98 | sets key, centre, mass, box, locality and owner; the rest takes its defaults |
| TreeBranch.FreshIsLocal | include/tree_topology/tree_branch.h:198-211 | a fresh branch is a local, non-shared, childless leaf of size 0 |
| TreeBranch.Branch.Insert | include/tree_topology/tree_branch.h:143-146 | requires the id absent; appends it at the end, and `size()` grows by one |
| TreeBranch.Branch.Remove | include/tree_topology/tree_branch.h:154-158 | requires the id present; erases its first occurrence, and `size()` shrinks by one |
| TreeBranch.Branch.Clear | include/tree_topology/tree_branch.h:163 | the entity list becomes empty |
| TreeBranch.Branch.AddBitChild | include/tree_topology/tree_branch.h:166-169 | requires bit i clear; afterwards `as_child(i)` holds and every other `as_child` answer is unchanged |
| TreeBranch.Branch.SetBitChild | include/tree_topology/tree_branch.h:170 | the mask becomes the given one; only the mask changes |
| TreeBranch.Branch.SetCoordinates | include/tree_topology/tree_branch.h:108 | only the centre changes |
| TreeBranch.Branch.SetMass | include/tree_topology/tree_branch.h:109 | only the mass changes |
| TreeBranch.Branch.SetBmax | include/tree_topology/tree_branch.h:111 | only the box maximum changes |
| TreeBranch.Branch.SetBmin | include/tree_topology/tree_branch.h:112 | only the box minimum changes |
| TreeBranch.Branch.SetBeginTreeEntities | include/tree_topology/tree_branch.h:113-115 | only the first tree-entity index changes |
| TreeBranch.Branch.SetEndTreeEntities | include/tree_topology/tree_branch.h:116-118 | only the last tree-entity index changes |
| TreeBranch.Branch.SetLeaf | include/tree_topology/tree_branch.h:125 | only the leaf flag changes |
| TreeBranch.Branch.SetSubEntities | include/tree_topology/tree_branch.h:128 | only the sub-entity count changes |
| TreeBranch.Branch.SetLocality | include/tree_topology/tree_branch.h:129 | only the locality changes |
| TreeBranch.Branch.SetOwner | include/tree_topology/tree_branch.h:137 | only the owner changes |
| TreeBranch.Branch.SetGhostsLocal | include/tree_topology/tree_branch.h:138 | only the ghosts-local flag changes |
| TreeBranch.Branch.SetRequested | include/tree_topology/tree_branch.h:141 | only the requested flag changes |
| TreeBranch.Branch.SetId | include/tree_topology/tree_branch.h:177-183 | only the key changes |
| TreePolicy.BodyHolder.constructor | include/tree.h:72-89 | a holder without a body is NONLOCAL, one with a body is EXCL (local exactly when it has a body); the other fields take the arguments |
| TreePolicy.BodyHolder.Default | include/tree.h:91-100 | the default holder is NONLOCAL at the origin, with no body, owner -1, mass 0 and h 0 |
| TreePolicy.BodyHolder.SetShared | include/tree.h:114 | the holder becomes SHARED, hence local; nothing else changes |
| TreePolicy.BodyHolder.SetBody | include/tree.h:111 | only the body changes |
| TreePolicy.BodyHolder.SetId | include/tree.h:112 | only the id changes |
| TreePolicy.BodyHolder.SetH | include/tree.h:113 | only h changes |
| TreePolicy.PolicyBranch.constructor | include/tree.h:146 | a new policy branch is an empty leaf with locality EMPTY |
| TreePolicy.PolicyBranch.Insert | include/tree.h:148-153 | appends the id; asks for `refine()` exactly when the list then holds more than `2^D` ids |
| TreePolicy.PolicyBranch.Remove | include/tree.h:184-190 | requires the id present and erases its first occurrence; asks for `coarsen()` exactly when the list becomes empty |
| TreePolicy.Centre | include/tree.h:291-292 | with positive mass, each centre component times the mass is the moment; otherwise the moment is kept |
| TreePolicy.WidenAround | include/tree.h:283-287 | each box bound is widened to take in `x ± (epsilon + h)` |
| TreePolicy.Widen | include/tree.h:312-316 | each box bound is widened to take in the child's box |
| TreePolicy.AddMoment | include/tree.h:288 | each component gains `mass * x` |
| TreePolicy.LeafSummary | include/tree.h:271-292 | the leaf loop computes the reference leaf totals: locality, count, mass, moment and box |
| TreePolicy.LeafPrefixStep | include/tree.h:272-290 | each leaf total for `i + 1` entities follows from the one for `i` by one iteration of the loop body |
| TreePolicy.ChildSummary | include/tree.h:302-321 | the child loop computes the reference totals over the `2^D` children |
| TreePolicy.UpdateCom | include/tree.h:254-341 | the branch gets sub-entities, mass, centre, box and locality from the leaf or child totals. It is LOCAL iff some entity or child is local, otherwise NONLOCAL, and then the non-local counter is bumped |
| TreePolicy.AnyLocalHolderExists | include/tree.h:274-277 | a leaf is marked local iff some entity is local, including those skipped under `local_only` |
| TreePolicy.AnyLocalChildExists | include/tree.h:305-307 | an internal branch is marked local iff some child is local |
| TreePolicy.LeafBoxContains | include/tree.h:283-287 | every considered entity, widened by `epsilon + h`, lies inside the leaf's box |
| TreePolicy.LeafUpperAttained | include/tree.h:267-287 | the leaf's upper box bound is `-DBL_MAX` or equals `x + epsilon + h` of some considered entity |
| TreePolicy.LeafLowerAttained | include/tree.h:267-287 | the leaf's lower box bound is `DBL_MAX` or equals `x - epsilon - h` of some considered entity |
| TreePolicy.ChildBoxContains | include/tree.h:310-317 | every child of positive mass lies inside the branch's box |
| TreePolicy.ChildUpperAttained | include/tree.h:310-317 | children without positive mass never shape the box: its upper bound is `-DBL_MAX` or the upper bound of a child with positive mass |
| TreePolicy.ChildLowerAttained | include/tree.h:310-317 | the lower bound is `DBL_MAX` or the lower bound of a child with positive mass |
| TreePolicy.LeafTotalsAreKept | include/tree.h:278-289 | the leaf count and mass are the number and total mass of the considered entities, which are all of them unless `local_only` |
| TreePolicy.ShiftInverse | include/tree.h:372-394 | `(p + v) - v == p` |
| TreePolicy.PointEq | include/tree.h:348-358 | `==` holds iff all components are equal |
| TreePolicy.PointNe | include/tree.h:360-370 | `!=` holds iff some component differs |
| TreePolicy.PointLess | include/tree.h:396-406 | `<` holds iff every component is ≤ (so `p < p`) |
| TreePolicy.PointGreater | include/tree.h:408-418 | `>` holds iff every component is ≥ |
| TreePolicy.PointAdd | include/tree.h:372-382 | `p + v` shifts every component by v |
| TreePolicy.PointSub | include/tree.h:384-394 | `p - v` shifts every component by -v |
| TreePolicy.PointMul | include/tree.h:420-430 | `p * q` is the componentwise product |
| TreeColorer.NotBeforeTransitive | mpisph/tree_colorer.h:227-235 | the (key, id) comparator's "not before" relation is transitive |
| TreeColorer.SortIsSortedPermutation | mpisph/tree_colorer.h:224-235 | the local sort yields a permutation of the bodies, ordered by key with ties broken by id |
| TreeColorer.SortedByKeys | mpisph/tree_colorer.h:224-235 | ordered by (key, id) implies keys never decrease |
| TreeColorer.BucketTake | mpisph/tree_colorer.h:257-259 | a body within the current range is counted for the current process |
| TreeColorer.BucketNext | mpisph/tree_colorer.h:260-263 | a body at or above the next splitter closes the current process's count |
| TreeColorer.BucketDone | mpisph/tree_colorer.h:256-267 | once every body is placed, each count is the number of bodies in its splitter range, and the counts sum to the body count |
| TreeColorer.Colorer.constructor | mpisph/tree_colorer.h:150-184 | the send counts are sized by the number of processes and start at zero |
| TreeColorer.Colorer.ResetBuffers | mpisph/tree_colorer.h:121-140 | every send count returns to zero |
| TreeColorer.Colorer.Bucket | mpisph/tree_colorer.h:251-267 | requires sorted keys and splitters bounding them. `scount[p]` is the number of bodies with `splitter[p].key <= key < splitter[p+1].key`, and the counts sum to the body count |
| TreeColorer.Colorer.Qsort | mpisph/tree_colorer.h:211-267 | the bodies come out sorted by (key, id) as a permutation; with one process nothing else happens, otherwise the bucket counts are as for `Bucket` |
| TreeColorer.SampleCount | mpisph/tree_colorer.h:530-534 | the sample count is at most the number of local bodies and at most this process's share `MaxSamples * nvalues / totalnbodies` of the budget, truncated |
| TreeColorer.SamplePosition | mpisph/tree_colorer.h:536-537 | every sample position lies in `[0, nvalues)` |
| TreeColorer.SamplePositionMonotone | mpisph/tree_colorer.h:536-537 | sample positions never go backwards |
| TreeColorer.Colorer.SampleKeys | mpisph/tree_colorer.h:525-541 | exactly `nsample ≤ nvalues` pairs are taken, pair i from the body at sample position i |
| TreeColorer.SplitterPosition | mpisph/tree_colorer.h:596-598 | each middle splitter's index lies within the gathered samples |
| TreeColorer.SplitterPositionMonotone | mpisph/tree_colorer.h:596-598 | splitter indices never go backwards |
| TreeColorer.Colorer.Splitters | mpisph/tree_colorer.h:556-601 | `size + 1` splitters: `(min, 0)` first, `(max, LONG_MAX)` last, and middle splitter i is the sorted sample at `(nkeys / size) * i`. When the samples lie strictly inside the key range, so do the middle splitters, and all splitters are ordered |
| TreeColorer.MiddleSplitters | mpisph/tree_colorer.h:596-601 | middle splitters taken from the sorted samples are strictly inside the key range and ordered by (key, id) |
| TreeColorer.SampleInRange | mpisph/tree_colorer.h:599-600 | every sorted sample shares the bounds of the gathered samples |
| TreeColorer.RangeContains | mpisph/tree_colorer.h:462-475 | for every body and dimension, `lower ≤ x - r` and `x + r ≤ upper` |
| TreeColorer.RangeAttained | mpisph/tree_colorer.h:452-475 | each range end is the last body's coordinate or the ball bound of some body |
| TreeColorer.LocalRange | mpisph/tree_colorer.h:449-481 | on non-empty bodies the loop computes the reference range |
| BranchExchange.FloorLog2 | mpisph/tree_colorer.h:349 | `2^r ≤ n < 2^(r+1)` |
| BranchExchange.RoundCount | mpisph/tree_colorer.h:349-352 | the least d with `size ≤ 2^d` |
| BranchExchange.RoundCountFromLog | mpisph/tree_colorer.h:349-352 | `log2` truncated, plus one when that power falls short, is `ceil(log2(size))` |
| BranchExchange.PartnerDistinct | mpisph/tree_colorer.h:357-358 | `rank ^ (1 << i)` never equals rank |
| BranchExchange.PartnerSymmetric | mpisph/tree_colorer.h:357 | the partner's partner is the process itself |
| BranchExchange.ForeignMembers | mpisph/tree_colorer.h:416-421 | a branch is inserted iff it was received or packed and its owner is not this rank |
| BranchExchange.HypercubeRounds | mpisph/tree_colorer.h:349-400 | after `ceil(log2(size))` rounds the list is the own branches followed by what each existing partner sent; rounds with a partner ≥ size add nothing |
| BranchExchange.InsertForeign | mpisph/tree_colorer.h:416-421 | exactly the branches of other owners are inserted, in order |
| BranchExchange.ExchangeBranches | mpisph/tree_colorer.h:311-428 | packs the search branches, runs the rounds, and inserts the foreign ones |
| BranchExchange.AsWrittenIncomplete | mpisph/tree_colorer.h:349-400 | with 3 processes and 2 rounds, process 1 never holds process 2's branches |
| BranchExchange.AsWrittenCompleteOnPowerOfTwo | mpisph/tree_colorer.h:349-400 | with `2^d` processes the written schedule takes d rounds, and then every process holds every process's branches |
| BranchExchange.PowerOfTwoRun | mpisph/tree_colorer.h:355-361 | with `2^d` processes every partner exists, so the written and corrected schedules coincide |
| BranchExchange.CorrectedStep | mpisph/tree_colorer.h:355-361 | one corrected round doubles the block of processes each one holds |
| BranchExchange.CorrectedHoldsBlock | mpisph/tree_colorer.h:355-400 | after k corrected rounds each process holds exactly its aligned block of size `2^k` |
| BranchExchange.CorrectedComplete | mpisph/tree_colorer.h:349-400 | after `ceil(log2(size))` corrected rounds every process holds every process's branches, for every size |
| BranchExchange.ForeignOwners | mpisph/tree_colorer.h:416-421 | the owners of the inserted branches are exactly the owners of the gathered branches other than this rank |
| BranchExchange.GatheredIsHeld | mpisph/tree_colorer.h:355-400 | when every process runs the rounds and each receives what its partner holds, one process's gathered list is its list in the all-process view |
| BranchExchange.ReceivedIsGathered | mpisph/tree_colorer.h:355-400 | in such a run, what a process receives in round i is exactly the list its partner had gathered before round i |
| BranchExchange.HeldOwners | mpisph/tree_colorer.h:349-400 | when each process packs branches of its own rank only, after k rounds every process holds branches of exactly the processes the written schedule says it knows |
| BranchExchange.GatheredOwners | mpisph/tree_colorer.h:349-400 | the owners in a process's gathered list are the set the written schedule gives it after the same rounds |
| BranchExchange.ExchangeCompleteOnPowerOfTwo | mpisph/tree_colorer.h:349-421 | with `2^d` processes the exchange takes d rounds, every process then holds branches of every process, and it inserts those of every other process |
| BranchExchange.ExchangeIncompleteOnThree | mpisph/tree_colorer.h:349-400 | with 3 processes and 2 rounds, process 1 holds branches of processes 0 and 1 only, none of process 2 |
| Lattice.InsideReference1 | include/lattice.h:73-97 | `InDomain1`, the model of `in_domain_1d`, holds iff the point is in the box, and for a cube `|x - x0| ≤ r`, for a sphere `(x - x0)² < r²` |
| Lattice.InsideReference2 | include/lattice.h:99-126 | `InDomain2`, the model of `in_domain_2d`, is the generic test in two dimensions |
| Lattice.InsideReference3 | include/lattice.h:128-158 | `InDomain3`, the model of `in_domain_3d`, is the generic test in three dimensions |
| Lattice.InsideReference | include/lattice.h:73-158 | each of `InDomain1/2/3` (`in_domain_*`) holds iff the point is in the bounding box and, for domain type 0, within r of the centre in every coordinate; for type 1, at squared distance < r²; for type 2, with no further condition |
| Lattice.OutsideBoxRejected | include/lattice.h:73-158 | outside the bounding box, no domain type accepts a point |
| Lattice.MinExtentIsSmallest | include/lattice.h:294-300 | the radius loop's minimum is at most every extent and equals one of them |
| Lattice.InscribedRadiusFits | include/lattice.h:293-301 | for a cube or a sphere, twice the radius is the smallest extent; for type 2 the radius is 0 |
| Lattice.InscribedRadius | include/lattice.h:293-301 | the radius loop computes half the smallest extent for types 0 and 1, and 0 otherwise |
| Lattice.KeepMembers | include/lattice.h:194-204 | a point is accepted iff it is visited and lies in the domain |
| Lattice.RowMembers | include/lattice.h:194 | a row visits only points with `x0 ≤ x < xmax` at its own y and z |
| Lattice.GridAtClosed | include/lattice.h:194 | grid point `i` reached by `i` increments of `dx` from `x0` is `x0 + i * dx` |
| Lattice.GridAtAbove | include/lattice.h:194 | with a positive spacing, no grid point lies below the loop's start |
| Lattice.RowContains | include/lattice.h:194 | a row visits every one of its grid points that lies below `xmax` |
| Lattice.SheetMembers | include/lattice.h:262-263 | a plane visits only points with `y0 ≤ y < ymax` at its own z |
| Lattice.SheetContains | include/lattice.h:246-247 | an unstaggered plane visits every grid point `(i, j)` whose coordinates lie below the maxima |
| Lattice.StackMembers | include/lattice.h:340-342 | a stack visits only points with `z0 ≤ z < zmax` |
| Lattice.StackContains | include/lattice.h:323-325 | a rectangular stack visits every grid point `(i, j, k)` whose coordinates lie below the maxima |
| Lattice.AcceptedExactly | include/lattice.h:168-375 | a generator accepts exactly the visited points that the generic domain test admits |
| Lattice.AcceptedFlat | include/lattice.h:194-277 | 1-D stores `y = z = 0`; 2-D stores `z = 0` |
| Lattice.ScanRow | include/lattice.h:194-204 | the x loop adds the row's accepted points to the count and, unless counting only, stores them at the next free indices; nothing else changes |
| Lattice.ScanSheet | include/lattice.h:245-276 | the y loop does the same for the rows of a plane, with `yo` alternating 0 and 1 |
| Lattice.ScanStack | include/lattice.h:322-372 | the z loop does the same for the planes of a 3-D lattice, with its layer counter |
| Lattice.GenerateLattice1 | include/lattice.h:168-206 | returns the number of accepted points. Unless counting only, the k-th accepted point goes to index `posid + k`, and nothing else is written. The count does not depend on `count_only` |
| Lattice.GenerateLattice2 | include/lattice.h:208-278 | the same for the rectangular and triangular 2-D lattices |
| Lattice.GenerateLattice3 | include/lattice.h:280-375 | the same for the rectangular, hcp and fcc 3-D lattices (the rectangular loops as written) |
| Lattice.RectangularAsWrittenFloor | include/lattice.h:323 | as written, every rectangular 3-D point has `z ≥ xmin` |
| Lattice.IntendedRectangularCoversGrid | include/lattice.h:322-325 | with each loop starting at its own minimum, every grid point `bbox_min + (i, j, k) * sph_sep` inside the box is visited |
| Lattice.RectangularAsWrittenMissesCorner | include/lattice.h:322-338 | in `[0,1]×[0,1]×[-1,1]` the corner `(0,0,-1)` is in the domain and on the intended lattice, but the written generator never produces it |
| Lattice.SelectLatDimension | include/lattice.h:395-404 | a generator is installed iff the dimension is 1, 2 or 3, and it is the one of that dimension |
| Lattice.SelectRoundTrip | include/lattice.h:395-404 | each generator is the one selected for its own dimension |
| Lattice.CallGenerateLattice | include/lattice.h:407-421 | runs the selected generator, with the same count and stores as that generator |
| ArrayUtil.FindMin | third-party-libraries/stellar_collapse/util.c:51-57 | the result is ≤ every element. For size > 0 it equals some element; for size ≤ 0 it is +∞ |
| ArrayUtil.FindMax | third-party-libraries/stellar_collapse/util.c:59-65 | the result is ≥ every element. For size > 0 it equals some element; for size ≤ 0 it is -∞ |
| ArrayUtil.FindIndex | third-party-libraries/stellar_collapse/util.c:67-73 | returns the smallest i with `array[i] ≥ value`, or -1 iff there is none; always in `[-1, size)` |
| ArrayUtil.ClampAbscissa | third-party-libraries/stellar_collapse/util.c:82-83 | below xmin, x becomes xmin; above xmax, it becomes `xmax - SMALL`; otherwise it is unchanged. On a well-formed table it is the reference clamp |
| ArrayUtil.ClampedInTable | third-party-libraries/stellar_collapse/util.c:82-83 | with `0 < SMALL ≤ xmax - xmin`, the clamped abscissa lies in `[xmin, xmax]`, strictly below xmax when clamped from above |
| ArrayUtil.ClampedIdempotent | third-party-libraries/stellar_collapse/util.c:82-83 | clamping twice is clamping once |

## Left out

- MPI communication is not modelled. This covers `Isend`, `Probe`, `Recv`, `Wait`, `Gather(v)`, `Bcast`, `Allreduce`, the all-to-all exchange and `MPI_Comm_rank` in constructors. Gathered, received or broadcast data and the rank are method inputs.
- OpenMP regions are not modelled: `mpi_compute_range` is modelled as its sequential reduction.
- Floating-point rounding is not modelled: coordinates, masses and lattice stepping are `real`. The lattice loops' iteration counts are therefore exact, where doubles could add or drop a point at a boundary.
- The float quantisation of a point into grid coordinates in the key constructor is not modelled: the constructor takes the integer grid coordinates. The final float scaling of `coordinates()` is not modelled either.
- The `distance`-based radius of `update_COM` and `norm_point` are not modelled, because they need `sqrt`.
- The interpolation formula of `interp_1d` after the clamp is not modelled. `SMALL` is defined in a configuration header that is not part of this model, so it is a parameter.
- `sqrt(3.)` and `sqrt(2./3.)` in the lattice generators are positive parameters.
- `refine()`, `coarsen()`, `tree->get` and `tree->child` are not modelled: their tree-topology header is not part of this model. refine and coarsen are booleans returned by the branch operations, and the entities and children that `update_COM` reads are inputs.
- `output_`, the stream printers and the logging are output only, so they are not modelled.
- `entity_key_t::min()` and `max()` are the parameters `keyMin` and `keyMax` of `Splitters`.
- TreeColorer.Colorer.Splitters: the source's `master_nkeys = min(sum of counts, totalnbodies)` is modelled as the number of gathered samples, which is required to be ≤ totalnbodies.
- TreeColorer.Colorer.Splitters: the source asserts that every middle splitter lies strictly between the key minimum and maximum and aborts otherwise. The model has no abort path, and its guarantee that the middle splitters lie strictly inside holds only when every gathered sample does.
- BranchExchange.GatheredOwners: the link between one process's gathered list and the written schedule assumes that every process packs at least one branch, and only branches it owns. A process with no search branch contributes no owner, so the set it is known by stays empty.
- TreeColorer.Colorer.Qsort: the body exchange after bucketing and the second local sort are MPI and are not modelled. The library sort is specified by an insertion sort, whose order among equal (key, id) pairs may differ from `std::sort`.
- TreeColorer.Colorer.Bucket: requires bodies sorted by key and splitters that bound every key. The source only asserts the count afterwards. Without those preconditions the written loop runs `cur_proc` past the splitters.
- TreeColorer.Colorer.SampleKeys: `(double)nvalues / (double)totalnbodies` and the sample positions are computed on reals; `int64_t` truncation is modelled as `Floor`.
- The 64-bit counters `tparticles`, `posid`, `sub_entities` and `nchildren`, and the `int` send counts, are unbounded; overflow is not modelled.
- The `NULL` default arrays of the lattice generators are modelled as arrays that are not written when only counting.
- Lattice.InDomain1: the source falls off the end of the function for a domain type other than 0, 1 or 2. The model requires a type in that range, and so do `InDomain2`, `InDomain3` and the generators.
- Lattice.CallGenerateLattice: requires a dimension of 1, 2 or 3, because otherwise the source calls an unset function pointer.
- MortonBranchId.BranchId.PopLevels: a shift by the full width or more is undefined in C++, so the model requires `d * D < bits`.
- MortonBranchId.BranchId.Push: the model requires `b < 2^D`, as the source's assertion does. The shift of the sentinel past the top bit at max_depth is modelled as wrap-around modulo `2^bits`, and round trips are proved only below max_depth.
- MortonBranchId.BranchId.Equals and MortonBranchId.BranchId.Less compare the underlying integers, as the source does. `operator!=` is their negation and has no member of its own.
- TreeBranch.NumChildren is `2^D` by definition. The child mask is an 8-bit `char`, so `add_bit_child` is modelled for bits below 8.
- TreeBranch.Branch.AsChild: the child mask is read as an unsigned 8-bit value. Where `char` is signed, once bit 7 is set (the eighth child in three dimensions), `bit_child_ & 1<<i` sign-extends the mask, so `as_child(i)` is true for 8 ≤ i ≤ 30. The model answers false there. The promise of `TreeBranch.Branch.AddBitChild` that every other `as_child` answer stays unchanged holds under the same unsigned reading.
- TreePolicy.UpdateCom: the branch's radius is not computed. `tree->nonlocal_branches_add()` is modelled as an input counter and the returned new value.
- include/physics, the body record and the KH initial-data application are not part of this model.

## Findings

| source | as written | input that shows it | evidently intended | confidence | as-written member | corrected member |
|---|---|---|---|---|---|---|
| include/tree_topology/morton_branch_id.h:212-218 | `pop(d)` asserts `d >= depth()` and then shifts out `d` levels, so it can only return root or null | 3-D key 64 (depth 2): `pop(1)` fails the assertion, although its comment says it pops one level and the result should be 8 | assert `d <= depth()`, giving the d-th ancestor | not executed | MortonProperties.PopOneLevelRejected | MortonProperties.PopLevelsIntendedIsAncestor |
| mpisph/tree_colorer.h:349-400 | each round exchanges only with `rank ^ (1 << i)` when it is below size | 3 processes: process 1's partners are 0 and 3, so it never receives process 2's branches. The debug check at mpisph/tree_colorer.h:405-413 expects every process to hold the same number | in a round whose partner does not exist, receive from the first existing process of the partner's half-block, so every process ends up with every branch | not executed | BranchExchange.AsWrittenIncomplete | BranchExchange.CorrectedComplete |
| include/lattice.h:322-338 | the rectangular 3-D z loop starts at `bbox_min[0]` and the x loop at `bbox_min[2]` | box `[0,1]×[0,1]×[-1,1]`, spacing 1, whole-box domain: the corner `(0,0,-1)` is never generated | z starts at `bbox_min[2]` and x at `bbox_min[0]`, covering the grid anchored at the box minimum | not executed | Lattice.RectangularAsWrittenMissesCorner | Lattice.IntendedRectangularCoversGrid |
