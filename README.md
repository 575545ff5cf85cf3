# SPECFEM3D_GLOBE: mesher parameter validation and adjoint source injection

This project models two parts of SPECFEM3D_GLOBE in Dafny and proves properties
of both.

**The mesher component's parameter validation** (`module Mesher`, `mesher.dfy`).
The inventory validators require `NCHUNKS` to be 1, 2, 3 or 6 and `NPROC_XI`,
`NPROC_ETA` to be at least 1. `_validate` then runs twelve independent rules on
the chunk geometry, the processor topology and the element counts `NEX_*`. Each
failing rule reports its own error to the validation context, and there is no
early exit. `nproc` is the number of processors the mesh needs. The rule
conditions are pure integer and equality tests (`Fails`). `Errors` lists the
failing rules in source order. `Validate` is the imperative chain of `if`s,
appending to a `Context` object, and it is proved to append exactly `Errors`.
The lemmas show what acceptance means. An accepted configuration has `NEX_XI`
a multiple of `16 * NPROC_XI`, at least 48 elements, and, with more than two
chunks, a square processor grid. Acceptance is equivalent to a closed form
(`Acceptable`).

**The OpenCL adjoint source kernel** (`module AddSourcesAdjoint`,
`add_sources_adjoint.dfy`, over `module Accumulation`, `accumulation.dfy`).
Work-group `(id0, id1)` handles local adjoint record
`irec_local = id0 + num_groups0 * id1`. If that record exists, each of the group's
5 x 5 x 5 work items `(i, j, k)` finds the global node of GLL point `(i, j, k)` of
the record's element. It then atomically adds `source_adjoint[c] * xir[i] * etar[j] * gammar[k]`
to `accel[3 * iglob + c]` for `c = 0, 1, 2`. The tables hold 1-based record,
element and node numbers.

In the model, `accel` is an `array<real>` and the read-only tables are sequences.
A group runs its work items one after another, in linear local-id order, and the
atomic add is its compare-and-swap loop on a memory no one else writes. The
kernel is proved against a specification: the sequence of `Update`s its work
items issue. Applying those updates (`Accumulation.Apply`) gives every entry its
old value plus everything aimed at it, so any reordering gives the same buffer.
This order independence is what the atomic add provides when work items
interleave. The lemmas cover the index macros, bounds, the exact amount added at
each entry, the unchanged entries, and the inactive group.

`arithmetic.dfy` (`module Arithmetic`) holds the division facts both parts use.

## Model

| member | source | states |
|---|---|---|
| Mesher.InventoryErrors | Specfem3DGlobe/Mesher.py:30-34 | `NCHUNKS` is reported iff it is not one of 1, 2, 3, 6, and each processor count is reported iff it is below 1. Nothing else is reported, and there are no errors iff the inventory is valid. |
| Mesher.Context.constructor | Specfem3DGlobe/Mesher.py:41 | A fresh validation context holds no errors. |
| Mesher.Context.Error | Specfem3DGlobe/Mesher.py:47-48 | Reporting an error appends it to the context's errors and keeps the earlier ones. |
| Mesher.Validate | Specfem3DGlobe/Mesher.py:41-107 | `_validate` appends exactly the failing rules, in source order, to the errors already in the context. |
| Mesher.ValidateChunks | Specfem3DGlobe/Mesher.py:44-61 | The angular-width and topology checks append exactly their failing rules. |
| Mesher.ValidateCoarsening | Specfem3DGlobe/Mesher.py:63-75 | The four coarsening checks (blocks of 8 per processor, multiples of 8) append exactly their failing rules. |
| Mesher.ValidateMinimum | Specfem3DGlobe/Mesher.py:77-83 | The two minimum-size checks append exactly their failing rules. |
| Mesher.ValidatePerProc | Specfem3DGlobe/Mesher.py:85-105 | After computing elements per processor with floor division, the doubling and equal-per-processor checks append exactly their failing rules. |
| Mesher.GroupErrors | Specfem3DGlobe/Mesher.py:44-105 | Each of the four groups of checks reports exactly its own failing rules. |
| Mesher.ErrorsAreFailingRules | Specfem3DGlobe/Mesher.py:41-107 | A rule is reported iff its condition holds, because there is no early exit. A configuration is accepted iff no rule fails. |
| Mesher.WidthXiRule | Specfem3DGlobe/Mesher.py:45-48 | The xi-width error is reported iff there is more than one chunk and the xi width is not 90 degrees. |
| Mesher.WidthEtaRule | Specfem3DGlobe/Mesher.py:51-54 | With one or two chunks, no eta-width error is reported. With more chunks, it is reported iff the eta width is not 90 degrees. |
| Mesher.ProcTopologyRule | Specfem3DGlobe/Mesher.py:57-61 | The topology error is reported iff there are more than two chunks and `NPROC_XI != NPROC_ETA`. |
| Mesher.BlockRules | Specfem3DGlobe/Mesher.py:64-75 | `n % 8 == 0` and `(n / 8) % p == 0` together hold iff `n` is a multiple of `8 * p`. |
| Mesher.DoublingRule | Specfem3DGlobe/Mesher.py:86-97 | For `n` a multiple of `8 * p`, `(n / p) % 16 == 0` iff `n` is a multiple of `16 * p`, and `n / p` is exact. |
| Mesher.DivisibilityRules | Specfem3DGlobe/Mesher.py:64-97 | The block, multiple-of-8 and doubling rules on one direction hold together iff `n` is a multiple of `16 * p`. |
| Mesher.AcceptedBlocks | Specfem3DGlobe/Mesher.py:64-75 | An accepted configuration has `NEX_*` a multiple of 8 and of `8 * NPROC_*` in both directions. |
| Mesher.AcceptedMinimum | Specfem3DGlobe/Mesher.py:78-83 | An accepted configuration has `NEX_XI >= 48` and `NEX_ETA >= 48`. |
| Mesher.MinimumIsInclusive | Specfem3DGlobe/Mesher.py:78-83 | A single chunk of 48 by 48 elements on one processor is accepted, so 48 passes the rule. 47 is rejected. |
| Mesher.AcceptedDoubling | Specfem3DGlobe/Mesher.py:64-97 | An accepted configuration has `NEX_*` a multiple of `16 * NPROC_*`, and elements per processor are exact. |
| Mesher.AcceptedSquare | Specfem3DGlobe/Mesher.py:57-105 | With more than two chunks, an accepted configuration has equal processor counts, equal elements per processor and equal `NEX` in both directions. |
| Mesher.AcceptedIffAcceptable | Specfem3DGlobe/Mesher.py:41-107 | `_validate` accepts exactly the configurations of a closed form stated without the rules: widths, `NEX >= 48`, multiples of `16 * NPROC`, and a square mesh for more than two chunks. |
| Mesher.NProcBounds | Specfem3DGlobe/Mesher.py:127-129 | For a configuration the inventory validators admit, `nproc` is at least `NCHUNKS`, which is at least 1, and it is a multiple of `NCHUNKS`. |
| Mesher.DefaultIsValid | Specfem3DGlobe/Mesher.py:24-34 | The defaults (6 chunks, 90 by 90 degrees, `NEX` 64, `NPROC` 1) pass the inventory validators and every rule, and give `nproc == 6`. |
| Mesher.AllFailuresReported | Specfem3DGlobe/Mesher.py:41-107 | A configuration with bad widths and too few elements gets all six of its errors together, in source order. |
| AddSourcesAdjoint.Index2Inverse | src/gpu/kernels.gen/compute_add_sources_adjoint_kernel_cl.c:45-47 | `INDEX2(isize, i, j)` with `0 <= i < isize` lies in column `j`, and division by `isize` recovers `j` and `i`. |
| AddSourcesAdjoint.Index4Nested | src/gpu/kernels.gen/compute_add_sources_adjoint_kernel_cl.c:45-53 | `INDEX4` is `INDEX2` nested three times. |
| AddSourcesAdjoint.Index4Inverse | src/gpu/kernels.gen/compute_add_sources_adjoint_kernel_cl.c:51-53 | `INDEX4` with in-range `i, j, k` can be decoded back to `(i, j, k, x)`. |
| AddSourcesAdjoint.Index4Injective | src/gpu/kernels.gen/compute_add_sources_adjoint_kernel_cl.c:51-53 | Distinct `(i, j, k, ispec)` with `0 <= i, j, k < 5` give distinct `ibool` entries. |
| AddSourcesAdjoint.Index4Range | src/gpu/kernels.gen/compute_add_sources_adjoint_kernel_cl.c:51-53 | The GLL points of element `ispec` occupy `[125 * ispec, 125 * ispec + 125)` of `ibool`. |
| AddSourcesAdjoint.WorkItemUpdates | src/gpu/kernels.gen/compute_add_sources_adjoint_kernel_cl.c:103-113 | The adds a work item issues all aim inside `accel`. |
| AddSourcesAdjoint.GroupUpdates | src/gpu/kernels.gen/compute_add_sources_adjoint_kernel_cl.c:103-113 | The adds of a group's work items all aim inside `accel`. |
| AddSourcesAdjoint.CompareExchange | src/gpu/kernels.gen/compute_add_sources_adjoint_kernel_cl.c:43 | `atomic_cmpxchg` returns the old content, and it stores the new value iff the old content equals the expected one. |
| AddSourcesAdjoint.AtomicAdd | src/gpu/kernels.gen/compute_add_sources_adjoint_kernel_cl.c:35-44 | The read and compare-and-swap loop ends with `*source == orig + val`, and no other entry changes. |
| AddSourcesAdjoint.WorkItem | src/gpu/kernels.gen/compute_add_sources_adjoint_kernel_cl.c:95-115 | The kernel body, run by work item `(i, j, k)` of the group whose `irec_local` is `r`, leaves `accel` as the work item's specified adds applied to the old `accel`. |
| AddSourcesAdjoint.WorkGroup | src/gpu/kernels.gen/compute_add_sources_adjoint_kernel_cl.c:95-115 | A group's 125 work items, in linear local-id order, leave `accel` as all of the group's adds applied to the old `accel`. |
| AddSourcesAdjoint.LocalIdsEnumerateBlock | src/gpu/kernels.gen/compute_add_sources_adjoint_kernel_cl.c:107-109 | The group has 125 work items, and each `(i, j, k)` of the 5 x 5 x 5 block is the work item with linear id `i + 5 * (j + 5 * k)`. |
| AddSourcesAdjoint.RecordIndexInjective | src/gpu/kernels.gen/compute_add_sources_adjoint_kernel_cl.c:103 | Distinct groups of one launch handle distinct records. |
| AddSourcesAdjoint.RecordHandled | src/gpu/kernels.gen/compute_add_sources_adjoint_kernel_cl.c:103 | Every record `r` is handled by group `(r % num_groups0, r / num_groups0)`. |
| AddSourcesAdjoint.AccessesInBounds | src/gpu/kernels.gen/compute_add_sources_adjoint_kernel_cl.c:105-113 | When the stored 1-based numbers are at least 1 and fit their tables, every read of the kernel and all three writes into `accel` are in bounds. |
| AddSourcesAdjoint.SharesOutside | src/gpu/kernels.gen/compute_add_sources_adjoint_kernel_cl.c:110-113 | A node that is no GLL point of the element receives nothing. |
| AddSourcesAdjoint.WorkItemDelta | src/gpu/kernels.gen/compute_add_sources_adjoint_kernel_cl.c:110-113 | A work item's adds total, at component `c` of node `x`, its weight `source_adjoint[c] * xir[i] * etar[j] * gammar[k]` if `x` is its node, and 0 otherwise. |
| AddSourcesAdjoint.WorkItemEffect | src/gpu/kernels.gen/compute_add_sources_adjoint_kernel_cl.c:104-113 | One work item increases `accel[3 * iglob + c]` by exactly its weight for component `c` and leaves every other entry alone. A work item of a group without a record changes nothing. |
| AddSourcesAdjoint.GroupDeltaStep | src/gpu/kernels.gen/compute_add_sources_adjoint_kernel_cl.c:110-113 | Appending one more work item's adds to any sequence of adds raises the total at each node component by exactly that work item's share. |
| AddSourcesAdjoint.GroupDelta | src/gpu/kernels.gen/compute_add_sources_adjoint_kernel_cl.c:110-113 | A group's adds total, at each node component, the sum of its work items' shares. |
| AddSourcesAdjoint.InactiveGroupAddsNothing | src/gpu/kernels.gen/compute_add_sources_adjoint_kernel_cl.c:103-104 | A group whose `irec_local >= nadj_rec_local` issues no adds. |
| AddSourcesAdjoint.InactiveGroupUnchanged | src/gpu/kernels.gen/compute_add_sources_adjoint_kernel_cl.c:103-104 | When `irec_local >= nadj_rec_local`, `accel` is left entirely unchanged. |
| AddSourcesAdjoint.ActiveGroupAdds | src/gpu/kernels.gen/compute_add_sources_adjoint_kernel_cl.c:103-113 | After an active group, every entry of `accel` holds its old value plus the weights of exactly those work items whose node it belongs to. |
| AddSourcesAdjoint.OnlyElementNodesChange | src/gpu/kernels.gen/compute_add_sources_adjoint_kernel_cl.c:110-113 | Entries of `accel` whose node is not a GLL point of the record's element keep their old value. |
| AddSourcesAdjoint.GroupOrderIrrelevant | src/gpu/kernels.gen/compute_add_sources_adjoint_kernel_cl.c:35-44 | Any reordering or interleaving of the group's atomic adds leaves the same `accel`. |
| Accumulation.ApplyAt | src/gpu/kernels.gen/compute_add_sources_adjoint_kernel_cl.c:35-44 | After a sequence of atomic adds, each entry holds its old value plus the sum of the values added there. |
| Accumulation.ApplyUntargeted | src/gpu/kernels.gen/compute_add_sources_adjoint_kernel_cl.c:35-44 | An entry that no add aims at keeps its value. |
| Accumulation.ApplyConcat | src/gpu/kernels.gen/compute_add_sources_adjoint_kernel_cl.c:111-113 | Doing one batch of adds and then another is the same as doing both in sequence. |
| Accumulation.ApplyPermutation | src/gpu/kernels.gen/compute_add_sources_adjoint_kernel_cl.c:35-44 | Any permutation of a sequence of atomic adds leaves the same buffer. |
| Accumulation.SumOfPermutation | src/gpu/kernels.gen/compute_add_sources_adjoint_kernel_cl.c:35-44 | A sum of added values does not depend on the order of its terms. |

## Left out

- `execute` (Specfem3DGlobe/Mesher.py:136-143) is left out. It is a foreign call into the Fortran mesher, plus a dry-run print.
- `super(Mesher, self)._validate(context)` (line 42) and the rest of the pyre framework are left out. This covers inventory declarations, `context.error` internals, the `ValueError` messages and the `metainventory` items attached to each error. Each error is reduced to its rule tag (`Mesher.Rule`), and each inventory-validator failure to its item (`Mesher.Param`).
- `_configure` (lines 114-124) is left out. It converts dimensional angles to degrees by floating-point division through an external units library. The model takes angles as real numbers of degrees and compares them with 90.
- The minimum-size messages say "greater than 48", but the code rejects only values below 48. The model follows the code, so 48 is accepted (`Mesher.MinimumIsInclusive`).
- `Mesher.Errors` and `Mesher.Validate` require `NPROC_XI, NPROC_ETA >= 1`. The inventory validators guarantee this; without it, Python would raise a division error at lines 64, 67, 86 and 87.
- `AddSourcesAdjoint.AtomicAdd`: the concurrency mechanics are not modelled. This covers volatile global memory, other work items writing between the read and the compare-and-swap, and retries. The model runs the loop on a memory no one else writes, so it ends after one iteration. Concurrency is covered instead by order independence (`AddSourcesAdjoint.GroupOrderIrrelevant`).
- `AddSourcesAdjoint.CompareExchange` compares values, while the source compares the bit patterns of a float/uint union. Those can differ for NaN and signed zero, which reals do not have.
- Floating-point rounding is not modelled: values are reals. Single-precision sums depend on the order of the adds, unlike the real sums here.
- 32-bit `int` overflow in the index arithmetic is not modelled: integers are unbounded.
- Launch geometry beyond one group is not modelled. The local work size of 5 x 5 x 5 is a precondition (`InBlock`), and the whole-grid launch is not a loop in the model. Groups are tied together only by `AddSourcesAdjoint.RecordIndexInjective` and `AddSourcesAdjoint.RecordHandled`.
- Aliasing between `accel` and the read-only kernel arguments is not modelled: those arguments are immutable sequences.
- The macros the kernel body does not use (`INDEX3`, `INDEX5`, `NGLL3_PADDED`, `N_SLS`, the region, coloring and blocksize constants) are left out.
- The per-element force, stress, anisotropy, attenuation and weak-form kernels are not part of this model.
