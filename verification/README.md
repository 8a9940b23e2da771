# Sparse CSR mm-reduce input validation, in Dafny

This project models the metadata-validation layer that guards PyTorch's
sparse-CSR x dense "mm-reduce" kernel (`aten/src/ATen/native/sparse/SparseCsrTensorMath.h`):

- `_is_sparse_and_zero`, the O(1) structural-emptiness test;
- `_check_is_cpu` and `_check_is_cuda`, the device checks;
- `_check_dim`, the rank check with "must be a matrix" wording for rank 2;
- `check_sparse_mm_reduce_impl_inputs<train>`, the fail-fast contract for the
  forward (`train` false) and backward (`train` true) calls over `self`,
  `grad_out`, `other` and the optional `row_indices`, `ccol_indices` and
  `csr2csc` index arrays.

A tensor is an immutable metadata record (`Tensors.Tensor`): whether it is
defined, its layout, device, sizes (the rank is the length of `sizes`),
scalar type, stored-nonzero count, dense dimension count, and the element
types of its `values()` and `col_indices()`. Every validator is a pure
function returning `Ok` or `Err(CheckError(kind, arg, pos))`. `arg` names the
tensor the failing check was applied to. `pos` is the position label of a
scalar-type error, the only error the source labels: `checkScalarType` takes a
named, numbered argument, while `checkLayout` and `check_dim_size` take a bare
tensor.

The three generic checks from `ATen/TensorUtils.h` are not part of this model.
`TensorUtils` gives each one a small abstract contract:
- `checkLayout`: the layout is the expected one.
- `checkScalarType`: the element type is the expected one.
- `check_dim_size(t, dim, dimIdx, size)`: the rank is `dim` and the size at
  `dimIdx` is `size`.

Modules:
- `Tensors`: layouts, devices, scalar types and the tensor record.
- `Outcomes`: the error record, sequential composition `Then`, and
  `FirstFailure`. `FirstFailure` runs an ordered table of checks up to its
  first violation.
- `TensorUtils`: the abstract contracts above.
- `MmReduceSpec`: independent reference definitions. `Valid` is the
  order-free conjunction of every constraint. `ExaminedArgs` lists the
  arguments a call examines. `IndexArrayLabel` defines position labels by
  counting the present index arrays. `Plan` is the contract as an ordered
  table of checks.
- `SparseCsrTensorMath`: the header's functions, following the source's
  branches and order.
- `MmReduceLemmas`: the validator equals `FirstFailure(Plan)`, ordering and
  label properties, independence from unexamined arguments, and concrete
  scenarios.

Backward mode reads `other.size(1)` (line 94) before `other`'s rank is
checked (line 100). The model turns that out-of-range read into its own
error, `DimOutOfRange` on `other`, instead of making it a precondition.
`torch`'s `size(d)` throws when `d` is out of range, so an `other` of rank 0
or 1 is rejected at that point. Line 93 runs to completion before line 94
evaluates its arguments. So this error comes after `grad_out`'s row check
and before its column check.

## Model

| member | source | states |
|---|---|---|
| SparseCsrTensorMath.IsSparseAndZero | aten/src/ATen/native/sparse/SparseCsrTensorMath.h:14-25 | true iff the layout is one of COO, CSR, CSC, BSR, BSC and nnz is 0; always false for a strided tensor or a nonzero nnz |
| SparseCsrTensorMath.CheckIsCpu | aten/src/ATen/native/sparse/SparseCsrTensorMath.h:27-35 | succeeds iff the device type is CPU; otherwise a device error naming the given argument |
| SparseCsrTensorMath.CheckIsCuda | aten/src/ATen/native/sparse/SparseCsrTensorMath.h:37-45 | succeeds iff the device type is CUDA; otherwise a device error naming the given argument |
| SparseCsrTensorMath.CheckDim | aten/src/ATen/native/sparse/SparseCsrTensorMath.h:47-63 | succeeds iff rank equals the target; for target 2 every failure is "not a matrix", so the generic rank error only arises for other targets |
| SparseCsrTensorMath.CheckIndexArray | aten/src/ATen/native/sparse/SparseCsrTensorMath.h:102-116 | an absent index array always passes; a present one passes iff it is a strided 1-D tensor of the index type with the expected length |
| SparseCsrTensorMath.CheckGradOut | aten/src/ATen/native/sparse/SparseCsrTensorMath.h:90-95 | passes iff grad_out is strided, of self's value type, with shape (self rows, other cols) and other has a dimension 1; blames other only after grad_out's layout, type and row checks passed and other has rank below 2 |
| SparseCsrTensorMath.CheckOther | aten/src/ATen/native/sparse/SparseCsrTensorMath.h:97-100 | passes iff other is strided, of self's value type, 2-D with self's column count as row count; every failure names other |
| SparseCsrTensorMath.CheckSparseMmReduceImplInputs | aten/src/ATen/native/sparse/SparseCsrTensorMath.h:65-117 | succeeds iff the order-free conjunction `Valid` holds; non-CSR self fails with a layout error whatever the other arguments, then hybrid, then rank; only examined arguments are ever blamed; only scalar-type errors carry a position |
| Outcomes.FirstFailure | aten/src/ATen/native/sparse/SparseCsrTensorMath.h:73-116 | running an ordered table of checks succeeds iff every check holds |
| Outcomes.FirstFailureIsFirst | aten/src/ATen/native/sparse/SparseCsrTensorMath.h:73-116 | the error reported is that of the earliest failing check |
| Outcomes.FirstFailureWitness | aten/src/ATen/native/sparse/SparseCsrTensorMath.h:73-116 | every reported error belongs to an earliest failing check |
| Outcomes.FirstFailureAppend | aten/src/ATen/native/sparse/SparseCsrTensorMath.h:73-116 | running two tables in sequence equals running their concatenation |
| MmReduceSpec.CountDefinedAppend | aten/src/ATen/native/sparse/SparseCsrTensorMath.h:102-115 | the count of present index arrays is additive over concatenation |
| MmReduceSpec.LabelsFollowPresence | aten/src/ATen/native/sparse/SparseCsrTensorMath.h:97-115 | each present index array's label is one more than that of the previous present one |
| MmReduceSpec.FirstPresentSharesOtherLabel | aten/src/ATen/native/sparse/SparseCsrTensorMath.h:97-104 | the first present index array gets the same label as other |
| MmReduceLemmas.IndexArrayLabels | aten/src/ATen/native/sparse/SparseCsrTensorMath.h:97-115 | row_indices gets other's label, ccol_indices adds one if row_indices is present, csr2csc adds one for each of those present |
| MmReduceLemmas.SelfStepsMatch | aten/src/ATen/native/sparse/SparseCsrTensorMath.h:73-83 | self is checked for CSR layout, then for being non-hybrid, then for rank 2, first failure reported |
| MmReduceLemmas.GradOutStepsMatch | aten/src/ATen/native/sparse/SparseCsrTensorMath.h:89-95 | backward grad_out checks are layout, type, row count, other's dimension 1, column count, in that order; forward runs none |
| MmReduceLemmas.OtherStepsMatch | aten/src/ATen/native/sparse/SparseCsrTensorMath.h:97-100 | other's checks are layout, type labelled 1 or 2, then shape, in that order |
| MmReduceLemmas.IndexArrayStepsMatch | aten/src/ATen/native/sparse/SparseCsrTensorMath.h:102-116 | each present index array is checked for layout, then type, then length; an absent one runs no check |
| MmReduceLemmas.CheckMatchesPlan | aten/src/ATen/native/sparse/SparseCsrTensorMath.h:65-117 | the validator is exactly the ordered table of checks run to its first violation |
| MmReduceLemmas.ReportsFirstViolation | aten/src/ATen/native/sparse/SparseCsrTensorMath.h:65-117 | when check i is the first to fail, the validator fails with check i's error |
| MmReduceLemmas.ErrorIsFirstViolation | aten/src/ATen/native/sparse/SparseCsrTensorMath.h:65-117 | every validator error is the error of some earliest failing check |
| MmReduceLemmas.ScalarTypeErrorsCarryLabels | aten/src/ATen/native/sparse/SparseCsrTensorMath.h:92-115 | a scalar-type error on grad_out is labelled 1, on other 1 (forward) or 2 (backward), on an index array other's label plus the present arrays before it |
| MmReduceLemmas.ForwardIgnoresGradOut | aten/src/ATen/native/sparse/SparseCsrTensorMath.h:89-95 | in forward mode any two grad_out tensors give the same result |
| MmReduceLemmas.AbsentIndexArraysIgnored | aten/src/ATen/native/sparse/SparseCsrTensorMath.h:102-116 | the metadata of an undefined index array never changes the result |
| MmReduceLemmas.ForwardWithoutIndexArrays | aten/src/ATen/native/sparse/SparseCsrTensorMath.h:97-100 | with valid self, forward mode and no index arrays, success iff other is a strided matrix of the value type with self's column count as rows; any failure names other |
| MmReduceLemmas.BackwardGradOutOrder | aten/src/ATen/native/sparse/SparseCsrTensorMath.h:89-100 | with valid self in backward mode, grad_out's layout, type, rows, other's rank and grad_out's columns are checked in that order; after they pass grad_out is never blamed |
| MmReduceLemmas.ForwardScenario | aten/src/ATen/native/sparse/SparseCsrTensorMath.h:97-100 | a 3x4 CSR self with a 4x5 other succeeds; with a 5x5 other it fails on other's shape |
| MmReduceLemmas.BackwardScenario | aten/src/ATen/native/sparse/SparseCsrTensorMath.h:89-95 | a 3x5 grad_out succeeds, a 4x5 grad_out fails on its shape, and a 1-D other fails when its dimension 1 is read |
| MmReduceLemmas.LabelScenario | aten/src/ATen/native/sparse/SparseCsrTensorMath.h:97-115 | in backward mode a wrongly typed row_indices is labelled 2, like other; with row_indices absent, csr2csc is labelled 3 |
| MmReduceLemmas.DeviceChecksExclusive | aten/src/ATen/native/sparse/SparseCsrTensorMath.h:27-45 | no tensor passes both device checks, and neither depends on the device index |
| MmReduceLemmas.StructuralEmptinessIgnoresSizes | aten/src/ATen/native/sparse/SparseCsrTensorMath.h:16-25 | a strided tensor of any sizes is never structurally empty; a stored nonzero makes any tensor non-empty; sizes never matter |
| TensorUtils.CheckLayout | aten/src/ATen/native/sparse/SparseCsrTensorMath.h:91 | abstract contract of checkLayout as called here: passes iff the layout is the expected one |
| TensorUtils.CheckScalarType | aten/src/ATen/native/sparse/SparseCsrTensorMath.h:92 | abstract contract of checkScalarType as called here: passes iff the element type is the expected one; the error carries the argument's position |
| TensorUtils.CheckDimSize | aten/src/ATen/native/sparse/SparseCsrTensorMath.h:93-94 | abstract contract of check_dim_size as called here: passes iff the rank is `dim` and the size at `dimIdx` is `size` |

## Left out

- The SpmmReduceKernel and ReductionType includes: the numeric reduction kernel (floating point, device dispatch) is not part of this contract.
- The implementations of checkLayout, checkScalarType and check_dim_size in ATen/TensorUtils are not part of this model; only the abstract contracts above stand for them.
- Error message texts, the CheckedFrom operation name (`sparse_mm_reduce` or `sparse_mm_reduce_backward`, determined by `train`) and the formatting of devices and sizes: only the error kind, the argument and the position label are modelled.
- Calls on an undefined mandatory tensor (`self`, `other`, or `grad_out` in backward mode): the model reads their metadata fields as given. It does not model the exception that torch's accessors raise on an undefined tensor.
- SparseCsrTensorMath.CheckSparseMmReduceImplInputs: `self.size(1) + 1` is computed on unbounded integers, so the 64-bit overflow at a column count of 2^63-1 is not modelled.
- Tensor storage and index contents are not modelled: crow_indices monotonicity, column-index bounds and the CSR-to-CSC computation are never checked by this file.
