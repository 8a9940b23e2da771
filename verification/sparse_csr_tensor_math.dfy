/**
 The validation layer in front of the sparse-CSR x dense "mm-reduce" kernel:
 a structural-emptiness test, device and rank checks, and the cross-tensor
 contract of the forward and backward calls.
 */
module SparseCsrTensorMath {
  import opened Tensors
  import opened Outcomes
  import opened TensorUtils
  import opened MmReduceSpec

  /** A tensor is structurally empty when it has a sparse layout and stores
      no nonzeros. A dense tensor never is, whatever its sizes or values. */
  function IsSparseAndZero(self: Tensor): (r: bool)
    ensures r <==> IsSparseLayout(self.layout) && self.nnz == 0
    ensures self.layout == Strided ==> !r
    ensures self.nnz != 0 ==> !r
  {
    if self.layout == Sparse || self.layout == SparseCsr
       || self.layout == SparseCsc || self.layout == SparseBsr
       || self.layout == SparseBsc
    then self.nnz == 0
    else false
  }

  /** The tensor must live on a CPU device; nothing else is inspected. */
  function CheckIsCpu(self: Tensor, name: string): (r: Outcome)
    ensures r.Ok? <==> self.device.kind == CPU
    ensures r.Err? ==> r.error == CheckError(DeviceMismatch, name, None)
  {
    if self.device.kind != CPU then Err(CheckError(DeviceMismatch, name, None)) else Ok
  }

  /** The tensor must live on a CUDA device; nothing else is inspected. */
  function CheckIsCuda(self: Tensor, name: string): (r: Outcome)
    ensures r.Ok? <==> self.device.kind == CUDA
    ensures r.Err? ==> r.error == CheckError(DeviceMismatch, name, None)
  {
    if self.device.kind != CUDA then Err(CheckError(DeviceMismatch, name, None)) else Ok
  }

  /** The tensor must have `targetDim` dimensions. When a matrix is required
      every failure is reported as "not a matrix", so the generic rank error
      is only ever raised for other targets. */
  function CheckDim(self: Tensor, targetDim: int, name: string): (r: Outcome)
    ensures r.Ok? <==> Rank(self) == targetDim
    ensures r.Err? ==> r.error.arg == name && r.error.pos == None
    ensures r.Err? && targetDim == 2 ==> r.error.kind == NotAMatrix
    ensures r.Err? && targetDim != 2 ==> r.error.kind == RankMismatch
  {
    var matrixCheck :=
      if targetDim == 2 && Rank(self) != targetDim
      then Err(CheckError(NotAMatrix, name, None))
      else Ok;
    matrixCheck.Then(
      if Rank(self) != targetDim then Err(CheckError(RankMismatch, name, None)) else Ok)
  }

  /** A present optional index array must be a dense vector of the index type
      with the given length; an absent one is not examined. */
  function CheckIndexArray(t: Tensor, arg: string, pos: nat, indexType: ScalarType, length: int): (r: Outcome)
    ensures r.Ok? <==> IndexArrayValid(t, indexType, length)
    ensures !t.defined ==> r.Ok?
  {
    if !t.defined then Ok
    else
      CheckLayout(t, Strided, arg)
      .Then(CheckScalarType(t, arg, pos, indexType))
      .Then(CheckDimSize(t, arg, 1, 0, length))
  }

  /** Backward only: grad_out must be a dense matrix of the value type with
      self's row count and other's column count. Other's size at dimension 1
      is read after grad_out's row count is checked but before other's own
      rank is, so an `other` of rank below 2 fails here, blamed on other. */
  function CheckGradOut(self: Tensor, gradOut: Tensor, other: Tensor): (r: Outcome)
    requires Rank(self) == 2
    ensures r.Ok? <==> GradOutValid(self, gradOut, other)
    ensures r.Err? && r.error.arg == "other" ==>
              gradOut.layout == Strided && gradOut.scalarType == self.valuesType
              && Rank(gradOut) == 2 && gradOut.sizes[0] == self.sizes[0] && Rank(other) < 2
  {
    CheckLayout(gradOut, Strided, "grad_out")
    .Then(CheckScalarType(gradOut, "grad_out", 1, self.valuesType))
    .Then(CheckDimSize(gradOut, "grad_out", 2, 0, self.sizes[0]))
    .Then(
      if Rank(other) < 2 then Err(CheckError(DimOutOfRange, "other", None))
      else CheckDimSize(gradOut, "grad_out", 2, 1, other.sizes[1]))
  }

  /** other must be a dense matrix of the value type whose row count is
      self's column count. */
  function CheckOther(self: Tensor, other: Tensor, pos: nat): (r: Outcome)
    requires Rank(self) == 2
    ensures r.Ok? <==> OtherValid(self, other)
    ensures r.Err? ==> r.error.arg == "other"
  {
    CheckLayout(other, Strided, "other")
    .Then(CheckScalarType(other, "other", pos, self.valuesType))
    .Then(CheckDimSize(other, "other", 2, 0, self.sizes[1]))
  }

  /** The input contract of sparse mm-reduce, forward (`train` false) and
      backward (`train` true). Checks run in a fixed order and the first
      violation is the one reported:
        self: CSR layout, then non-hybrid, then 2-D;
        backward only, grad_out: dense, value type, 2-D with self's row
          count, then other's column count (reading other's size at
          dimension 1 before other's rank is known);
        other: dense, value type, 2-D with self's column count;
        each present index array: dense, index type, 1-D of length nnz
          (row_indices, csr2csc) or self's column count + 1 (ccol_indices).
      Scalar-type errors carry a position label: grad_out is 1, other is 1
      forward and 2 backward, and the present index arrays continue from
      other's label, the first of them repeating it. */
  function CheckSparseMmReduceImplInputs(
    train: bool, self: Tensor, gradOut: Tensor, other: Tensor,
    rowIndices: Tensor, ccolIndices: Tensor, csr2csc: Tensor): (r: Outcome)
    ensures r.Ok? <==> Valid(train, self, gradOut, other, rowIndices, ccolIndices, csr2csc)
    ensures self.layout != SparseCsr ==> r == Err(CheckError(LayoutMismatch, "self", None))
    ensures self.layout == SparseCsr && self.denseDim != 0 ==>
              r == Err(CheckError(HybridUnsupported, "self", None))
    ensures self.layout == SparseCsr && self.denseDim == 0 && Rank(self) != 2 ==>
              r == Err(CheckError(RankMismatch, "self", None))
    ensures r.Err? ==> r.error.arg in ExaminedArgs(train, rowIndices, ccolIndices, csr2csc)
    ensures r.Err? ==> (r.error.pos.Some? <==> r.error.kind == DTypeMismatch)
  {
    if self.layout != SparseCsr then Err(CheckError(LayoutMismatch, "self", None))
    else if self.denseDim != 0 then Err(CheckError(HybridUnsupported, "self", None))
    else if Rank(self) != 2 then Err(CheckError(RankMismatch, "self", None))
    else
      var indexScalarType := self.colIndicesType;
      var nnz := self.nnz;
      var gradOutCheck :=
        if train then CheckGradOut(self, gradOut, other) else Ok;
      // the position counter: other takes `pos`, each present index array
      // takes the current value and then advances it
      var pos: nat := if train then 2 else 1;
      var posCcol: nat := pos + (if rowIndices.defined then 1 else 0);
      var posCsr2csc: nat := posCcol + (if ccolIndices.defined then 1 else 0);
      gradOutCheck
      .Then(CheckOther(self, other, pos))
      .Then(CheckIndexArray(rowIndices, "row_indices", pos, indexScalarType, nnz))
      .Then(CheckIndexArray(ccolIndices, "ccol_indices", posCcol, indexScalarType, self.sizes[1] + 1))
      .Then(CheckIndexArray(csr2csc, "csr2csc", posCsr2csc, indexScalarType, nnz))
  }
}
