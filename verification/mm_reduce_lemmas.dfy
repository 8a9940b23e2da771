/**
 Properties of the mm-reduce input contract: the validator is the ordered
 table of checks run to its first violation, position labels follow the
 presence of the optional index arrays, and the arguments a call does not
 examine cannot change its result.
 */
module MmReduceLemmas {
  import opened Tensors
  import opened Outcomes
  import opened TensorUtils
  import opened MmReduceSpec
  import opened SparseCsrTensorMath

  /** Running a table of one check. */
  lemma FirstFailureOfOne(a: Step)
    ensures FirstFailure([a]) == (if !a.holds then Err(a.error) else Ok)
  {
  }

  /** Running a table of three checks. */
  lemma FirstFailureOfThree(a: Step, b: Step, c: Step)
    ensures FirstFailure([a, b, c]) ==
      (if !a.holds then Err(a.error) else if !b.holds then Err(b.error)
       else if !c.holds then Err(c.error) else Ok)
  {
    FirstFailureOfOne(c);
    assert [b, c][1..] == [c];
    assert [a, b, c][1..] == [b, c];
  }

  /** Running a table of five checks. */
  lemma FirstFailureOfFive(a: Step, b: Step, c: Step, d: Step, e: Step)
    ensures FirstFailure([a, b, c, d, e]) ==
      (if !a.holds then Err(a.error) else if !b.holds then Err(b.error)
       else FirstFailure([c, d, e]))
  {
  }

  /** The labels of the three index arrays, spelled out. */
  lemma IndexArrayLabels(train: bool, rowIndices: Tensor, ccolIndices: Tensor, csr2csc: Tensor)
    ensures IndexArrayLabel(train, [rowIndices, ccolIndices, csr2csc], 0) == OtherLabel(train)
    ensures IndexArrayLabel(train, [rowIndices, ccolIndices, csr2csc], 1)
            == OtherLabel(train) + (if rowIndices.defined then 1 else 0)
    ensures IndexArrayLabel(train, [rowIndices, ccolIndices, csr2csc], 2)
            == OtherLabel(train) + (if rowIndices.defined then 1 else 0)
               + (if ccolIndices.defined then 1 else 0)
  {
    var arrays := [rowIndices, ccolIndices, csr2csc];
    assert arrays[..0] == [];
    assert arrays[..1] == [rowIndices];
    assert arrays[..2] == [rowIndices, ccolIndices];
    assert [rowIndices][1..] == [];
    assert [ccolIndices][1..] == [];
    assert CountDefined([ccolIndices]) == (if ccolIndices.defined then 1 else 0);
    assert [rowIndices, ccolIndices][1..] == [ccolIndices];
  }

  /** The three checks on self, as a table. */
  lemma SelfStepsMatch(self: Tensor)
    ensures FirstFailure(SelfSteps(self)) ==
      if self.layout != SparseCsr then Err(CheckError(LayoutMismatch, "self", None))
      else if self.denseDim != 0 then Err(CheckError(HybridUnsupported, "self", None))
      else if Rank(self) != 2 then Err(CheckError(RankMismatch, "self", None))
      else Ok
  {
    var s := SelfSteps(self);
    FirstFailureOfThree(s[0], s[1], s[2]);
  }

  /** The backward checks on grad_out, as a table. */
  lemma GradOutStepsMatch(train: bool, self: Tensor, gradOut: Tensor, other: Tensor)
    requires Rank(self) == 2
    ensures FirstFailure(GradOutSteps(train, self, gradOut, other)) ==
      if train then CheckGradOut(self, gradOut, other) else Ok
  {
    if train {
      var g := GradOutSteps(train, self, gradOut, other);
      FirstFailureOfFive(g[0], g[1], g[2], g[3], g[4]);
      FirstFailureOfThree(g[2], g[3], g[4]);
    }
  }

  /** The checks on other, as a table. */
  lemma OtherStepsMatch(train: bool, self: Tensor, other: Tensor)
    requires Rank(self) == 2
    ensures FirstFailure(OtherSteps(train, self, other)) == CheckOther(self, other, OtherLabel(train))
  {
    var o := OtherSteps(train, self, other);
    FirstFailureOfThree(o[0], o[1], o[2]);
  }

  /** The checks on one optional index array, as a table. */
  lemma IndexArrayStepsMatch(t: Tensor, arg: string, pos: nat, indexType: ScalarType, length: int)
    ensures FirstFailure(IndexArraySteps(t, arg, pos, indexType, length))
            == CheckIndexArray(t, arg, pos, indexType, length)
  {
    if t.defined {
      var s := IndexArraySteps(t, arg, pos, indexType, length);
      FirstFailureOfThree(s[0], s[1], s[2]);
    }
  }

  /** The validator is the ordered table `Plan` run up to its first violation. */
  lemma CheckMatchesPlan(train: bool, self: Tensor, gradOut: Tensor, other: Tensor,
                         rowIndices: Tensor, ccolIndices: Tensor, csr2csc: Tensor)
    ensures CheckSparseMmReduceImplInputs(train, self, gradOut, other, rowIndices, ccolIndices, csr2csc)
            == FirstFailure(Plan(train, self, gradOut, other, rowIndices, ccolIndices, csr2csc))
  {
    var arrays := [rowIndices, ccolIndices, csr2csc];
    var s := SelfSteps(self);
    var g := GradOutSteps(train, self, gradOut, other);
    var o := OtherSteps(train, self, other);
    var ri := IndexArraySteps(rowIndices, "row_indices", IndexArrayLabel(train, arrays, 0), self.colIndicesType, self.nnz);
    var cc := IndexArraySteps(ccolIndices, "ccol_indices", IndexArrayLabel(train, arrays, 1), self.colIndicesType, SizeOr0(self, 1) + 1);
    var cs := IndexArraySteps(csr2csc, "csr2csc", IndexArrayLabel(train, arrays, 2), self.colIndicesType, self.nnz);
    FirstFailureAppend(s + g + o + ri + cc, cs);
    FirstFailureAppend(s + g + o + ri, cc);
    FirstFailureAppend(s + g + o, ri);
    FirstFailureAppend(s + g, o);
    FirstFailureAppend(s, g);
    SelfStepsMatch(self);
    if Rank(self) == 2 {
      GradOutStepsMatch(train, self, gradOut, other);
      OtherStepsMatch(train, self, other);
      IndexArrayLabels(train, rowIndices, ccolIndices, csr2csc);
      IndexArrayStepsMatch(rowIndices, "row_indices", IndexArrayLabel(train, arrays, 0), self.colIndicesType, self.nnz);
      IndexArrayStepsMatch(ccolIndices, "ccol_indices", IndexArrayLabel(train, arrays, 1), self.colIndicesType, SizeOr0(self, 1) + 1);
      IndexArrayStepsMatch(csr2csc, "csr2csc", IndexArrayLabel(train, arrays, 2), self.colIndicesType, self.nnz);
    }
  }

  /** When check `i` of the table is the first to fail, its error is the one
      the validator reports. */
  lemma ReportsFirstViolation(train: bool, self: Tensor, gradOut: Tensor, other: Tensor,
                              rowIndices: Tensor, ccolIndices: Tensor, csr2csc: Tensor, i: int)
    requires FirstFailingAt(Plan(train, self, gradOut, other, rowIndices, ccolIndices, csr2csc), i)
    ensures CheckSparseMmReduceImplInputs(train, self, gradOut, other, rowIndices, ccolIndices, csr2csc)
            == Err(Plan(train, self, gradOut, other, rowIndices, ccolIndices, csr2csc)[i].error)
  {
    CheckMatchesPlan(train, self, gradOut, other, rowIndices, ccolIndices, csr2csc);
    FirstFailureIsFirst(Plan(train, self, gradOut, other, rowIndices, ccolIndices, csr2csc), i);
  }

  /** Every error the validator reports is that of the first failing check. */
  lemma ErrorIsFirstViolation(train: bool, self: Tensor, gradOut: Tensor, other: Tensor,
                              rowIndices: Tensor, ccolIndices: Tensor, csr2csc: Tensor)
    requires CheckSparseMmReduceImplInputs(train, self, gradOut, other, rowIndices, ccolIndices, csr2csc).Err?
    ensures exists i ::
      && FirstFailingAt(Plan(train, self, gradOut, other, rowIndices, ccolIndices, csr2csc), i)
      && CheckSparseMmReduceImplInputs(train, self, gradOut, other, rowIndices, ccolIndices, csr2csc).error
         == Plan(train, self, gradOut, other, rowIndices, ccolIndices, csr2csc)[i].error
  {
    CheckMatchesPlan(train, self, gradOut, other, rowIndices, ccolIndices, csr2csc);
    FirstFailureWitness(Plan(train, self, gradOut, other, rowIndices, ccolIndices, csr2csc));
  }

  /** A scalar-type error carries the failing argument's position label:
      grad_out 1, other 1 or 2, index arrays continuing from other's. */
  lemma ScalarTypeErrorsCarryLabels(train: bool, self: Tensor, gradOut: Tensor, other: Tensor,
                                    rowIndices: Tensor, ccolIndices: Tensor, csr2csc: Tensor)
    ensures var r := CheckSparseMmReduceImplInputs(train, self, gradOut, other, rowIndices, ccolIndices, csr2csc);
      r.Err? && r.error.kind == DTypeMismatch ==>
        r.error.pos == Some(ArgLabel(train, r.error.arg, rowIndices, ccolIndices, csr2csc))
  {
    IndexArrayLabels(train, rowIndices, ccolIndices, csr2csc);
  }

  /** In forward mode grad_out is never inspected. */
  lemma ForwardIgnoresGradOut(self: Tensor, gradOut1: Tensor, gradOut2: Tensor, other: Tensor,
                              rowIndices: Tensor, ccolIndices: Tensor, csr2csc: Tensor)
    ensures CheckSparseMmReduceImplInputs(false, self, gradOut1, other, rowIndices, ccolIndices, csr2csc)
            == CheckSparseMmReduceImplInputs(false, self, gradOut2, other, rowIndices, ccolIndices, csr2csc)
  {
  }

  /** The contents of an absent index array never matter. */
  lemma AbsentIndexArraysIgnored(train: bool, self: Tensor, gradOut: Tensor, other: Tensor,
                                 rowIndices: Tensor, ccolIndices: Tensor, csr2csc: Tensor)
    ensures !rowIndices.defined ==>
      CheckSparseMmReduceImplInputs(train, self, gradOut, other, rowIndices, ccolIndices, csr2csc)
      == CheckSparseMmReduceImplInputs(train, self, gradOut, other, Undefined, ccolIndices, csr2csc)
    ensures !ccolIndices.defined ==>
      CheckSparseMmReduceImplInputs(train, self, gradOut, other, rowIndices, ccolIndices, csr2csc)
      == CheckSparseMmReduceImplInputs(train, self, gradOut, other, rowIndices, Undefined, csr2csc)
    ensures !csr2csc.defined ==>
      CheckSparseMmReduceImplInputs(train, self, gradOut, other, rowIndices, ccolIndices, csr2csc)
      == CheckSparseMmReduceImplInputs(train, self, gradOut, other, rowIndices, ccolIndices, Undefined)
  {
  }

  /** With a valid self, forward mode and no index arrays, the call succeeds
      exactly when other is a dense matrix of self's value type with self's
      column count as its row count; otherwise other is blamed. */
  lemma ForwardWithoutIndexArrays(self: Tensor, gradOut: Tensor, other: Tensor)
    requires SelfValid(self)
    ensures var r := CheckSparseMmReduceImplInputs(false, self, gradOut, other, Undefined, Undefined, Undefined);
      && (r.Ok? <==> OtherValid(self, other))
      && (r.Err? ==> r.error.arg == "other")
  {
  }

  /** Backward mode checks grad_out right after self, in the order layout,
      scalar type, rows, then columns against other's column count. */
  lemma BackwardGradOutOrder(self: Tensor, gradOut: Tensor, other: Tensor,
                             rowIndices: Tensor, ccolIndices: Tensor, csr2csc: Tensor)
    requires SelfValid(self)
    ensures var r := CheckSparseMmReduceImplInputs(true, self, gradOut, other, rowIndices, ccolIndices, csr2csc);
      if gradOut.layout != Strided then r == Err(CheckError(LayoutMismatch, "grad_out", None))
      else if gradOut.scalarType != self.valuesType then r == Err(CheckError(DTypeMismatch, "grad_out", Some(1)))
      else if Rank(gradOut) != 2 || gradOut.sizes[0] != self.sizes[0] then r == Err(CheckError(SizeMismatch, "grad_out", None))
      else if Rank(other) < 2 then r == Err(CheckError(DimOutOfRange, "other", None))
      else if gradOut.sizes[1] != other.sizes[1] then r == Err(CheckError(SizeMismatch, "grad_out", None))
      else r.Err? ==> r.error.arg != "grad_out"
  {
  }

  /** A dense matrix on the CPU with the given sizes and element type. */
  function DenseMatrix(sizes: seq<int>, scalarType: ScalarType): Tensor {
    Tensor(true, Strided, Device(CPU, -1), sizes, scalarType, 0, 0, scalarType, Long)
  }

  /** A 3 x 4 CSR matrix of floats with two stored nonzeros. */
  const S3x4: Tensor := Tensor(true, SparseCsr, Device(CPU, -1), [3, 4], Float, 2, 0, Float, Long)

  /** Forward: S (3 x 4) times a 4 x 5 dense matrix is accepted; with a 5 x 5
      dense matrix, other's row count is rejected. */
  lemma ForwardScenario()
    ensures CheckSparseMmReduceImplInputs(false, S3x4, Undefined, DenseMatrix([4, 5], Float),
                                          Undefined, Undefined, Undefined) == Ok
    ensures CheckSparseMmReduceImplInputs(false, S3x4, Undefined, DenseMatrix([5, 5], Float),
                                          Undefined, Undefined, Undefined)
            == Err(CheckError(SizeMismatch, "other", None))
  {
  }

  /** Backward: a 3 x 5 grad_out is accepted, a 4 x 5 one is rejected, and a
      vector other is rejected when its column count is read. */
  lemma BackwardScenario()
    ensures CheckSparseMmReduceImplInputs(true, S3x4, DenseMatrix([3, 5], Float), DenseMatrix([4, 5], Float),
                                          Undefined, Undefined, Undefined) == Ok
    ensures CheckSparseMmReduceImplInputs(true, S3x4, DenseMatrix([4, 5], Float), DenseMatrix([4, 5], Float),
                                          Undefined, Undefined, Undefined)
            == Err(CheckError(SizeMismatch, "grad_out", None))
    ensures CheckSparseMmReduceImplInputs(true, S3x4, DenseMatrix([3, 5], Float), DenseMatrix([4], Float),
                                          Undefined, Undefined, Undefined)
            == Err(CheckError(DimOutOfRange, "other", None))
  {
  }

  /** Backward with all three index arrays of the wrong type: the first one
      examined is blamed with other's label 2; with row_indices absent and a
      valid ccol_indices, csr2csc's wrong type carries label 3. */
  lemma LabelScenario()
    ensures CheckSparseMmReduceImplInputs(true, S3x4, DenseMatrix([3, 5], Float), DenseMatrix([4, 5], Float),
                                          DenseMatrix([2], Int), DenseMatrix([5], Int), DenseMatrix([2], Int))
            == Err(CheckError(DTypeMismatch, "row_indices", Some(2)))
    ensures CheckSparseMmReduceImplInputs(true, S3x4, DenseMatrix([3, 5], Float), DenseMatrix([4, 5], Float),
                                          Undefined, DenseMatrix([5], Long), DenseMatrix([2], Int))
            == Err(CheckError(DTypeMismatch, "csr2csc", Some(3)))
  {
  }

  /** No tensor passes both device checks; neither looks at the device index. */
  lemma DeviceChecksExclusive(t: Tensor, index: int, name: string)
    ensures CheckIsCpu(t, name).Err? || CheckIsCuda(t, name).Err?
    ensures CheckIsCpu(t, name) == CheckIsCpu(t.(device := Device(t.device.kind, index)), name)
    ensures CheckIsCuda(t, name) == CheckIsCuda(t.(device := Device(t.device.kind, index)), name)
  {
  }

  /** Structural emptiness depends on layout and nonzero count only: a dense
      tensor of any sizes is never structurally empty, and a sparse one stops
      being so once it stores a nonzero. */
  lemma StructuralEmptinessIgnoresSizes(t: Tensor, sizes: seq<int>, nnz: int)
    ensures !IsSparseAndZero(t.(layout := Strided, sizes := sizes))
    ensures nnz > 0 ==> !IsSparseAndZero(t.(nnz := nnz))
    ensures IsSparseAndZero(t) == IsSparseAndZero(t.(sizes := sizes))
  {
  }
}
