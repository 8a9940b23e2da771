/**
 Order-free reference definitions for the sparse mm-reduce input contract:
 what valid inputs are, which arguments a call examines, which position label
 each argument carries, and the ordered table of checks the validator runs.
 */
module MmReduceSpec {
  import opened Tensors
  import opened Outcomes

  /** `self` is a non-hybrid sparse CSR matrix. */
  predicate SelfValid(self: Tensor) {
    self.layout == SparseCsr && self.denseDim == 0 && Rank(self) == 2
  }

  /** Backward only: `grad_out` is a dense matrix of the output's element type
      and shape `(self.rows, other.cols)`. */
  predicate GradOutValid(self: Tensor, gradOut: Tensor, other: Tensor)
    requires Rank(self) == 2
  {
    && gradOut.layout == Strided
    && gradOut.scalarType == self.valuesType
    && Rank(other) >= 2
    && gradOut.sizes == [self.sizes[0], other.sizes[1]]
  }

  /** `other` is a dense matrix of `self`'s value type with `self.cols` rows. */
  predicate OtherValid(self: Tensor, other: Tensor)
    requires Rank(self) == 2
  {
    && other.layout == Strided
    && other.scalarType == self.valuesType
    && Rank(other) == 2
    && other.sizes[0] == self.sizes[1]
  }

  /** An optional index array is either absent or a dense vector of the index
      type with the given length. */
  predicate IndexArrayValid(t: Tensor, indexType: ScalarType, length: int) {
    !t.defined || (t.layout == Strided && t.scalarType == indexType && t.sizes == [length])
  }

  /** All constraints of the contract at once, in no particular order. */
  predicate Valid(train: bool, self: Tensor, gradOut: Tensor, other: Tensor,
                  rowIndices: Tensor, ccolIndices: Tensor, csr2csc: Tensor)
  {
    && SelfValid(self)
    && (train ==> GradOutValid(self, gradOut, other))
    && OtherValid(self, other)
    && IndexArrayValid(rowIndices, self.colIndicesType, self.nnz)
    && IndexArrayValid(ccolIndices, self.colIndicesType, self.sizes[1] + 1)
    && IndexArrayValid(csr2csc, self.colIndicesType, self.nnz)
  }

  /** Names of the arguments a call examines: `grad_out` only when training,
      the index arrays only when present. */
  function ExaminedArgs(train: bool, rowIndices: Tensor, ccolIndices: Tensor, csr2csc: Tensor): set<string> {
    {"self", "other"}
    + (if train then {"grad_out"} else {})
    + (if rowIndices.defined then {"row_indices"} else {})
    + (if ccolIndices.defined then {"ccol_indices"} else {})
    + (if csr2csc.defined then {"csr2csc"} else {})
  }

  /** Position label of `other`: 2 when `grad_out` precedes it, 1 otherwise. */
  function OtherLabel(train: bool): nat {
    if train then 2 else 1
  }

  /** Number of present tensors in `ts`. */
  function CountDefined(ts: seq<Tensor>): (n: nat)
    ensures n <= |ts|
  {
    if |ts| == 0 then 0
    else (if ts[0].defined then 1 else 0) + CountDefined(ts[1..])
  }

  /** Position label of the `k`-th optional index array: `other`'s label plus
      the number of present index arrays before it. */
  function IndexArrayLabel(train: bool, arrays: seq<Tensor>, k: nat): nat
    requires k <= |arrays|
  {
    OtherLabel(train) + CountDefined(arrays[..k])
  }

  /** Position label carried by a scalar-type error on argument `arg`. */
  function ArgLabel(train: bool, arg: string, rowIndices: Tensor, ccolIndices: Tensor, csr2csc: Tensor): nat {
    var arrays := [rowIndices, ccolIndices, csr2csc];
    if arg == "grad_out" then 1
    else if arg == "row_indices" then IndexArrayLabel(train, arrays, 0)
    else if arg == "ccol_indices" then IndexArrayLabel(train, arrays, 1)
    else if arg == "csr2csc" then IndexArrayLabel(train, arrays, 2)
    else OtherLabel(train)
  }

  /** Size at a dimension, or 0 when the tensor lacks it. Only read in steps
      that are reached after the rank has been established. */
  function SizeOr0(t: Tensor, d: nat): int {
    if d < |t.sizes| then t.sizes[d] else 0
  }

  function SelfSteps(self: Tensor): seq<Step> {
    [ Step(self.layout == SparseCsr, CheckError(LayoutMismatch, "self", None)),
      Step(self.denseDim == 0, CheckError(HybridUnsupported, "self", None)),
      Step(Rank(self) == 2, CheckError(RankMismatch, "self", None)) ]
  }

  function GradOutSteps(train: bool, self: Tensor, gradOut: Tensor, other: Tensor): seq<Step> {
    if !train then []
    else
      [ Step(gradOut.layout == Strided, CheckError(LayoutMismatch, "grad_out", None)),
        Step(gradOut.scalarType == self.valuesType, CheckError(DTypeMismatch, "grad_out", Some(1))),
        Step(Rank(gradOut) == 2 && gradOut.sizes[0] == SizeOr0(self, 0), CheckError(SizeMismatch, "grad_out", None)),
        Step(Rank(other) >= 2, CheckError(DimOutOfRange, "other", None)),
        Step(Rank(gradOut) == 2 && gradOut.sizes[1] == SizeOr0(other, 1), CheckError(SizeMismatch, "grad_out", None)) ]
  }

  function OtherSteps(train: bool, self: Tensor, other: Tensor): seq<Step> {
    [ Step(other.layout == Strided, CheckError(LayoutMismatch, "other", None)),
      Step(other.scalarType == self.valuesType, CheckError(DTypeMismatch, "other", Some(OtherLabel(train)))),
      Step(Rank(other) == 2 && other.sizes[0] == SizeOr0(self, 1), CheckError(SizeMismatch, "other", None)) ]
  }

  function IndexArraySteps(t: Tensor, arg: string, pos: nat, indexType: ScalarType, length: int): seq<Step> {
    if !t.defined then []
    else
      [ Step(t.layout == Strided, CheckError(LayoutMismatch, arg, None)),
        Step(t.scalarType == indexType, CheckError(DTypeMismatch, arg, Some(pos))),
        Step(Rank(t) == 1 && t.sizes[0] == length, CheckError(SizeMismatch, arg, None)) ]
  }

  /** The whole contract as an ordered table of checks. */
  function Plan(train: bool, self: Tensor, gradOut: Tensor, other: Tensor,
                rowIndices: Tensor, ccolIndices: Tensor, csr2csc: Tensor): seq<Step>
  {
    var arrays := [rowIndices, ccolIndices, csr2csc];
    SelfSteps(self)
    + GradOutSteps(train, self, gradOut, other)
    + OtherSteps(train, self, other)
    + IndexArraySteps(rowIndices, "row_indices", IndexArrayLabel(train, arrays, 0), self.colIndicesType, self.nnz)
    + IndexArraySteps(ccolIndices, "ccol_indices", IndexArrayLabel(train, arrays, 1), self.colIndicesType, SizeOr0(self, 1) + 1)
    + IndexArraySteps(csr2csc, "csr2csc", IndexArrayLabel(train, arrays, 2), self.colIndicesType, self.nnz)
  }

  /** Adding tensors to a sequence adds their present ones to the count. */
  lemma {:induction false} CountDefinedAppend(a: seq<Tensor>, b: seq<Tensor>)
    ensures CountDefined(a + b) == CountDefined(a) + CountDefined(b)
  {
    if |a| > 0 {
      assert (a + b)[1..] == a[1..] + b;
      CountDefinedAppend(a[1..], b);
    } else {
      assert a + b == b;
    }
  }

  /** The first present index array shares `other`'s label; every later
      present one gets the next integer after the previous present one. */
  lemma LabelsFollowPresence(train: bool, arrays: seq<Tensor>, k1: nat, k2: nat)
    requires k1 < k2 < |arrays|
    requires arrays[k1].defined
    requires forall j :: k1 < j < k2 ==> !arrays[j].defined
    ensures IndexArrayLabel(train, arrays, k2) == IndexArrayLabel(train, arrays, k1) + 1
  {
    assert arrays[..k2] == arrays[..k1] + [arrays[k1]] + arrays[k1 + 1..k2];
    CountDefinedAppend(arrays[..k1] + [arrays[k1]], arrays[k1 + 1..k2]);
    CountDefinedAppend(arrays[..k1], [arrays[k1]]);
    NoneDefined(arrays[k1 + 1..k2]);
  }

  /** A sequence of absent tensors counts zero. */
  lemma {:induction false} NoneDefined(ts: seq<Tensor>)
    requires forall j :: 0 <= j < |ts| ==> !ts[j].defined
    ensures CountDefined(ts) == 0
  {
    if |ts| > 0 {
      NoneDefined(ts[1..]);
    }
  }

  /** The first present index array gets the same label as `other`. */
  lemma FirstPresentSharesOtherLabel(train: bool, arrays: seq<Tensor>, k: nat)
    requires k < |arrays|
    requires forall j :: 0 <= j < k ==> !arrays[j].defined
    ensures IndexArrayLabel(train, arrays, k) == OtherLabel(train)
  {
    NoneDefined(arrays[..k]);
  }
}
