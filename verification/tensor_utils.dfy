/**
 Abstract contracts of the three generic argument checks the mm-reduce
 validator calls (checkLayout, checkScalarType and check_dim_size of
 ATen/TensorUtils). Their implementations are not part of this model; each is
 reduced to the condition it enforces and the error it raises.
 */
module TensorUtils {
  import opened Tensors
  import opened Outcomes

  /** checkLayout: the tensor must have the given layout. Its message names
      neither the argument nor a position. */
  function CheckLayout(t: Tensor, layout: Layout, arg: string): (r: Outcome)
    ensures r.Ok? <==> t.layout == layout
    ensures r.Err? ==> r.error == CheckError(LayoutMismatch, arg, None)
  {
    if t.layout != layout then Err(CheckError(LayoutMismatch, arg, None)) else Ok
  }

  /** checkScalarType: the tensor must have the given element type; the error
      carries the argument's position label. */
  function CheckScalarType(t: Tensor, arg: string, pos: nat, expected: ScalarType): (r: Outcome)
    ensures r.Ok? <==> t.scalarType == expected
    ensures r.Err? ==> r.error == CheckError(DTypeMismatch, arg, Some(pos))
  {
    if t.scalarType != expected then Err(CheckError(DTypeMismatch, arg, Some(pos))) else Ok
  }

  /** check_dim_size(t, dim, dimIdx, size): the tensor must have exactly `dim`
      dimensions and size `size` at dimension `dimIdx`. */
  function CheckDimSize(t: Tensor, arg: string, dim: int, dimIdx: int, size: int): (r: Outcome)
    ensures r.Ok? <==> Rank(t) == dim && 0 <= dimIdx < dim && t.sizes[dimIdx] == size
    ensures r.Err? ==> r.error == CheckError(SizeMismatch, arg, None)
  {
    if Rank(t) != dim || !(0 <= dimIdx < Rank(t)) then Err(CheckError(SizeMismatch, arg, None))
    else if t.sizes[dimIdx] != size then Err(CheckError(SizeMismatch, arg, None))
    else Ok
  }
}
