/**
 Tensor metadata as the sparse mm-reduce validators see it: layout, device,
 sizes, element types and the stored-nonzero count. No element storage is
 modelled; every validator reads these fields only.
 */
module Tensors {

  /** Storage layouts of a tensor (c10::Layout). */
  datatype Layout = Strided | Sparse | SparseCsr | SparseCsc | SparseBsr | SparseBsc | Mkldnn | Jagged

  /** The five sparse layouts: coordinate (COO), CSR, CSC, BSR and BSC. */
  predicate IsSparseLayout(l: Layout) {
    match l
    case Sparse | SparseCsr | SparseCsc | SparseBsr | SparseBsc => true
    case Strided | Mkldnn | Jagged => false
  }

  datatype DeviceType = CPU | CUDA | MPS | XLA | Meta | PrivateUse1

  /** A device is a device type plus an index (-1 when unspecified). */
  datatype Device = Device(kind: DeviceType, index: int)

  datatype ScalarType =
    | Byte | Char | Short | Int | Long | Half | Float | Double | BFloat16 | Bool
    | ComplexFloat | ComplexDouble

  /** The metadata of one tensor handle.
      - `defined` is false for an undefined (absent) tensor;
      - `sizes` holds the size of every dimension, so the rank is `|sizes|`;
      - `nnz` is the stored-nonzero count of a sparse tensor;
      - `denseDim` is the number of dense trailing dimensions of a sparse tensor;
      - `valuesType` and `colIndicesType` are the element types of a compressed
        tensor's `values()` and `col_indices()` members. */
  datatype Tensor = Tensor(
    defined: bool,
    layout: Layout,
    device: Device,
    sizes: seq<int>,
    scalarType: ScalarType,
    nnz: int,
    denseDim: int,
    valuesType: ScalarType,
    colIndicesType: ScalarType)

  function Rank(t: Tensor): nat {
    |t.sizes|
  }

  /** An absent optional argument. */
  const Undefined: Tensor :=
    Tensor(false, Strided, Device(CPU, -1), [], Float, 0, 0, Float, Long)
}
