/** Decoded data: n-dimensional arrays with named dimensions, and the datasets made of them. */
module NativeData {
  /** One cell: as it was stored, by its bit pattern, or a computed time in seconds. */
  datatype Cell = Stored(bits: int) | Seconds(value: real)

  /** A nested array: a cell, or the sub-arrays along its first axis. */
  datatype Nd = Leaf(cell: Cell) | Node(items: seq<Nd>)

  predicate HasShape(a: Nd, shape: seq<nat>)
    decreases |shape|
  {
    if shape == [] then a.Leaf?
    else a.Node? && |a.items| == shape[0] && forall i :: 0 <= i < |a.items| ==> HasShape(a.items[i], shape[1..])
  }

  datatype Field = Field(dims: seq<string>, shape: seq<nat>, data: Nd, attrs: map<string, string>) {
    predicate Valid() {
      && |dims| == |shape|
      && HasShape(data, shape)
      && forall i, j :: 0 <= i < j < |dims| ==> dims[i] != dims[j]
    }
  }

  datatype Dataset = Dataset(variables: map<string, Field>, coords: map<string, Field>) {
    predicate Valid() {
      && (forall n :: n in variables ==> variables[n].Valid())
      && (forall n :: n in coords ==> coords[n].Valid())
    }
  }

  /** Why a read or a sample failed. */
  datatype Error = CacheMiss | ValueError | IndexError | KeyError | Other(code: int)

  /** What one member sample is: a dataset, or one dataset per window. */
  datatype Data = One(dataset: Dataset) | Windows(datasets: seq<Dataset>)
}
