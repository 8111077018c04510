/** Zarr v2 chunks of an array of any rank: split into full-size chunks padded at the edges,
    put back together, and gathered. Arrays are flat, in C order. */
module Chunks {
  type Cell = int
  type Index = seq<nat>

  // ---- C order ---------------------------------------------------------------------------

  function Prod(shape: seq<nat>): nat {
    if shape == [] then 1 else shape[0] * Prod(shape[1..])
  }

  predicate InBox(g: Index, shape: seq<nat>) {
    |g| == |shape| && forall d :: 0 <= d < |g| ==> g[d] < shape[d]
  }

  /** The offset of an index. */
  function Ravel(g: Index, shape: seq<nat>): nat
    requires |g| == |shape|
  {
    if shape == [] then 0 else g[0] * Prod(shape[1..]) + Ravel(g[1..], shape[1..])
  }

  /** The index at an offset: the order in which nested loops visit a box. */
  function Unravel(o: nat, shape: seq<nat>): (g: Index)
    requires o < Prod(shape)
    ensures InBox(g, shape)
  {
    if shape == [] then []
    else
      var rest := Prod(shape[1..]);
      DivInside(o, shape[0], rest);
      var tail := Unravel(o % rest, shape[1..]);
      InBoxCons(o / rest, tail, shape);
      [o / rest] + tail
  }

  lemma InBoxCons(q: nat, tail: Index, shape: seq<nat>)
    requires shape != [] && q < shape[0] && InBox(tail, shape[1..])
    ensures InBox([q] + tail, shape)
  {
  }

  lemma DivInside(o: nat, a: nat, b: nat)
    requires o < a * b
    ensures b > 0 && 0 <= o / b < a && 0 <= o % b < b
  {
    assert a * 0 == 0;
    var q := o / b;
    assert o == q * b + o % b;
    if q >= a { MulMonotone(a, q, b); }
  }

  lemma MulMonotone(a: nat, q: nat, b: nat)
    requires a <= q
    ensures a * b <= q * b
  {
    assert q * b == a * b + (q - a) * b;
  }

  lemma QuotientBound(q: nat, q1: nat, b: nat, r: nat, r1: nat)
    requires q * b + r == q1 * b + r1 && r < b
    ensures q1 <= q
  {
    assert (q + 1) * b == q * b + b;
    if q1 > q { MulMonotone(q + 1, q1, b); }
  }

  lemma DivMod(q: nat, b: nat, r: nat)
    requires r < b
    ensures (q * b + r) / b == q && (q * b + r) % b == r
  {
    var x := q * b + r;
    assert x == (x / b) * b + x % b;
    QuotientBound(q, x / b, b, r, x % b);
    QuotientBound(x / b, q, b, x % b, r);
  }

  lemma {:induction false} RavelInside(g: Index, shape: seq<nat>)
    requires InBox(g, shape)
    ensures Ravel(g, shape) < Prod(shape)
  {
    if shape != [] {
      RavelInside(g[1..], shape[1..]);
      var rest := Prod(shape[1..]);
      MulMonotone(g[0] + 1, shape[0], rest);
      assert (g[0] + 1) * rest == g[0] * rest + rest;
    }
  }

  /** Offsets and indices are in bijection. */
  lemma {:induction false} UnravelRavel(g: Index, shape: seq<nat>)
    requires InBox(g, shape)
    ensures Ravel(g, shape) < Prod(shape) && Unravel(Ravel(g, shape), shape) == g
  {
    RavelInside(g, shape);
    if shape != [] {
      UnravelRavel(g[1..], shape[1..]);
      DivMod(g[0], Prod(shape[1..]), Ravel(g[1..], shape[1..]));
      assert g == [g[0]] + g[1..];
    }
  }

  lemma {:induction false} RavelUnravel(o: nat, shape: seq<nat>)
    requires o < Prod(shape)
    ensures Ravel(Unravel(o, shape), shape) == o
  {
    hide Prod, Unravel, Ravel;
    if shape == [] {
      PointOffset(o);
    } else {
      var rest := Prod(shape[1..]);
      UnravelStep(o, shape);
      RavelUnravel(o % rest, shape[1..]);
      RavelStep(Unravel(o, shape), shape);
      Recompose(o, rest);
    }
  }

  lemma PointOffset(o: nat)
    requires o < Prod([])
    ensures Ravel(Unravel(o, []), []) == o
  {
  }

  lemma RavelStep(g: Index, shape: seq<nat>)
    requires |g| == |shape| && shape != []
    ensures Ravel(g, shape) == g[0] * Prod(shape[1..]) + Ravel(g[1..], shape[1..])
  {
  }

  lemma Recompose(o: nat, b: nat)
    requires b > 0
    ensures (o / b) * b + o % b == o
  {
  }

  lemma UnravelStep(o: nat, shape: seq<nat>)
    requires o < Prod(shape) && shape != []
    ensures var rest := Prod(shape[1..]);
            rest > 0 && o % rest < rest && Unravel(o, shape)[0] == o / rest && Unravel(o, shape)[1..] == Unravel(o % rest, shape[1..])
  {
    DivInside(o, shape[0], Prod(shape[1..]));
  }

  /** `g` comes before `h` when the first axis on which they differ has it smaller. */
  predicate Precedes(g: Index, h: Index) {
    g != [] && h != [] && (g[0] < h[0] || (g[0] == h[0] && Precedes(g[1..], h[1..])))
  }

  /** C order: the last axis varies fastest, so offsets are ordered as their indices are, first
      axis first. */
  lemma {:induction false} RavelIsCOrder(g: Index, h: Index, shape: seq<nat>)
    requires InBox(g, shape) && InBox(h, shape)
    ensures Ravel(g, shape) < Ravel(h, shape) <==> Precedes(g, h)
  {
    hide Prod;
    if shape != [] {
      var rest := Prod(shape[1..]);
      RavelIsCOrder(g[1..], h[1..], shape[1..]);
      RavelInside(g[1..], shape[1..]);
      RavelInside(h[1..], shape[1..]);
      HeadDecides(g[0], h[0], rest, Ravel(g[1..], shape[1..]), Ravel(h[1..], shape[1..]));
    }
  }

  lemma HeadDecides(a: nat, b: nat, rest: nat, r: nat, q: nat)
    requires r < rest && q < rest
    ensures a * rest + r < b * rest + q <==> a < b || (a == b && r < q)
  {
    assert (a + 1) * rest == a * rest + rest && (b + 1) * rest == b * rest + rest;
    if a < b { MulMonotone(a + 1, b, rest); }
    if b < a { MulMonotone(b + 1, a, rest); }
  }

  // ---- chunk coordinates -----------------------------------------------------------------

  predicate Positive(chunks: seq<nat>) {
    forall d :: 0 <= d < |chunks| ==> chunks[d] > 0
  }

  /** How many chunks cover each axis: the length over the chunk size, rounded up. */
  function Counts(shape: seq<nat>, chunks: seq<nat>): (n: seq<nat>)
    requires |shape| == |chunks| && Positive(chunks)
    ensures |n| == |shape|
  {
    seq(|shape|, d requires 0 <= d < |shape| => (shape[d] + chunks[d] - 1) / chunks[d])
  }

  /** The chunk a cell is in, and its place there. */
  function ChunkOf(g: Index, chunks: seq<nat>): (c: Index)
    requires |g| == |chunks| && Positive(chunks)
    ensures |c| == |g| && forall d :: 0 <= d < |c| ==> c[d] == g[d] / chunks[d]
  {
    seq(|g|, d requires 0 <= d < |g| => g[d] / chunks[d])
  }

  function LocalOf(g: Index, chunks: seq<nat>): (l: Index)
    requires |g| == |chunks| && Positive(chunks)
    ensures InBox(l, chunks) && forall d :: 0 <= d < |l| ==> l[d] == g[d] % chunks[d]
  {
    seq(|g|, d requires 0 <= d < |g| => g[d] % chunks[d])
  }

  /** The cell at place `l` of chunk `c`. */
  function Global(c: Index, l: Index, chunks: seq<nat>): (g: Index)
    requires |c| == |l| == |chunks|
    ensures |g| == |c| && forall d :: 0 <= d < |g| ==> g[d] == c[d] * chunks[d] + l[d]
  {
    seq(|c|, d requires 0 <= d < |c| => c[d] * chunks[d] + l[d])
  }

  /** Every cell is at exactly one place of exactly one chunk. */
  lemma OnePlace(c: Index, l: Index, chunks: seq<nat>)
    requires |c| == |chunks| && InBox(l, chunks) && Positive(chunks)
    ensures ChunkOf(Global(c, l, chunks), chunks) == c && LocalOf(Global(c, l, chunks), chunks) == l
  {
    forall d | 0 <= d < |c|
      ensures Global(c, l, chunks)[d] / chunks[d] == c[d] && Global(c, l, chunks)[d] % chunks[d] == l[d]
    {
      DivMod(c[d], chunks[d], l[d]);
    }
  }

  lemma PlaceBack(g: Index, chunks: seq<nat>)
    requires |g| == |chunks| && Positive(chunks)
    ensures Global(ChunkOf(g, chunks), LocalOf(g, chunks), chunks) == g
  {
    hide ChunkOf, LocalOf, Global;
    forall d | 0 <= d < |g|
      ensures Global(ChunkOf(g, chunks), LocalOf(g, chunks), chunks)[d] == g[d]
    {
      Recomposed(g[d], chunks[d], ChunkOf(g, chunks)[d], LocalOf(g, chunks)[d]);
    }
  }

  lemma Recomposed(x: nat, b: nat, q: nat, r: nat)
    requires b > 0 && q == x / b && r == x % b
    ensures q * b + r == x
  {
    Recompose(x, b);
  }

  /** A cell of the array is in a chunk that is counted. */
  lemma ChunkIsCounted(g: Index, shape: seq<nat>, chunks: seq<nat>)
    requires InBox(g, shape) && |shape| == |chunks| && Positive(chunks)
    ensures InBox(ChunkOf(g, chunks), Counts(shape, chunks))
  {
    forall d | 0 <= d < |g|
      ensures g[d] / chunks[d] < Counts(shape, chunks)[d]
    {
      CountCovers(g[d], shape[d], chunks[d]);
    }
  }

  lemma CountCovers(x: nat, n: nat, c: nat)
    requires x < n && c > 0
    ensures x / c < (n + c - 1) / c
  {
    var q, k := x / c, (n + c - 1) / c;
    assert x == q * c + x % c;
    assert n + c - 1 == k * c + (n + c - 1) % c;
    if k <= q { MulMonotone(k, q, c); }
  }

  /** No more and no fewer chunks than it takes: together they reach the end of the axis, and
      one less would not. */
  lemma CountsAreLeast(shape: seq<nat>, chunks: seq<nat>, d: nat)
    requires |shape| == |chunks| && Positive(chunks) && d < |shape|
    ensures var n := Counts(shape, chunks)[d];
            shape[d] <= n * chunks[d] && (n > 0 ==> (n - 1) * chunks[d] < shape[d])
  {
    var x, c := shape[d], chunks[d];
    var n := (x + c - 1) / c;
    assert x + c - 1 == n * c + (x + c - 1) % c;
    assert n > 0 ==> (n - 1) * c == n * c - c;
  }

  // ---- splitting -----------------------------------------------------------------------------

  /** The cells of chunk `c`: full size, the array's own where they exist, else the fill. */
  function ChunkCells(value: Index -> Cell, shape: seq<nat>, chunks: seq<nat>, fill: Cell, c: Index): (cells: seq<Cell>)
    requires |shape| == |chunks| == |c|
    ensures |cells| == Prod(chunks)
    ensures forall o :: 0 <= o < |cells| ==> cells[o] == PaddedCell(value, shape, chunks, fill, c, o)
  {
    seq(Prod(chunks), o requires 0 <= o < Prod(chunks) => PaddedCell(value, shape, chunks, fill, c, o))
  }

  function PaddedCell(value: Index -> Cell, shape: seq<nat>, chunks: seq<nat>, fill: Cell, c: Index, o: nat): Cell
    requires |shape| == |chunks| == |c| && o < Prod(chunks)
  {
    var g := Global(c, Unravel(o, chunks), chunks);
    if InBox(g, shape) then value(g) else fill
  }

  type Store = map<Index, seq<Cell>>

  /** One object per chunk index. */
  ghost predicate IsSplit(value: Index -> Cell, shape: seq<nat>, chunks: seq<nat>, fill: Cell, store: Store)
    requires |shape| == |chunks| && Positive(chunks)
  {
    forall c :: (c in store <==> InBox(c, Counts(shape, chunks))) && (c in store ==> |c| == |chunks| && store[c] == ChunkCells(value, shape, chunks, fill, c))
  }

  /** Fill one chunk, local cell by local cell. */
  method FillChunk(value: Index -> Cell, shape: seq<nat>, chunks: seq<nat>, fill: Cell, c: Index) returns (chunk: array<Cell>)
    requires |shape| == |chunks| == |c|
    ensures fresh(chunk) && chunk[..] == ChunkCells(value, shape, chunks, fill, c)
  {
    hide Prod, Unravel;
    chunk := new Cell[Prod(chunks)](_ => fill);
    var o := 0;
    while o < chunk.Length
      invariant o <= chunk.Length == Prod(chunks)
      invariant forall j :: 0 <= j < o ==> chunk[j] == PaddedCell(value, shape, chunks, fill, c, j)
      invariant forall j :: o <= j < chunk.Length ==> chunk[j] == fill
    {
      var g := Global(c, Unravel(o, chunks), chunks);
      if InBox(g, shape) { chunk[o] := value(g); }
      o := o + 1;
    }
  }

  /** `_zarr_chunks`: every chunk of the array, edge chunks padded to full size. */
  method Split(value: Index -> Cell, shape: seq<nat>, chunks: seq<nat>, fill: Cell) returns (store: Store)
    requires |shape| == |chunks| && Positive(chunks)
    ensures IsSplit(value, shape, chunks, fill, store)
  {
    hide Prod, Unravel, Ravel, ChunkCells;
    var counts := Counts(shape, chunks);
    store := map[];
    var k := 0;
    while k < Prod(counts)
      invariant k <= Prod(counts)
      invariant forall c :: c in store <==> InBox(c, counts) && Ravel(c, counts) < k
      invariant forall c :: c in store ==> |c| == |chunks| && store[c] == ChunkCells(value, shape, chunks, fill, c)
    {
      var c := Unravel(k, counts);
      var chunk := FillChunk(value, shape, chunks, fill, c);
      store := store[c := chunk[..]];
      RavelUnravel(k, counts);
      forall d | InBox(d, counts) && Ravel(d, counts) == k
        ensures d == c
      {
        UnravelRavel(d, counts);
      }
      k := k + 1;
    }
    forall c | InBox(c, counts)
      ensures c in store
    {
      RavelInside(c, counts);
    }
  }

  // ---- putting together ----------------------------------------------------------------------------

  /** The cell a store holds at `g`: its place in its chunk, or the fill where the chunk's
      object is absent (or was passed over). */
  function CellAt(store: Store, chunks: seq<nat>, fill: Cell, g: Index): Cell
    requires |g| == |chunks| && Positive(chunks)
  {
    var c := ChunkOf(g, chunks);
    RavelInside(LocalOf(g, chunks), chunks);
    var o := Ravel(LocalOf(g, chunks), chunks);
    if c in store && o < |store[c]| then store[c][o] else fill
  }

  /** Splitting and looking a cell up gives the cell. */
  lemma SplitHolds(value: Index -> Cell, shape: seq<nat>, chunks: seq<nat>, fill: Cell, store: Store, g: Index)
    requires |shape| == |chunks| && Positive(chunks) && IsSplit(value, shape, chunks, fill, store) && InBox(g, shape)
    ensures CellAt(store, chunks, fill, g) == value(g)
  {
    hide Prod, Unravel, Ravel;
    var c, l := ChunkOf(g, chunks), LocalOf(g, chunks);
    ChunkIsCounted(g, shape, chunks);
    PlaceBack(g, chunks);
    UnravelRavel(l, chunks);
    assert store[c] == ChunkCells(value, shape, chunks, fill, c);
    assert store[c][Ravel(l, chunks)] == PaddedCell(value, shape, chunks, fill, c, Ravel(l, chunks));
  }

  /** What a split store holds, place by place: the object of chunk `c` has, at the offset of
      place `l`, the array's cell `c * size + l` on every axis, or the fill where that lies
      beyond the array. */
  lemma SplitPlaces(value: Index -> Cell, shape: seq<nat>, chunks: seq<nat>, fill: Cell, store: Store, c: Index, l: Index, g: Index)
    requires |shape| == |chunks| && Positive(chunks) && IsSplit(value, shape, chunks, fill, store)
    requires InBox(c, Counts(shape, chunks)) && InBox(l, chunks) && IsPlace(g, c, l, chunks)
    ensures c in store && Ravel(l, chunks) < |store[c]| == Prod(chunks)
    ensures store[c][Ravel(l, chunks)] == if InBox(g, shape) then value(g) else fill
  {
    hide Prod, Unravel, Ravel, Counts, Positive;
    RavelInside(l, chunks);
    UnravelRavel(l, chunks);
    assert store[c] == ChunkCells(value, shape, chunks, fill, c);
    assert store[c][Ravel(l, chunks)] == PaddedCell(value, shape, chunks, fill, c, Ravel(l, chunks));
    assert g == Global(c, l, chunks);
  }

  /** Index `g` is place `l` of chunk `c`. */
  ghost predicate IsPlace(g: Index, c: Index, l: Index, chunks: seq<nat>) {
    |g| == |c| == |l| == |chunks| && forall d :: 0 <= d < |g| ==> g[d] == c[d] * chunks[d] + l[d]
  }

  /** A cell is read from the one object that covers it, at its offset there, and is the fill
      where that object is absent. */
  lemma CellIs(store: Store, chunks: seq<nat>, fill: Cell, c: Index, l: Index, g: Index)
    requires Positive(chunks) && InBox(l, chunks) && IsPlace(g, c, l, chunks) && (c in store ==> |store[c]| == Prod(chunks))
    ensures Ravel(l, chunks) < Prod(chunks)
    ensures CellAt(store, chunks, fill, g) == if c in store then store[c][Ravel(l, chunks)] else fill
  {
    hide Prod, Ravel;
    assert g == Global(c, l, chunks);
    OnePlace(c, l, chunks);
    RavelInside(l, chunks);
  }

  /** Every object a store has is a whole chunk. */
  ghost predicate WholeChunks(store: Store, chunks: seq<nat>) {
    forall c :: c in store ==> |c| == |chunks| && |store[c]| == Prod(chunks)
  }

  /** The flat array `full` holds `x` at `g`. */
  ghost predicate HoldsAt(full: seq<Cell>, shape: seq<nat>, g: Index, x: Cell)
    requires InBox(g, shape)
  {
    Ravel(g, shape) < |full| && full[Ravel(g, shape)] == x
  }

  /** The place of `g` in its chunk. */
  function PlaceOf(g: Index, chunks: seq<nat>): (o: nat)
    requires |g| == |chunks| && Positive(chunks)
    ensures o < Prod(chunks)
  {
    RavelInside(LocalOf(g, chunks), chunks);
    Ravel(LocalOf(g, chunks), chunks)
  }

  /** A cell is the one at place `o` of chunk `c` exactly when that is where it belongs. */
  lemma PlaceIs(g: Index, c: Index, o: nat, chunks: seq<nat>)
    requires |g| == |c| == |chunks| && Positive(chunks) && o < Prod(chunks)
    ensures g == Global(c, Unravel(o, chunks), chunks) <==> ChunkOf(g, chunks) == c && PlaceOf(g, chunks) == o
  {
    hide Prod, Unravel, Ravel;
    OnePlace(c, Unravel(o, chunks), chunks);
    RavelUnravel(o, chunks);
    PlaceBack(g, chunks);
    UnravelRavel(LocalOf(g, chunks), chunks);
  }

  lemma OffsetsDiffer(g: Index, h: Index, shape: seq<nat>)
    requires InBox(g, shape) && InBox(h, shape) && g != h
    ensures Ravel(g, shape) != Ravel(h, shape)
  {
    hide Prod, Unravel, Ravel;
    UnravelRavel(g, shape);
    UnravelRavel(h, shape);
  }

  /** After the first `o` places of chunk `c` are copied over `before`. */
  ghost predicate Copied(full: seq<Cell>, before: seq<Cell>, cells: seq<Cell>, shape: seq<nat>, chunks: seq<nat>, c: Index, o: nat)
    requires |shape| == |chunks| == |c| && Positive(chunks) && |cells| == Prod(chunks)
  {
    |full| == |before| == Prod(shape) && forall g {:trigger HoldsNow(full, before, cells, shape, chunks, c, o, g)} :: InBox(g, shape) ==> HoldsNow(full, before, cells, shape, chunks, c, o, g)
  }

  ghost predicate HoldsNow(full: seq<Cell>, before: seq<Cell>, cells: seq<Cell>, shape: seq<nat>, chunks: seq<nat>, c: Index, o: nat, g: Index)
    requires |shape| == |chunks| == |c| && Positive(chunks) && |cells| == Prod(chunks) && InBox(g, shape) && |before| == Prod(shape)
  {
    RavelInside(g, shape);
    HoldsAt(full, shape, g, if ChunkOf(g, chunks) == c && PlaceOf(g, chunks) < o then cells[PlaceOf(g, chunks)] else before[Ravel(g, shape)])
  }

  lemma CopyOne(full: seq<Cell>, before: seq<Cell>, cells: seq<Cell>, shape: seq<nat>, chunks: seq<nat>, c: Index, o: nat)
    requires |shape| == |chunks| == |c| && Positive(chunks) && |cells| == Prod(chunks) && o < Prod(chunks)
    requires Copied(full, before, cells, shape, chunks, c, o)
    ensures var g := Global(c, Unravel(o, chunks), chunks);
            if InBox(g, shape) then Ravel(g, shape) < |full| && Copied(full[Ravel(g, shape) := cells[o]], before, cells, shape, chunks, c, o + 1)
            else Copied(full, before, cells, shape, chunks, c, o + 1)
  {
    hide Prod, Unravel, Ravel, PlaceOf, ChunkOf;
    var g := Global(c, Unravel(o, chunks), chunks);
    if InBox(g, shape) { RavelInside(g, shape); }
    var after := if InBox(g, shape) then full[Ravel(g, shape) := cells[o]] else full;
    forall h | InBox(h, shape)
      ensures HoldsNow(after, before, cells, shape, chunks, c, o + 1, h)
    {
      BoxRank(h, shape);
      assert HoldsNow(full, before, cells, shape, chunks, c, o, h);
      PlaceIs(h, c, o, chunks);
      if h != g && InBox(g, shape) { OffsetsDiffer(h, g, shape); }
    }
  }

  lemma BoxRank(g: Index, shape: seq<nat>)
    requires InBox(g, shape)
    ensures |g| == |shape|
  {
  }

  /** Copy the part of one chunk that lies inside the array into place. */
  method PlaceChunk(full: array<Cell>, cells: seq<Cell>, shape: seq<nat>, chunks: seq<nat>, c: Index)
    requires |shape| == |chunks| == |c| && Positive(chunks) && |cells| == Prod(chunks) && full.Length == Prod(shape)
    modifies full
    ensures Copied(full[..], old(full[..]), cells, shape, chunks, c, Prod(chunks))
  {
    hide Prod, Unravel, Ravel, Copied, PlaceOf, ChunkOf;
    ghost var before := full[..];
    var o := 0;
    CopiedNone(before, cells, shape, chunks, c);
    while o < Prod(chunks)
      invariant o <= Prod(chunks) && Copied(full[..], before, cells, shape, chunks, c, o)
    {
      CopyOne(full[..], before, cells, shape, chunks, c, o);
      var g := Global(c, Unravel(o, chunks), chunks);
      ghost var now := full[..];
      if InBox(g, shape) {
        full[Ravel(g, shape)] := cells[o];
        assert full[..] == now[Ravel(g, shape) := cells[o]];
      }
      o := o + 1;
    }
  }

  lemma CopiedNone(before: seq<Cell>, cells: seq<Cell>, shape: seq<nat>, chunks: seq<nat>, c: Index)
    requires |shape| == |chunks| == |c| && Positive(chunks) && |cells| == Prod(chunks) && |before| == Prod(shape)
    ensures Copied(before, before, cells, shape, chunks, c, 0)
  {
    hide Prod, Unravel, Ravel, PlaceOf, ChunkOf;
    forall g | InBox(g, shape)
      ensures HoldsNow(before, before, cells, shape, chunks, c, 0, g)
    {
      RavelInside(g, shape);
    }
  }

  /** After the first `k` chunks are in place, the rest still fill. */
  ghost predicate Placed(store: Store, shape: seq<nat>, chunks: seq<nat>, fill: Cell, k: nat, full: seq<Cell>)
    requires |shape| == |chunks| && Positive(chunks)
  {
    |full| == Prod(shape) && forall g {:trigger PlacedAt(store, shape, chunks, fill, k, full, g)} :: InBox(g, shape) ==> PlacedAt(store, shape, chunks, fill, k, full, g)
  }

  ghost predicate PlacedAt(store: Store, shape: seq<nat>, chunks: seq<nat>, fill: Cell, k: nat, full: seq<Cell>, g: Index)
    requires |shape| == |chunks| && Positive(chunks) && InBox(g, shape)
  {
    HoldsAt(full, shape, g, if Ravel(ChunkOf(g, chunks), Counts(shape, chunks)) < k then CellAt(store, chunks, fill, g) else fill)
  }

  lemma NothingPlaced(store: Store, shape: seq<nat>, chunks: seq<nat>, fill: Cell, full: seq<Cell>)
    requires |shape| == |chunks| && Positive(chunks) && |full| == Prod(shape) && forall j :: 0 <= j < |full| ==> full[j] == fill
    ensures Placed(store, shape, chunks, fill, 0, full)
  {
    hide Prod, Unravel, Ravel, ChunkOf, CellAt;
    forall g | InBox(g, shape)
      ensures PlacedAt(store, shape, chunks, fill, 0, full, g)
    {
      RavelInside(g, shape);
    }
  }

  /** One more chunk, copied when the store has it. */
  lemma OneMorePlaced(store: Store, shape: seq<nat>, chunks: seq<nat>, fill: Cell, k: nat, before: seq<Cell>, full: seq<Cell>)
    requires |shape| == |chunks| && Positive(chunks) && WholeChunks(store, chunks) && k < Prod(Counts(shape, chunks))
    requires Placed(store, shape, chunks, fill, k, before)
    requires var c := Unravel(k, Counts(shape, chunks));
             if c in store then Copied(full, before, store[c], shape, chunks, c, Prod(chunks)) else full == before
    ensures Placed(store, shape, chunks, fill, k + 1, full)
  {
    var counts := Counts(shape, chunks);
    var c := Unravel(k, counts);
    RavelUnravel(k, counts);
    hide Prod, Unravel, Ravel, ChunkOf, Counts;
    forall g | InBox(g, shape)
      ensures PlacedAt(store, shape, chunks, fill, k + 1, full, g)
    {
      assert PlacedAt(store, shape, chunks, fill, k, before, g);
      ChunkIsCounted(g, shape, chunks);
      if ChunkOf(g, chunks) != c { OffsetsDiffer(ChunkOf(g, chunks), c, counts); }
      if c in store { assert HoldsNow(full, before, store[c], shape, chunks, c, Prod(chunks), g); }
      RavelInside(g, shape);
    }
  }

  /** `read_zarr` up to the selection: the full array, chunk by chunk, fill where there is
      none. */
  method Assemble(store: Store, shape: seq<nat>, chunks: seq<nat>, fill: Cell) returns (full: array<Cell>)
    requires |shape| == |chunks| && Positive(chunks) && WholeChunks(store, chunks)
    ensures fresh(full) && full.Length == Prod(shape)
    ensures forall g :: InBox(g, shape) ==> HoldsAt(full[..], shape, g, CellAt(store, chunks, fill, g))
  {
    hide Prod, Unravel, Ravel, Placed, CellAt, Copied, Counts;
    full := new Cell[Prod(shape)](_ => fill);
    var k := 0;
    NothingPlaced(store, shape, chunks, fill, full[..]);
    while k < Prod(Counts(shape, chunks))
      invariant k <= Prod(Counts(shape, chunks)) && full.Length == Prod(shape)
      invariant Placed(store, shape, chunks, fill, k, full[..])
    {
      var c := Unravel(k, Counts(shape, chunks));
      ghost var before := full[..];
      if c in store { PlaceChunk(full, store[c], shape, chunks, c); }
      OneMorePlaced(store, shape, chunks, fill, k, before, full[..]);
      k := k + 1;
    }
    AllPlaced(store, shape, chunks, fill, full[..]);
  }

  lemma AllPlaced(store: Store, shape: seq<nat>, chunks: seq<nat>, fill: Cell, full: seq<Cell>)
    requires |shape| == |chunks| && Positive(chunks) && Placed(store, shape, chunks, fill, Prod(Counts(shape, chunks)), full)
    ensures forall g :: InBox(g, shape) ==> HoldsAt(full, shape, g, CellAt(store, chunks, fill, g))
  {
    hide Prod, Unravel, Ravel, ChunkOf, CellAt;
    forall g | InBox(g, shape)
      ensures HoldsAt(full, shape, g, CellAt(store, chunks, fill, g))
    {
      assert PlacedAt(store, shape, chunks, fill, Prod(Counts(shape, chunks)), full, g);
      ChunkIsCounted(g, shape, chunks);
      RavelInside(ChunkOf(g, chunks), Counts(shape, chunks));
    }
  }

  // ---- selecting ---------------------------------------------------------------------------------------

  /** In-range lists, one per axis. */
  predicate GoodSel(sel: seq<seq<nat>>, shape: seq<nat>) {
    |sel| == |shape| && forall d, i :: 0 <= d < |sel| && 0 <= i < |sel[d]| ==> sel[d][i] < shape[d]
  }

  function SelShape(sel: seq<seq<nat>>): (s: seq<nat>)
    ensures |s| == |sel| && forall d :: 0 <= d < |s| ==> s[d] == |sel[d]|
  {
    seq(|sel|, d requires 0 <= d < |sel| => |sel[d]|)
  }

  /** The cell asked for at position `j` of the result. */
  function Asked(sel: seq<seq<nat>>, j: Index): (g: Index)
    requires InBox(j, SelShape(sel))
    ensures |g| == |sel| && forall d :: 0 <= d < |g| ==> g[d] == sel[d][j[d]]
  {
    seq(|sel|, d requires 0 <= d < |sel| => sel[d][j[d]])
  }

  lemma AskedInBox(sel: seq<seq<nat>>, shape: seq<nat>, j: Index)
    requires GoodSel(sel, shape) && InBox(j, SelShape(sel))
    ensures InBox(Asked(sel, j), shape)
  {
  }

  /** `read_zarr`: assemble, then gather in the order asked for. */
  method ReadZarr(store: Store, shape: seq<nat>, chunks: seq<nat>, fill: Cell, sel: seq<seq<nat>>) returns (out: array<Cell>)
    requires |shape| == |chunks| && Positive(chunks) && WholeChunks(store, chunks) && GoodSel(sel, shape)
    ensures fresh(out) && out.Length == Prod(SelShape(sel))
    ensures forall j :: InBox(j, SelShape(sel)) ==> HoldsAt(out[..], SelShape(sel), j, CellAt(store, chunks, fill, Asked(sel, j)))
  {
    hide Prod, Unravel, Ravel, CellAt;
    var full := Assemble(store, shape, chunks, fill);
    ghost var cells := full[..];
    out := new Cell[Prod(SelShape(sel))](_ => fill);
    var k := 0;
    while k < out.Length
      invariant k <= out.Length == Prod(SelShape(sel)) && full[..] == cells
      invariant forall i :: 0 <= i < k ==> out[i] == GatheredCell(store, chunks, fill, sel, i)
    {
      var j := Unravel(k, SelShape(sel));
      GatherRank(sel, shape, j);
      var g := Asked(sel, j);
      assert HoldsAt(cells, shape, g, CellAt(store, chunks, fill, g));
      out[k] := full[Ravel(g, shape)];
      k := k + 1;
    }
    forall j | InBox(j, SelShape(sel))
      ensures HoldsAt(out[..], SelShape(sel), j, CellAt(store, chunks, fill, Asked(sel, j)))
    {
      UnravelRavel(j, SelShape(sel));
      GatherRank(sel, shape, j);
      assert out[Ravel(j, SelShape(sel))] == GatheredCell(store, chunks, fill, sel, Ravel(j, SelShape(sel)));
    }
  }

  lemma GatherRank(sel: seq<seq<nat>>, shape: seq<nat>, j: Index)
    requires GoodSel(sel, shape) && InBox(j, SelShape(sel))
    ensures InBox(Asked(sel, j), shape) && |sel| == |shape| == |Asked(sel, j)|
  {
    AskedInBox(sel, shape, j);
  }

  ghost function GatheredCell(store: Store, chunks: seq<nat>, fill: Cell, sel: seq<seq<nat>>, i: nat): Cell
    requires i < Prod(SelShape(sel)) && |sel| == |chunks| && Positive(chunks)
  {
    CellAt(store, chunks, fill, Asked(sel, Unravel(i, SelShape(sel))))
  }

  /** The round trip: split an array of any rank into chunks, read any selection back, and
      every position holds the array's own cell it asked for, in the order given. */
  lemma RoundTrip(value: Index -> Cell, shape: seq<nat>, chunks: seq<nat>, fill: Cell, store: Store, sel: seq<seq<nat>>, j: Index)
    requires |shape| == |chunks| && Positive(chunks) && IsSplit(value, shape, chunks, fill, store) && GoodSel(sel, shape) && InBox(j, SelShape(sel))
    ensures |Asked(sel, j)| == |chunks| && CellAt(store, chunks, fill, Asked(sel, j)) == value(Asked(sel, j))
  {
    AskedInBox(sel, shape, j);
    SplitHolds(value, shape, chunks, fill, store, Asked(sel, j));
  }

  // ---- the frame -------------------------------------------------------------------------------------------

  /** Some index of the list falls in chunk `x` of its axis. */
  predicate MeetsAxis(idx: seq<nat>, size: nat, x: nat)
    requires size > 0
  {
    exists i :: 0 <= i < |idx| && idx[i] / size == x
  }

  /** The generator's check: chunk `c` meets the selection on every axis. */
  predicate Meets(sel: seq<seq<nat>>, chunks: seq<nat>, c: Index)
    requires |sel| == |chunks| == |c| && Positive(chunks)
  {
    forall d :: 0 <= d < |sel| ==> MeetsAxis(sel[d], chunks[d], c[d])
  }

  /** The chunk of a selected cell meets the selection. */
  lemma AskedMeets(sel: seq<seq<nat>>, chunks: seq<nat>, j: Index)
    requires |sel| == |chunks| && Positive(chunks) && InBox(j, SelShape(sel))
    ensures Meets(sel, chunks, ChunkOf(Asked(sel, j), chunks))
  {
    var c := ChunkOf(Asked(sel, j), chunks);
    forall d | 0 <= d < |sel|
      ensures MeetsAxis(sel[d], chunks[d], c[d])
    {
      assert j[d] < SelShape(sel)[d];
      assert sel[d][j[d]] / chunks[d] == c[d];
    }
  }

  /** The check is exact: a chunk meets the selection on every axis if and only if some
      selected cell lies in it. */
  lemma MeetsIff(sel: seq<seq<nat>>, chunks: seq<nat>, c: Index)
    requires |sel| == |chunks| == |c| && Positive(chunks)
    ensures Meets(sel, chunks, c) <==> exists j :: InBox(j, SelShape(sel)) && ChunkOf(Asked(sel, j), chunks) == c
  {
    if Meets(sel, chunks, c) {
      var j := MeetingAt(sel, chunks, c);
    }
    forall j | InBox(j, SelShape(sel)) && ChunkOf(Asked(sel, j), chunks) == c
      ensures Meets(sel, chunks, c)
    {
      AskedMeets(sel, chunks, j);
    }
  }

  lemma MeetingAt(sel: seq<seq<nat>>, chunks: seq<nat>, c: Index) returns (j: Index)
    requires |sel| == |chunks| == |c| && Positive(chunks) && Meets(sel, chunks, c)
    ensures InBox(j, SelShape(sel)) && ChunkOf(Asked(sel, j), chunks) == c
  {
    j := seq(|sel|, d requires 0 <= d < |sel| => Meeting(sel[d], chunks[d], c[d]));
    assert ChunkOf(Asked(sel, j), chunks) == c;
  }

  /** A list position in chunk `x` of an axis, when there is one. */
  ghost function Meeting(idx: seq<nat>, size: nat, x: nat): (i: nat)
    requires size > 0 && MeetsAxis(idx, size, x)
    ensures i < |idx| && idx[i] / size == x
  {
    var k :| 0 <= k < |idx| && idx[k] / size == x;
    k
  }

  /** The frame: stores that differ only in chunks the selection does not meet, absent or
      poisoned ones included, give every selected cell alike. */
  lemma UnmetChunksDoNotMatter(store: Store, other: Store, chunks: seq<nat>, fill: Cell, sel: seq<seq<nat>>, j: Index)
    requires |sel| == |chunks| && Positive(chunks) && InBox(j, SelShape(sel))
    requires forall c :: |c| == |chunks| && Meets(sel, chunks, c) ==> (c in store <==> c in other) && (c in store ==> store[c] == other[c])
    ensures CellAt(store, chunks, fill, Asked(sel, j)) == CellAt(other, chunks, fill, Asked(sel, j))
  {
    hide Prod, Ravel, Meets;
    AskedMeets(sel, chunks, j);
  }

  /** And it is the most that can be left out: losing a chunk the selection meets changes the
      result of some array, at some selected position. */
  lemma MetChunksMatter(store: Store, chunks: seq<nat>, fill: Cell, sel: seq<seq<nat>>, c: Index) returns (j: Index, lost: Store)
    requires |sel| == |chunks| == |c| && Positive(chunks) && Meets(sel, chunks, c) && WholeChunks(store, chunks)
    requires c in store && forall o :: 0 <= o < |store[c]| ==> store[c][o] != fill
    ensures InBox(j, SelShape(sel)) && lost == store - {c}
    ensures CellAt(lost, chunks, fill, Asked(sel, j)) != CellAt(store, chunks, fill, Asked(sel, j))
  {
    j := MeetingAt(sel, chunks, c);
    lost := store - {c};
    RavelInside(LocalOf(Asked(sel, j), chunks), chunks);
    hide Prod, Ravel;
  }
}
