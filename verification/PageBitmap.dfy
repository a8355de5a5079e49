/**
 The page bitmap: one bit per 4 KB page, kept in 64-bit cells. A cell is modelled by the set of
 its one bits. Addresses are line numbers counted from the base address.
 */
module PageBitmaps {

  const PAGE := 64
  const CELL := 64
  const BLOCK := 32768
  const CELLS_PER_BLOCK := 8

  /** The one bits of a 64-bit cell. */
  type Cell = s: set<nat> | forall i :: i in s ==> i < CELL

  /** A cell with all 64 bits set. */
  const FULL: Cell := set i: nat | i < CELL

  predicate Bit(cells: seq<Cell>, page: nat)
    requires page / CELL < |cells|
  {
    page % CELL in cells[page / CELL]
  }

  /** Page `page` meets the lines from `ptr` up to `ptr + size`, as the source rounds them. */
  predicate Meets(page: nat, ptr: nat, size: nat) {
    ptr / PAGE <= page && page * PAGE < ptr + size
  }

  /** `post` is `pre` with the bits of the given lines' pages set to `value`. */
  ghost predicate Written(pre: seq<Cell>, post: seq<Cell>, ptr: nat, size: nat, value: bool) {
    && |post| == |pre|
    && forall page: nat :: page < |pre| * CELL ==>
         (Bit(post, page) <==> if Meets(page, ptr, size) then value else Bit(pre, page))
  }

  class PageBitmap {
    const cells: array<Cell>

    constructor (length: nat)
      ensures cells.Length == length && fresh(cells)
      ensures forall page: nat :: page < length * CELL ==> !Bit(cells[..], page)
    {
      cells := new Cell[length](i => {});
    }

    /** Page by page. */
    method SetBitmap(ptr: nat, size: nat)
      requires ptr + size <= cells.Length * CELL * PAGE
      modifies cells
      ensures Written(old(cells[..]), cells[..], ptr, size, true)
    {
      var limit := ptr + size;
      var aligned := ptr - ptr % PAGE;
      ghost var pre := cells[..];
      while aligned < limit
        invariant aligned % PAGE == 0 && ptr / PAGE <= aligned / PAGE && aligned < limit + PAGE
        invariant forall page: nat :: page < cells.Length * CELL ==>
          (Bit(cells[..], page) <==> ptr / PAGE <= page < aligned / PAGE || Bit(pre, page))
      {
        var page := aligned / PAGE;
        cells[page / CELL] := cells[page / CELL] + {page % CELL};
        aligned := aligned + PAGE;
      }
    }

    method UnsetBitmap(ptr: nat, size: nat)
      requires ptr + size <= cells.Length * CELL * PAGE
      modifies cells
      ensures Written(old(cells[..]), cells[..], ptr, size, false)
    {
      var limit := ptr + size;
      var aligned := ptr - ptr % PAGE;
      ghost var pre := cells[..];
      while aligned < limit
        invariant aligned % PAGE == 0 && ptr / PAGE <= aligned / PAGE && aligned < limit + PAGE
        invariant forall page: nat :: page < cells.Length * CELL ==>
          (Bit(cells[..], page) <==> !(ptr / PAGE <= page < aligned / PAGE) && Bit(pre, page))
      {
        var page := aligned / PAGE;
        cells[page / CELL] := cells[page / CELL] - {page % CELL};
        aligned := aligned + PAGE;
      }
    }

    /** A whole cell at a time, then the rest page by page: the same bits as `SetBitmap`. */
    method SetBitmapForBigAlloc(start: nat, size: nat)
      requires start % BLOCK == 0 && start + size <= cells.Length * CELL * PAGE
      modifies cells
      ensures Written(old(cells[..]), cells[..], start, size, true)
    {
      var ptr, limit := start, start + size;
      var offset := start / (PAGE * CELL);
      ghost var pre := cells[..];
      while ptr + PAGE * CELL <= limit
        invariant start <= ptr <= limit && ptr == offset * PAGE * CELL
        invariant forall page: nat :: page < cells.Length * CELL ==>
          (Bit(cells[..], page) <==> start / PAGE <= page < ptr / PAGE || Bit(pre, page))
      {
        cells[offset] := FULL;
        offset, ptr := offset + 1, ptr + PAGE * CELL;
      }
      if ptr < limit { SetBitmap(ptr, limit - ptr); }
    }

    /** Clears the eight cells of each block. */
    method UnsetBitmapForBigDealloc(start: nat, blocks: nat)
      requires start % BLOCK == 0 && start + blocks * BLOCK <= cells.Length * CELL * PAGE
      modifies cells
      ensures Written(old(cells[..]), cells[..], start, blocks * BLOCK, false)
    {
      var offset := start / (PAGE * CELL);
      ghost var pre := cells[..];
      for i := 0 to blocks * CELLS_PER_BLOCK
        invariant forall page: nat :: page < cells.Length * CELL ==>
          (Bit(cells[..], page) <==> !(offset <= page / CELL < offset + i) && Bit(pre, page))
      {
        cells[offset + i] := {};
      }
    }
  }
}
