/**
 * The 4x4 display the step engine draws on. The Qt widget is replaced by the set of
 * pixels that are lit, plus a log of the calls the engine made on it.
 */
module Screen {
  /** One call on the display, as the step engine issued it. */
  datatype Event = PixelUpdate(x: int, y: int, on: bool) | AllCleared

  predicate OnGrid(x: int, y: int) {
    0 <= x < 4 && 0 <= y < 4
  }

  /** The first `k` pixels in row-major order (row y, then column x). */
  function Swept(k: int): set<(int, int)> {
    set x, y | 0 <= x < 4 && 0 <= y < 4 && 4 * y + x < k :: (x, y)
  }

  /** All 16 pixels. */
  function Grid(): set<(int, int)> {
    Swept(16)
  }

  /** `update_pixel(x, y, on)`: sets or clears one pixel; coordinates off the grid are ignored. */
  function Update(lit: set<(int, int)>, x: int, y: int, on: bool): (r: set<(int, int)>)
    ensures OnGrid(x, y) ==> ((x, y) in r <==> on)
    ensures forall p :: p != (x, y) ==> (p in r <==> p in lit)
    ensures !OnGrid(x, y) ==> r == lit
  {
    if !OnGrid(x, y) then lit
    else if on then lit + {(x, y)}
    else lit - {(x, y)}
  }

  class Display {
    var lit: set<(int, int)>
    ghost var events: seq<Event>

    /** A new display is dark. */
    constructor ()
      ensures lit == {} && events == []
    {
      lit := {};
      events := [];
    }

    method UpdatePixel(x: int, y: int, on: bool)
      modifies this
      ensures lit == Update(old(lit), x, y, on)
      ensures events == old(events) + [PixelUpdate(x, y, on)]
    {
      if OnGrid(x, y) {
        lit := if on then lit + {(x, y)} else lit - {(x, y)};
      }
      events := events + [PixelUpdate(x, y, on)];
    }

    /** `clear_all`: every pixel off. */
    method ClearAll()
      modifies this
      ensures lit == {}
      ensures events == old(events) + [AllCleared]
    {
      lit := {};
      events := events + [AllCleared];
    }
  }
}
