/** The panel: its pixels as the renderer writes them, and the geometry rendering relies on. */
module Screen {
  import opened Bytes
  import opened Raster

  const SCREEN_W: nat := 240
  const SCREEN_H: nat := 240

  /** What the bus makes of one write: it goes through, or fails and leaves the panel anyhow. */
  datatype Write = Taken | Failed(noise: (int, int) -> int)

  class Screen {
    var ok: bool
    var px: (int, int) -> int
    /** How many windows have been sent. */
    ghost var pushes: nat
    /** No write has ever failed. */
    ghost var clean: bool

    constructor (garbage: (int, int) -> int)
      ensures ok && clean && px == garbage && pushes == 0
    {
      ok, px, pushes, clean := true, garbage, 0, true;
    }

    /**
     * `push_band`: the window takes the colours of the first `n` bytes. A byte count that is not
     * two per pixel is refused, as is everything once a write has failed; callers must keep the
     * window on the panel.
     */
    method PushBand(x: nat, y: nat, w: nat, h: nat, band: array<byte>, n: nat, write: Write) returns (pushed: bool)
      requires w > 0 && h > 0 && x + w <= SCREEN_W && y + h <= SCREEN_H && n <= band.Length
      modifies this
      ensures pushed == (old(ok) && n == 2 * (w * h) && write.Taken?)
      ensures !old(ok) || n != 2 * (w * h) ==>
        px == old(px) && ok == old(ok) && clean == old(clean) && pushes == old(pushes)
      ensures old(ok) && n == 2 * (w * h) ==> pushes == old(pushes) + 1 && ok == pushed
      ensures old(ok) && n == 2 * (w * h) && !pushed ==> !clean && px == write.noise
      ensures pushed ==> clean == old(clean)
      ensures pushed ==> (forall i, j ::
        px(i, j) == if InRect(x, y, w, h, i, j) then PixelOf(band[..], w, i - x, j - y) else old(px)(i, j))
    {
      if !ok || n != 2 * (w * h) {
        return false;
      }
      pushes := pushes + 1;
      if write.Failed? {
        px, ok, clean := write.noise, false, false;
        return false;
      }
      var bytes, before := band[..], px;
      px := (i, j) => if InRect(x, y, w, h, i, j) then PixelOf(bytes, w, i - x, j - y) else before(i, j);
      return true;
    }

    /** `try_recover`: the panel is set up again, which may fail again; nothing is drawn anew. */
    method TryRecover(works: bool)
      modifies this`ok, this`clean
      ensures ok == works && !clean
    {
      ok, clean := works, false;
    }
  }
}
