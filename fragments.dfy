/** Pixel writes. Every rasteriser produces a sequence of fragments (a pixel
    position and a colour) and hands each one to ShadePixel, whose bounds check
    is modelled by Plot; Paint applies a whole sequence in order. */
module Fragments {
  import opened Common
  import opened Colours

  datatype Fragment = Fragment(x: int, y: int, colour: Colour)

  predicate OnScreen(f: Fragment, w: nat, h: nat)
  {
    0 <= f.x < w && 0 <= f.y < h
  }

  predicate AllOnScreen(frags: seq<Fragment>, w: nat, h: nat)
  {
    forall i :: 0 <= i < |frags| ==> OnScreen(frags[i], w, h)
  }

  lemma AllOnScreenAppend(p: seq<Fragment>, q: seq<Fragment>, w: nat, h: nat)
    requires AllOnScreen(p, w, h) && AllOnScreen(q, w, h)
    ensures AllOnScreen(p + q, w, h)
  {
    forall i | 0 <= i < |p + q| ensures OnScreen((p + q)[i], w, h) {
      if i >= |p| { assert (p + q)[i] == q[i - |p|]; }
    }
  }

  /** The cell `y * w + x` of a row-major w-by-h buffer exists. */
  lemma CellInBuffer(x: nat, y: nat, w: nat, h: nat)
    requires x < w && y < h
    ensures y * w + x < w * h
  {
    RowInBuffer(y, w, h);
  }

  /** Row y of a w-by-h buffer, cells y * w up to y * w + w, lies in the buffer. */
  lemma RowInBuffer(y: nat, w: nat, h: nat)
    requires y < h
    ensures y * w + w <= w * h && w * y + w <= w * h
  {
    MulLe(y + 1, h, w);
  }

  /** ShadePixel: write the packed colour at `y * w + x` when (x, y) is on
      screen, and leave the buffer alone otherwise. */
  function Plot(buf: seq<Pixel>, w: nat, h: nat, f: Fragment): (r: seq<Pixel>)
    requires |buf| == w * h
    ensures |r| == |buf|
    ensures OnScreen(f, w, h) ==> f.y * w + f.x < |r| && r[f.y * w + f.x] == Pack(f.colour)
    ensures forall k :: 0 <= k < |r| && (!OnScreen(f, w, h) || k != f.y * w + f.x) ==> r[k] == buf[k]
  {
    if OnScreen(f, w, h) then
      CellInBuffer(f.x, f.y, w, h);
      buf[f.y * w + f.x := Pack(f.colour)]
    else
      buf
  }

  /** The buffer after ShadePixel has been called on each fragment in turn. */
  function Paint(buf: seq<Pixel>, w: nat, h: nat, frags: seq<Fragment>): (r: seq<Pixel>)
    requires |buf| == w * h
    ensures |r| == |buf|
    decreases |frags|
  {
    if |frags| == 0 then buf
    else Plot(Paint(buf, w, h, frags[..|frags| - 1]), w, h, frags[|frags| - 1])
  }

  lemma PaintSnoc(buf: seq<Pixel>, w: nat, h: nat, frags: seq<Fragment>, f: Fragment)
    requires |buf| == w * h
    ensures Paint(buf, w, h, frags + [f]) == Plot(Paint(buf, w, h, frags), w, h, f)
  {
    assert (frags + [f])[..|frags|] == frags;
  }

  /** Painting one fragment more of a run: the prefix of length i + 1 is the
      prefix of length i followed by fragment i. */
  lemma PaintPrefixStep(buf: seq<Pixel>, w: nat, h: nat, frags: seq<Fragment>, i: nat)
    requires |buf| == w * h && i < |frags|
    ensures Paint(buf, w, h, frags[..i + 1]) == Plot(Paint(buf, w, h, frags[..i]), w, h, frags[i])
  {
    assert frags[..i + 1][..i] == frags[..i];
  }

  /** Painting two runs of fragments one after the other is painting their
      concatenation. */
  lemma {:induction false} PaintAppend(buf: seq<Pixel>, w: nat, h: nat, a: seq<Fragment>, b: seq<Fragment>)
    requires |buf| == w * h
    ensures Paint(buf, w, h, a + b) == Paint(Paint(buf, w, h, a), w, h, b)
    decreases |b|
  {
    if |b| == 0 {
      assert a + b == a;
    } else {
      var b' := b[..|b| - 1];
      assert a + b == (a + b') + [b[|b| - 1]];
      PaintSnoc(buf, w, h, a + b', b[|b| - 1]);
      PaintAppend(buf, w, h, a, b');
      PaintSnoc(Paint(buf, w, h, a), w, h, b', b[|b| - 1]);
      assert b == b' + [b[|b| - 1]];
    }
  }

  /** A cell that no on-screen fragment addresses keeps its value: writes
      never reach outside the fragments' own cells. */
  lemma {:induction false} PaintLeavesOtherCells(buf: seq<Pixel>, w: nat, h: nat, frags: seq<Fragment>, k: nat)
    requires |buf| == w * h && k < |buf|
    requires forall i :: 0 <= i < |frags| && OnScreen(frags[i], w, h) ==> frags[i].y * w + frags[i].x != k
    ensures Paint(buf, w, h, frags)[k] == buf[k]
    decreases |frags|
  {
    if |frags| > 0 {
      var p := frags[..|frags| - 1];
      assert forall i :: 0 <= i < |p| ==> p[i] == frags[i];
      PaintLeavesOtherCells(buf, w, h, p, k);
    }
  }

  /** Fragment f is on screen and ShadePixel writes it to cell k. */
  predicate Writes(f: Fragment, w: nat, h: nat, k: int)
  {
    OnScreen(f, w, h) && f.y * w + f.x == k
  }

  /** The last on-screen fragment addressed to a cell decides its value. */
  lemma {:induction false} PaintLastWriteWins(buf: seq<Pixel>, w: nat, h: nat, frags: seq<Fragment>, j: nat, k: int)
    requires |buf| == w * h && j < |frags| && Writes(frags[j], w, h, k)
    requires forall i :: j < i < |frags| ==> !Writes(frags[i], w, h, k)
    ensures 0 <= k < |buf|
    ensures Paint(buf, w, h, frags)[k] == Pack(frags[j].colour)
    decreases |frags|
  {
    CellInBuffer(frags[j].x, frags[j].y, w, h);
    var p := frags[..|frags| - 1];
    var last := frags[|frags| - 1];
    assert Paint(buf, w, h, frags) == Plot(Paint(buf, w, h, p), w, h, last);
    if j < |frags| - 1 {
      assert p[j] == frags[j];
      assert forall i :: j < i < |p| ==> p[i] == frags[i];
      PaintLastWriteWins(buf, w, h, p, j, k);
      assert !Writes(last, w, h, k);
    }
  }
}
