/** A layer (layer.h): an image with a same-sized transparency plane, and the
    centred overlay of one layer onto another. The per-pixel blend is
    floating-point arithmetic and is passed in as an uninterpreted function. */
module Compositing {
  import opened CppInt

  /** A BGR pixel (cv::Point3_<uint8_t>). */
  datatype Pixel = Pixel(b: Byte, g: Byte, r: Byte)

  /** The six offsets overlay computes: where top's origin lands on this layer
      (yOff, xOff) and the half-open window of this layer's pixels that are blended. */
  datatype Window = Window(yOff: int, xOff: int, yStart: int, xStart: int, yEnd: int, xEnd: int)

  predicate InWindow(w: Window, y: int, x: int)
  {
    w.yStart <= y < w.yEnd && w.xStart <= x < w.xEnd
  }

  /** Every pixel of the window reads top at an index inside a topH x topW image. */
  predicate ReadsInside(w: Window, topH: int, topW: int)
  {
    && w.yOff <= w.yStart && w.xOff <= w.xStart
    && (w.yStart < w.yEnd && w.xStart < w.xEnd ==> w.yEnd <= w.yOff + topH && w.xEnd <= w.xOff + topW)
  }

  /** overlay's offsets, as written: the Y end adds top's width and the X end
      adds top's height. */
  function OverlayWindow(rows: nat, cols: nat, topH: nat, topW: nat): (w: Window)
    ensures 0 <= w.yStart && w.yEnd <= rows && 0 <= w.xStart && w.xEnd <= cols
    ensures w.yOff <= w.yStart && w.xOff <= w.xStart
  {
    var yOff := TDiv(rows - topH, 2);
    var xOff := TDiv(cols - topW, 2);
    Window(yOff, xOff, Max(0, yOff), Max(0, xOff), Min(rows, yOff + topW), Min(cols, xOff + topH))
  }

  /** overlay centres top: each offset is half the size difference, truncated
      toward zero, and the window is the part of top's span (as written) that
      falls inside this layer. */
  lemma OverlayWindowCentres(rows: nat, cols: nat, topH: nat, topW: nat)
    ensures var w := OverlayWindow(rows, cols, topH, topW);
      && (rows >= topH ==> 0 <= rows - topH - 2 * w.yOff <= 1)
      && (rows < topH ==> -1 <= rows - topH - 2 * w.yOff <= 0)
      && (cols >= topW ==> 0 <= cols - topW - 2 * w.xOff <= 1)
      && (cols < topW ==> -1 <= cols - topW - 2 * w.xOff <= 0)
      && (forall y, x {:trigger InWindow(w, y, x)} :: InWindow(w, y, x) <==>
            0 <= y < rows && 0 <= x < cols && w.yOff <= y < w.yOff + topW && w.xOff <= x < w.xOff + topH)
  {
  }

  /** For a square top the swapped ends do no harm: every blended pixel reads
      inside top. */
  lemma OverlayWindowSquareReadsInside(rows: nat, cols: nat, side: nat)
    ensures ReadsInside(OverlayWindow(rows, cols, side, side), side, side)
  {
  }

  /** A 2-row, 4-column top centred on a 10x10 layer: the window runs over rows
      4..7 but top has only rows 0..1, so the blend reads top out of bounds. */
  lemma OverlayWindowReadsOutside()
    ensures var w := OverlayWindow(10, 10, 2, 4);
      w == Window(4, 3, 4, 3, 8, 5) && InWindow(w, 6, 3) && 6 - w.yOff >= 2
    ensures !ReadsInside(OverlayWindow(10, 10, 2, 4), 2, 4)
  {
  }

  /** The evidently intended window: the Y end adds top's height, the X end its width. */
  function IntendedOverlayWindow(rows: nat, cols: nat, topH: nat, topW: nat): (w: Window)
  {
    var yOff := TDiv(rows - topH, 2);
    var xOff := TDiv(cols - topW, 2);
    Window(yOff, xOff, Max(0, yOff), Max(0, xOff), Min(rows, yOff + topH), Min(cols, xOff + topW))
  }

  /** The intended window is exactly the overlap of this layer with the centred
      top, so every blended pixel reads inside top; for square tops it is the
      window the code computes. */
  lemma IntendedOverlayWindowIsOverlap(rows: nat, cols: nat, topH: nat, topW: nat)
    ensures var w := IntendedOverlayWindow(rows, cols, topH, topW);
      && ReadsInside(w, topH, topW)
      && (forall y, x {:trigger InWindow(w, y, x)} :: InWindow(w, y, x) <==>
            0 <= y < rows && 0 <= x < cols && 0 <= y - w.yOff < topH && 0 <= x - w.xOff < topW)
    ensures topH == topW ==> IntendedOverlayWindow(rows, cols, topH, topW) == OverlayWindow(rows, cols, topH, topW)
  {
  }

  /** A top of this layer's own size (a copy sharing its buffer, say) is
      centred with zero offsets. With the ends as written the window is the
      leading square of side min(rows, cols), the whole layer only when the
      layer is square. */
  lemma SharedOverlayWindowIsSquare(rows: nat, cols: nat)
    ensures OverlayWindow(rows, cols, rows, cols) == Window(0, 0, 0, 0, Min(rows, cols), Min(rows, cols))
    ensures rows == cols ==> forall y, x {:trigger InWindow(OverlayWindow(rows, cols, rows, cols), y, x)} ::
      InWindow(OverlayWindow(rows, cols, rows, cols), y, x) <==> 0 <= y < rows && 0 <= x < cols
  {
  }

  class Layer {
    var image: array2<Pixel>
    /** Per-pixel transparency in [0, 1] (a CV_32F plane). */
    var alpha: array2<real>

    ghost predicate Valid()
      reads this
    {
      alpha.Length0 == image.Length0 && alpha.Length1 == image.Length1
    }

    /** Layer(cv::Mat): adopt the image and make a fully opaque alpha plane of its size. */
    constructor (i: array2<Pixel>)
      ensures Valid() && image == i && fresh(alpha)
      ensures forall y, x :: 0 <= y < alpha.Length0 && 0 <= x < alpha.Length1 ==> alpha[y, x] == 1.0
    {
      image := i;
      alpha := new real[i.Length0, i.Length1]((y, x) => 1.0);
    }

    /** getHeight: the number of rows. */
    function Height(): nat
      reads this
    {
      image.Length0
    }

    /** getWidth: the number of columns. */
    function Width(): nat
      reads this
    {
      image.Length1
    }

    /** setImage: replace the image only with one of the same size. */
    method SetImage(i: array2<Pixel>)
      requires Valid()
      modifies this`image
      ensures Valid()
      ensures image == (if i.Length0 == old(image).Length0 && i.Length1 == old(image).Length1 then i else old(image))
    {
      if i.Length1 != image.Length1 || i.Length0 != image.Length0 {
        // the source reports the size mismatch and keeps its image
      } else {
        image := i;
      }
    }

    /** setAlpha: a flat transparency over the whole plane. */
    method SetAlpha(v: real)
      modifies alpha
      ensures forall y, x :: 0 <= y < alpha.Length0 && 0 <= x < alpha.Length1 ==> alpha[y, x] == v
    {
      var y := 0;
      while y < alpha.Length0
        invariant 0 <= y <= alpha.Length0
        invariant forall i, j :: 0 <= i < y && 0 <= j < alpha.Length1 ==> alpha[i, j] == v
      {
        var x := 0;
        while x < alpha.Length1
          invariant 0 <= x <= alpha.Length1
          invariant forall i, j :: 0 <= i < y && 0 <= j < alpha.Length1 ==> alpha[i, j] == v
          invariant forall j :: 0 <= j < x ==> alpha[y, j] == v
        {
          alpha[y, x] := v;
          x := x + 1;
        }
        y := y + 1;
      }
    }

    /** The alphaOperator applied to every pixel: inside the window a pixel is
        blended with top's pixel and alpha at the offset position; outside it is
        left alone. A top that shares this layer's buffer (a copy of the same
        cv::Mat) lies exactly over it, so each pixel is read before it is
        written and is blended with itself. */
    method BlendWindow(top: Layer, w: Window, blend: (Pixel, Pixel, real) -> Pixel)
      requires Valid() && top.Valid()
      requires top.image != image || (w.yOff == 0 && w.xOff == 0)
      requires ReadsInside(w, top.image.Length0, top.image.Length1)
      modifies image
      ensures forall y, x :: 0 <= y < image.Length0 && 0 <= x < image.Length1 ==>
        image[y, x] == if InWindow(w, y, x)
                       then blend(old(image[y, x]), old(top.image[y - w.yOff, x - w.xOff]), top.alpha[y - w.yOff, x - w.xOff])
                       else old(image[y, x])
    {
      var y := 0;
      while y < image.Length0
        invariant 0 <= y <= image.Length0
        invariant forall i, j :: 0 <= i < y && 0 <= j < image.Length1 ==>
          image[i, j] == if InWindow(w, i, j)
                         then blend(old(image[i, j]), old(top.image[i - w.yOff, j - w.xOff]), top.alpha[i - w.yOff, j - w.xOff])
                         else old(image[i, j])
        invariant forall i, j :: y <= i < image.Length0 && 0 <= j < image.Length1 ==> image[i, j] == old(image[i, j])
        invariant top.image != image ==> forall i, j :: 0 <= i < top.image.Length0 && 0 <= j < top.image.Length1 ==>
          top.image[i, j] == old(top.image[i, j])
      {
        BlendRow(top, w, blend, y);
        y := y + 1;
      }
    }

    /** The alphaOperator over row y: each pixel of the row inside the window
        is blended, and nothing else changes. */
    method BlendRow(top: Layer, w: Window, blend: (Pixel, Pixel, real) -> Pixel, y: int)
      requires Valid() && top.Valid() && 0 <= y < image.Length0
      requires top.image != image || (w.yOff == 0 && w.xOff == 0)
      requires ReadsInside(w, top.image.Length0, top.image.Length1)
      modifies image
      ensures forall x :: 0 <= x < image.Length1 ==>
        image[y, x] == if InWindow(w, y, x)
                       then blend(old(image[y, x]), old(top.image[y - w.yOff, x - w.xOff]), top.alpha[y - w.yOff, x - w.xOff])
                       else old(image[y, x])
      ensures forall i, j :: 0 <= i < image.Length0 && i != y && 0 <= j < image.Length1 ==> image[i, j] == old(image[i, j])
    {
      var x := 0;
      while x < image.Length1
        invariant 0 <= x <= image.Length1
        invariant forall j :: 0 <= j < x ==>
          image[y, j] == if InWindow(w, y, j)
                         then blend(old(image[y, j]), old(top.image[y - w.yOff, j - w.xOff]), top.alpha[y - w.yOff, j - w.xOff])
                         else old(image[y, j])
        invariant forall j :: x <= j < image.Length1 ==> image[y, j] == old(image[y, j])
        invariant forall i, j :: 0 <= i < image.Length0 && i != y && 0 <= j < image.Length1 ==> image[i, j] == old(image[i, j])
      {
        if InWindow(w, y, x) {
          var t := top.image[y - w.yOff, x - w.xOff];
          assert t == old(top.image[y - w.yOff, x - w.xOff]) by {
            if top.image == image {
              assert y - w.yOff == y && x - w.xOff == x;
            }
          }
          image[y, x] := blend(image[y, x], t, top.alpha[y - w.yOff, x - w.xOff]);
        }
        x := x + 1;
      }
    }

    /** overlay, as written: centre top on this layer and blend the window the
        code computes. Its reads of top stay in bounds only under the stated
        precondition (always true for square tops). */
    method Overlay(top: Layer, blend: (Pixel, Pixel, real) -> Pixel)
      requires Valid() && top.Valid()
      requires ReadsInside(OverlayWindow(image.Length0, image.Length1, top.image.Length0, top.image.Length1),
                           top.image.Length0, top.image.Length1)
      modifies image
      ensures var w := OverlayWindow(image.Length0, image.Length1, top.image.Length0, top.image.Length1);
        forall y, x :: 0 <= y < image.Length0 && 0 <= x < image.Length1 ==>
          image[y, x] == if InWindow(w, y, x)
                         then blend(old(image[y, x]), old(top.image[y - w.yOff, x - w.xOff]), top.alpha[y - w.yOff, x - w.xOff])
                         else old(image[y, x])
    {
      var w := OverlayWindow(image.Length0, image.Length1, top.image.Length0, top.image.Length1);
      BlendWindow(top, w, blend);
    }

    /** overlay with the intended window: blends exactly the overlap of the two
        layers, for tops of any shape. */
    method OverlayIntended(top: Layer, blend: (Pixel, Pixel, real) -> Pixel)
      requires Valid() && top.Valid()
      modifies image
      ensures var w := IntendedOverlayWindow(image.Length0, image.Length1, top.image.Length0, top.image.Length1);
        forall y, x :: 0 <= y < image.Length0 && 0 <= x < image.Length1 ==>
          image[y, x] == if InWindow(w, y, x)
                         then blend(old(image[y, x]), old(top.image[y - w.yOff, x - w.xOff]), top.alpha[y - w.yOff, x - w.xOff])
                         else old(image[y, x])
    {
      var w := IntendedOverlayWindow(image.Length0, image.Length1, top.image.Length0, top.image.Length1);
      IntendedOverlayWindowIsOverlap(image.Length0, image.Length1, top.image.Length0, top.image.Length1);
      BlendWindow(top, w, blend);
    }
  }
}
