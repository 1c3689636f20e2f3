/** The headset/monitor canvas (canvas.h): where a layer lands on the two
    1080x1200 eye halves of the headset framebuffer, which part of it is cropped
    away, and the two output toggles. Framebuffers are modelled as logs of the
    writes made to them. */
module Display {
  import opened CppInt

  const EYE_WIDTH: int := 1080
  const EYE_HEIGHT: int := 1200

  /** An OpenCV rectangle: top-left corner and extent. */
  datatype Rect = Rect(x: int, y: int, width: int, height: int)

  /** The outcome of the centring computation in draw(Layer, bool, bool). */
  datatype Placement = Placement(leftX: int, rightX: int, top: int, crop: Rect)

  /** draw's offset/crop computation for a layer of width w and height h. */
  function Place(w: nat, h: nat): (p: Placement)
    ensures p.rightX == p.leftX + EYE_WIDTH
    ensures 0 <= p.crop.x && 0 <= p.crop.width && p.crop.x + p.crop.width <= w
    ensures 0 <= p.crop.y && 0 <= p.crop.height && p.crop.y + p.crop.height <= h
  {
    var xOff := TDiv(EYE_WIDTH - w, 2);
    var yOff := TDiv(EYE_HEIGHT - h, 2);
    var leftX := if xOff < 0 then 0 else xOff;
    var cropX := if xOff < 0 then -1 * xOff else 0;
    var cropW := if xOff < 0 then EYE_WIDTH else w;
    var top := if yOff < 0 then 0 else yOff;
    var cropY := if yOff < 0 then -1 * yOff else 0;
    var cropH := if yOff < 0 then EYE_HEIGHT else h;
    Placement(leftX, leftX + EYE_WIDTH, top, Rect(cropX, cropY, cropW, cropH))
  }

  /** Horizontal rule: a layer at most 1080 wide is drawn whole and centred
      (margins differ by at most one pixel); a 1081-wide one is drawn whole at
      x 0 and overruns the eye; a wider one is cropped to a centred 1080-wide
      window that starts at the left eye's edge. */
  lemma PlaceHorizontal(w: nat, h: nat)
    ensures var p := Place(w, h);
      && (w <= EYE_WIDTH ==> p.crop.x == 0 && p.crop.width == w && 0 <= p.leftX
                             && EYE_WIDTH - w - 1 <= 2 * p.leftX <= EYE_WIDTH - w)
      && (w == EYE_WIDTH + 1 ==> p.crop.x == 0 && p.crop.width == w && p.leftX == 0)
      && (w >= EYE_WIDTH + 2 ==> p.crop.x == (w - EYE_WIDTH) / 2 && p.crop.width == EYE_WIDTH
                                 && p.leftX == 0)
  {
  }

  /** Vertical rule: the same with the eye height 1200. */
  lemma PlaceVertical(w: nat, h: nat)
    ensures var p := Place(w, h);
      && (h <= EYE_HEIGHT ==> p.crop.y == 0 && p.crop.height == h && 0 <= p.top
                              && EYE_HEIGHT - h - 1 <= 2 * p.top <= EYE_HEIGHT - h)
      && (h == EYE_HEIGHT + 1 ==> p.crop.y == 0 && p.crop.height == h && p.top == 0)
      && (h >= EYE_HEIGHT + 2 ==> p.crop.y == (h - EYE_HEIGHT) / 2 && p.crop.height == EYE_HEIGHT
                                  && p.top == 0)
  {
  }

  /** As written, truncating division turns (1080 - 1081) / 2 into 0, so a
      1081-wide layer is not cropped: each row written at the left eye's x offset
      runs one pixel into the right eye, and the right eye's row one pixel past
      the framebuffer line. The same happens vertically for height 1201. */
  lemma PlaceOverflowsEye()
    ensures Place(EYE_WIDTH + 1, EYE_HEIGHT).crop.width == EYE_WIDTH + 1
    ensures Place(EYE_WIDTH + 1, EYE_HEIGHT).leftX + Place(EYE_WIDTH + 1, EYE_HEIGHT).crop.width > EYE_WIDTH
    ensures Place(EYE_WIDTH, EYE_HEIGHT + 1).top + Place(EYE_WIDTH, EYE_HEIGHT + 1).crop.height > EYE_HEIGHT
  {
  }

  /** The evidently intended centring: crop whenever the layer is larger than
      an eye. */
  function PlaceIntended(w: nat, h: nat): (p: Placement)
  {
    var leftX := if w > EYE_WIDTH then 0 else TDiv(EYE_WIDTH - w, 2);
    var cropX := if w > EYE_WIDTH then (w - EYE_WIDTH) / 2 else 0;
    var cropW := if w > EYE_WIDTH then EYE_WIDTH else w;
    var top := if h > EYE_HEIGHT then 0 else TDiv(EYE_HEIGHT - h, 2);
    var cropY := if h > EYE_HEIGHT then (h - EYE_HEIGHT) / 2 else 0;
    var cropH := if h > EYE_HEIGHT then EYE_HEIGHT else h;
    Placement(leftX, leftX + EYE_WIDTH, top, Rect(cropX, cropY, cropW, cropH))
  }

  /** The intended placement keeps every written row inside its eye and every
      crop inside the layer, and differs from the code only at width 1081 or
      height 1201. */
  lemma PlaceIntendedFits(w: nat, h: nat)
    ensures var p := PlaceIntended(w, h);
      && p.rightX == p.leftX + EYE_WIDTH
      && 0 <= p.leftX && p.leftX + p.crop.width <= EYE_WIDTH
      && 0 <= p.top && p.top + p.crop.height <= EYE_HEIGHT
      && 0 <= p.crop.x && p.crop.x + p.crop.width <= w
      && 0 <= p.crop.y && p.crop.y + p.crop.height <= h
    ensures w != EYE_WIDTH + 1 && h != EYE_HEIGHT + 1 ==> PlaceIntended(w, h) == Place(w, h)
  {
  }

  /** One putRow call on the headset framebuffer: destination x and y, the
      layer row it copies, and the byte count (4 bytes per pixel). */
  datatype RowWrite = RowWrite(x: int, y: int, srcRow: int, bytes: int)

  /** The putRow calls of draw's headset loop for the first n cropped rows:
      two per row, left eye first. */
  function ViveRows(p: Placement, n: nat): (rows: seq<RowWrite>)
    ensures |rows| == 2 * n
  {
    seq(2 * n, k requires 0 <= k < 2 * n =>
      RowWrite(if k % 2 == 0 then p.leftX else p.rightX, p.top + k / 2, p.crop.y + k / 2, 4 * p.crop.width))
  }

  /** Cropped row i goes to both eyes, at the same height top + i, the right
      copy exactly one eye width to the right of the left one. */
  lemma ViveRowsAt(p: Placement, n: nat, i: nat)
    requires i < n
    ensures ViveRows(p, n)[2 * i] == RowWrite(p.leftX, p.top + i, p.crop.y + i, 4 * p.crop.width)
    ensures ViveRows(p, n)[2 * i + 1] == RowWrite(p.rightX, p.top + i, p.crop.y + i, 4 * p.crop.width)
  {
  }

  /** One more iteration of the row loop appends the left and right copies of row n. */
  lemma ViveRowsStep(p: Placement, n: nat)
    ensures ViveRows(p, n + 1) == ViveRows(p, n)
      + [RowWrite(p.leftX, p.top + n, p.crop.y + n, 4 * p.crop.width),
         RowWrite(p.rightX, p.top + n, p.crop.y + n, 4 * p.crop.width)]
  {
    var a := ViveRows(p, n + 1);
    var b := ViveRows(p, n) + [RowWrite(p.leftX, p.top + n, p.crop.y + n, 4 * p.crop.width),
                               RowWrite(p.rightX, p.top + n, p.crop.y + n, 4 * p.crop.width)];
    forall k | 0 <= k < 2 * n + 2
      ensures a[k] == b[k]
    {
      if k >= 2 * n {
        assert k / 2 == n;
      }
    }
  }

  /** Everything draw writes to the headset for a layer of size w x h. */
  function ViveOutput(w: nat, h: nat): seq<RowWrite>
  {
    ViveRows(Place(w, h), Place(w, h).crop.height)
  }

  /** The observable state of a canvas: the two toggles and the two framebuffer logs. */
  datatype Screens = Screens(monitor: bool, vive: bool, viveRows: seq<RowWrite>, monitorCrops: seq<Rect>)

  /** setOutput(m, v): assign both toggles; blank (a 1080x1200 layer) every output turned off. */
  function SetOutputSpec(s: Screens, m: bool, v: bool): Screens
  {
    Screens(m, v,
            s.viveRows + (if v then [] else ViveOutput(EYE_WIDTH, EYE_HEIGHT)),
            s.monitorCrops + (if m then [] else [Place(EYE_WIDTH, EYE_HEIGHT).crop]))
  }

  class Canvas {
    var monitor: bool
    var vive: bool
    /** Names the image catalogue (ImageManager) holds. */
    const images: set<string>
    /** Every putRow made on the headset framebuffer, in order. */
    var viveRows: seq<RowWrite>
    /** Every crop handed to the monitor downscale, in order. */
    var monitorCrops: seq<Rect>

    function State(): Screens
      reads this
    {
      Screens(monitor, vive, viveRows, monitorCrops)
    }

    constructor (images: set<string>, m: bool, v: bool)
      ensures this.images == images
      ensures State() == SetOutputSpec(Screens(false, false, [], []), m, v)
    {
      this.images := images;
      monitor, vive := false, false;
      viveRows, monitorCrops := [], [];
      new;
      SetOutput(m, v);
    }

    /** draw(Layer, bool, bool) for a layer of width w and height h. */
    method Draw(w: nat, h: nat, drawMonitor: bool, drawVive: bool)
      modifies this`viveRows, this`monitorCrops
      ensures viveRows == old(viveRows) + (if drawVive then ViveOutput(w, h) else [])
      ensures monitorCrops == old(monitorCrops) + (if drawMonitor then [Place(w, h).crop] else [])
    {
      var p := Place(w, h);
      if drawVive {
        var i := 0;
        while i < p.crop.height
          invariant 0 <= i <= p.crop.height
          invariant viveRows == old(viveRows) + ViveRows(p, i)
          invariant monitorCrops == old(monitorCrops)
        {
          ViveRowsStep(p, i);
          viveRows := viveRows + [RowWrite(p.leftX, p.top + i, p.crop.y + i, 4 * p.crop.width)];
          viveRows := viveRows + [RowWrite(p.rightX, p.top + i, p.crop.y + i, 4 * p.crop.width)];
          i := i + 1;
        }
      }
      if drawMonitor {
        monitorCrops := monitorCrops + [p.crop];
      }
    }

    /** draw(Layer): to the outputs currently switched on. */
    method DrawCurrent(w: nat, h: nat)
      modifies this`viveRows, this`monitorCrops
      ensures viveRows == old(viveRows) + (if vive then ViveOutput(w, h) else [])
      ensures monitorCrops == old(monitorCrops) + (if monitor then [Place(w, h).crop] else [])
    {
      Draw(w, h, monitor, vive);
    }

    method SetOutput(m: bool, v: bool)
      modifies this
      ensures monitor == m && vive == v
      ensures State() == SetOutputSpec(old(State()), m, v)
    {
      monitor := m;
      vive := v;
      if !m {
        Draw(EYE_WIDTH, EYE_HEIGHT, true, false);
      }
      if !v {
        Draw(EYE_WIDTH, EYE_HEIGHT, false, true);
      }
    }

    /** Changes the monitor toggle only (re-blanking whatever is off). */
    method SetMonitorOutput(m: bool)
      modifies this
      ensures monitor == m && vive == old(vive)
      ensures State() == SetOutputSpec(old(State()), m, old(vive))
    {
      SetOutput(m, vive);
    }

    /** Changes the headset toggle only (re-blanking whatever is off). */
    method SetViveOutput(v: bool)
      modifies this
      ensures vive == v && monitor == old(monitor)
      ensures State() == SetOutputSpec(old(State()), old(monitor), v)
    {
      SetOutput(monitor, v);
    }
  }
}
