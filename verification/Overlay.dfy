/**
 The two renderers of detection boxes: the one that draws into the 640x480 RGB565 camera frame
 (src/display_layer/detection_overlay.c) and the one that draws into the 480x480 RGB888 snapshot
 (src/iotc/iotc_snapshot.c).
 */
module Overlay {
  import opened Bytes

  const CAM_W := 640
  const CAM_H := 480
  const SNAP_W := 480
  const SNAP_H := 480
  const CROP_OFF_X := 80
  const BOX_COLOR: u16 := 0x07E0
  const BOX_THICK := 3

  type int16 = v: int | -0x8000 <= v < 0x8000

  /** A detection in model coordinates. */
  datatype Box = Box(mx: int16, my: int16, mw: int16, mh: int16)

  /** C's division by two, towards zero. */
  function Halved(v: int): int {
    if v >= 0 then v / 2 else -(-v / 2)
  }

  /** Model to camera coordinates. */
  function Scaled(v: int16): int {
    Halved(v * 5)
  }

  function Clamp(v: int, lo: int, hi: int): int {
    if v < lo then lo else if v > hi then hi else v
  }

  // ---------------------------------------------------------------- which pixels are painted

  predicate InHLine(w: nat, h: nat, x0: int, x1: int, y: int, px: int, py: int) {
    0 <= y < h && py == y && Clamp(x0, 0, w - 1) <= px <= Clamp(x1, 0, w - 1)
  }

  predicate InVLine(w: nat, h: nat, x: int, y0: int, y1: int, px: int, py: int) {
    0 <= x < w && px == x && Clamp(y0, 0, h - 1) <= py <= Clamp(y1, 0, h - 1)
  }

  /** The four lines of a box at one thickness, on a canvas whose box origin is moved `off` columns right. */
  predicate InEdges(w: nat, off: int, b: Box, t: int, px: int, py: int) {
    var x, y, bw, bh := off + Scaled(b.mx), Scaled(b.my), Scaled(b.mw), Scaled(b.mh);
    || InHLine(w, 480, x, x + bw, y + t, px, py)
    || InHLine(w, 480, x, x + bw, y + bh - t, px, py)
    || InVLine(w, 480, x + t, y, y + bh, px, py)
    || InVLine(w, 480, x + bw - t, y, y + bh, px, py)
  }

  predicate InBox(w: nat, off: int, b: Box, thickness: nat, px: int, py: int) {
    thickness > 0 && (InBox(w, off, b, thickness - 1, px, py) || InEdges(w, off, b, thickness - 1, px, py))
  }

  predicate InBoxes(w: nat, off: int, boxes: seq<Box>, px: int, py: int) {
    boxes != []
    && (InBoxes(w, off, boxes[..|boxes| - 1], px, py) || InBox(w, off, boxes[|boxes| - 1], BOX_THICK, px, py))
  }

  /** Two and a half times the model coordinate, cut off towards zero. */
  lemma ScaledIs(v: int16)
    ensures 0 <= v ==> 2 * Scaled(v) <= 5 * v < 2 * Scaled(v) + 2
    ensures v <= 0 ==> 2 * Scaled(v) >= 5 * v > 2 * Scaled(v) - 2
  {
  }

  /** The three thicknesses of a box. */
  lemma {:induction false} BoxEdges(w: nat, off: int, b: Box, px: int, py: int)
    ensures InBox(w, off, b, BOX_THICK, px, py)
        <==> InEdges(w, off, b, 0, px, py) || InEdges(w, off, b, 1, px, py) || InEdges(w, off, b, 2, px, py)
  {
    hide InEdges;
    assert InBox(w, off, b, 1, px, py) <==> InEdges(w, off, b, 0, px, py);
    assert InBox(w, off, b, 2, px, py) <==> InBox(w, off, b, 1, px, py) || InEdges(w, off, b, 1, px, py);
  }

  /** A box that lies on the canvas is painted as a border three pixels wide, and nothing else. */
  lemma BoxIsBorder(w: nat, off: int, b: Box, px: int, py: int)
    requires var x, y, bw, bh := off + Scaled(b.mx), Scaled(b.my), Scaled(b.mw), Scaled(b.mh);
      0 <= x && x + bw < w && 0 <= y && y + bh < 480 && 2 <= bw && 2 <= bh
    ensures var x, y, bw, bh := off + Scaled(b.mx), Scaled(b.my), Scaled(b.mw), Scaled(b.mh);
      InBox(w, off, b, BOX_THICK, px, py)
      <==> x <= px <= x + bw && y <= py <= y + bh
           && (px <= x + 2 || x + bw - 2 <= px || py <= y + 2 || y + bh - 2 <= py)
  {
    hide Scaled, InBox;
    BoxEdges(w, off, b, px, py);
  }

  // ---------------------------------------------------------------- the frame overlay

  function FrameX(k: nat): nat {
    k % CAM_W
  }

  function FrameY(k: nat): nat {
    k / CAM_W
  }

  type Frame = f: seq<u16> | |f| == CAM_W * CAM_H witness seq(CAM_W * CAM_H, _ => 0)

  /** A frame with the boxes drawn into it. */
  function Overlaid(frame: Frame, boxes: seq<Box>): (r: Frame)
    ensures forall k :: 0 <= k < |r| ==>
      r[k] == if InBoxes(CAM_W, CROP_OFF_X, boxes, FrameX(k), FrameY(k)) then BOX_COLOR else frame[k]
  {
    seq(CAM_W * CAM_H, k requires 0 <= k < CAM_W * CAM_H =>
      if InBoxes(CAM_W, CROP_OFF_X, boxes, FrameX(k), FrameY(k)) then BOX_COLOR else frame[k])
  }

  method FrameHLine(fb: array<u16>, x0: int, x1: int, y: int)
    requires fb.Length == CAM_W * CAM_H
    modifies fb
    ensures forall k :: 0 <= k < fb.Length ==>
      fb[k] == if InHLine(CAM_W, CAM_H, x0, x1, y, FrameX(k), FrameY(k)) then BOX_COLOR else old(fb[k])
  {
    if y < 0 || y >= CAM_H {
      return;
    }
    var a, b := Clamp(x0, 0, CAM_W - 1), Clamp(x1, 0, CAM_W - 1);
    var x := a;
    while x <= b
      invariant a <= x && (x <= b + 1 || x == a)
      invariant forall k :: 0 <= k < fb.Length ==>
        fb[k] == if FrameY(k) == y && a <= FrameX(k) < x then BOX_COLOR else old(fb[k])
    {
      fb[y * CAM_W + x] := BOX_COLOR;
      x := x + 1;
    }
  }

  method FrameVLine(fb: array<u16>, x: int, y0: int, y1: int)
    requires fb.Length == CAM_W * CAM_H
    modifies fb
    ensures forall k :: 0 <= k < fb.Length ==>
      fb[k] == if InVLine(CAM_W, CAM_H, x, y0, y1, FrameX(k), FrameY(k)) then BOX_COLOR else old(fb[k])
  {
    if x < 0 || x >= CAM_W {
      return;
    }
    var a, b := Clamp(y0, 0, CAM_H - 1), Clamp(y1, 0, CAM_H - 1);
    var y := a;
    while y <= b
      invariant a <= y && (y <= b + 1 || y == a)
      invariant forall k :: 0 <= k < fb.Length ==>
        fb[k] == if FrameX(k) == x && a <= FrameY(k) < y then BOX_COLOR else old(fb[k])
    {
      fb[y * CAM_W + x] := BOX_COLOR;
      y := y + 1;
    }
  }

  method FrameEdges(fb: array<u16>, box: Box, t: int)
    requires fb.Length == CAM_W * CAM_H
    modifies fb
    ensures forall k :: 0 <= k < fb.Length ==>
      fb[k] == if InEdges(CAM_W, CROP_OFF_X, box, t, FrameX(k), FrameY(k)) then BOX_COLOR else old(fb[k])
  {
    hide InHLine, InVLine, FrameX, FrameY, Scaled;
    var x, y, w, h := CROP_OFF_X + Scaled(box.mx), Scaled(box.my), Scaled(box.mw), Scaled(box.mh);
    FrameHLine(fb, x, x + w, y + t);
    FrameHLine(fb, x, x + w, y + h - t);
    FrameVLine(fb, x + t, y, y + h);
    FrameVLine(fb, x + w - t, y, y + h);
  }

  /** `detection_overlay_draw`: safe for any boxes, and exactly the boxes' pixels change colour. */
  method OverlayDraw(fb: array<u16>, boxes: seq<Box>)
    requires fb.Length == CAM_W * CAM_H
    modifies fb
    ensures fb[..] == Overlaid(old(fb[..]), boxes)
  {
    hide InEdges, FrameX, FrameY;
    for i := 0 to |boxes|
      invariant forall k :: 0 <= k < fb.Length ==>
        fb[k] == if InBoxes(CAM_W, CROP_OFF_X, boxes[..i], FrameX(k), FrameY(k)) then BOX_COLOR else old(fb[k])
    {
      ghost var before := fb[..];
      for t := 0 to BOX_THICK
        invariant forall k :: 0 <= k < fb.Length ==>
          fb[k] == if InBox(CAM_W, CROP_OFF_X, boxes[i], t, FrameX(k), FrameY(k)) then BOX_COLOR else before[k]
      {
        FrameEdges(fb, boxes[i], t);
      }
      assert boxes[..i + 1][..i] == boxes[..i];
    }
    assert boxes[..|boxes|] == boxes;
  }

  // ---------------------------------------------------------------- the snapshot

  const SNAP_SIZE := SNAP_W * SNAP_H * 3

  function SnapX(k: nat): nat {
    k / 3 % SNAP_W
  }

  function SnapY(k: nat): nat {
    k / 3 / SNAP_W
  }

  function Green(c: nat): byte {
    if c == 1 then 255 else 0
  }

  /** One channel of an RGB565 pixel, its bits replicated to eight. */
  function Channel(p: u16, c: nat): (v: byte)
    ensures p == BOX_COLOR ==> v == Green(c)
  {
    if c == 0 then p / 2048 * 8 + p / 2048 / 4
    else if c == 1 then p / 32 % 64 * 4 + p / 32 % 64 / 16
    else p % 32 * 8 + p % 32 / 4
  }

  /** Red in the upper five bits, green in the middle six, blue in the lower five, each stretched to eight. */
  lemma ChannelBits(r: nat, g: nat, b: nat)
    requires r < 32 && g < 64 && b < 32
    ensures var p := 2048 * r + 32 * g + b;
      Channel(p, 0) == 8 * r + r / 4 && Channel(p, 1) == 4 * g + g / 16 && Channel(p, 2) == 8 * b + b / 4
    ensures var p := 0x07E0; Channel(p, 0) == 0 && Channel(p, 1) == 255 && Channel(p, 2) == 0
    ensures Green(0) == 0 && Green(1) == 255 && Green(2) == 0
  {
    assert (2048 * r + 32 * g + b) / 2048 == r && (2048 * r + 32 * g + b) / 32 == 64 * r + g;
  }

  /** The frame pixel behind a snapshot octet: the centre 480 columns. */
  function Behind(k: nat): (i: nat)
    requires k < SNAP_SIZE
    ensures i < CAM_W * CAM_H
    ensures FrameX(i) == CROP_OFF_X + SnapX(k) && FrameY(i) == SnapY(k)
    ensures SnapX(k) < SNAP_W && SnapY(k) < SNAP_H
  {
    SnapY(k) * CAM_W + CROP_OFF_X + SnapX(k)
  }

  type Picture = s: seq<byte> | |s| == SNAP_SIZE witness seq(SNAP_SIZE, _ => 0)

  /** The centre of a frame in RGB888. */
  function Cropped(frame: Frame): (r: Picture)
    ensures forall k :: 0 <= k < |r| ==> r[k] == Channel(frame[Behind(k)], k % 3)
  {
    seq(SNAP_SIZE, k requires 0 <= k < SNAP_SIZE => Channel(frame[Behind(k)], k % 3))
  }

  /** A picture with the boxes drawn into it. */
  function Annotated(picture: Picture, boxes: seq<Box>): (r: Picture)
    ensures forall k :: 0 <= k < |r| ==>
      r[k] == if InBoxes(SNAP_W, 0, boxes, SnapX(k), SnapY(k)) then Green(k % 3) else picture[k]
  {
    seq(SNAP_SIZE, k requires 0 <= k < SNAP_SIZE =>
      if InBoxes(SNAP_W, 0, boxes, SnapX(k), SnapY(k)) then Green(k % 3) else picture[k])
  }

  method PutPixel(rgb: array<byte>, x: int, y: int)
    requires rgb.Length == SNAP_SIZE && 0 <= x < SNAP_W && 0 <= y < SNAP_H
    modifies rgb
    ensures forall k :: 0 <= k < rgb.Length ==>
      rgb[k] == if SnapX(k) == x && SnapY(k) == y then Green(k % 3) else old(rgb[k])
  {
    var p := (y * SNAP_W + x) * 3;
    rgb[p] := 0x00;
    rgb[p + 1] := 0xFF;
    rgb[p + 2] := 0x00;
  }

  method SnapHLine(rgb: array<byte>, x0: int, x1: int, y: int)
    requires rgb.Length == SNAP_SIZE
    modifies rgb
    ensures forall k :: 0 <= k < rgb.Length ==>
      rgb[k] == if InHLine(SNAP_W, SNAP_H, x0, x1, y, SnapX(k), SnapY(k)) then Green(k % 3) else old(rgb[k])
  {
    hide SnapX, SnapY;
    if y < 0 || y >= SNAP_H {
      return;
    }
    var a, b := Clamp(x0, 0, SNAP_W - 1), Clamp(x1, 0, SNAP_W - 1);
    var x := a;
    while x <= b
      invariant a <= x && (x <= b + 1 || x == a)
      invariant forall k :: 0 <= k < rgb.Length ==>
        rgb[k] == if SnapY(k) == y && a <= SnapX(k) < x then Green(k % 3) else old(rgb[k])
    {
      PutPixel(rgb, x, y);
      x := x + 1;
    }
  }

  method SnapVLine(rgb: array<byte>, x: int, y0: int, y1: int)
    requires rgb.Length == SNAP_SIZE
    modifies rgb
    ensures forall k :: 0 <= k < rgb.Length ==>
      rgb[k] == if InVLine(SNAP_W, SNAP_H, x, y0, y1, SnapX(k), SnapY(k)) then Green(k % 3) else old(rgb[k])
  {
    hide SnapX, SnapY;
    if x < 0 || x >= SNAP_W {
      return;
    }
    var a, b := Clamp(y0, 0, SNAP_H - 1), Clamp(y1, 0, SNAP_H - 1);
    var y := a;
    while y <= b
      invariant a <= y && (y <= b + 1 || y == a)
      invariant forall k :: 0 <= k < rgb.Length ==>
        rgb[k] == if SnapX(k) == x && a <= SnapY(k) < y then Green(k % 3) else old(rgb[k])
    {
      PutPixel(rgb, x, y);
      y := y + 1;
    }
  }

  method SnapEdges(rgb: array<byte>, box: Box, t: int)
    requires rgb.Length == SNAP_SIZE
    modifies rgb
    ensures forall k :: 0 <= k < rgb.Length ==>
      rgb[k] == if InEdges(SNAP_W, 0, box, t, SnapX(k), SnapY(k)) then Green(k % 3) else old(rgb[k])
  {
    hide InHLine, InVLine, SnapX, SnapY, Scaled, Green;
    var x, y, w, h := Scaled(box.mx), Scaled(box.my), Scaled(box.mw), Scaled(box.mh);
    SnapHLine(rgb, x, x + w, y + t);
    SnapHLine(rgb, x, x + w, y + h - t);
    SnapVLine(rgb, x + t, y, y + h);
    SnapVLine(rgb, x + w - t, y, y + h);
  }

  lemma BehindPixel(x: nat, y: nat)
    requires x < SNAP_W && y < SNAP_H
    ensures var d := (y * SNAP_W + x) * 3;
      && d + 2 < SNAP_SIZE
      && Behind(d) == Behind(d + 1) == Behind(d + 2) == y * CAM_W + CROP_OFF_X + x
      && d % 3 == 0 && (d + 1) % 3 == 1 && (d + 2) % 3 == 2
  {
  }

  method Crop(fb: array<u16>, rgb: array<byte>)
    requires fb.Length == CAM_W * CAM_H && rgb.Length == SNAP_SIZE
    modifies rgb
    ensures rgb[..] == Cropped(fb[..])
  {
    hide Behind, Channel;
    for y := 0 to SNAP_H
      invariant forall k :: 0 <= k < y * SNAP_W * 3 ==> rgb[k] == Channel(fb[Behind(k)], k % 3)
    {
      for x := 0 to SNAP_W
        invariant forall k :: 0 <= k < (y * SNAP_W + x) * 3 ==> rgb[k] == Channel(fb[Behind(k)], k % 3)
      {
        var p := fb[y * CAM_W + CROP_OFF_X + x];
        var d := (y * SNAP_W + x) * 3;
        BehindPixel(x, y);
        rgb[d] := Channel(p, 0);
        rgb[d + 1] := Channel(p, 1);
        rgb[d + 2] := Channel(p, 2);
      }
    }
  }

  /** The drawing half of `iotc_snapshot_capture_upload`: safe for any boxes. */
  method Snapshot(fb: array<u16>, rgb: array<byte>, boxes: seq<Box>)
    requires fb.Length == CAM_W * CAM_H && rgb.Length == SNAP_SIZE
    modifies rgb
    ensures rgb[..] == Annotated(Cropped(fb[..]), boxes)
  {
    hide InEdges, SnapX, SnapY, Cropped, Green;
    Crop(fb, rgb);
    ghost var start := rgb[..];
    for i := 0 to |boxes|
      invariant forall k :: 0 <= k < rgb.Length ==>
        rgb[k] == if InBoxes(SNAP_W, 0, boxes[..i], SnapX(k), SnapY(k)) then Green(k % 3) else start[k]
    {
      ghost var before := rgb[..];
      for t := 0 to BOX_THICK
        invariant forall k :: 0 <= k < rgb.Length ==>
          rgb[k] == if InBox(SNAP_W, 0, boxes[i], t, SnapX(k), SnapY(k)) then Green(k % 3) else before[k]
      {
        SnapEdges(rgb, boxes[i], t);
      }
      assert boxes[..i + 1][..i] == boxes[..i];
    }
    assert boxes[..|boxes|] == boxes;
  }

  // ---------------------------------------------------------------- both in plain numbers

  lemma OneBox(w: nat, off: int, b: Box, px: int, py: int)
    ensures InBoxes(w, off, [b], px, py) <==> InBox(w, off, b, BOX_THICK, px, py)
  {
    hide InBox;
    assert [b][..0] == [];
  }

  lemma FramePlace(px: nat, py: nat)
    requires px < 640 && py < 480
    ensures 640 * py + px < 640 * 480 && FrameX(640 * py + px) == px && FrameY(640 * py + px) == py
  {
  }

  lemma SnapPlace(px: nat, py: nat, c: nat)
    requires px < 480 && py < 480 && c < 3
    ensures var k := 3 * (480 * py + px) + c;
      k < SNAP_SIZE && SnapX(k) == px && SnapY(k) == py && k % 3 == c && Behind(k) == 640 * py + 80 + px
  {
    var k := 3 * (480 * py + px) + c;
    assert k / 3 == 480 * py + px;
  }

  /** A detection inside the frame, as the display shows it: a green border of three pixels, 80 columns in. */
  lemma DisplayShows(frame: Frame, b: Box, px: nat, py: nat)
    requires px < 640 && py < 480
    requires var x, y, w, h := 80 + Scaled(b.mx), Scaled(b.my), Scaled(b.mw), Scaled(b.mh);
      0 <= x && x + w < 640 && 0 <= y && y + h < 480 && 2 <= w && 2 <= h
    ensures var x, y, w, h := 80 + Scaled(b.mx), Scaled(b.my), Scaled(b.mw), Scaled(b.mh);
      var border := x <= px <= x + w && y <= py <= y + h
                    && (px <= x + 2 || x + w - 2 <= px || py <= y + 2 || y + h - 2 <= py);
      Overlaid(frame, [b])[640 * py + px] == if border then 0x07E0 else frame[640 * py + px]
  {
    hide Scaled, InBoxes, InBox, FrameX, FrameY;
    FramePlace(px, py);
    OneBox(CAM_W, CROP_OFF_X, b, px, py);
    BoxIsBorder(CAM_W, CROP_OFF_X, b, px, py);
  }

  /** And as the snapshot shows it: the same border in its own columns, on the middle 480 columns of the frame. */
  lemma SnapshotShows(frame: Frame, b: Box, px: nat, py: nat, c: nat)
    requires px < 480 && py < 480 && c < 3
    requires var x, y, w, h := Scaled(b.mx), Scaled(b.my), Scaled(b.mw), Scaled(b.mh);
      0 <= x && x + w < 480 && 0 <= y && y + h < 480 && 2 <= w && 2 <= h
    ensures var x, y, w, h := Scaled(b.mx), Scaled(b.my), Scaled(b.mw), Scaled(b.mh);
      var border := x <= px <= x + w && y <= py <= y + h
                    && (px <= x + 2 || x + w - 2 <= px || py <= y + 2 || y + h - 2 <= py);
      && 3 * (480 * py + px) + c < SNAP_SIZE && 640 * py + 80 + px < |frame|
      && Annotated(Cropped(frame), [b])[3 * (480 * py + px) + c]
         == if border then Green(c) else Channel(frame[640 * py + 80 + px], c)
  {
    hide Scaled, InBoxes, InBox, SnapX, SnapY, Behind, Channel, Green;
    SnapPlace(px, py, c);
    OneBox(SNAP_W, 0, b, px, py);
    BoxIsBorder(SNAP_W, 0, b, px, py);
  }

  // ---------------------------------------------------------------- the two agree

  /** Clamping a line that lies wholly beside the snapshot leaves a stray pixel at its border. */
  predicate Stray(x0: int, x1: int) {
    (x0 <= 0 && x1 < 0) || (x0 > SNAP_W - 1 && x1 >= SNAP_W - 1)
  }

  /** The border column a line beside the snapshot, ending at `x1`, is clamped to. */
  function Border(x1: int): int {
    if x1 < 0 then 0 else SNAP_W - 1
  }

  /** A horizontal line looks the same in both pictures exactly when it leaves no stray pixel. */
  lemma HLineAgrees(x0: int, x1: int, y: int)
    requires 0 <= y < SNAP_H
    ensures !Stray(x0, x1) <==>
      forall px :: 0 <= px < SNAP_W ==>
        (InHLine(SNAP_W, SNAP_H, x0, x1, y, px, y)
         <==> InHLine(CAM_W, CAM_H, CROP_OFF_X + x0, CROP_OFF_X + x1, y, CROP_OFF_X + px, y))
  {
    if Stray(x0, x1) {
      var px := Border(x1);
      assert InHLine(SNAP_W, SNAP_H, x0, x1, y, px, y);
      assert !InHLine(CAM_W, CAM_H, CROP_OFF_X + x0, CROP_OFF_X + x1, y, CROP_OFF_X + px, y);
    }
  }

  predicate OnScreen(px: int, py: int) {
    0 <= px < SNAP_W && 0 <= py < SNAP_H
  }

  /** A stray pixel of one of the horizontal lines of a box at one thickness. */
  predicate StrayEdge(b: Box, t: int, px: int, py: int) {
    var x, y, w, h := Scaled(b.mx), Scaled(b.my), Scaled(b.mw), Scaled(b.mh);
    Stray(x, x + w) && px == Border(x + w) && (py == y + t || py == y + h - t)
  }

  /** A stray pixel of a box, on the screen. */
  predicate StrayPixel(b: Box, px: int, py: int) {
    OnScreen(px, py) && (StrayEdge(b, 0, px, py) || StrayEdge(b, 1, px, py) || StrayEdge(b, 2, px, py))
  }

  lemma HLineStray(x0: int, x1: int, y: int, px: int, py: int)
    requires OnScreen(px, py)
    ensures InHLine(SNAP_W, 480, x0, x1, y, px, py)
        <==> InHLine(CAM_W, 480, CROP_OFF_X + x0, CROP_OFF_X + x1, y, CROP_OFF_X + px, py)
             || (Stray(x0, x1) && px == Border(x1) && py == y)
  {
  }

  lemma VLineSame(x: int, y0: int, y1: int, px: int, py: int)
    requires 0 <= px < SNAP_W
    ensures InVLine(SNAP_W, 480, x, y0, y1, px, py)
        <==> InVLine(CAM_W, 480, CROP_OFF_X + x, y0, y1, CROP_OFF_X + px, py)
  {
  }

  lemma EdgesStray(b: Box, t: int, px: int, py: int)
    requires OnScreen(px, py)
    ensures InEdges(SNAP_W, 0, b, t, px, py)
        <==> InEdges(CAM_W, CROP_OFF_X, b, t, CROP_OFF_X + px, py) || StrayEdge(b, t, px, py)
  {
    hide Scaled, InHLine, InVLine, Stray, Border;
    var x, y, w, h := Scaled(b.mx), Scaled(b.my), Scaled(b.mw), Scaled(b.mh);
    HLineStray(x, x + w, y + t, px, py);
    HLineStray(x, x + w, y + h - t, px, py);
    VLineSame(x + t, y, y + h, px, py);
    VLineSame(x + w - t, y, y + h, px, py);
  }

  /** The snapshot shows of a box what the frame shows, and the stray pixels. */
  lemma BoxStray(b: Box, px: int, py: int)
    requires OnScreen(px, py)
    ensures InBox(SNAP_W, 0, b, BOX_THICK, px, py)
        <==> InBox(CAM_W, CROP_OFF_X, b, BOX_THICK, CROP_OFF_X + px, py) || StrayPixel(b, px, py)
  {
    hide InEdges, StrayEdge, InBox;
    BoxEdges(SNAP_W, 0, b, px, py);
    BoxEdges(CAM_W, CROP_OFF_X, b, CROP_OFF_X + px, py);
    EdgesStray(b, 0, px, py);
    EdgesStray(b, 1, px, py);
    EdgesStray(b, 2, px, py);
  }

  lemma {:induction false} BoxesStray(boxes: seq<Box>, px: int, py: int)
    requires OnScreen(px, py)
    ensures InBoxes(SNAP_W, 0, boxes, px, py)
        <==> InBoxes(CAM_W, CROP_OFF_X, boxes, CROP_OFF_X + px, py)
             || exists i :: 0 <= i < |boxes| && StrayPixel(boxes[i], px, py)
  {
    hide InBox, StrayPixel;
    if boxes != [] {
      var n := |boxes| - 1;
      BoxesStray(boxes[..n], px, py);
      BoxStray(boxes[n], px, py);
      assert forall i :: 0 <= i < n ==> boxes[..n][i] == boxes[i];
    }
  }

  /** The two renderers paint the same pixels of the common area. */
  ghost predicate SamePixels(boxes: seq<Box>) {
    forall px, py :: OnScreen(px, py) ==>
      (InBoxes(SNAP_W, 0, boxes, px, py) <==> InBoxes(CAM_W, CROP_OFF_X, boxes, CROP_OFF_X + px, py))
  }

  /** Every stray pixel is also painted by some line in the frame. */
  ghost predicate StrayCovered(boxes: seq<Box>) {
    forall i, px, py :: 0 <= i < |boxes| && StrayPixel(boxes[i], px, py) ==>
      InBoxes(CAM_W, CROP_OFF_X, boxes, CROP_OFF_X + px, py)
  }

  lemma StrayOnScreen(b: Box, px: int, py: int)
    requires StrayPixel(b, px, py)
    ensures OnScreen(px, py)
  {
  }

  /** The renderers agree on a list of boxes exactly when the frame, too, paints every stray pixel. */
  lemma BoxesAgreeIff(boxes: seq<Box>)
    ensures SamePixels(boxes) <==> StrayCovered(boxes)
  {
    hide InBoxes, StrayPixel;
    if SamePixels(boxes) {
      forall i, px, py | 0 <= i < |boxes| && StrayPixel(boxes[i], px, py)
        ensures InBoxes(CAM_W, CROP_OFF_X, boxes, CROP_OFF_X + px, py)
      {
        StrayOnScreen(boxes[i], px, py);
        BoxesStray(boxes, px, py);
      }
    }
    if StrayCovered(boxes) {
      forall px, py | OnScreen(px, py)
        ensures InBoxes(SNAP_W, 0, boxes, px, py) <==> InBoxes(CAM_W, CROP_OFF_X, boxes, CROP_OFF_X + px, py)
      {
        BoxesStray(boxes, px, py);
      }
    }
  }

  // ---------------------------------------------------------------- the pictures

  /** A frame without a green pixel. */
  function Black(): (f: Frame)
    ensures forall k :: 0 <= k < |f| ==> f[k] == 0
  {
    seq(CAM_W * CAM_H, _ => 0)
  }

  lemma SamePixelsSamePicture(frame: Frame, boxes: seq<Box>)
    requires SamePixels(boxes)
    ensures Annotated(Cropped(frame), boxes) == Cropped(Overlaid(frame, boxes))
  {
    hide InBoxes, SnapX, SnapY;
    forall k | 0 <= k < SNAP_SIZE
      ensures Annotated(Cropped(frame), boxes)[k] == Cropped(Overlaid(frame, boxes))[k]
    {
      assert Behind(k) < |frame|;
      assert OnScreen(SnapX(k), SnapY(k));
    }
  }

  /** The octet of a snapshot pixel's green channel. */
  lemma GreenOctet(px: int, py: int) returns (k: nat)
    requires OnScreen(px, py)
    ensures k < SNAP_SIZE && k % 3 == 1 && SnapX(k) == px && SnapY(k) == py
  {
    k := (py * SNAP_W + px) * 3 + 1;
  }

  lemma SamePictureSamePixels(boxes: seq<Box>)
    requires Annotated(Cropped(Black()), boxes) == Cropped(Overlaid(Black(), boxes))
    ensures SamePixels(boxes)
  {
    hide InBoxes, SnapX, SnapY;
    forall px, py | OnScreen(px, py)
      ensures InBoxes(SNAP_W, 0, boxes, px, py) <==> InBoxes(CAM_W, CROP_OFF_X, boxes, CROP_OFF_X + px, py)
    {
      var k := GreenOctet(px, py);
      assert Annotated(Cropped(Black()), boxes)[k] == Cropped(Overlaid(Black(), boxes))[k];
      assert Cropped(Black())[k] == 0;
    }
  }

  /**
   The snapshot shows what the display shows, whatever the camera saw, exactly when every stray pixel is
   painted in the frame as well.
   */
  lemma SnapshotShowsOverlay(boxes: seq<Box>)
    ensures StrayCovered(boxes)
       <==> forall frame: Frame :: Annotated(Cropped(frame), boxes) == Cropped(Overlaid(frame, boxes))
  {
    hide InBoxes, StrayCovered, SamePixels, Annotated, Cropped, Overlaid;
    BoxesAgreeIff(boxes);
    if SamePixels(boxes) {
      forall frame: Frame ensures Annotated(Cropped(frame), boxes) == Cropped(Overlaid(frame, boxes)) {
        SamePixelsSamePicture(frame, boxes);
      }
    } else if Annotated(Cropped(Black()), boxes) == Cropped(Overlaid(Black(), boxes)) {
      SamePictureSamePixels(boxes);
    }
  }

  // ---------------------------------------------------------------- one box

  /** One of the box's own vertical lines, at some thickness, runs down the border column of its stray pixels. */
  predicate BorderLine(x: int, w: int) {
    if x + w < 0 then -2 <= x <= 0 else SNAP_W - 1 <= x + w <= SNAP_W + 1
  }

  /** That line reaches the rows of the two horizontal lines of one thickness, where they are on the screen. */
  predicate RowsReached(y: int, h: int, t: int) {
    && (0 <= y + t < SNAP_H ==> t <= h || y + t == 0)
    && (0 <= y + h - t < SNAP_H ==> t <= h || y + h - t == SNAP_H - 1)
  }

  predicate RowsOffScreen(y: int, h: int, t: int) {
    !(0 <= y + t < SNAP_H) && !(0 <= y + h - t < SNAP_H)
  }

  /** A box that looks the same in both pictures, on its own: no stray pixel, or all of them covered. */
  predicate Harmless(b: Box) {
    var x, y, w, h := Scaled(b.mx), Scaled(b.my), Scaled(b.mw), Scaled(b.mh);
    || !Stray(x, x + w)
    || (BorderLine(x, w) && RowsReached(y, h, 0) && RowsReached(y, h, 1) && RowsReached(y, h, 2))
    || (RowsOffScreen(y, h, 0) && RowsOffScreen(y, h, 1) && RowsOffScreen(y, h, 2))
  }

  /** Which lines of a frame's box paint a pixel of its stray column. */
  lemma OwnLines(b: Box, t: int, py: int)
    requires 0 <= py < SNAP_H
    requires var x, w := Scaled(b.mx), Scaled(b.mw); Stray(x, x + w)
    ensures var x, y, w, h := Scaled(b.mx), Scaled(b.my), Scaled(b.mw), Scaled(b.mh);
      InEdges(CAM_W, CROP_OFF_X, b, t, CROP_OFF_X + Border(x + w), py)
      <==> (x + t == Border(x + w) || x + w - t == Border(x + w)) && Clamp(y, 0, 479) <= py <= Clamp(y + h, 0, 479)
  {
    hide Scaled;
  }

  lemma OwnBox(b: Box, py: int)
    requires 0 <= py < SNAP_H
    requires var x, w := Scaled(b.mx), Scaled(b.mw); Stray(x, x + w)
    ensures var x, y, w, h := Scaled(b.mx), Scaled(b.my), Scaled(b.mw), Scaled(b.mh);
      InBoxes(CAM_W, CROP_OFF_X, [b], CROP_OFF_X + Border(x + w), py)
      <==> BorderLine(x, w) && Clamp(y, 0, 479) <= py <= Clamp(y + h, 0, 479)
  {
    hide Scaled, InEdges;
    var px := CROP_OFF_X + Border(Scaled(b.mx) + Scaled(b.mw));
    assert [b][..0] == [];
    BoxEdges(CAM_W, CROP_OFF_X, b, px, py);
    OwnLines(b, 0, py);
    OwnLines(b, 1, py);
    OwnLines(b, 2, py);
  }

  lemma RowCovered(b: Box, t: int)
    requires StrayCovered([b]) && 0 <= t < 3
    requires var x, w := Scaled(b.mx), Scaled(b.mw); Stray(x, x + w)
    ensures var x, y, w, h := Scaled(b.mx), Scaled(b.my), Scaled(b.mw), Scaled(b.mh);
      RowsOffScreen(y, h, t) || (BorderLine(x, w) && RowsReached(y, h, t))
  {
    hide Scaled, InBoxes;
    var x, y, w, h := Scaled(b.mx), Scaled(b.my), Scaled(b.mw), Scaled(b.mh);
    var px := Border(x + w);
    if 0 <= y + t < SNAP_H {
      assert StrayPixel([b][0], px, y + t);
      OwnBox(b, y + t);
    }
    if 0 <= y + h - t < SNAP_H {
      assert StrayPixel([b][0], px, y + h - t);
      OwnBox(b, y + h - t);
    }
  }

  lemma HarmlessCovered(b: Box)
    requires Harmless(b)
    ensures StrayCovered([b])
  {
    hide Scaled, InBoxes;
    forall i, px, py | 0 <= i < |[b]| && StrayPixel([b][i], px, py)
      ensures InBoxes(CAM_W, CROP_OFF_X, [b], CROP_OFF_X + px, py)
    {
      OwnBox(b, py);
    }
  }

  /** One box looks the same in both pictures exactly when it is harmless. */
  lemma BoxAgreesIff(b: Box)
    ensures SamePixels([b]) <==> Harmless(b)
  {
    hide Scaled, SamePixels, StrayCovered;
    BoxesAgreeIff([b]);
    if Harmless(b) {
      HarmlessCovered(b);
    } else if StrayCovered([b]) {
      RowCovered(b, 0);
      RowCovered(b, 1);
      RowCovered(b, 2);
    }
  }

  lemma {:induction false} HarmlessPaint(boxes: seq<Box>, i: nat, px: int, py: int)
    requires i < |boxes| && InBoxes(CAM_W, CROP_OFF_X, [boxes[i]], px, py)
    ensures InBoxes(CAM_W, CROP_OFF_X, boxes, px, py)
    decreases |boxes|
  {
    hide InBox;
    assert [boxes[i]][..0] == [];
    if i < |boxes| - 1 {
      HarmlessPaint(boxes[..|boxes| - 1], i, px, py);
    }
  }

  /** So does any list of harmless boxes; harmful ones may still be covered by others. */
  lemma HarmlessBoxesAgree(boxes: seq<Box>)
    requires forall i :: 0 <= i < |boxes| ==> Harmless(boxes[i])
    ensures SamePixels(boxes)
  {
    hide Harmless, InBoxes, StrayPixel, SamePixels;
    BoxesAgreeIff(boxes);
    forall i, px, py | 0 <= i < |boxes| && StrayPixel(boxes[i], px, py)
      ensures InBoxes(CAM_W, CROP_OFF_X, boxes, CROP_OFF_X + px, py)
    {
      BoxAgreesIff(boxes[i]);
      BoxesAgreeIff([boxes[i]]);
      assert StrayPixel([boxes[i]][0], px, py);
      HarmlessPaint(boxes, i, CROP_OFF_X + px, py);
    }
  }

  /** Boxes the detector reports inside its 192x192 input are harmless. */
  lemma DetectionsFit(boxes: seq<Box>)
    requires forall i :: 0 <= i < |boxes| ==>
      0 <= boxes[i].mx < 192 && 0 <= boxes[i].mw && boxes[i].mx + boxes[i].mw <= 192
    ensures forall frame: Frame :: Annotated(Cropped(frame), boxes) == Cropped(Overlaid(frame, boxes))
  {
    hide InBoxes, Annotated, Cropped, Overlaid, SamePixels, StrayCovered;
    forall i | 0 <= i < |boxes| ensures Harmless(boxes[i]) {
    }
    HarmlessBoxesAgree(boxes);
    BoxesAgreeIff(boxes);
    SnapshotShowsOverlay(boxes);
  }

  /** A box at the right edge of the detector's input is not: its lines at x = 480 leave stray pixels. */
  lemma EdgeBoxDiffers()
    ensures !Harmless(Box(192, 10, 0, 0))
    ensures !SamePixels([Box(192, 10, 0, 0)])
  {
    hide InBoxes, SamePixels;
    BoxAgreesIff(Box(192, 10, 0, 0));
  }

  /** A box whose stray pixels all lie under its own vertical line. */
  lemma CoveredStrayAgrees()
    ensures var b := Box(-1, 10, 0, 10); Stray(Scaled(b.mx), Scaled(b.mx) + Scaled(b.mw)) && SamePixels([b])
  {
    hide InBoxes, SamePixels;
    BoxAgreesIff(Box(-1, 10, 0, 10));
  }
}
