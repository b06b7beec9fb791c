/** Upright thumbnails: the pixel transforms and the scaled dimensions of
    catalog/thumb.go, against the Orientation tag of section 8 of TIFF 6.0, and
    the sides the listing announces (`applyDerived` of catalog/query.go). Colors
    are numbers; an image is indexed by column, then row. */
module Orientation {

  type Image = array2<int>

  // ---- The tag ----

  datatype Side = Top | Bottom | Left | Right

  /** The side of the upright picture that the first stored row is on. */
  function FirstRow(o: int): Side {
    match o
    case 3 => Bottom
    case 4 => Bottom
    case 5 => Left
    case 6 => Right
    case 7 => Right
    case 8 => Left
    case _ => Top
  }

  /** The side that the first stored column is on. */
  function FirstColumn(o: int): Side {
    match o
    case 2 => Right
    case 3 => Right
    case 5 => Top
    case 6 => Top
    case 7 => Bottom
    case 8 => Bottom
    case _ => Left
  }

  predicate Turned(o: int) {
    5 <= o <= 8
  }

  /** The distance, from the left or from the top, of what is n lines away from a
      side of a picture with `size` lines in that direction. */
  function From(side: Side, n: int, size: int): int {
    if side == Top || side == Left then n else size - 1 - n
  }

  /** Where the pixel of stored column x and row y of a w by h image belongs in
      the upright picture. */
  function Place(o: int, w: int, h: int, x: int, y: int): (int, int) {
    if Turned(o) then (From(FirstRow(o), y, h), From(FirstColumn(o), x, w))
    else (From(FirstColumn(o), x, w), From(FirstRow(o), y, h))
  }

  /** The sides the listing announces. */
  function ListedSize(o: int, w: int, h: int): (int, int) {
    if o >= 5 && o <= 8 then (h, w) else (w, h)
  }

  function Inverse(o: int): int {
    if o == 6 then 8 else if o == 8 then 6 else o
  }

  predicate Inside(x: int, y: int, w: int, h: int) {
    0 <= x < w && 0 <= y < h
  }

  /** The eight orientations by coordinates: of the upright picture on the left, of
      the stored one on the right. */
  lemma PlaceMeans(o: int, w: int, h: int, x: int, y: int)
    ensures Place(2, w, h, x, y) == (w - 1 - x, y) && Place(3, w, h, x, y) == (w - 1 - x, h - 1 - y)
    ensures Place(4, w, h, x, y) == (x, h - 1 - y) && Place(5, w, h, x, y) == (y, x)
    ensures Place(6, w, h, x, y) == (h - 1 - y, x) && Place(7, w, h, x, y) == (h - 1 - y, w - 1 - x)
    ensures Place(8, w, h, x, y) == (y, w - 1 - x)
    ensures o < 2 || o > 8 ==> Place(o, w, h, x, y) == (x, y)
    ensures ListedSize(o, w, h) == if o in {5, 6, 7, 8} then (h, w) else (w, h)
  {
  }

  /** Every upright position is that of exactly one stored pixel; and placing by
      the inverse orientation undoes placing. */
  lemma PlaceBijective(o: int, w: int, h: int, x: int, y: int)
    requires Inside(x, y, w, h)
    ensures var (uw, uh) := ListedSize(o, w, h);
      var (ux, uy) := Place(o, w, h, x, y);
      Inside(ux, uy, uw, uh) && Place(Inverse(o), uw, uh, ux, uy) == (x, y)
    ensures var (uw, uh) := ListedSize(o, w, h);
      ListedSize(Inverse(o), uw, uh) == (w, h)
  {
  }

  /** And conversely from the upright side. */
  lemma PlaceOnto(o: int, w: int, h: int, ux: int, uy: int)
    requires var (uw, uh) := ListedSize(o, w, h); Inside(ux, uy, uw, uh)
    ensures var (uw, uh) := ListedSize(o, w, h);
      var (x, y) := Place(Inverse(o), uw, uh, ux, uy);
      Inside(x, y, w, h) && Place(o, w, h, x, y) == (ux, uy)
  {
  }

  /** b is a, turned upright. */
  ghost predicate Upright(o: int, a: Image, b: Image)
    reads a, b
  {
    && (b.Length0, b.Length1) == ListedSize(o, a.Length0, a.Length1)
    && forall x, y :: Inside(x, y, a.Length0, a.Length1) ==>
         var (ux, uy) := Place(o, a.Length0, a.Length1, x, y);
         Inside(ux, uy, b.Length0, b.Length1) && b[ux, uy] == a[x, y]
  }

  ghost predicate SamePixels(a: Image, b: Image)
    reads a, b
  {
    && a.Length0 == b.Length0 && a.Length1 == b.Length1
    && forall x, y :: Inside(x, y, a.Length0, a.Length1) ==> a[x, y] == b[x, y]
  }

  /** Applying an orientation and then its inverse (6 and 8 undo each other, the
      others themselves) restores every image. */
  lemma InverseRestores(o: int, a: Image, b: Image, c: Image)
    requires Upright(o, a, b) && Upright(Inverse(o), b, c)
    ensures SamePixels(a, c)
  {
    hide Place;
    forall x, y | Inside(x, y, a.Length0, a.Length1)
      ensures Inside(x, y, c.Length0, c.Length1) && a[x, y] == c[x, y]
    {
      PlaceBijective(o, a.Length0, a.Length1, x, y);
      var (ux, uy) := Place(o, a.Length0, a.Length1, x, y);
      assert Inside(ux, uy, b.Length0, b.Length1);
    }
    BackToSize(o, a.Length0, a.Length1);
  }

  lemma BackToSize(o: int, w: int, h: int)
    ensures ListedSize(Inverse(o), ListedSize(o, w, h).0, ListedSize(o, w, h).1) == (w, h)
  {
  }

  /** The upright picture is determined: all of it comes from the stored one. */
  lemma UprightUnique(o: int, a: Image, b: Image, c: Image)
    requires Upright(o, a, b) && Upright(o, a, c)
    ensures SamePixels(b, c)
  {
    hide Place;
    forall ux, uy | Inside(ux, uy, b.Length0, b.Length1)
      ensures Inside(ux, uy, c.Length0, c.Length1) && b[ux, uy] == c[ux, uy]
    {
      PlaceOnto(o, a.Length0, a.Length1, ux, uy);
      var (x, y) := Place(Inverse(o), b.Length0, b.Length1, ux, uy);
      assert Inside(x, y, a.Length0, a.Length1);
    }
  }

  // ---- The transforms ----

  method Rotate90(src: Image) returns (dst: Image)
    ensures fresh(dst) && Upright(6, src, dst)
  {
    var w, h := src.Length0, src.Length1;
    dst := new int[h, w];
    for y := 0 to h
      invariant forall i, j :: 0 <= i < w && 0 <= j < y ==> dst[h - 1 - j, i] == src[i, j]
    {
      for x := 0 to w
        invariant forall i, j :: 0 <= i < w && 0 <= j < y ==> dst[h - 1 - j, i] == src[i, j]
        invariant forall i :: 0 <= i < x ==> dst[h - 1 - y, i] == src[i, y]
      {
        dst[h - 1 - y, x] := src[x, y];
      }
    }
  }

  method Rotate270(src: Image) returns (dst: Image)
    ensures fresh(dst) && Upright(8, src, dst)
  {
    var w, h := src.Length0, src.Length1;
    dst := new int[h, w];
    for y := 0 to h
      invariant forall i, j :: 0 <= i < w && 0 <= j < y ==> dst[j, w - 1 - i] == src[i, j]
    {
      for x := 0 to w
        invariant forall i, j :: 0 <= i < w && 0 <= j < y ==> dst[j, w - 1 - i] == src[i, j]
        invariant forall i :: 0 <= i < x ==> dst[y, w - 1 - i] == src[i, y]
      {
        dst[y, w - 1 - x] := src[x, y];
      }
    }
  }

  method Rotate180(src: Image) returns (dst: Image)
    ensures fresh(dst) && Upright(3, src, dst)
  {
    var w, h := src.Length0, src.Length1;
    dst := new int[w, h];
    for y := 0 to h
      invariant forall i, j :: 0 <= i < w && 0 <= j < y ==> dst[w - 1 - i, h - 1 - j] == src[i, j]
    {
      for x := 0 to w
        invariant forall i, j :: 0 <= i < w && 0 <= j < y ==> dst[w - 1 - i, h - 1 - j] == src[i, j]
        invariant forall i :: 0 <= i < x ==> dst[w - 1 - i, h - 1 - y] == src[i, y]
      {
        dst[w - 1 - x, h - 1 - y] := src[x, y];
      }
    }
  }

  method FlipH(src: Image) returns (dst: Image)
    ensures fresh(dst) && Upright(2, src, dst)
  {
    var w, h := src.Length0, src.Length1;
    dst := new int[w, h];
    for y := 0 to h
      invariant forall i, j :: 0 <= i < w && 0 <= j < y ==> dst[w - 1 - i, j] == src[i, j]
    {
      for x := 0 to w
        invariant forall i, j :: 0 <= i < w && 0 <= j < y ==> dst[w - 1 - i, j] == src[i, j]
        invariant forall i :: 0 <= i < x ==> dst[w - 1 - i, y] == src[i, y]
      {
        dst[w - 1 - x, y] := src[x, y];
      }
    }
  }

  method FlipV(src: Image) returns (dst: Image)
    ensures fresh(dst) && Upright(4, src, dst)
  {
    var w, h := src.Length0, src.Length1;
    dst := new int[w, h];
    for y := 0 to h
      invariant forall i, j :: 0 <= i < w && 0 <= j < y ==> dst[i, h - 1 - j] == src[i, j]
    {
      for x := 0 to w
        invariant forall i, j :: 0 <= i < w && 0 <= j < y ==> dst[i, h - 1 - j] == src[i, j]
        invariant forall i :: 0 <= i < x ==> dst[i, h - 1 - y] == src[i, y]
      {
        dst[x, h - 1 - y] := src[x, y];
      }
    }
  }

  lemma PlaceMirrored(o: int, w: int, h: int, x: int, y: int)
    requires o == 6 || o == 8
    ensures var (tx, ty) := Place(o, w, h, x, y);
      Place(2, h, w, tx, ty) == Place(if o == 6 then 5 else 7, w, h, x, y)
  {
  }

  /** Mirroring after a quarter turn gives the two diagonal mirrors. */
  lemma MirrorTurns(o: int, a: Image, b: Image, c: Image)
    requires o == 6 || o == 8
    requires Upright(o, a, b) && Upright(2, b, c)
    ensures Upright(if o == 6 then 5 else 7, a, c)
  {
    hide Place;
    forall x, y | Inside(x, y, a.Length0, a.Length1)
      ensures var (ux, uy) := Place(if o == 6 then 5 else 7, a.Length0, a.Length1, x, y);
        Inside(ux, uy, c.Length0, c.Length1) && c[ux, uy] == a[x, y]
    {
      PlaceMirrored(o, a.Length0, a.Length1, x, y);
      var (tx, ty) := Place(o, a.Length0, a.Length1, x, y);
      assert Inside(tx, ty, b.Length0, b.Length1);
    }
  }

  /** The picture made upright, as the tag defines it; an unknown tag leaves the
      image as it is. */
  method ApplyOrientation(img: Image, orientation: int) returns (dst: Image)
    ensures Upright(orientation, img, dst)
  {
    hide Upright;
    match orientation {
      case 2 =>
        dst := FlipH(img);
      case 3 =>
        dst := Rotate180(img);
      case 4 =>
        dst := FlipV(img);
      case 5 =>
        var turned := Rotate90(img);
        dst := FlipH(turned);
        MirrorTurns(6, img, turned, dst);
      case 6 =>
        dst := Rotate90(img);
      case 7 =>
        var turned := Rotate270(img);
        dst := FlipH(turned);
        MirrorTurns(8, img, turned, dst);
      case 8 =>
        dst := Rotate270(img);
      case _ =>
        Unchanged(orientation, img);
        dst := img;
    }
  }

  lemma Unchanged(o: int, a: Image)
    requires o < 2 || o > 8
    ensures Upright(o, a, a)
  {
  }

  // ---- Scaled dimensions ----

  function AtLeastOne(n: int): int {
    if n < 1 then 1 else n
  }

  /** The dimensions of the scaled picture. The program divides floating-point
      numbers and truncates; below 2^52 that is integer division. */
  function ScaledSize(sw: int, sh: int, maxEdge: int): (int, int)
    requires sw > 0 && sh > 0
  {
    if maxEdge <= 0 || (sw <= maxEdge && sh <= maxEdge) then (sw, sh)
    else if sw >= sh then (AtLeastOne(maxEdge), AtLeastOne(sh * maxEdge / sw))
    else (AtLeastOne(sw * maxEdge / sh), AtLeastOne(maxEdge))
  }

  method ScaleToFit(sw: int, sh: int, maxEdge: int) returns (dw: int, dh: int)
    requires sw > 0 && sh > 0
    ensures (dw, dh) == ScaledSize(sw, sh, maxEdge)
    ensures 1 <= dw <= sw && 1 <= dh <= sh
    ensures maxEdge > 0 ==> dw <= maxEdge && dh <= maxEdge
  {
    if maxEdge <= 0 || (sw <= maxEdge && sh <= maxEdge) {
      return sw, sh;
    }
    SmallerSide(if sw >= sh then sh else sw, if sw >= sh then sw else sh, maxEdge);
    if sw >= sh {
      dw := maxEdge;
      dh := sh * maxEdge / sw;
    } else {
      dh := maxEdge;
      dw := sw * maxEdge / sh;
    }
    if dw < 1 {
      dw := 1;
    }
    if dh < 1 {
      dh := 1;
    }
  }

  /** The scaled short side: no longer than it was or than the long side, and in
      proportion up to one pixel. */
  lemma SmallerSide(short: int, long: int, maxEdge: int)
    requires 0 < short <= long && 0 < maxEdge < long
    ensures var d := short * maxEdge / long;
      0 <= d <= short && d <= maxEdge && d * long <= short * maxEdge < (d + 1) * long
  {
    var n := short * maxEdge;
    var d := n / long;
    Product(short, maxEdge, long);
    Division(n, long);
    Cancel(d, short, long);
    Cancel(d, maxEdge, long);
  }

  lemma Product(short: int, maxEdge: int, long: int)
    requires 0 < short <= long && 0 < maxEdge < long
    ensures 0 <= short * maxEdge <= short * long && short * maxEdge <= maxEdge * long
  {
    Monotone(maxEdge, long, short);
    Monotone(short, long, maxEdge);
  }

  lemma Monotone(a: int, b: int, c: int)
    requires a <= b && c >= 0
    ensures a * c <= b * c
  {
  }

  lemma Division(n: int, long: int)
    requires n >= 0 && long > 0
    ensures 0 <= n / long && n / long * long <= n < (n / long + 1) * long
  {
    assert n == n / long * long + n % long;
  }

  lemma Cancel(a: int, b: int, c: int)
    requires a * c <= b * c && c > 0
    ensures a <= b
  {
    if a > b {
      Monotone(b + 1, a, c);
    }
  }

  /** Scaling before turning, as the program does, gives the sides of scaling the
      upright picture, which are the sides the listing announces scaled down. */
  lemma ScalingCommutes(o: int, w: int, h: int, maxEdge: int)
    requires w > 0 && h > 0
    ensures var (uw, uh) := ListedSize(o, w, h);
      var (sw, sh) := ScaledSize(w, h, maxEdge);
      ScaledSize(uw, uh, maxEdge) == ListedSize(o, sw, sh)
  {
    if w == h && maxEdge > 0 && w > maxEdge {
      SameSide(w, maxEdge);
    }
  }

  lemma SameSide(w: int, maxEdge: int)
    requires w > 0
    ensures w * maxEdge / w == maxEdge
  {
    var q := w * maxEdge / w;
    assert w * maxEdge == q * w + w * maxEdge % w;
    Cancel(q, maxEdge, w);
    if q < maxEdge {
      Monotone(q + 1, maxEdge, w);
    }
  }

  /** Of a picture that is too large the longer side becomes the edge, the other one
      keeps the proportion, cut to whole pixels but never to none. */
  lemma ScaledMeans(w: int, h: int, maxEdge: int)
    requires w > 0 && h > 0 && maxEdge > 0 && (w > maxEdge || h > maxEdge)
    ensures var (dw, dh) := ScaledSize(w, h, maxEdge);
      && (w >= h ==> dw == maxEdge && InProportion(dh, h, w, maxEdge))
      && (w < h ==> dh == maxEdge && InProportion(dw, w, h, maxEdge))
  {
    hide InProportion;
    Shortened(if w >= h then h else w, if w >= h then w else h, maxEdge);
  }

  /** d is the greatest whole number in proportion, or 1 if that is 0. */
  predicate InProportion(d: int, short: int, long: int, maxEdge: int) {
    d >= 1 && (d == 1 || d * long <= short * maxEdge) && short * maxEdge < (d + 1) * long
  }

  lemma Shortened(short: int, long: int, maxEdge: int)
    requires 0 < short <= long && 0 < maxEdge < long
    ensures InProportion(AtLeastOne(short * maxEdge / long), short, long, maxEdge)
  {
    SmallerSide(short, long, maxEdge);
    var d := short * maxEdge / long;
    if d < 1 {
      Monotone(1, 2, long);
    }
  }

  /** A picture already small enough is left alone, and only such a one is. */
  lemma ScaledOnlyDown(w: int, h: int, maxEdge: int)
    requires w > 0 && h > 0
    ensures ScaledSize(w, h, maxEdge) == (w, h) <==> maxEdge <= 0 || (w <= maxEdge && h <= maxEdge)
  {
  }
}
