/** Page specifications and the image placement of kern/pdf_engine.py:
    `get_page_spec` and the fit-and-centre arithmetic of `embed_image`.
    Lengths are in PostScript points (72 per inch), as reals. */
module PdfEngine {

  const INCH: real := 72.0

  /** `PageSpec`: page size, bleed, and the safe distance from the page
      edge (bleed included). */
  datatype PageSpec = PageSpec(pageW: real, pageH: real, bleed: real, safe: real)

  /** `get_page_spec(kdp_mode=...)`: an 8.5 in square trim with 0.125 in
      bleed all round for KDP, A4 without bleed otherwise. */
  function GetPageSpec(kdpMode: bool): (spec: PageSpec)
    ensures kdpMode <==> spec.bleed > 0.0
    ensures kdpMode ==> spec.pageW == spec.pageH
    ensures !kdpMode ==> spec.pageW < spec.pageH
    ensures spec.safe > spec.bleed
  {
    var bleed := if kdpMode then 0.125 * INCH else 0.0;
    var pageW := if kdpMode then 8.5 * INCH + 2.0 * bleed else 8.27 * INCH;
    var pageH := if kdpMode then 8.5 * INCH + 2.0 * bleed else 11.69 * INCH;
    var safe := if kdpMode then bleed + 0.375 * INCH else 0.5 * INCH;
    PageSpec(pageW, pageH, bleed, safe)
  }

  /** The KDP page is the 8.5 in trim plus the bleed on both sides, its safe
      zone is 0.375 in inside the trim; the A4 page is 8.27 x 11.69 in with
      a 0.5 in margin. Either way the safe zone leaves room on the page. */
  lemma PageSpecValues(kdpMode: bool)
    ensures var s := GetPageSpec(kdpMode);
      (kdpMode ==> s.bleed == 9.0 && s.pageW == 612.0 + 2.0 * s.bleed && s.pageH == s.pageW &&
                   s.safe - s.bleed == 27.0) &&
      (!kdpMode ==> s.bleed == 0.0 && s.pageW == 8.27 * 72.0 && s.pageH == 11.69 * 72.0 && s.safe == 36.0) &&
      2.0 * s.safe < s.pageW && 2.0 * s.safe < s.pageH
  {
  }

  /** What `PIL.Image.open` made of the bytes: an error message, or the
      size of the image after EXIF rotation. */
  datatype ImageInput = Undecodable(message: string) | Decoded(w: int, h: int)

  /** What `embed_image` leaves on the canvas: the image in a rectangle,
      the red error note (with `debug_on_error`), or nothing. */
  datatype Drawn =
    | Image(x: real, y: real, w: real, h: real)
    | ErrorNote(x: real, y: real, text: string)
    | Nothing

  const BAD_DIMENSIONS: string := "Ungültige Bilddimensionen."

  /** `embed_image`: scale the image to at most `scale_to` of the box
      (keeping its aspect ratio, or stretched to exactly that), centre it in
      the box, and draw it. A failure to decode, or a size that is not
      positive, raises inside the `try` and is swallowed. */
  function EmbedImage(img: ImageInput, x: real, y: real, maxW: real, maxH: real,
                      preserveAspect: bool, scaleTo: real, debugOnError: bool): (d: Drawn)
    ensures d.Image? <==> img.Decoded? && img.w > 0 && img.h > 0
    ensures d.ErrorNote? ==> debugOnError && d.x == x + 8.0 && d.y == y + 8.0
    ensures d.Image? ==> d.x - x == (maxW - d.w) / 2.0 && d.y - y == (maxH - d.h) / 2.0
  {
    if img.Undecodable? || img.w <= 0 || img.h <= 0 then
      var message := if img.Undecodable? then img.message else BAD_DIMENSIONS;
      if debugOnError then ErrorNote(x + 8.0, y + 8.0, "Bild-Fehler: " + Prefix(message, 90)) else Nothing
    else
      var (w, h) := FitSize(img.w as real, img.h as real, maxW * scaleTo, maxH * scaleTo, preserveAspect);
      Image(x + (maxW - w) / 2.0, y + (maxH - h) / 2.0, w, h)
  }

  /** Python's `s[:n]` for n >= 0. */
  function Prefix(s: string, n: nat): (r: string)
    ensures |r| <= n && |r| <= |s| && r == s[..|r|]
  {
    if |s| <= n then s else s[..n]
  }

  /** The drawn size: `img * min(target_w / img_w, target_h / img_h)` when
      the aspect ratio is kept, the target itself otherwise. */
  function FitSize(imgW: real, imgH: real, targetW: real, targetH: real, preserveAspect: bool): (size: (real, real))
    requires imgW > 0.0 && imgH > 0.0
  {
    if preserveAspect then
      var scale := if targetW / imgW <= targetH / imgH then targetW / imgW else targetH / imgH;
      (imgW * scale, imgH * scale)
    else (targetW, targetH)
  }

  /** Keeping the aspect ratio, the drawn size fits the target in both
      directions, fills it in one, and has the image's proportions. */
  lemma FitKeepsAspect(imgW: real, imgH: real, targetW: real, targetH: real)
    requires imgW > 0.0 && imgH > 0.0
    ensures var (w, h) := FitSize(imgW, imgH, targetW, targetH, true);
      w <= targetW && h <= targetH &&
      (w == targetW || h == targetH) &&
      w * imgH == h * imgW
  {
    var sw, sh := targetW / imgW, targetH / imgH;
    assert imgW * sw == targetW;
    assert imgH * sh == targetH;
    if sw <= sh {
      ScaleLe(imgH, sw, sh);
    } else {
      ScaleLe(imgW, sh, sw);
    }
  }

  lemma ScaleLe(a: real, s: real, t: real)
    requires a > 0.0 && s <= t
    ensures a * s <= a * t
  {
    assert a * t - a * s == a * (t - s);
  }

  /** A decoded image with a positive size is drawn centred in the box
      and, for `0 <= scale_to <= 1` and a box of non-negative size, inside
      it. */
  lemma EmbedCentredInside(imgW: int, imgH: int, x: real, y: real, maxW: real, maxH: real,
                           preserveAspect: bool, scaleTo: real, debugOnError: bool)
    requires imgW > 0 && imgH > 0
    requires maxW >= 0.0 && maxH >= 0.0 && 0.0 <= scaleTo <= 1.0
    ensures var d := EmbedImage(Decoded(imgW, imgH), x, y, maxW, maxH, preserveAspect, scaleTo, debugOnError);
      d.Image? &&
      d.x + d.w / 2.0 == x + maxW / 2.0 && d.y + d.h / 2.0 == y + maxH / 2.0 &&
      x <= d.x && d.x + d.w <= x + maxW && y <= d.y && d.y + d.h <= y + maxH
  {
    var tw, th := maxW * scaleTo, maxH * scaleTo;
    ScaleLe(maxW + 1.0, scaleTo, 1.0);
    assert tw <= maxW by {
      assert maxW - tw == maxW * (1.0 - scaleTo);
      ProductNonNegative(maxW, 1.0 - scaleTo);
    }
    assert th <= maxH by {
      assert maxH - th == maxH * (1.0 - scaleTo);
      ProductNonNegative(maxH, 1.0 - scaleTo);
    }
    ProductNonNegative(maxW, scaleTo);
    ProductNonNegative(maxH, scaleTo);
    if preserveAspect {
      FitKeepsAspect(imgW as real, imgH as real, tw, th);
      FitNonNegative(imgW as real, imgH as real, tw, th);
    }
  }

  lemma ProductNonNegative(a: real, b: real)
    requires a >= 0.0 && b >= 0.0
    ensures a * b >= 0.0
  {
  }

  /** A non-negative target gives a non-negative drawn size. */
  lemma FitNonNegative(imgW: real, imgH: real, targetW: real, targetH: real)
    requires imgW > 0.0 && imgH > 0.0 && targetW >= 0.0 && targetH >= 0.0
    ensures FitSize(imgW, imgH, targetW, targetH, true).0 >= 0.0
    ensures FitSize(imgW, imgH, targetW, targetH, true).1 >= 0.0
  {
    var sw, sh := targetW / imgW, targetH / imgH;
    assert sw >= 0.0 && sh >= 0.0;
    var scale := if sw <= sh then sw else sh;
    ProductNonNegative(imgW, scale);
    ProductNonNegative(imgH, scale);
  }

  /** An image that cannot be decoded, or has no positive size, is never
      drawn; the note appears only with `debug_on_error`, and its text is
      at most 90 characters of the message after the prefix. */
  lemma EmbedFailureSilent(img: ImageInput, x: real, y: real, maxW: real, maxH: real,
                           preserveAspect: bool, scaleTo: real, debugOnError: bool)
    requires img.Undecodable? || img.w <= 0 || img.h <= 0
    ensures var d := EmbedImage(img, x, y, maxW, maxH, preserveAspect, scaleTo, debugOnError);
      (debugOnError ==> d.ErrorNote? && |d.text| <= |"Bild-Fehler: "| + 90) &&
      (!debugOnError ==> d == Nothing)
  {
  }
}
