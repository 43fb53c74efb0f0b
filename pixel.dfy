/** The fixed response of `/track`: a one-pixel GIF that no cache may keep. */
module Pixel {
  import opened Wrappers

  /** `PIXEL_GIF`, byte for byte. */
  const PixelGif: seq<bv8> := [
    0x47, 0x49, 0x46, 0x38, 0x39, 0x61, 0x01, 0x00, 0x01, 0x00, 0x80, 0x00, 0x00,
    0xff, 0xff, 0xff, 0x00, 0x00, 0x00, 0x21, 0xf9, 0x04, 0x00, 0x00, 0x00, 0x00,
    0x00, 0x2c, 0x00, 0x00, 0x00, 0x00, 0x01, 0x00, 0x01, 0x00, 0x00, 0x02, 0x02,
    0x44, 0x01, 0x00, 0x3b]

  /** The header signature of a GIF89a file ("GIF89a"), section 17 of the GIF89a specification. */
  predicate HasGif89aSignature(b: seq<bv8>)
  {
    |b| >= 13 &&
    b[0] == 0x47 && b[1] == 0x49 && b[2] == 0x46 && b[3] == 0x38 && b[4] == 0x39 && b[5] == 0x61
  }

  /** An unsigned 16-bit little-endian field. */
  function Word16(lo: bv8, hi: bv8): nat
  {
    lo as nat + 256 * hi as nat
  }

  /** Logical screen width and height (section 18 of the GIF89a specification). */
  function ScreenWidth(b: seq<bv8>): nat requires HasGif89aSignature(b) { Word16(b[6], b[7]) }
  function ScreenHeight(b: seq<bv8>): nat requires HasGif89aSignature(b) { Word16(b[8], b[9]) }

  function Pow2(n: nat): nat { if n == 0 then 1 else 2 * Pow2(n - 1) }

  /** Bytes of the global colour table (section 19): 3 * 2^(size + 1) when its flag is set. */
  function ColourTableBytes(b: seq<bv8>): nat
    requires HasGif89aSignature(b)
  {
    if b[10] & 0x80 != 0 then 3 * Pow2((b[10] & 0x07) as nat + 1) else 0
  }

  /**
   * A graphic control extension follows the colour table (section 23), and
   * its transparent-colour flag (bit 0 of its packed field) is set.
   */
  predicate DeclaresTransparency(b: seq<bv8>)
    requires HasGif89aSignature(b)
  {
    var g := 13 + ColourTableBytes(b);
    g + 3 < |b| && b[g] == 0x21 && b[g + 1] == 0xf9 && b[g + 3] & 0x01 == 0x01
  }

  /** The file ends with the GIF trailer byte 0x3B (section 27). */
  predicate EndsWithTrailer(b: seq<bv8>)
  {
    |b| > 0 && b[|b| - 1] == 0x3b
  }

  /** The value of the first header with this name, if any. */
  function HeaderValue(headers: seq<(string, string)>, name: string): Option<string>
    decreases |headers|
  {
    if headers == [] then None
    else if headers[0].0 == name then Some(headers[0].1)
    else HeaderValue(headers[1..], name)
  }

  const NoCacheHeaders: seq<(string, string)> := [
    ("Cache-Control", "no-store, no-cache, must-revalidate, max-age=0"),
    ("Pragma", "no-cache"),
    ("Expires", "0")]

  datatype PixelReply = PixelReply(
    status: int,
    mimetype: string,
    body: seq<bv8>,
    headers: seq<(string, string)>)

  /**
   * The reply to every `/track` request: status 200, an `image/gif` body that
   * is a complete 1x1 GIF89a image, and headers that forbid caching. The
   * image's graphic control extension does not declare a transparent colour.
   */
  function TrackResponse(): (r: PixelReply)
    ensures r.status == 200 && r.mimetype == "image/gif"
    ensures |r.body| == 43 && HasGif89aSignature(r.body) && EndsWithTrailer(r.body)
    ensures ScreenWidth(r.body) == 1 && ScreenHeight(r.body) == 1
    ensures !DeclaresTransparency(r.body)
    ensures HeaderValue(r.headers, "Cache-Control") == Some("no-store, no-cache, must-revalidate, max-age=0")
    ensures HeaderValue(r.headers, "Pragma") == Some("no-cache")
    ensures HeaderValue(r.headers, "Expires") == Some("0")
  {
    assert |PixelGif| == 43;
    assert PixelGif[10] == 0x80;
    assert Pow2(1) == 2;
    assert ColourTableBytes(PixelGif) == 6;
    PixelReply(200, "image/gif", PixelGif, NoCacheHeaders)
  }
}
