/**
 * The attachment viewer modal: previews a url as an embedded PDF, as an image, or offers a
 * download, chosen from the url's (case-insensitive) suffix.
 */
module AttachmentViewer {
  import opened Optional
  import opened Text

  datatype Preview = PdfFrame | Picture | CannotPreview

  /** `url.toLowerCase().endsWith(".pdf")`. */
  predicate IsPdf(url: string) {
    EndsWith(Lower(url), ".pdf")
  }

  /** The lowercased url ends with one of the image suffixes. */
  predicate IsImage(url: string) {
    var lower := Lower(url);
    EndsWith(lower, ".png") || EndsWith(lower, ".jpg") || EndsWith(lower, ".jpeg")
      || EndsWith(lower, ".gif") || EndsWith(lower, ".webp")
  }

  /** Classification ignores case: lowercasing the url first changes nothing. */
  lemma ClassificationIgnoresCase(url: string)
    ensures IsPdf(Lower(url)) == IsPdf(url) && IsImage(Lower(url)) == IsImage(url)
  {
    LowerIdempotent(url);
  }

  /** A PDF url is never an image url. */
  lemma PdfIsNotImage(url: string)
    ensures IsPdf(url) ==> !IsImage(url)
  {
    var lower := Lower(url);
    var n := |lower|;
    if IsPdf(url) {
      assert lower[n - 4] == '.' && lower[n - 3] == 'p' && lower[n - 1] == 'f';
      assert !EndsWith(lower, ".png") by { assert ".png"[3] == 'g'; }
      assert !EndsWith(lower, ".jpg") by { assert ".jpg"[3] == 'g'; }
      assert !EndsWith(lower, ".gif") by { assert ".gif"[3] == 'f' && ".gif"[1] == 'g'; }
      assert !EndsWith(lower, ".jpeg") by { assert ".jpeg"[1] == 'j'; }
      assert !EndsWith(lower, ".webp") by { assert ".webp"[4] == 'p'; }
    }
  }

  /** The preview blocks whose JSX conditions hold: `isPdf`, `isImage && !isPdf`, `!isPdf && !isImage`. */
  function Branches(url: string): (r: set<Preview>)
    ensures |r| == 1
  {
    (if IsPdf(url) then {PdfFrame} else {})
      + (if IsImage(url) && !IsPdf(url) then {Picture} else {})
      + (if !IsPdf(url) && !IsImage(url) then {CannotPreview} else {})
  }

  /** What the modal shows: nothing unless open with a non-empty url, else exactly one preview. */
  function Render(open: bool, url: Option<string>): (r: Option<Preview>)
    ensures r.None? <==> !open || url.None? || url.value == ""
    ensures r.Some? ==> Branches(url.value) == {r.value}
    ensures r.Some? ==> (r.value == PdfFrame <==> IsPdf(url.value))
    ensures r.Some? ==> (r.value == Picture <==> IsImage(url.value))
  {
    if !open || url.None? || url.value == "" then None
    else
      var u := url.value;
      PdfIsNotImage(u);
      if IsPdf(u) then
        assert Branches(u) == {PdfFrame};
        Some(PdfFrame)
      else if IsImage(u) then
        assert Branches(u) == {Picture};
        Some(Picture)
      else
        assert Branches(u) == {CannotPreview};
        Some(CannotPreview)
  }
}
