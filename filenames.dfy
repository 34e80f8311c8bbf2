/**
 * The `.pdf` renaming rule. The upload handler, the preview and download
 * handlers and the browser's download helper all apply the same rule to a
 * file name: a name that ends in `.pdf` (ignoring case) is kept, any other
 * name loses its last extension (`name.replace(/\.[^/.]+$/, '')`) and gains
 * `.pdf`.
 */
module FileNames {
  import opened Strings

  const PdfSuffix: string := ".pdf"

  /** `name.toLowerCase().endsWith('.pdf')`. */
  predicate HasPdfSuffix(name: string) {
    EndsWith(ToLower(name), PdfSuffix)
  }

  /**
   * The pattern `\.[^/.]+$` matches at `k`: a dot, then at least one
   * character, none of them a dot or a slash, up to the end of the name.
   */
  predicate ExtensionAt(name: string, k: int) {
    && 0 <= k && k + 1 < |name| && name[k] == '.'
    && forall i :: k < i < |name| ==> name[i] != '.' && name[i] != '/'
  }

  /** `name.replace(/\.[^/.]+$/, '')`: drops the extension when the pattern matches, and changes nothing otherwise. */
  function StripExtension(name: string): (stem: string)
    ensures (exists k :: ExtensionAt(name, k)) ==> ExtensionAt(name, |stem|) && stem == name[..|stem|]
    ensures (forall k :: !ExtensionAt(name, k)) ==> stem == name
  {
    var dot := LastIndexOf(name, ".");
    if ExtensionAt(name, dot) then
      name[..dot]
    else
      assert forall k :: !ExtensionAt(name, k) by {
        forall k | ExtensionAt(name, k) ensures false {
          assert OccursAt(name, ".", k) by { assert name[k..k + 1] == [name[k]]; }
        }
      }
      name
  }

  lemma ToLowerAppend(a: string, b: string)
    ensures ToLower(a + b) == ToLower(a) + ToLower(b)
  {
    assert forall i :: 0 <= i < |a + b| ==> ToLower(a + b)[i] == (ToLower(a) + ToLower(b))[i];
  }

  /**
   * The stored or downloaded name. The result always ends in `.pdf` ignoring
   * case; it equals the input exactly when the input already did; otherwise it
   * is the input without its extension, followed by `.pdf`.
   */
  function PdfFileName(name: string): (r: string)
    ensures HasPdfSuffix(r)
    ensures r == name <==> HasPdfSuffix(name)
    ensures !HasPdfSuffix(name) ==> StartsWith(r, StripExtension(name)) && EndsWith(r, PdfSuffix) && |r| == |StripExtension(name)| + |PdfSuffix|
  {
    if HasPdfSuffix(name) then name
    else
      var stem := StripExtension(name);
      ToLowerAppend(stem, PdfSuffix);
      assert ToLower(PdfSuffix) == PdfSuffix;
      assert (stem + PdfSuffix)[..|stem|] == stem;
      assert (stem + PdfSuffix)[|stem|..] == PdfSuffix;
      stem + PdfSuffix
  }

  /** Renaming twice is renaming once. */
  lemma PdfFileNameIdempotent(name: string)
    ensures PdfFileName(PdfFileName(name)) == PdfFileName(name)
  {
  }
}
