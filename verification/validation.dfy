/** The input validator `validateImageFile` (src/api/upscale.js:37-56). */
module Validation {
  import opened UpscaleTypes

  /** The media types the client accepts. */
  const ValidTypes: seq<string> := ["image/jpeg", "image/jpg", "image/png", "image/webp"]

  /** The largest accepted file, in bytes: 10 MiB. */
  const MaxSize: nat := 10 * 1024 * 1024

  datatype Verdict = Valid | Invalid(reason: Rejection)

  /** The media type is checked first, then the size; the size bound is inclusive. */
  function ValidateImageFile(file: ImageFile): (v: Verdict)
    ensures v.Valid? <==> file.mediaType in ValidTypes && file.size <= MaxSize
    ensures file.mediaType !in ValidTypes ==> v == Invalid(UnsupportedFormat(file.mediaType))
    ensures v == Invalid(TooLarge(file.size)) <==> file.mediaType in ValidTypes && file.size > MaxSize
  {
    if file.mediaType !in ValidTypes then
      Invalid(UnsupportedFormat(file.mediaType))
    else if file.size > MaxSize then
      Invalid(TooLarge(file.size))
    else
      Valid
  }

  /** A named corollary of `ValidateImageFile`'s contract at the boundary: a file of exactly
      10 MiB of an accepted type passes; one byte more is refused for size. */
  lemma SizeBoundInclusive(mediaType: string)
    requires mediaType in ValidTypes
    ensures ValidateImageFile(ImageFile(mediaType, 10_485_760)) == Valid
    ensures ValidateImageFile(ImageFile(mediaType, 10_485_761)) == Invalid(TooLarge(10_485_761))
  {
  }

  /** A named corollary of `ValidateImageFile`'s contract: an unsupported type is reported as
      such whatever the size, even past the size bound. */
  lemma FormatTakesPrecedence(file: ImageFile)
    requires file.mediaType !in ValidTypes
    requires file.size > MaxSize
    ensures ValidateImageFile(file) == Invalid(UnsupportedFormat(file.mediaType))
    ensures ValidateImageFile(file) != Invalid(TooLarge(file.size))
  {
  }
}
