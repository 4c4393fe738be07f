/** The dropped file and the test the drop handler applies to it (src/App.js:62-74). */
module Upload {
  import opened Wrappers

  /** A dropped file as the component sees it: the name shown beside the trash icon
      and its MIME type. */
  datatype FileInfo = FileInfo(name: string, mimeType: string)

  const Jpeg: string := "image/jpeg"
  const Png: string := "image/png"

  /** The MIME types the drop zone accepts, compared as exact strings. */
  predicate IsImageType(mime: string) {
    mime == Jpeg || mime == Png
  }

  /** A drop is accepted when it carries a file (the first of the drop's files) and
      that file is a JPEG or a PNG. */
  function Accepts(dropped: Option<FileInfo>): (ok: bool)
    ensures ok ==> dropped.Some?
    ensures dropped.Some? ==> (ok <==> IsImageType(dropped.value.mimeType))
  {
    match dropped
    case None => false
    case Some(f) => f.mimeType == Jpeg || f.mimeType == Png
  }

  /** A GIF, a `image/jpg` (no `e`) and an upper-case `image/PNG` are all refused:
      the comparison is exact. */
  lemma OnlyExactTypesAccepted(name: string)
    ensures !Accepts(Some(FileInfo(name, "image/gif")))
    ensures !Accepts(Some(FileInfo(name, "image/jpg")))
    ensures !Accepts(Some(FileInfo(name, "image/PNG")))
    ensures Accepts(Some(FileInfo(name, "image/png")))
  {
  }
}
