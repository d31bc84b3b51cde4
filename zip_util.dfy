/**
 * Recognising an archive by its first four bytes: the ZIP local file
 * header signature `PK\x03\x04` (section 4.3.7 of PKWARE's APPNOTE.TXT)
 * and the GZIP identification bytes ID1 = 0x1f, ID2 = 0x8b (section 2.3.1
 * of RFC 1952). Opening and reading the file is outside the model: what
 * the single read delivered, or that it failed, is an input.
 */
module ZipFiles {

  datatype ZipType = Zip | Gzip | NoArchive

  /** What reading the first four bytes produced: the bytes delivered, or an exception. */
  datatype ReadResult = Delivered(bytes: seq<bv8>) | ReadFailed

  /** The file handed in: the clipboard stand-in, or a file on disk. */
  datatype FileTarget =
    | ClipboardFile
    | DiskFile(present: bool, firstRead: ReadResult)

  /** `P`, `K`, 3, 4. */
  const ZIP_MAGIC: seq<bv8> := [0x50, 0x4B, 0x03, 0x04]
  /** ID1, ID2. */
  const GZIP_MAGIC: seq<bv8> := [0x1F, 0x8B]

  /**
   * The test on the buffer once exactly four bytes were read: the ZIP
   * signature first, then the two GZIP identification bytes.
   */
  function HeaderType(buffer: seq<bv8>): ZipType
  {
    if |buffer| != 4 then NoArchive
    else if buffer == ZIP_MAGIC then Zip
    else if buffer[..2] == GZIP_MAGIC then Gzip
    else NoArchive
  }

  /** `getArchiveType`: the clipboard stand-in, a missing file and a failed read are no archive. */
  function ArchiveType(f: FileTarget): (r: ZipType)
    ensures f.ClipboardFile? || !f.present || f.firstRead.ReadFailed? ==> r == NoArchive
    ensures f.DiskFile? && f.present && f.firstRead.Delivered? ==> r == HeaderType(f.firstRead.bytes)
  {
    match f
    case ClipboardFile => NoArchive
    case DiskFile(present, firstRead) =>
      if !present then NoArchive
      else match firstRead
        case ReadFailed => NoArchive
        case Delivered(bytes) => HeaderType(bytes)
  }

  /** `isZipFile`: the archive type is ZIP. */
  predicate IsZipFile(f: FileTarget)
  {
    ArchiveType(f) == Zip
  }

  /**
   * The classification read in terms of the bytes: ZIP exactly for the
   * four signature bytes, GZIP exactly for four bytes that start with the
   * two identification bytes.
   */
  lemma HeaderTypeExactly(buffer: seq<bv8>)
    ensures HeaderType(buffer) == Zip <==> buffer == ZIP_MAGIC
    ensures HeaderType(buffer) == Gzip <==> |buffer| == 4 && buffer[0] == 0x1F && buffer[1] == 0x8B
  {
    if |buffer| == 4 && buffer[0] == 0x1F && buffer[1] == 0x8B {
      assert buffer[..2] == GZIP_MAGIC;
      assert buffer != ZIP_MAGIC by { assert ZIP_MAGIC[0] == 0x50; }
    }
    if HeaderType(buffer) == Gzip {
      assert buffer[0] == buffer[..2][0] && buffer[1] == buffer[..2][1];
    }
  }

  /** A file that starts with the ZIP signature is a ZIP archive whatever follows. */
  lemma {:induction false} ZipRecognised(rest: seq<bv8>)
    ensures IsZipFile(DiskFile(true, Delivered((ZIP_MAGIC + rest)[..4])))
  {
    assert (ZIP_MAGIC + rest)[..4] == ZIP_MAGIC;
  }

  /**
   * A GZIP stream whose first read delivered four bytes is recognised as
   * GZIP, and is therefore not a ZIP file.
   */
  lemma {:induction false} GzipRecognised(b2: bv8, b3: bv8)
    ensures ArchiveType(DiskFile(true, Delivered(GZIP_MAGIC + [b2, b3]))) == Gzip
    ensures !IsZipFile(DiskFile(true, Delivered(GZIP_MAGIC + [b2, b3])))
  {
    HeaderTypeExactly(GZIP_MAGIC + [b2, b3]);
  }

  /**
   * Fewer than four bytes are never an archive, even a complete GZIP
   * identification or a file of exactly two bytes.
   */
  lemma ShortReadNoArchive(bytes: seq<bv8>)
    requires |bytes| < 4
    ensures ArchiveType(DiskFile(true, Delivered(bytes))) == NoArchive
  {
  }
}
