/**
 * Extension correction: the exiftool file-type table, the alias table, the
 * `Path.suffix` / `Path.stem` split of a file name, and the rule that decides
 * whether a file must be renamed to carry the extension of its detected type.
 */
module Extensions {
  import opened Wrappers
  import opened PyText

  /** exiftool's FileType value mapped to the canonical extension. */
  const FileTypeToExt: map<string, string> := map[
    "JPEG" := ".jpg",
    "PNG" := ".png",
    "GIF" := ".gif",
    "WEBP" := ".webp",
    "HEIC" := ".heic",
    "HEIF" := ".heic",
    "MP4" := ".mp4",
    "MOV" := ".mov",
    "QuickTime" := ".mov",
    "AVI" := ".avi",
    "WEBM" := ".webm",
    "MKV" := ".mkv",
    "TIFF" := ".tiff",
    "BMP" := ".bmp",
    "CR2" := ".cr2",
    "NEF" := ".nef",
    "ARW" := ".arw",
    "DNG" := ".dng",
    "RAF" := ".raf",
    "ORF" := ".orf",
    "RW2" := ".rw2"
  ]

  /** Extensions that are spellings of a canonical one. */
  const ExtAliases: map<string, string> := map[
    ".jpeg" := ".jpg",
    ".jpe" := ".jpg",
    ".m4v" := ".mp4",
    ".heif" := ".heic",
    ".tif" := ".tiff"
  ]

  /** `FILETYPE_TO_EXT.get(file_type)` */
  function ExtForType(fileType: string): (ext: Option<string>)
    ensures ext.Some? <==> fileType in FileTypeToExt
    ensures ext.Some? ==> ext.value == FileTypeToExt[fileType] && ext.value in FileTypeToExt.Values
  {
    if fileType in FileTypeToExt then Some(FileTypeToExt[fileType]) else None
  }

  /** `EXT_ALIASES.get(ext, ext)` */
  function NormalizeExt(ext: string): (n: string)
    ensures ext in ExtAliases ==> n == ExtAliases[ext]
    ensures ext !in ExtAliases ==> n == ext
  {
    if ext in ExtAliases then ExtAliases[ext] else ext
  }

  /** The extensions the type table yields, written out once. */
  const TableExts: set<string> := {".jpg", ".png", ".gif", ".webp", ".heic", ".mp4", ".mov",
    ".avi", ".webm", ".mkv", ".tiff", ".bmp", ".cr2", ".nef", ".arw", ".dng", ".raf", ".orf", ".rw2"}

  lemma TableExtsListed()
    ensures forall t :: t in FileTypeToExt ==> FileTypeToExt[t] in TableExts
  {
  }

  lemma TableExtsNotAliases(e: string)
    requires e in TableExts
    ensures e !in ExtAliases
  {
  }

  /** Canonical extensions (the table's values and the aliases' targets) are
      not themselves aliases. */
  lemma AliasTargetsAreCanonical()
    ensures forall a :: a in ExtAliases ==> ExtAliases[a] !in ExtAliases
    ensures forall t :: t in FileTypeToExt ==> FileTypeToExt[t] !in ExtAliases
  {
    forall t | t in FileTypeToExt ensures FileTypeToExt[t] !in ExtAliases {
      TableExtsListed();
      TableExtsNotAliases(FileTypeToExt[t]);
    }
  }

  /** Normalising twice is normalising once. */
  lemma NormalizeIdempotent(ext: string)
    ensures NormalizeExt(NormalizeExt(ext)) == NormalizeExt(ext)
  {
    AliasTargetsAreCanonical();
  }

  /** `s.rfind(c)`: the last index of c in s, or -1. */
  function LastIndexOf(s: string, c: char): (i: int)
    ensures -1 <= i < |s|
    ensures i == -1 <==> c !in s
    ensures i >= 0 ==> s[i] == c
    ensures forall j :: i < j < |s| ==> s[j] != c
  {
    if |s| == 0 then -1
    else if s[|s| - 1] == c then |s| - 1
    else LastIndexOf(s[..|s| - 1], c)
  }

  /** Whether `name` has a suffix in the sense of `pathlib` (Python 3.9 to
      3.13): its last dot is neither the first nor the last character. */
  predicate HasSuffix(name: string)
  {
    0 < LastIndexOf(name, '.') < |name| - 1
  }

  /** `Path(name).suffix` */
  function Suffix(name: string): (suffix: string)
    ensures HasSuffix(name) ==> |suffix| >= 2 && suffix[0] == '.' && '.' !in suffix[1..]
    ensures !HasSuffix(name) ==> suffix == ""
  {
    if HasSuffix(name) then name[LastIndexOf(name, '.')..] else ""
  }

  /** `Path(name).stem` */
  function Stem(name: string): (stem: string)
    ensures stem + Suffix(name) == name
    ensures stem == [] <==> name == []
  {
    if HasSuffix(name) then name[..LastIndexOf(name, '.')] else name
  }

  /** A canonical-looking extension: a dot followed by at least one character
      and no further dot. */
  predicate WellFormedExt(ext: string)
  {
    |ext| >= 2 && ext[0] == '.' && '.' !in ext[1..]
  }

  /** A well-formed extension without upper-case letters. */
  predicate CanonicalExt(ext: string)
  {
    WellFormedExt(ext) && forall i :: 0 <= i < |ext| ==> !('A' <= ext[i] <= 'Z')
  }

  lemma TableExtsWellFormed(e: string)
    requires e in TableExts
    ensures WellFormedExt(e)
  {
  }

  lemma TableExtsLowerCase(e: string)
    requires e in TableExts
    ensures forall i :: 0 <= i < |e| ==> !('A' <= e[i] <= 'Z')
  {
  }

  /** Every extension the type table yields is canonical. */
  lemma TableExtsCanonical()
    ensures forall t :: t in FileTypeToExt ==> CanonicalExt(FileTypeToExt[t])
  {
    forall t | t in FileTypeToExt ensures CanonicalExt(FileTypeToExt[t]) {
      TableExtsListed();
      TableExtsWellFormed(FileTypeToExt[t]);
      TableExtsLowerCase(FileTypeToExt[t]);
    }
  }

  /** The alias-normalised, lower-cased suffix of a name: what the check
      compares with the detected extension. */
  function NormalizedSuffix(name: string): string
  {
    NormalizeExt(Lower(Suffix(name)))
  }

  /**
   * `get_corrected_filename`: keeps the name when no type was detected or the
   * name's extension already agrees with the detected one up to case and
   * aliases; otherwise replaces the suffix by the detected extension.
   */
  function CorrectedFilename(name: string, detected: Option<string>): (r: (string, bool))
    ensures detected.None? ==> r == (name, false)
    ensures detected.Some? ==> (r.1 <==> NormalizedSuffix(name) != NormalizeExt(detected.value))
    ensures r.1 ==> r.0 == Stem(name) + detected.value
    ensures !r.1 ==> r.0 == name
  {
    match detected
    case None => (name, false)
    case Some(ext) =>
      if NormalizedSuffix(name) == NormalizeExt(ext) then (name, false)
      else (Stem(name) + ext, true)
  }

  /** Appending a well-formed extension to a non-empty stem makes that
      extension the suffix. */
  lemma {:induction false} SuffixOfStemPlusExt(stem: string, ext: string)
    requires stem != []
    requires WellFormedExt(ext)
    ensures Suffix(stem + ext) == ext
  {
    var s := stem + ext;
    LastDotInExt(stem, ext);
    assert s[|stem|..] == ext;
  }

  lemma LastDotInExt(stem: string, ext: string)
    requires WellFormedExt(ext)
    ensures LastIndexOf(stem + ext, '.') == |stem|
  {
    var s := stem + ext;
    var i := LastIndexOf(s, '.');
    assert s[|stem|] == '.';
  }

  /** After a rename the new name's extension agrees with the detected type. */
  lemma {:induction false} CorrectedNameMatches(name: string, ext: string)
    requires name != []
    requires WellFormedExt(ext)
    requires CorrectedFilename(name, Some(ext)).1
    ensures NormalizedSuffix(CorrectedFilename(name, Some(ext)).0) == NormalizeExt(Lower(ext))
  {
    SuffixOfStemPlusExt(Stem(name), ext);
  }

  /**
   * Correcting is idempotent: running the correction again on the name it
   * produced, with the same detected (lower-case, well-formed) extension,
   * asks for no further rename.
   */
  lemma {:induction false} CorrectionIdempotent(name: string, ext: string)
    requires name != []
    requires CanonicalExt(ext)
    ensures CorrectedFilename(CorrectedFilename(name, Some(ext)).0, Some(ext)) == (CorrectedFilename(name, Some(ext)).0, false)
  {
    if CorrectedFilename(name, Some(ext)).1 {
      CorrectedNameMatches(name, ext);
      LowerFixed(ext);
    }
  }

  /** The same for every extension the type table can detect. */
  lemma CorrectionIdempotentForTable(name: string, fileType: string)
    requires name != []
    requires fileType in FileTypeToExt
    ensures var first := CorrectedFilename(name, ExtForType(fileType));
            CorrectedFilename(first.0, ExtForType(fileType)) == (first.0, false)
  {
    TableExtsCanonical();
    CorrectionIdempotent(name, FileTypeToExt[fileType]);
  }

  /** The correction of a name with a non-empty stem and a well-formed
      extension when that extension agrees with the detected one. */
  lemma {:induction false} KeptWhenAgreeing(stem: string, ext: string, detected: string)
    requires stem != [] && WellFormedExt(ext)
    requires NormalizeExt(Lower(ext)) == NormalizeExt(detected)
    ensures CorrectedFilename(stem + ext, Some(detected)) == (stem + ext, false)
  {
    SuffixOfStemPlusExt(stem, ext);
  }

  /** The same when the two extensions disagree: the extension is replaced
      and the stem is kept. */
  lemma {:induction false} RenamedWhenDisagreeing(stem: string, ext: string, detected: string)
    requires stem != [] && WellFormedExt(ext)
    requires NormalizeExt(Lower(ext)) != NormalizeExt(detected)
    ensures CorrectedFilename(stem + ext, Some(detected)) == (stem + detected, true)
  {
    var name := stem + ext;
    SuffixOfStemPlusExt(stem, ext);
    assert Stem(name) == name[..|stem|];
    assert name[..|stem|] == stem;
  }

  /** Case and aliases are ignored: an upper-case alias spelling of the
      detected extension is not renamed. */
  lemma UpperCaseAliasKept()
    ensures CorrectedFilename("IMG_0001" + ".JPEG", Some(".jpg")) == ("IMG_0001" + ".JPEG", false)
  {
    assert Lower(".JPEG") == ".jpeg";
    KeptWhenAgreeing("IMG_0001", ".JPEG", ".jpg");
  }

  /** A PNG-named file whose content is JPEG gets the JPEG extension. */
  lemma MismatchRenamed()
    ensures CorrectedFilename("IMG_0002" + ".png", Some(".jpg")) == ("IMG_0002" + ".jpg", true)
  {
    assert Lower(".png") == ".png";
    RenamedWhenDisagreeing("IMG_0002", ".png", ".jpg");
  }

  /** A name without a suffix gets the detected extension appended. */
  lemma {:induction false} AppendedWithoutSuffix(name: string, detected: string)
    requires !HasSuffix(name)
    requires detected != [] && detected !in ExtAliases
    ensures CorrectedFilename(name, Some(detected)) == (name + detected, true)
  {
    assert Lower("") == "";
    assert "" !in ExtAliases;
  }

  /** Names whose only dot is the first character (hidden files) or the last
      character have no suffix, so a detected type is appended to the
      whole name. */
  lemma DotEdgeCases()
    ensures CorrectedFilename(".hidden", Some(".jpg")) == (".hidden.jpg", true)
    ensures CorrectedFilename("photo.", Some(".jpg")) == ("photo..jpg", true)
  {
    assert !HasSuffix(".hidden") by {
      LastDotInExt("", ".hidden");
      assert "" + ".hidden" == ".hidden";
    }
    assert !HasSuffix("photo.") by {
      assert LastIndexOf("photo.", '.') == 5;
    }
    AppendedWithoutSuffix(".hidden", ".jpg");
    AppendedWithoutSuffix("photo.", ".jpg");
    assert ".hidden" + ".jpg" == ".hidden.jpg";
    assert "photo." + ".jpg" == "photo..jpg";
  }
}
