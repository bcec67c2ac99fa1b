# Ente export timestamp fixer — verified model

`fix_ente_timestamps.py` copies the photos and videos of an Ente Photos export
into an output folder and sets their dates. For each album it:

- collects the media files;
- asks exiftool, in one call, for the real file type of every file;
- reads each file's JSON sidecar (`metadata/<name>.json`) to find the capture time;
- copies each kept file under a corrected name whose extension matches the detected type;
- writes the capture time into four date tags of every copy, through one exiftool argfile;
- tallies processed, skipped, failed and renamed files.

This project models the rule-based core of that script in Dafny. Six modules cover it:

- `Wrappers`: the `Option` type.
- `PyText`: the Python string semantics the script relies on. It covers `str.isspace`, `lower()`,
  `strip()`, `p in s`, `split("\n")`, `"\n".join`, `split()[0]` and `int(str)`.
- `Extensions`: the `FILETYPE_TO_EXT` and `EXT_ALIASES` tables, `Path.suffix` / `Path.stem`, and
  `get_corrected_filename`.
- `Metadata`: the decoded sidecar as a JSON value, `parse_timestamp` with an integer epoch as its
  result, and `format_exif_datetime` together with its inverse.
- `Exiftool`: the loop that builds the type map in `batch_detect_file_types`, and the argfile
  writer, the stdout scraper and the return arithmetic of `batch_set_timestamps`.
- `Album`: the collection, classification and copy loops of `process_album`, and the function as
  a whole.

The six loops keep the script's imperative form: type-map building, argfile building, stdout
scraping, and the collection, classification and copy loops of `process_album`. Each is a Dafny `method` with a `while` loop. Each is
proved equal to a recursive specification function, and the lemmas are stated about those
functions.

Everything outside the program is an input to the model:

- The album listing is a sequence of `Entry(name, isDir)`.
- The sidecars are a map from `<name>.json` to `Unreadable` or `Parsed(metadata)`. `Unreadable`
  stands for a JSON decode error or an `IOError`.
- exiftool's type listing is `Listed(items)` or `DetectFailed`.
- exiftool's timestamp run is `Completed(stdout)` or `Raised`.
- The copies that fail are a set of source names.
- A JSON number with a fraction or an exponent is `JReal` holding the value of the double that
  `json.load` decoded it to; `1700000000.9999999999` is therefore 1700000001.0.
- `datetime.fromtimestamp` is a function `localTime` from epoch seconds to a civil date and time.

## Model

| member | source | states |
|---|---|---|
| Extensions.ExtForType | fix_ente_timestamps.py:20-42 | `FILETYPE_TO_EXT.get(type)`: a type yields an extension exactly when the table lists it, and that extension is the table's entry for the type |
| Extensions.NormalizeExt | fix_ente_timestamps.py:104-105 | `EXT_ALIASES.get(ext, ext)`: an alias maps to its target; any other extension is returned as it is |
| Extensions.AliasTargetsAreCanonical | fix_ente_timestamps.py:20-51 | no alias target and no table value is itself an alias key |
| Extensions.NormalizeIdempotent | fix_ente_timestamps.py:104-105 | folding aliases twice gives the same result as folding once |
| Extensions.TableExtsCanonical | fix_ente_timestamps.py:20-42 | every table extension is a dot, then at least one more character, no second dot and no upper-case letter |
| Extensions.LastIndexOf | fix_ente_timestamps.py:103-111 | `rfind('.')`: -1 exactly when the name has no dot; otherwise the index of a dot with no later dot |
| Extensions.Suffix | fix_ente_timestamps.py:103 | `Path.suffix`: a dot followed by a dot-free rest when the last dot is neither the first nor the last character, and the empty string otherwise |
| Extensions.Stem | fix_ente_timestamps.py:111 | `Path.stem` followed by `Path.suffix` is the whole name; the stem is empty only for the empty name |
| Extensions.CorrectedFilename | fix_ente_timestamps.py:93-112 | no detection gives (name, false); with a detection, the flag is set exactly when the lower-cased, alias-folded suffix differs from the alias-folded detected extension; a set flag gives stem + detected extension, and a clear flag gives the name unchanged |
| Extensions.SuffixOfStemPlusExt | fix_ente_timestamps.py:103-111 | appending a well-formed extension to a non-empty stem makes that extension the suffix |
| Extensions.CorrectedNameMatches | fix_ente_timestamps.py:103-112 | after a rename, the new name's folded suffix is the folded, lower-cased detected extension |
| Extensions.CorrectionIdempotent | fix_ente_timestamps.py:103-112 | correcting a name that was just corrected, with the same canonical extension, asks for no further rename |
| Extensions.CorrectionIdempotentForTable | fix_ente_timestamps.py:93-112 | the same for every extension the type table can yield |
| Extensions.KeptWhenAgreeing | fix_ente_timestamps.py:103-108 | stem + ext is kept unflagged when ext agrees with the detected extension up to case and aliases |
| Extensions.RenamedWhenDisagreeing | fix_ente_timestamps.py:103-112 | stem + ext becomes stem + detected, flagged, when they disagree |
| Extensions.AppendedWithoutSuffix | fix_ente_timestamps.py:103-112 | a name without a suffix gets the detected extension appended to the whole name, flagged |
| Extensions.UpperCaseAliasKept | fix_ente_timestamps.py:103-108 | `IMG_0001.JPEG` with a detected `.jpg` is not renamed |
| Extensions.MismatchRenamed | fix_ente_timestamps.py:103-112 | `IMG_0002.png` with a detected `.jpg` becomes `IMG_0002.jpg` |
| Extensions.DotEdgeCases | fix_ente_timestamps.py:103-112 | `.hidden` and `photo.` have no suffix, so a detected `.jpg` is appended: `.hidden.jpg`, `photo..jpg` |
| PyText.Lower | fix_ente_timestamps.py:103 | `lower()` keeps the length and lower-cases each ASCII capital, leaving every other character alone |
| PyText.StripLeft | fix_ente_timestamps.py:202 | the result is a suffix of the input that does not start with whitespace |
| PyText.StripLeftRemovesSpace | fix_ente_timestamps.py:202 | everything `lstrip` removes is whitespace |
| PyText.StripRight | fix_ente_timestamps.py:202 | the result is a prefix of the input that does not end with whitespace |
| PyText.StripRightRemovesSpace | fix_ente_timestamps.py:202 | everything `rstrip` removes is whitespace |
| PyText.Strip | fix_ente_timestamps.py:202 | `strip()` is no longer than the text, and neither starts nor ends with whitespace |
| PyText.StripRemovesSpace | fix_ente_timestamps.py:202 | `strip()` keeps the piece of the text that starts where `lstrip()` stops, and everything it removes on either side is whitespace |
| PyText.StripPadded | fix_ente_timestamps.py:202 | `strip()` removes exactly the blank padding around a text that neither starts nor ends with a blank |
| PyText.Contains | fix_ente_timestamps.py:203-208 | `p in s` holds when s starts with p, and never when p is longer than s |
| PyText.ContainsIff | fix_ente_timestamps.py:203-208 | `p in s` holds exactly when `p` occurs in `s` at some position |
| PyText.SplitOn | fix_ente_timestamps.py:201 | `split("\n")` gives at least one piece, and no piece contains the separator |
| PyText.JoinWith | fix_ente_timestamps.py:183 | `"\n".join(lines)`: empty for no lines, the line itself for one, and otherwise a text that starts with the first line and holds exactly one separator fewer than there are lines when no line contains one |
| PyText.SplitJoin | fix_ente_timestamps.py:183 | splitting a non-empty join of separator-free lines gives back exactly those lines |
| PyText.FirstToken | fix_ente_timestamps.py:205-210 | `split()[0]` is missing exactly when nothing is left after `lstrip`; otherwise it is the non-empty, whitespace-free prefix of the stripped text, followed by whitespace or the end |
| PyText.FirstTokenNoneIffBlank | fix_ente_timestamps.py:204-212 | `split()[0]` raises IndexError exactly when the text is all whitespace |
| PyText.ParseInt | fix_ente_timestamps.py:123-131 | `int(s)` succeeds exactly when the stripped text is a digit group (digits with single underscores between them), optionally preceded by `+` or `-`; its value is the group's number, negated after `-` |
| PyText.ParseDecimalString | fix_ente_timestamps.py:123-131 | `int(str(n)) == n` for every integer |
| PyText.ParsePadded | fix_ente_timestamps.py:123-131 | `int()` ignores blank padding on either side of a decimal |
| PyText.BlankIsNotANumber | fix_ente_timestamps.py:123-126 | `int()` of blank text raises ValueError |
| Metadata.TruncateTowardZero | fix_ente_timestamps.py:123-131 | `int(x)` on a float truncates toward zero |
| Metadata.PyInt | fix_ente_timestamps.py:123-131 | `int()` of a decoded JSON value: an integer is kept, `True`/`False` give 1/0, a float is truncated toward zero and a string is parsed by `int(str)`; NaN raises ValueError, and null, a list or an object raises TypeError |
| Metadata.TimestampField | fix_ente_timestamps.py:121-134 | `int(metadata[key]["timestamp"])` is None when the key is missing, the value is not an object or it has no `timestamp`, and is `int()` of the `timestamp` value otherwise |
| Metadata.ParseTimestamp | fix_ente_timestamps.py:115-136 | the photo-taken value wins whenever it is an integer; otherwise the creation value is taken; the result is None exactly when neither gives an integer |
| Metadata.PhotoTakenDecimalWins | fix_ente_timestamps.py:121-124 | a decimal photo-taken timestamp is the result, whatever the creation time says |
| Metadata.BlankPhotoTakenFallsBack | fix_ente_timestamps.py:121-132 | a blank photo-taken timestamp falls back to the creation time |
| Metadata.NoTimeFields | fix_ente_timestamps.py:121-136 | with neither field present the result is None |
| Metadata.Pad | fix_ente_timestamps.py:141 | exactly w characters, all of them digits; with PadValue they spell n whenever n is below 10^w, which is where they equal `%0wd` (Python does not truncate a wider number; every date field formatted here is below its bound) |
| Metadata.PadValue | fix_ente_timestamps.py:141 | a number below 10^w reads back from its w-digit padding |
| Metadata.ValuePad | fix_ente_timestamps.py:141 | every digit string is the padding of the number it spells |
| Metadata.FormatExifDateTime | fix_ente_timestamps.py:139-141 | `strftime("%Y:%m:%d %H:%M:%S")` gives 19 characters: digits, with `:` `:` ` ` `:` `:` at positions 4, 7, 10, 13 and 16 |
| Metadata.FormatParseRoundTrip | fix_ente_timestamps.py:139-141 | the formatted text reads back as the same date and time |
| Metadata.ParseFormatRoundTrip | fix_ente_timestamps.py:139-141 | a text that reads as a valid date is that date's formatting |
| Metadata.FormatInjective | fix_ente_timestamps.py:139-141 | distinct dates are formatted differently |
| Exiftool.TypeMapKeys | fix_ente_timestamps.py:75-80 | the map has one key for each name in the listing, a missing FileName counting as "" |
| Exiftool.TypeMapLastWins | fix_ente_timestamps.py:76-79 | the last item with a given name decides its value: the table extension, or None for an unknown type |
| Exiftool.TypeMapValues | fix_ente_timestamps.py:79 | every value is None or a table extension |
| Exiftool.BuildTypeMap | fix_ente_timestamps.py:75-80 | the loop builds the fold of the listing, keyed by the listed names |
| Exiftool.BatchDetectFileTypes | fix_ente_timestamps.py:54-90 | no files or a failed call give the empty map; otherwise the result is the fold of the listing |
| Exiftool.ArgBlock | fix_ente_timestamps.py:165-175 | one file's block: `-overwrite_original`, the four date tags each set to the same formatted date, the path, then `-execute` |
| Exiftool.ArgfileLength | fix_ente_timestamps.py:163-176 | n pairs give 7n lines |
| Exiftool.ArgfileBlocks | fix_ente_timestamps.py:163-176 | pair i's block occupies lines 7i to 7i+6, in input order |
| Exiftool.ArgfileLines | fix_ente_timestamps.py:163-176 | line by line: block i opens with `-overwrite_original`, names pair i's file before `-execute`, and each tag line is `<tag>=` followed by text that reads back as pair i's date |
| Exiftool.BuildArgfile | fix_ente_timestamps.py:163-176 | the `extend` loop builds the 7n-line argfile, block by block |
| Exiftool.NoNewlineInStamp | fix_ente_timestamps.py:165 | a formatted date has no newline |
| Exiftool.NoNewlineInBlock | fix_ente_timestamps.py:165-175 | no line of a block has a newline when its path has none |
| Exiftool.ArgfileNoNewline | fix_ente_timestamps.py:163-176 | no argfile line has a newline when no path has one |
| Exiftool.ArgfileReadsBack | fix_ente_timestamps.py:183 | reading the written argfile one argument per line gives back exactly its lines, provided no path contains a newline |
| Exiftool.LeadingCount | fix_ente_timestamps.py:204-212 | `int(line.split()[0])`: 0 when the line is blank (IndexError) or its first word is not an integer (ValueError), and otherwise that word's value |
| Exiftool.UpdatedOf | fix_ente_timestamps.py:202-207 | a line without "image files updated" adds nothing to `updated` |
| Exiftool.UnchangedOf | fix_ente_timestamps.py:202-212 | a line with the updated phrase, or without the unchanged phrase, adds nothing to `unchanged`: the updated test comes first |
| Exiftool.UpdatedTotalAppend | fix_ente_timestamps.py:199-207 | the updated count over concatenated output is the sum of the counts of its parts |
| Exiftool.UnchangedTotalAppend | fix_ente_timestamps.py:199-212 | the same for the unchanged count |
| Exiftool.QuietOutputCountsNothing | fix_ente_timestamps.py:199-212 | output with neither phrase counts nothing |
| Exiftool.UncountableLineAddsNothing | fix_ente_timestamps.py:204-212 | a line whose first word is missing or not an integer adds nothing to either count |
| Exiftool.SummaryLineStrip | fix_ente_timestamps.py:202 | stripping an indented summary line leaves the count and the phrase |
| Exiftool.SummaryLineCount | fix_ente_timestamps.py:205-210 | the first word of a summary line parses to its count |
| Exiftool.SummaryLineHasPhrase | fix_ente_timestamps.py:203-208 | a summary line contains its phrase |
| Exiftool.UpdatedLineCounted | fix_ente_timestamps.py:202-207 | `   N image files updated` adds N to `updated` and nothing to `unchanged` |
| Exiftool.UnchangedLineCounted | fix_ente_timestamps.py:202-212 | `   N image files unchanged` adds N to `unchanged` and nothing to `updated` |
| Exiftool.UpdatedNotInUnchangedLine | fix_ente_timestamps.py:203-208 | "image files updated" occurs at no position of "N image files unchanged" |
| Exiftool.TotalsStep | fix_ente_timestamps.py:201-212 | one more stdout line adds that line's counts to the updated and unchanged totals |
| Exiftool.ScrapeSummary | fix_ente_timestamps.py:199-212 | the counting loop over the stdout lines gives exactly the updated and unchanged totals |
| Exiftool.BatchSetTimestamps | fix_ente_timestamps.py:144-241 | on every path success + errors is the number of pairs. No input gives (0, 0) and a dry run gives (n, 0), neither writing an argfile. A real run writes the 7n-line argfile; on completion success is the sum of the two stdout totals, and an exception gives (0, n) |
| Album.MediaFilesMembers | fix_ente_timestamps.py:258-264 | a name is collected exactly when some entry that is neither `metadata`, `.DS_Store` nor a directory carries it |
| Album.CollectMedia | fix_ente_timestamps.py:258-264 | the collection loop keeps the media entries in listing order |
| Album.Lookup | fix_ente_timestamps.py:311 | `file_types.get(name)`: None for a name the listing does not have |
| Album.Classify | fix_ente_timestamps.py:285-318 | with no sidecar a file is skipped, and with an unreadable sidecar it is an error; if the sidecar gives no timestamp the file is skipped as well. Otherwise it is kept, with the sidecar's timestamp and the corrected name and flag |
| Album.AccountingPartition | fix_ente_timestamps.py:285-318 | skipped + errors + kept is the number of media files, and only kept files count as renamed |
| Album.PlansFaithful | fix_ente_timestamps.py:304-318 | every planned copy comes from a media file whose sidecar gave its timestamp, and targets that file's corrected name |
| Album.NoDetectionNoRename | fix_ente_timestamps.py:311-315 | with an empty type map nothing is renamed and every target is its source's name |
| Album.ClassifyStep | fix_ente_timestamps.py:285-318 | classifying one more media file extends the skipped, error and renamed counts and the plans by that file's verdict alone |
| Album.ClassifyMedia | fix_ente_timestamps.py:285-318 | the loop yields the planned copies and the skipped, error and renamed counts of the specification, which add up to the number of media files |
| Album.PlanOfTimestamped | fix_ente_timestamps.py:304-318 | a lone media file with a timestamped sidecar is planned under its corrected name |
| Album.PlansOfPair | fix_ente_timestamps.py:285-318 | two timestamped files are planned in order, each under its corrected name |
| Album.TwoSourcesOneTarget | fix_ente_timestamps.py:311-318 | `stem + ext` and `stem + other` detected as the same type `ext` are both planned onto `stem + ext` |
| Album.JpegAndMisnamedPngCollide | fix_ente_timestamps.py:311-318 | `a.jpg` and `a.png`, both JPEG, are both planned onto `a.jpg` |
| Album.CopyAccounting | fix_ente_timestamps.py:327-337 | every plan is copied or counted as a copy error, and a dry run has no copy errors |
| Album.CopyPlanned | fix_ente_timestamps.py:327-337 | the copy loop collects (output path, local date) for each successful copy, or for every plan in a dry run, and counts the rest as errors |
| Album.ProcessAlbum | fix_ente_timestamps.py:244-353 | processed + skipped + errors is the number of media files, and all four counts are 0 when there is none. Skipped and renamed are the classification's counts. A dry run processes every kept file and reports only sidecar errors. When no copy succeeds nothing is processed; otherwise a completed real run processes the sum of exiftool's updated and unchanged totals, and one that raises processes nothing. Errors are the sidecar errors, the copy errors and the copied files the timestamp run did not account for |

## Left out

- The exiftool processes (`subprocess.run`), the temporary argfile (`tempfile`, `unlink`) and JSON
  decoding (`json.load`, `json.loads`) are not modelled. Their outcomes are the inputs `DetectRun`,
  `ToolRun` and `Sidecar`.
- The filesystem is not modelled: `iterdir`, `is_dir`, `exists`, `mkdir` and `shutil.copy2`. The
  album listing, the sidecar map and the set of failing copies are inputs. The model does not
  capture that a later copy onto the same output name replaces an earlier one; `TwoSourcesOneTarget`
  shows when that happens.
- `find_albums`, `main`, `argparse`, every `print`, and the filtering and truncation of exiftool's
  stderr warnings are not modelled. None of them affects a returned count.
- The `sys.exit(1)` paths taken when exiftool is missing are not modelled; the model has no
  process exit.
- Metadata.ParseTimestamp: returns the epoch second and leaves out `datetime.fromtimestamp`. That
  conversion depends on the local time zone, so `localTime` is an input of `ProcessAlbum`. Its
  exceptions for an out-of-range timestamp are not modelled. The source treats a ValueError like a
  malformed field, and it does not catch an OverflowError or OSError.
- Metadata.FormatExifDateTime: covers years 1 to 9999 padded to four digits. `strftime` pads years
  below 1000 differently from platform to platform.
- PyText.ParseInt: accepts ASCII digits only. Python's `int()` also accepts other Unicode decimal
  digits and limits conversions to 4300 digits; neither is modelled.
- PyText.Lower: folds ASCII capitals only. Python's `lower()` also folds non-ASCII letters, and a
  few of them fold to ASCII: U+212A KELVIN SIGN lowers to `k`. So `clip.M\u212AV` detected as MKV
  keeps its name in the script, whose lowered suffix is `.mkv`, while the model renames it to
  `clip.mkv`.
- Extensions.Suffix: follows `pathlib` up to Python 3.13, where a name ending in a dot has no
  suffix. Python 3.14 changed this rule, and the change is not modelled.
- A sidecar whose top-level JSON value is not an object is not modelled: the source would raise an
  uncaught TypeError at `"photoTakenTime" in metadata` for a number. A sidecar that is not valid
  text in the platform encoding is not modelled either; the source does not catch its
  UnicodeDecodeError.
- JSON's `Infinity` and `-Infinity`, which `json.load` accepts, are not modelled. `int()` of an
  infinite float raises OverflowError, which `parse_timestamp` does not catch, so the script stops.
  `NaN` is modelled as `JNaN`, whose ValueError is caught.
- A non-string `FileName` in exiftool's listing is not modelled; names are strings.
