/**
 * `process_album`: collect an album's media files, detect their types,
 * classify each file by its sidecar, copy the kept ones under their
 * corrected names and set their timestamps in one exiftool batch.
 * The directory listing, the sidecar files, the copies and exiftool's
 * behaviour are inputs.
 */
module Album {
  import opened Wrappers
  import opened PyText
  import opened Extensions
  import opened Metadata
  import opened Exiftool

  // ------------------------------------------------------------ media files

  /** One entry of the album directory's listing. */
  datatype Entry = Entry(name: string, isDir: bool)

  /** Whether an entry is a media file: not the metadata folder, not
      `.DS_Store`, not a directory. */
  predicate IsMedia(e: Entry)
  {
    e.name != "metadata" && e.name != ".DS_Store" && !e.isDir
  }

  /** The names of the media entries, in listing order. */
  function MediaFiles(entries: seq<Entry>): seq<string>
    decreases |entries|
  {
    if |entries| == 0 then []
    else
      var last := entries[|entries| - 1];
      MediaFiles(entries[..|entries| - 1]) + (if IsMedia(last) then [last.name] else [])
  }

  /** A name is collected exactly when some media entry carries it. */
  lemma {:induction false} MediaFilesMembers(entries: seq<Entry>)
    ensures forall n :: n in MediaFiles(entries) <==> exists i :: 0 <= i < |entries| && IsMedia(entries[i]) && entries[i].name == n
    decreases |entries|
  {
    if |entries| > 0 {
      var init := entries[..|entries| - 1];
      MediaFilesMembers(init);
      forall n ensures n in MediaFiles(entries) <==> exists i :: 0 <= i < |entries| && IsMedia(entries[i]) && entries[i].name == n {
        if n in MediaFiles(init) {
          var i :| 0 <= i < |init| && IsMedia(init[i]) && init[i].name == n;
          assert entries[i] == init[i];
        }
        if i :| 0 <= i < |entries| - 1 && IsMedia(entries[i]) && entries[i].name == n {
          assert init[i] == entries[i];
        }
      }
    }
  }

  /** The collection loop at the top of `process_album`. */
  method CollectMedia(entries: seq<Entry>) returns (media: seq<string>)
    ensures media == MediaFiles(entries)
    ensures |media| <= |entries|
  {
    media := [];
    var i := 0;
    while i < |entries|
      invariant 0 <= i <= |entries|
      invariant media == MediaFiles(entries[..i])
      invariant |media| <= i
    {
      var item := entries[i];
      assert entries[..i + 1][..i] == entries[..i];
      i := i + 1;
      if item.name == "metadata" || item.name == ".DS_Store" {
        continue;
      }
      if item.isDir {
        continue;
      }
      media := media + [item.name];
    }
    assert entries[..|entries|] == entries;
  }

  // ------------------------------------------------------------ classification

  /** A sidecar that exists: it could not be read or decoded, or it decoded
      to a JSON object. */
  datatype Sidecar = Unreadable | Parsed(metadata: map<string, Json>)

  /** `metadata/<name>.json` */
  function SidecarName(name: string): string
  {
    name + ".json"
  }

  /** `file_types.get(name)`: None for a name exiftool did not list as well
      as for a listed name of unknown type. */
  function Lookup(fileTypes: map<string, Option<string>>, name: string): (ext: Option<string>)
    ensures name !in fileTypes ==> ext.None?
    ensures name in fileTypes ==> ext == fileTypes[name]
  {
    if name in fileTypes then fileTypes[name] else None
  }

  /** What the loop does with one media file. */
  datatype Verdict =
    | NoSidecar
    | BadSidecar
    | NoTimestamp
    | Keep(target: string, timestamp: int, renamed: bool)
  {
    predicate Skipped() { NoSidecar? || NoTimestamp? }
  }

  function Classify(name: string, sidecars: map<string, Sidecar>, fileTypes: map<string, Option<string>>): (v: Verdict)
    ensures v.NoSidecar? <==> SidecarName(name) !in sidecars
    ensures v.BadSidecar? <==> SidecarName(name) in sidecars && sidecars[SidecarName(name)].Unreadable?
    ensures v.NoTimestamp? <==> SidecarName(name) in sidecars && sidecars[SidecarName(name)].Parsed? && ParseTimestamp(sidecars[SidecarName(name)].metadata).None?
    ensures v.Keep? ==> SidecarName(name) in sidecars && sidecars[SidecarName(name)].Parsed?
                        && ParseTimestamp(sidecars[SidecarName(name)].metadata) == Some(v.timestamp)
                        && (v.target, v.renamed) == CorrectedFilename(name, Lookup(fileTypes, name))
  {
    var json := SidecarName(name);
    if json !in sidecars then NoSidecar
    else
      match sidecars[json]
      case Unreadable => BadSidecar
      case Parsed(metadata) =>
        match ParseTimestamp(metadata)
        case None => NoTimestamp
        case Some(ts) =>
          var corrected := CorrectedFilename(name, Lookup(fileTypes, name));
          Keep(corrected.0, ts, corrected.1)
  }

  /** One planned copy: media file, output name, epoch timestamp. */
  datatype Plan = Plan(source: string, target: string, timestamp: int)

  function SkippedCount(media: seq<string>, sidecars: map<string, Sidecar>, fileTypes: map<string, Option<string>>): nat
    decreases |media|
  {
    if |media| == 0 then 0
    else SkippedCount(media[..|media| - 1], sidecars, fileTypes)
         + (if Classify(media[|media| - 1], sidecars, fileTypes).Skipped() then 1 else 0)
  }

  function ErrorCount(media: seq<string>, sidecars: map<string, Sidecar>, fileTypes: map<string, Option<string>>): nat
    decreases |media|
  {
    if |media| == 0 then 0
    else ErrorCount(media[..|media| - 1], sidecars, fileTypes)
         + (if Classify(media[|media| - 1], sidecars, fileTypes).BadSidecar? then 1 else 0)
  }

  function RenamedCount(media: seq<string>, sidecars: map<string, Sidecar>, fileTypes: map<string, Option<string>>): nat
    decreases |media|
  {
    if |media| == 0 then 0
    else
      var v := Classify(media[|media| - 1], sidecars, fileTypes);
      RenamedCount(media[..|media| - 1], sidecars, fileTypes) + (if v.Keep? && v.renamed then 1 else 0)
  }

  /** `files_to_process`: the kept files in order. */
  function Plans(media: seq<string>, sidecars: map<string, Sidecar>, fileTypes: map<string, Option<string>>): seq<Plan>
    decreases |media|
  {
    if |media| == 0 then []
    else
      var name := media[|media| - 1];
      var v := Classify(name, sidecars, fileTypes);
      Plans(media[..|media| - 1], sidecars, fileTypes) + (if v.Keep? then [Plan(name, v.target, v.timestamp)] else [])
  }

  /** Every media file is counted exactly once: skipped, an error, or kept;
      and only kept files are counted as renamed. */
  lemma {:induction false} AccountingPartition(media: seq<string>, sidecars: map<string, Sidecar>, fileTypes: map<string, Option<string>>)
    ensures SkippedCount(media, sidecars, fileTypes) + ErrorCount(media, sidecars, fileTypes) + |Plans(media, sidecars, fileTypes)| == |media|
    ensures RenamedCount(media, sidecars, fileTypes) <= |Plans(media, sidecars, fileTypes)|
    decreases |media|
  {
    if |media| > 0 {
      AccountingPartition(media[..|media| - 1], sidecars, fileTypes);
    }
  }

  /** Each plan comes from a media file whose sidecar gave its timestamp,
      and its target is that file's corrected name. */
  lemma {:induction false} PlansFaithful(media: seq<string>, sidecars: map<string, Sidecar>, fileTypes: map<string, Option<string>>)
    ensures forall p :: p in Plans(media, sidecars, fileTypes) ==>
              && p.source in media
              && Classify(p.source, sidecars, fileTypes) == Keep(p.target, p.timestamp, CorrectedFilename(p.source, Lookup(fileTypes, p.source)).1)
              && p.target == CorrectedFilename(p.source, Lookup(fileTypes, p.source)).0
    decreases |media|
  {
    if |media| > 0 {
      var init := media[..|media| - 1];
      PlansFaithful(init, sidecars, fileTypes);
      forall p | p in Plans(init, sidecars, fileTypes) ensures p.source in media {
        assert p.source in init;
        var i :| 0 <= i < |init| && init[i] == p.source;
        assert media[i] == init[i];
      }
    }
  }

  /** Renames apply only to files whose listed type disagrees with their
      name: without a detection result, no kept file is renamed. */
  lemma {:induction false} NoDetectionNoRename(media: seq<string>, sidecars: map<string, Sidecar>)
    ensures RenamedCount(media, sidecars, map[]) == 0
    ensures forall p :: p in Plans(media, sidecars, map[]) ==> p.target == p.source
    decreases |media|
  {
    if |media| > 0 {
      NoDetectionNoRename(media[..|media| - 1], sidecars);
    }
  }

  /** Classifying one more media file extends each count and the plans by
      that file's verdict. */
  lemma ClassifyStep(media: seq<string>, i: int, sidecars: map<string, Sidecar>, fileTypes: map<string, Option<string>>)
    requires 0 <= i < |media|
    ensures var v := Classify(media[i], sidecars, fileTypes);
            && SkippedCount(media[..i + 1], sidecars, fileTypes) == SkippedCount(media[..i], sidecars, fileTypes) + (if v.Skipped() then 1 else 0)
            && ErrorCount(media[..i + 1], sidecars, fileTypes) == ErrorCount(media[..i], sidecars, fileTypes) + (if v.BadSidecar? then 1 else 0)
            && RenamedCount(media[..i + 1], sidecars, fileTypes) == RenamedCount(media[..i], sidecars, fileTypes) + (if v.Keep? && v.renamed then 1 else 0)
            && Plans(media[..i + 1], sidecars, fileTypes) == Plans(media[..i], sidecars, fileTypes) + (if v.Keep? then [Plan(media[i], v.target, v.timestamp)] else [])
  {
    assert media[..i + 1][..i] == media[..i];
  }

  /** The classification loop of `process_album`. */
  method ClassifyMedia(media: seq<string>, sidecars: map<string, Sidecar>, fileTypes: map<string, Option<string>>)
    returns (toProcess: seq<Plan>, skipped: nat, errors: nat, renamed: nat)
    ensures toProcess == Plans(media, sidecars, fileTypes)
    ensures skipped == SkippedCount(media, sidecars, fileTypes)
    ensures errors == ErrorCount(media, sidecars, fileTypes)
    ensures renamed == RenamedCount(media, sidecars, fileTypes)
    ensures skipped + errors + |toProcess| == |media|
    ensures renamed <= |toProcess|
  {
    toProcess, skipped, errors, renamed := [], 0, 0, 0;
    var i := 0;
    while i < |media|
      invariant 0 <= i <= |media|
      invariant toProcess == Plans(media[..i], sidecars, fileTypes)
      invariant skipped == SkippedCount(media[..i], sidecars, fileTypes)
      invariant errors == ErrorCount(media[..i], sidecars, fileTypes)
      invariant renamed == RenamedCount(media[..i], sidecars, fileTypes)
    {
      var mediaFile := media[i];
      ClassifyStep(media, i, sidecars, fileTypes);
      i := i + 1;
      var jsonFile := SidecarName(mediaFile);
      if jsonFile !in sidecars {
        skipped := skipped + 1;
        continue;
      }
      match sidecars[jsonFile]
      case Unreadable =>
        errors := errors + 1;
      case Parsed(metadata) =>
        var timestamp := ParseTimestamp(metadata);
        if timestamp.None? {
          skipped := skipped + 1;
        } else {
          var detectedExt := Lookup(fileTypes, mediaFile);
          var corrected := CorrectedFilename(mediaFile, detectedExt);
          if corrected.1 {
            renamed := renamed + 1;
          }
          toProcess := toProcess + [Plan(mediaFile, corrected.0, timestamp.value)];
        }
    }
    assert media[..|media|] == media;
    AccountingPartition(media, sidecars, fileTypes);
  }

  /** The sidecar of `name` exists and gives `timestamp`. */
  predicate TimestampedBy(name: string, sidecars: map<string, Sidecar>, timestamp: int)
  {
    SidecarName(name) in sidecars && sidecars[SidecarName(name)].Parsed?
    && ParseTimestamp(sidecars[SidecarName(name)].metadata) == Some(timestamp)
  }

  /** A media file whose sidecar gives a timestamp is planned alone under its
      corrected name. */
  lemma {:induction false} PlanOfTimestamped(name: string, sidecars: map<string, Sidecar>, fileTypes: map<string, Option<string>>, timestamp: int)
    requires TimestampedBy(name, sidecars, timestamp)
    ensures Plans([name], sidecars, fileTypes) == [Plan(name, CorrectedFilename(name, Lookup(fileTypes, name)).0, timestamp)]
  {
    assert [name][..0] == [];
  }

  /** Two media files whose sidecars give timestamps are both planned, in
      order, each under its corrected name. */
  lemma PlansOfPair(a: string, b: string, sidecars: map<string, Sidecar>, fileTypes: map<string, Option<string>>, ta: int, tb: int)
    requires TimestampedBy(a, sidecars, ta) && TimestampedBy(b, sidecars, tb)
    ensures Plans([a, b], sidecars, fileTypes)
            == [Plan(a, CorrectedFilename(a, Lookup(fileTypes, a)).0, ta), Plan(b, CorrectedFilename(b, Lookup(fileTypes, b)).0, tb)]
  {
    PlanOfTimestamped(a, sidecars, fileTypes, ta);
    assert [a, b][..1] == [a];
  }

  /**
   * Two media files can be planned onto the same output name: a file named
   * with its detected extension and a file with the same stem whose other
   * extension disagrees with the same detected type both become
   * `stem + ext`, so the later copy replaces the earlier one in the output
   * folder while both are counted.
   */
  lemma {:induction false} TwoSourcesOneTarget(stem: string, ext: string, other: string, sidecars: map<string, Sidecar>, fileTypes: map<string, Option<string>>, timestamp: int)
    requires stem != [] && WellFormedExt(ext) && WellFormedExt(other)
    requires NormalizeExt(Lower(ext)) == NormalizeExt(ext)
    requires NormalizeExt(Lower(other)) != NormalizeExt(ext)
    requires TimestampedBy(stem + ext, sidecars, timestamp) && TimestampedBy(stem + other, sidecars, timestamp)
    requires Lookup(fileTypes, stem + ext) == Some(ext) && Lookup(fileTypes, stem + other) == Some(ext)
    ensures Plans([stem + ext, stem + other], sidecars, fileTypes)
            == [Plan(stem + ext, stem + ext, timestamp), Plan(stem + other, stem + ext, timestamp)]
  {
    KeptWhenAgreeing(stem, ext, ext);
    RenamedWhenDisagreeing(stem, other, ext);
    PlansOfPair(stem + ext, stem + other, sidecars, fileTypes, timestamp, timestamp);
  }

  /** The instance `a.jpg` (a JPEG) and `a.png` (also a JPEG). */
  lemma JpegAndMisnamedPngCollide(sidecars: map<string, Sidecar>, fileTypes: map<string, Option<string>>)
    requires TimestampedBy("a" + ".jpg", sidecars, 1) && TimestampedBy("a" + ".png", sidecars, 1)
    requires Lookup(fileTypes, "a" + ".jpg") == Some(".jpg") && Lookup(fileTypes, "a" + ".png") == Some(".jpg")
    ensures Plans(["a" + ".jpg", "a" + ".png"], sidecars, fileTypes)
            == [Plan("a" + ".jpg", "a" + ".jpg", 1), Plan("a" + ".png", "a" + ".jpg", 1)]
  {
    assert Lower(".jpg") == ".jpg";
    assert Lower(".png") == ".png";
    TwoSourcesOneTarget("a", ".jpg", ".png", sidecars, fileTypes, 1);
  }

  // ------------------------------------------------------------ copying

  /** `output_dir / name` */
  function OutputPath(outputDir: string, name: string): string
  {
    outputDir + "/" + name
  }

  /** `files_for_timestamps`: the plans whose copy succeeded (all of them in
      a dry run), as (output path, local date) pairs. */
  function CopiedPairs(plans: seq<Plan>, dryRun: bool, copyFails: set<string>, outputDir: string, localTime: int -> DateTime): seq<(string, DateTime)>
    decreases |plans|
  {
    if |plans| == 0 then []
    else
      var p := plans[|plans| - 1];
      CopiedPairs(plans[..|plans| - 1], dryRun, copyFails, outputDir, localTime)
        + (if dryRun || p.source !in copyFails then [(OutputPath(outputDir, p.target), localTime(p.timestamp))] else [])
  }

  function CopyErrorCount(plans: seq<Plan>, dryRun: bool, copyFails: set<string>): nat
    decreases |plans|
  {
    if |plans| == 0 then 0
    else CopyErrorCount(plans[..|plans| - 1], dryRun, copyFails)
         + (if !dryRun && plans[|plans| - 1].source in copyFails then 1 else 0)
  }

  /** Every plan is either copied or counted as a copy error; a dry run
      copies nothing and so fails nothing. */
  lemma {:induction false} CopyAccounting(plans: seq<Plan>, dryRun: bool, copyFails: set<string>, outputDir: string, localTime: int -> DateTime)
    ensures |CopiedPairs(plans, dryRun, copyFails, outputDir, localTime)| + CopyErrorCount(plans, dryRun, copyFails) == |plans|
    ensures dryRun ==> CopyErrorCount(plans, dryRun, copyFails) == 0
    decreases |plans|
  {
    if |plans| > 0 {
      CopyAccounting(plans[..|plans| - 1], dryRun, copyFails, outputDir, localTime);
    }
  }

  /** The copy loop of `process_album`; `copyFails` names the media files
      whose `shutil.copy2` raises an IOError. */
  method CopyPlanned(plans: seq<Plan>, dryRun: bool, copyFails: set<string>, outputDir: string, localTime: int -> DateTime)
    returns (pairs: seq<(string, DateTime)>, copyErrors: nat)
    ensures pairs == CopiedPairs(plans, dryRun, copyFails, outputDir, localTime)
    ensures copyErrors == CopyErrorCount(plans, dryRun, copyFails)
    ensures |pairs| + copyErrors == |plans|
  {
    pairs, copyErrors := [], 0;
    var i := 0;
    while i < |plans|
      invariant 0 <= i <= |plans|
      invariant pairs == CopiedPairs(plans[..i], dryRun, copyFails, outputDir, localTime)
      invariant copyErrors == CopyErrorCount(plans[..i], dryRun, copyFails)
    {
      var p := plans[i];
      assert plans[..i + 1][..i] == plans[..i];
      var dst := OutputPath(outputDir, p.target);
      if !dryRun {
        if p.source in copyFails {
          copyErrors := copyErrors + 1;
        } else {
          pairs := pairs + [(dst, localTime(p.timestamp))];
        }
      } else {
        pairs := pairs + [(dst, localTime(p.timestamp))];
      }
      i := i + 1;
    }
    assert plans[..|plans|] == plans;
    CopyAccounting(plans, dryRun, copyFails, outputDir, localTime);
  }

  // ------------------------------------------------------------ process_album

  /** The map `batch_detect_file_types` returns for the album. */
  function DetectedTypes(media: seq<string>, detect: DetectRun): map<string, Option<string>>
  {
    if media == [] || detect.DetectFailed? then map[] else TypeMapOf(detect.items)
  }

  /**
   * `process_album`: returns (processed, skipped, errors, renamed). Every
   * media file is accounted for once across processed, skipped and errors,
   * whatever exiftool reports, whichever copies fail.
   */
  method ProcessAlbum(entries: seq<Entry>, sidecars: map<string, Sidecar>, detect: DetectRun,
                      copyFails: set<string>, outputDir: string, localTime: int -> DateTime,
                      tool: ToolRun, dryRun: bool)
    returns (processed: int, skipped: nat, errors: int, renamed: nat)
    ensures var media := MediaFiles(entries);
            processed + skipped + errors == |media|
    ensures MediaFiles(entries) == [] ==> processed == 0 && skipped == 0 && errors == 0 && renamed == 0
    ensures var media := MediaFiles(entries);
            var fileTypes := DetectedTypes(media, detect);
            && skipped == SkippedCount(media, sidecars, fileTypes)
            && renamed == RenamedCount(media, sidecars, fileTypes)
            && renamed <= |Plans(media, sidecars, fileTypes)|
    ensures var media := MediaFiles(entries);
            var fileTypes := DetectedTypes(media, detect);
            dryRun ==> processed == |Plans(media, sidecars, fileTypes)| && errors == ErrorCount(media, sidecars, fileTypes)
    ensures !dryRun && tool.Raised? ==> processed == 0
    ensures var media := MediaFiles(entries);
            var fileTypes := DetectedTypes(media, detect);
            var plans := Plans(media, sidecars, fileTypes);
            var pairs := CopiedPairs(plans, dryRun, copyFails, outputDir, localTime);
            && (pairs == [] ==> processed == 0)
            && (!dryRun && tool.Completed? && pairs != [] ==>
                  var lines := SplitOn(tool.stdout, '\n');
                  processed == UpdatedTotal(lines) + UnchangedTotal(lines))
            && errors == ErrorCount(media, sidecars, fileTypes) + CopyErrorCount(plans, dryRun, copyFails)
                         + (|pairs| - processed)
  {
    var media := CollectMedia(entries);
    if |media| == 0 {
      assert Plans(media, sidecars, DetectedTypes(media, detect)) == [];
      return 0, 0, 0, 0;
    }
    var fileTypes := BatchDetectFileTypes(media, detect);
    assert fileTypes == DetectedTypes(media, detect);
    var toProcess, metaErrors;
    toProcess, skipped, metaErrors, renamed := ClassifyMedia(media, sidecars, fileTypes);
    errors := metaErrors;
    if |toProcess| == 0 {
      assert CopiedPairs(toProcess, dryRun, copyFails, outputDir, localTime) == [];
      assert CopyErrorCount(toProcess, dryRun, copyFails) == 0;
      return 0, skipped, errors, renamed;
    }
    var forTimestamps, copyErrors := CopyPlanned(toProcess, dryRun, copyFails, outputDir, localTime);
    CopyAccounting(toProcess, dryRun, copyFails, outputDir, localTime);
    errors := errors + copyErrors;
    if |forTimestamps| > 0 {
      var success, tsErrors, _ := BatchSetTimestamps(forTimestamps, dryRun, tool);
      errors := errors + tsErrors;
      processed := success;
    } else {
      processed := 0;
    }
  }
}
