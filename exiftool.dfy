/**
 * The two batched exiftool steps: folding the `-json` listing into a map
 * from file name to canonical extension (`batch_detect_file_types`), and
 * writing timestamps through one argfile and counting what exiftool's
 * summary reports (`batch_set_timestamps`). exiftool itself is not modelled:
 * what it prints is an input.
 */
module Exiftool {
  import opened Wrappers
  import opened PyText
  import opened Extensions
  import opened Metadata

  // ------------------------------------------------------------ file types

  /** One element of exiftool's `-FileType -FileName -json` listing;
      a missing field is None. */
  datatype DetectedItem = DetectedItem(fileName: Option<string>, fileType: Option<string>)
  {
    /** `item.get("FileName", "")` */
    function Name(): string { fileName.GetOr("") }
    /** `item.get("FileType", "")` */
    function Type(): string { fileType.GetOr("") }
  }

  /** What the detection call produced: a decoded listing, or nothing usable
      (exiftool failed with no output, the output was not JSON, or any other
      exception was raised while reading it). */
  datatype DetectRun = Listed(items: seq<DetectedItem>) | DetectFailed

  /** The map the loop builds: items in order, a later item overwriting an
      earlier one with the same name. */
  function TypeMapOf(items: seq<DetectedItem>): map<string, Option<string>>
    decreases |items|
  {
    if |items| == 0 then map[]
    else
      var last := items[|items| - 1];
      TypeMapOf(items[..|items| - 1])[last.Name() := ExtForType(last.Type())]
  }

  /** The names the listing mentions. */
  function ListedNames(items: seq<DetectedItem>): set<string>
  {
    set i | 0 <= i < |items| :: items[i].Name()
  }

  /** The map has one key per listed name. */
  lemma {:induction false} TypeMapKeys(items: seq<DetectedItem>)
    ensures TypeMapOf(items).Keys == ListedNames(items)
    decreases |items|
  {
    if |items| > 0 {
      var init := items[..|items| - 1];
      TypeMapKeys(init);
      assert ListedNames(items) == ListedNames(init) + {items[|items| - 1].Name()} by {
        forall x | x in ListedNames(items) ensures x in ListedNames(init) + {items[|items| - 1].Name()} {
          var i :| 0 <= i < |items| && items[i].Name() == x;
          if i < |items| - 1 { assert init[i] == items[i]; }
        }
        forall x | x in ListedNames(init) ensures x in ListedNames(items) {
          var i :| 0 <= i < |init| && init[i].Name() == x;
          assert items[i] == init[i];
        }
      }
    }
  }

  /** The last item with a given name decides that name's extension: its
      table extension, or None for a type the table does not know. */
  lemma {:induction false} TypeMapLastWins(items: seq<DetectedItem>, i: nat)
    requires i < |items|
    requires forall j :: i < j < |items| ==> items[j].Name() != items[i].Name()
    ensures items[i].Name() in TypeMapOf(items)
    ensures TypeMapOf(items)[items[i].Name()] == ExtForType(items[i].Type())
    decreases |items|
  {
    if i < |items| - 1 {
      var init := items[..|items| - 1];
      assert init[i] == items[i];
      TypeMapLastWins(init, i);
    }
  }

  /** Every value is None or a canonical extension from the table. */
  lemma {:induction false} TypeMapValues(items: seq<DetectedItem>)
    ensures forall n :: n in TypeMapOf(items) ==> TypeMapOf(items)[n].None? || TypeMapOf(items)[n].value in FileTypeToExt.Values
    decreases |items|
  {
    if |items| > 0 {
      TypeMapValues(items[..|items| - 1]);
    }
  }

  /** The loop of `batch_detect_file_types` that fills `type_map`. */
  method BuildTypeMap(items: seq<DetectedItem>) returns (typeMap: map<string, Option<string>>)
    ensures typeMap == TypeMapOf(items)
    ensures typeMap.Keys == ListedNames(items)
  {
    typeMap := map[];
    var i := 0;
    while i < |items|
      invariant 0 <= i <= |items|
      invariant typeMap == TypeMapOf(items[..i])
    {
      typeMap := typeMap[items[i].Name() := ExtForType(items[i].Type())];
      i := i + 1;
      assert items[..i][..i - 1] == items[..i - 1];
    }
    assert items[..|items|] == items;
    TypeMapKeys(items);
  }

  /** `batch_detect_file_types`: an empty map for no files or a failed
      call, else the folded listing. */
  method BatchDetectFileTypes(files: seq<string>, run: DetectRun) returns (typeMap: map<string, Option<string>>)
    ensures files == [] || run.DetectFailed? ==> typeMap == map[]
    ensures files != [] && run.Listed? ==> typeMap == TypeMapOf(run.items)
  {
    if |files| == 0 {
      return map[];
    }
    match run
    case DetectFailed =>
      typeMap := map[];
    case Listed(items) =>
      typeMap := BuildTypeMap(items);
  }

  // ------------------------------------------------------------ argfile

  /** The four tags that receive the timestamp, in argfile order. */
  const DateTags: seq<string> := ["-DateTimeOriginal", "-CreateDate", "-FileModifyDate", "-FileCreateDate"]

  /** The seven argfile lines for one file. */
  function ArgBlock(path: string, dt: DateTime): (block: seq<string>)
    ensures |block| == 7
    ensures block[0] == "-overwrite_original"
    ensures forall k :: 1 <= k <= 4 ==> block[k] == DateTags[k - 1] + "=" + FormatExifDateTime(dt)
    ensures block[5] == path && block[6] == "-execute"
  {
    var stamp := FormatExifDateTime(dt);
    [
      "-overwrite_original",
      DateTags[0] + "=" + stamp,
      DateTags[1] + "=" + stamp,
      DateTags[2] + "=" + stamp,
      DateTags[3] + "=" + stamp,
      path,
      "-execute"
    ]
  }

  /** The argfile for all pairs: their blocks, in input order. */
  function Argfile(pairs: seq<(string, DateTime)>): seq<string>
    decreases |pairs|
  {
    if |pairs| == 0 then []
    else Argfile(pairs[..|pairs| - 1]) + ArgBlock(pairs[|pairs| - 1].0, pairs[|pairs| - 1].1)
  }

  /** n pairs give 7n lines. */
  lemma {:induction false} ArgfileLength(pairs: seq<(string, DateTime)>)
    ensures |Argfile(pairs)| == 7 * |pairs|
    decreases |pairs|
  {
    if |pairs| > 0 {
      ArgfileLength(pairs[..|pairs| - 1]);
    }
  }

  /** A slice inside the left operand of a concatenation. */
  lemma SliceOfLeft<T>(a: seq<T>, b: seq<T>, lo: nat, hi: nat)
    requires lo <= hi <= |a|
    ensures (a + b)[lo..hi] == a[lo..hi]
  {
    assert (a + b)[..|a|] == a;
  }

  /** Block i sits at lines 7i to 7i+6. */
  lemma {:induction false} ArgfileBlocks(pairs: seq<(string, DateTime)>)
    ensures |Argfile(pairs)| == 7 * |pairs|
    ensures forall i :: 0 <= i < |pairs| ==> Argfile(pairs)[7 * i..7 * i + 7] == ArgBlock(pairs[i].0, pairs[i].1)
    decreases |pairs|
  {
    ArgfileLength(pairs);
    if |pairs| > 0 {
      var init := pairs[..|pairs| - 1];
      var block := ArgBlock(pairs[|pairs| - 1].0, pairs[|pairs| - 1].1);
      ArgfileBlocks(init);
      var head := Argfile(init);
      assert Argfile(pairs) == head + block;
      forall i | 0 <= i < |pairs| ensures (head + block)[7 * i..7 * i + 7] == ArgBlock(pairs[i].0, pairs[i].1) {
        if i < |pairs| - 1 {
          assert init[i] == pairs[i];
          SliceOfLeft(head, block, 7 * i, 7 * i + 7);
        } else {
          assert (head + block)[|head|..] == block;
        }
      }
    }
  }

  /** Line by line: block i starts with -overwrite_original, carries the
      pair's date in all four tags, names the pair's file and ends with
      -execute; the date in each tag reads back as the pair's date. */
  lemma ArgfileLines(pairs: seq<(string, DateTime)>, i: nat, k: nat)
    requires i < |pairs| && 1 <= k <= 4
    ensures |Argfile(pairs)| == 7 * |pairs|
    ensures Argfile(pairs)[7 * i] == "-overwrite_original"
    ensures Argfile(pairs)[7 * i + 5] == pairs[i].0
    ensures Argfile(pairs)[7 * i + 6] == "-execute"
    ensures StartsWith(Argfile(pairs)[7 * i + k], DateTags[k - 1] + "=")
    ensures ParseExifDateTime(Argfile(pairs)[7 * i + k][|DateTags[k - 1]| + 1..]) == Some(pairs[i].1)
  {
    ArgfileBlocks(pairs);
    var a := Argfile(pairs);
    var block := ArgBlock(pairs[i].0, pairs[i].1);
    assert a[7 * i + k] == block[k];
    assert a[7 * i] == block[0] && a[7 * i + 5] == block[5] && a[7 * i + 6] == block[6];
    var prefix := DateTags[k - 1] + "=";
    assert block[k][|prefix|..] == FormatExifDateTime(pairs[i].1);
    FormatParseRoundTrip(pairs[i].1);
  }

  /** The argfile's lines, built by extending a list in a loop. */
  method BuildArgfile(pairs: seq<(string, DateTime)>) returns (lines: seq<string>)
    ensures lines == Argfile(pairs)
    ensures |lines| == 7 * |pairs|
    ensures forall i :: 0 <= i < |pairs| ==> lines[7 * i..7 * i + 7] == ArgBlock(pairs[i].0, pairs[i].1)
  {
    lines := [];
    var i := 0;
    while i < |pairs|
      invariant 0 <= i <= |pairs|
      invariant lines == Argfile(pairs[..i])
    {
      lines := lines + ArgBlock(pairs[i].0, pairs[i].1);
      i := i + 1;
      assert pairs[..i][..i - 1] == pairs[..i - 1];
    }
    assert pairs[..|pairs|] == pairs;
    ArgfileBlocks(pairs);
  }

  /** The argfile's text: its lines joined with newlines. */
  function ArgfileText(lines: seq<string>): string
  {
    JoinWith(lines, '\n')
  }

  /** A formatted date holds digits and separators only. */
  lemma NoNewlineInStamp(dt: DateTime)
    ensures '\n' !in FormatExifDateTime(dt)
  {
    var stamp := FormatExifDateTime(dt);
    forall j | 0 <= j < |stamp| ensures stamp[j] != '\n' {
      if !SeparatorAt(j) { assert IsDigit(stamp[j]); }
    }
  }

  lemma NoNewlineInBlock(path: string, dt: DateTime)
    requires '\n' !in path
    ensures forall k :: 0 <= k < 7 ==> '\n' !in ArgBlock(path, dt)[k]
  {
    var block := ArgBlock(path, dt);
    var stamp := FormatExifDateTime(dt);
    NoNewlineInStamp(dt);
    forall k | 1 <= k <= 4 ensures '\n' !in block[k] {
      var tag := DateTags[k - 1] + "=";
      assert '\n' !in tag;
      assert block[k] == tag + stamp;
    }
  }

  /** No argfile line contains a newline when no path does. */
  lemma {:induction false} ArgfileNoNewline(pairs: seq<(string, DateTime)>)
    requires forall i :: 0 <= i < |pairs| ==> '\n' !in pairs[i].0
    ensures forall j :: 0 <= j < |Argfile(pairs)| ==> '\n' !in Argfile(pairs)[j]
    decreases |pairs|
  {
    if |pairs| > 0 {
      var init := pairs[..|pairs| - 1];
      var last := pairs[|pairs| - 1];
      ArgfileNoNewline(init);
      NoNewlineInBlock(last.0, last.1);
      var block := ArgBlock(last.0, last.1);
      var a := Argfile(pairs);
      assert a == Argfile(init) + block;
      forall j | 0 <= j < |a| ensures '\n' !in a[j] {
        if j >= |Argfile(init)| {
          assert a[j] == block[j - |Argfile(init)|];
        }
      }
    }
  }

  /**
   * Reading the argfile one argument per line gives back exactly the lines
   * that were written, as long as no file path contains a newline (a path
   * with one would split into two arguments).
   */
  lemma ArgfileReadsBack(pairs: seq<(string, DateTime)>)
    requires |pairs| >= 1
    requires forall i :: 0 <= i < |pairs| ==> '\n' !in pairs[i].0
    ensures SplitOn(ArgfileText(Argfile(pairs)), '\n') == Argfile(pairs)
  {
    ArgfileLength(pairs);
    ArgfileNoNewline(pairs);
    SplitJoin(Argfile(pairs), '\n');
  }

  // ------------------------------------------------------------ summary

  const UpdatedPhrase := "image files updated"
  const UnchangedPhrase := "image files unchanged"

  /** `int(line.split()[0])`, with 0 where Python raises IndexError or
      ValueError (the source then adds nothing). */
  function LeadingCount(line: string): (n: int)
    ensures StripLeft(line) == [] ==> n == 0
    ensures var tok := FirstToken(line);
            tok.Some? ==> (ParseInt(tok.value).Some? ==> n == ParseInt(tok.value).value)
                          && (ParseInt(tok.value).None? ==> n == 0)
  {
    match FirstToken(line)
    case None => 0
    case Some(tok) => ParseInt(tok).GetOr(0)
  }

  /** What one stdout line adds to `updated`. */
  function UpdatedOf(line: string): (n: int)
    ensures !Contains(Strip(line), UpdatedPhrase) ==> n == 0
  {
    var t := Strip(line);
    if Contains(t, UpdatedPhrase) then LeadingCount(t) else 0
  }

  /** What one stdout line adds to `unchanged`: the updated test is tried
      first, so a line matching both adds nothing here. */
  function UnchangedOf(line: string): (n: int)
    ensures Contains(Strip(line), UpdatedPhrase) ==> n == 0
    ensures !Contains(Strip(line), UnchangedPhrase) ==> n == 0
  {
    var t := Strip(line);
    if Contains(t, UpdatedPhrase) then 0
    else if Contains(t, UnchangedPhrase) then LeadingCount(t)
    else 0
  }

  function UpdatedTotal(lines: seq<string>): int
    decreases |lines|
  {
    if |lines| == 0 then 0 else UpdatedTotal(lines[..|lines| - 1]) + UpdatedOf(lines[|lines| - 1])
  }

  function UnchangedTotal(lines: seq<string>): int
    decreases |lines|
  {
    if |lines| == 0 then 0 else UnchangedTotal(lines[..|lines| - 1]) + UnchangedOf(lines[|lines| - 1])
  }

  /** The counts add up over concatenated output. */
  lemma {:induction false} UpdatedTotalAppend(a: seq<string>, b: seq<string>)
    ensures UpdatedTotal(a + b) == UpdatedTotal(a) + UpdatedTotal(b)
    decreases |b|
  {
    if |b| == 0 {
      assert a + b == a;
    } else {
      var init := b[..|b| - 1];
      UpdatedTotalAppend(a, init);
      assert (a + b)[..|a + b| - 1] == a + init;
      assert (a + b)[|a + b| - 1] == b[|b| - 1];
    }
  }

  lemma {:induction false} UnchangedTotalAppend(a: seq<string>, b: seq<string>)
    ensures UnchangedTotal(a + b) == UnchangedTotal(a) + UnchangedTotal(b)
    decreases |b|
  {
    if |b| == 0 {
      assert a + b == a;
    } else {
      var init := b[..|b| - 1];
      UnchangedTotalAppend(a, init);
      assert (a + b)[..|a + b| - 1] == a + init;
      assert (a + b)[|a + b| - 1] == b[|b| - 1];
    }
  }

  /** Output with no summary line counts nothing. */
  lemma {:induction false} QuietOutputCountsNothing(lines: seq<string>)
    requires forall i :: 0 <= i < |lines| ==> !Contains(Strip(lines[i]), UpdatedPhrase) && !Contains(Strip(lines[i]), UnchangedPhrase)
    ensures UpdatedTotal(lines) == 0 && UnchangedTotal(lines) == 0
    decreases |lines|
  {
    if |lines| > 0 {
      QuietOutputCountsNothing(lines[..|lines| - 1]);
    }
  }

  /** A line whose first word is missing or not an integer adds nothing to
      either count, whatever phrase it carries. */
  lemma UncountableLineAddsNothing(line: string)
    requires FirstToken(Strip(line)).None? || ParseInt(FirstToken(Strip(line)).value).None?
    ensures UpdatedOf(line) == 0 && UnchangedOf(line) == 0
  {
  }

  /** exiftool's summary line, indented and with the count in decimal. */
  function SummaryLine(indent: string, count: nat, phrase: string): string
  {
    indent + Digits(count) + " " + phrase
  }

  /** Stripping an indented summary line leaves the count and the phrase. */
  lemma SummaryLineStrip(indent: string, count: nat, phrase: string)
    requires forall i :: 0 <= i < |indent| ==> IsSpace(indent[i])
    requires phrase == UpdatedPhrase || phrase == UnchangedPhrase
    ensures Strip(SummaryLine(indent, count, phrase)) == Digits(count) + " " + phrase
  {
    var body := Digits(count) + " " + phrase;
    assert SummaryLine(indent, count, phrase) == indent + body;
    assert body[|body| - 1] == 'd';
    StripLeftSkips(indent, body);
    StripUnpadded(body);
  }

  /** The first word of the stripped line is the count. */
  lemma SummaryLineCount(count: nat, phrase: string)
    ensures LeadingCount(Digits(count) + " " + phrase) == count
  {
    var d := Digits(count);
    assert d + " " + phrase == d + (" " + phrase);
    FirstTokenOf(d, " " + phrase);
    ParseDecimalString(count);
  }

  /** The stripped line contains its phrase. */
  lemma SummaryLineHasPhrase(count: nat, phrase: string)
    ensures Contains(Digits(count) + " " + phrase, phrase)
  {
    var d := Digits(count);
    var body := d + " " + phrase;
    assert body[|d| + 1..|d| + 1 + |phrase|] == phrase;
    assert OccursAt(body, phrase, |d| + 1);
    ContainsIff(body, phrase);
  }

  /** An "N image files updated" line adds N to the updated count and nothing
      to the unchanged count. */
  lemma UpdatedLineCounted(indent: string, count: nat)
    requires forall i :: 0 <= i < |indent| ==> IsSpace(indent[i])
    ensures UpdatedOf(SummaryLine(indent, count, UpdatedPhrase)) == count
    ensures UnchangedOf(SummaryLine(indent, count, UpdatedPhrase)) == 0
  {
    SummaryLineStrip(indent, count, UpdatedPhrase);
    SummaryLineCount(count, UpdatedPhrase);
    SummaryLineHasPhrase(count, UpdatedPhrase);
  }

  /** An "N image files unchanged" line adds N to the unchanged count and
      nothing to the updated count. */
  lemma UnchangedLineCounted(indent: string, count: nat)
    requires forall i :: 0 <= i < |indent| ==> IsSpace(indent[i])
    ensures UnchangedOf(SummaryLine(indent, count, UnchangedPhrase)) == count
    ensures UpdatedOf(SummaryLine(indent, count, UnchangedPhrase)) == 0
  {
    SummaryLineStrip(indent, count, UnchangedPhrase);
    SummaryLineCount(count, UnchangedPhrase);
    SummaryLineHasPhrase(count, UnchangedPhrase);
    var body := Digits(count) + " " + UnchangedPhrase;
    forall k | 0 <= k <= |body| ensures !OccursAt(body, UpdatedPhrase, k) {
      UpdatedNotInUnchangedLine(Digits(count), k);
    }
    ContainsIff(body, UpdatedPhrase);
  }

  /** "image files updated" does not occur in "N image files unchanged": it
      would have to start at the "i", and the two phrases part at "n"/"p". */
  lemma UpdatedNotInUnchangedLine(d: string, k: int)
    requires forall i :: 0 <= i < |d| ==> IsDigit(d[i])
    ensures !OccursAt(d + " " + UnchangedPhrase, UpdatedPhrase, k)
  {
    var body := d + " " + UnchangedPhrase;
    var n := |UpdatedPhrase|;
    if 0 <= k <= |body| - n {
      var piece := body[k..k + n];
      if k < |d| {
        assert piece[0] == d[k] && IsDigit(d[k]);
      } else if k == |d| {
        assert piece[0] == ' ';
      } else if k == |d| + 1 {
        assert piece[13] == UnchangedPhrase[13] == 'n';
      } else {
        assert piece[0] == UnchangedPhrase[k - |d| - 1];
      }
      assert piece != UpdatedPhrase;
    }
  }

  /** Scanning one more line adds that line's counts to both totals. */
  lemma TotalsStep(lines: seq<string>, i: int)
    requires 0 <= i < |lines|
    ensures UpdatedTotal(lines[..i + 1]) == UpdatedTotal(lines[..i]) + UpdatedOf(lines[i])
    ensures UnchangedTotal(lines[..i + 1]) == UnchangedTotal(lines[..i]) + UnchangedOf(lines[i])
  {
    assert lines[..i + 1][..i] == lines[..i];
  }

  /** The loop of `batch_set_timestamps` that scans exiftool's stdout. */
  method ScrapeSummary(lines: seq<string>) returns (updatedCount: int, unchangedCount: int)
    ensures updatedCount == UpdatedTotal(lines)
    ensures unchangedCount == UnchangedTotal(lines)
  {
    updatedCount, unchangedCount := 0, 0;
    var i := 0;
    while i < |lines|
      invariant 0 <= i <= |lines|
      invariant updatedCount == UpdatedTotal(lines[..i])
      invariant unchangedCount == UnchangedTotal(lines[..i])
    {
      TotalsStep(lines, i);
      var line := lines[i];
      var up, same := UpdatedOf(line), UnchangedOf(line);
      updatedCount, unchangedCount := updatedCount + up, unchangedCount + same;
      i := i + 1;
    }
    assert lines[..|lines|] == lines;
  }

  // ------------------------------------------------------------ batch_set_timestamps

  /** What running exiftool on the argfile produced: its stdout, or an
      exception (writing the temporary argfile, starting exiftool or
      removing the argfile failed). */
  datatype ToolRun = Completed(stdout: string) | Raised

  /**
   * `batch_set_timestamps`: returns the number of files exiftool reports as
   * updated or unchanged and the rest as errors, and the argfile lines it
   * hands to exiftool (none for no input or a dry run).
   */
  method BatchSetTimestamps(pairs: seq<(string, DateTime)>, dryRun: bool, tool: ToolRun)
    returns (success: int, errors: int, argfile: seq<string>)
    ensures success + errors == |pairs|
    ensures pairs == [] ==> success == 0 && errors == 0 && argfile == []
    ensures pairs != [] && dryRun ==> success == |pairs| && errors == 0 && argfile == []
    ensures pairs != [] && !dryRun ==> argfile == Argfile(pairs) && |argfile| == 7 * |pairs|
    ensures pairs != [] && !dryRun && tool.Completed? ==>
              var lines := SplitOn(tool.stdout, '\n');
              success == UpdatedTotal(lines) + UnchangedTotal(lines)
    ensures pairs != [] && !dryRun && tool.Raised? ==> success == 0 && errors == |pairs|
  {
    if |pairs| == 0 {
      return 0, 0, [];
    }
    if dryRun {
      return |pairs|, 0, [];
    }
    argfile := BuildArgfile(pairs);
    match tool
    case Raised =>
      success, errors := 0, |pairs|;
    case Completed(stdout) =>
      var updatedCount, unchangedCount := ScrapeSummary(SplitOn(stdout, '\n'));
      var total := |pairs|;
      var accountedFor := updatedCount + unchangedCount;
      success, errors := accountedFor, total - accountedFor;
  }
}
