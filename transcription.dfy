/**
 * The SubRip side of the chunk-transcription pipeline: timestamps, blocks and
 * entries, the stitching of per-chunk subtitle streams into one, and the loop
 * that sends the chunks to the transcription service.
 *
 * Times are whole milliseconds, the resolution of the `HH:MM:SS,mmm` format.
 */
module Transcription {
  import opened Options
  import opened Seqs
  import opened Text
  import opened Arith

  const MS_PER_SECOND: nat := 1000
  const MS_PER_MINUTE: nat := 60000
  const MS_PER_HOUR: nat := 3600000

  // ------------------------------------------------------------ timestamps

  /** `\d{2}:\d{2}:\d{2},\d{3}` matched against the whole of `s`. */
  predicate IsTimestamp(s: string) {
    && |s| == 12 && s[2] == ':' && s[5] == ':' && s[8] == ','
    && AllDigits(s[0..2]) && AllDigits(s[3..5]) && AllDigits(s[6..8]) && AllDigits(s[9..12])
  }

  /** `_parse_srt_time`: hours, minutes, seconds and milliseconds, in milliseconds. */
  function ParseSrtTime(s: string): (ms: nat)
    requires IsTimestamp(s)
  {
    DigitsValue(s[0..2]) * MS_PER_HOUR + DigitsValue(s[3..5]) * MS_PER_MINUTE
      + DigitsValue(s[6..8]) * MS_PER_SECOND + DigitsValue(s[9..12])
  }

  /** `_format_srt_time`: `{h:02d}:{m:02d}:{s:06.3f}` with the decimal point as a comma. */
  function FormatSrtTime(ms: nat): string {
    ZeroPad(ms / MS_PER_HOUR, 2) + ":" + ZeroPad((ms % MS_PER_HOUR) / MS_PER_MINUTE, 2) + ":"
      + ZeroPad((ms % MS_PER_MINUTE) / MS_PER_SECOND, 2) + "," + ZeroPad(ms % MS_PER_SECOND, 3)
  }

  /** A time assembled from in-range parts splits back into those parts. */
  lemma TimeParts(h: nat, m: nat, s: nat, f: nat)
    requires m < 60 && s < 60 && f < 1000
    ensures var ms := h * MS_PER_HOUR + m * MS_PER_MINUTE + s * MS_PER_SECOND + f;
      && ms / MS_PER_HOUR == h && (ms % MS_PER_HOUR) / MS_PER_MINUTE == m
      && (ms % MS_PER_MINUTE) / MS_PER_SECOND == s && ms % MS_PER_SECOND == f
  {
  }

  /** A time splits into hours, minutes below 60, seconds below 60 and milliseconds
      below 1000 that add back up to it. */
  lemma TimeSplit(ms: nat)
    ensures var h, m, s, f := ms / MS_PER_HOUR, (ms % MS_PER_HOUR) / MS_PER_MINUTE,
                              (ms % MS_PER_MINUTE) / MS_PER_SECOND, ms % MS_PER_SECOND;
      && m < 60 && s < 60 && f < 1000
      && ms == h * MS_PER_HOUR + m * MS_PER_MINUTE + s * MS_PER_SECOND + f
  {
    var h, r := ms / MS_PER_HOUR, ms % MS_PER_HOUR;
    var m, r' := r / MS_PER_MINUTE, r % MS_PER_MINUTE;
    var s, f := r' / MS_PER_SECOND, r' % MS_PER_SECOND;
    var minutes := h * 60 + m;
    assert minutes * MS_PER_MINUTE + r' == ms;
    DivUnique(ms, MS_PER_MINUTE, minutes);
    var seconds := minutes * 60 + s;
    assert seconds * MS_PER_SECOND + f == ms;
    DivUnique(ms, MS_PER_SECOND, seconds);
  }

  lemma Pow10Small()
    ensures Pow10(2) == 100 && Pow10(3) == 1000
  {
    assert Pow10(1) == 10;
  }

  /** Formatting a parsed well-formed timestamp (minutes and seconds below 60) gives
      the same text back. */
  lemma FormatOfParse(s: string)
    requires IsTimestamp(s) && DigitsValue(s[3..5]) < 60 && DigitsValue(s[6..8]) < 60
    ensures FormatSrtTime(ParseSrtTime(s)) == s
  {
    DigitsValueBound(s[9..12]);
    Pow10Small();
    TimeParts(DigitsValue(s[0..2]), DigitsValue(s[3..5]), DigitsValue(s[6..8]), DigitsValue(s[9..12]));
    ZeroPadOfDigits(s[0..2]);
    ZeroPadOfDigits(s[3..5]);
    ZeroPadOfDigits(s[6..8]);
    ZeroPadOfDigits(s[9..12]);
    assert s == s[0..2] + ":" + s[3..5] + ":" + s[6..8] + "," + s[9..12];
  }

  /** Every time below 100 hours formats to a well-formed timestamp that parses back to it. */
  lemma ParseOfFormat(ms: nat)
    requires ms < 100 * MS_PER_HOUR
    ensures IsTimestamp(FormatSrtTime(ms)) && ParseSrtTime(FormatSrtTime(ms)) == ms
  {
    var h, m, s, f := ms / MS_PER_HOUR, (ms % MS_PER_HOUR) / MS_PER_MINUTE,
                      (ms % MS_PER_MINUTE) / MS_PER_SECOND, ms % MS_PER_SECOND;
    TimeSplit(ms);
    Pow10Small();
    ZeroPadLength(h, 2);
    ZeroPadLength(m, 2);
    ZeroPadLength(s, 2);
    ZeroPadLength(f, 3);
    ZeroPadValue(h, 2);
    ZeroPadValue(m, 2);
    ZeroPadValue(s, 2);
    ZeroPadValue(f, 3);
    Assembled(ZeroPad(h, 2), ZeroPad(m, 2), ZeroPad(s, 2), ZeroPad(f, 3));
  }

  /** Two-, two-, two- and three-digit fields joined by the separators form a timestamp
      whose fields are those strings. */
  lemma Assembled(hh: string, mm: string, ss: string, fff: string)
    requires |hh| == 2 && |mm| == 2 && |ss| == 2 && |fff| == 3
    requires AllDigits(hh) && AllDigits(mm) && AllDigits(ss) && AllDigits(fff)
    ensures var t := hh + ":" + mm + ":" + ss + "," + fff;
      && IsTimestamp(t)
      && ParseSrtTime(t) == DigitsValue(hh) * MS_PER_HOUR + DigitsValue(mm) * MS_PER_MINUTE
                            + DigitsValue(ss) * MS_PER_SECOND + DigitsValue(fff)
  {
    Fields(hh, mm, ss, fff);
  }

  /** The four fields of a joined timestamp are found at their fixed positions. */
  lemma Fields(hh: string, mm: string, ss: string, fff: string)
    requires |hh| == 2 && |mm| == 2 && |ss| == 2 && |fff| == 3
    ensures var t := hh + ":" + mm + ":" + ss + "," + fff;
      && |t| == 12 && t[2] == ':' && t[5] == ':' && t[8] == ','
      && t[0..2] == hh && t[3..5] == mm && t[6..8] == ss && t[9..12] == fff
  {
    var t := hh + ":" + mm + ":" + ss + "," + fff;
    MiddleSlice([], hh, ":" + mm + ":" + ss + "," + fff);
    assert t == [] + hh + (":" + mm + ":" + ss + "," + fff);
    MiddleSlice(hh + ":", mm, ":" + ss + "," + fff);
    assert t == (hh + ":") + mm + (":" + ss + "," + fff);
    MiddleSlice(hh + ":" + mm + ":", ss, "," + fff);
    assert t == (hh + ":" + mm + ":") + ss + ("," + fff);
    MiddleSlice(hh + ":" + mm + ":" + ss + ",", fff, []);
    assert t == (hh + ":" + mm + ":" + ss + ",") + fff + [];
  }

  lemma MiddleSlice<T>(a: seq<T>, x: seq<T>, b: seq<T>)
    ensures (a + x + b)[|a|..|a| + |x|] == x
  {
    assert (a + x + b)[|a|..] == x + b;
    assert (x + b)[..|x|] == x;
  }

  // ---------------------------------------------------------------- blocks

  /** The end of the run of whitespace that starts at `j`. */
  function SpaceRunEnd(s: string, j: nat): (k: nat)
    requires j <= |s|
    ensures j <= k <= |s| && IsBlank(s[j..k]) && (k < |s| ==> !IsSpace(s[k]))
    decreases |s| - j
  {
    if j < |s| && IsSpace(s[j]) then
      var k := SpaceRunEnd(s, j + 1);
      assert s[j..k] == [s[j]] + s[j + 1..k];
      k
    else j
  }

  /** The last line break in `s[lo..hi]`. */
  function LastNewline(s: string, lo: nat, hi: nat): (r: Option<nat>)
    requires lo <= hi <= |s|
    ensures r.Some? ==> lo <= r.value < hi && s[r.value] == '\n'
    ensures r.None? ==> forall k :: lo <= k < hi ==> s[k] != '\n'
    decreases hi - lo
  {
    if lo == hi then None
    else if s[hi - 1] == '\n' then Some(hi - 1)
    else LastNewline(s, lo, hi - 1)
  }

  /** Where a match of the block separator `\n\s*\n` starting at `i` ends, if one does:
      the greedy `\s*` takes the whole whitespace run after the line break and gives
      characters back until a line break closes the match. */
  function SeparatorEnd(s: string, i: nat): (r: Option<nat>)
    requires i < |s|
    ensures r.Some? ==> i + 2 <= r.value <= |s| && s[i] == '\n' && s[r.value - 1] == '\n'
                        && IsBlank(s[i + 1..r.value - 1])
  {
    if s[i] != '\n' then None
    else
      var run := SpaceRunEnd(s, i + 1);
      match LastNewline(s, i + 1, run)
      case None => None
      case Some(k) =>
        assert s[i + 1..k] == s[i + 1..run][..k - (i + 1)];
        Some(k + 1)
  }

  /** `re.split(r'\n\s*\n', s)` scanning from `p`, the current block starting at `b`:
      the leftmost separator is cut out, and the scan resumes after it. */
  function SplitBlocksFrom(s: string, b: nat, p: nat): (blocks: seq<string>)
    requires b <= p <= |s|
    ensures |blocks| >= 1
    decreases |s| - p
  {
    if p == |s| then [s[b..]]
    else match SeparatorEnd(s, p)
      case Some(e) => [s[b..p]] + SplitBlocksFrom(s, e, e)
      case None => SplitBlocksFrom(s, b, p + 1)
  }

  /** `re.split(r'\n\s*\n', s)` */
  function SplitBlocks(s: string): seq<string> {
    SplitBlocksFrom(s, 0, 0)
  }

  /** `s` holds two line breaks with nothing but whitespace between them. */
  predicate HasBlankLine(s: string) {
    exists i, j :: 0 <= i < j < |s| && s[i] == '\n' && s[j] == '\n' && IsBlank(s[i + 1..j])
  }

  /** No separator match starts anywhere in `s[b..p]`. */
  predicate NoSeparatorIn(s: string, b: nat, p: nat)
    requires b <= p <= |s|
  {
    forall i :: b <= i < p ==> SeparatorEnd(s, i).None?
  }

  /** A blank line starting at `i` is a separator match starting at `i`. */
  lemma SeparatorAtBlankLine(s: string, i: nat, j: nat)
    requires i < j < |s| && s[i] == '\n' && s[j] == '\n' && IsBlank(s[i + 1..j])
    ensures SeparatorEnd(s, i).Some?
  {
    var run := SpaceRunEnd(s, i + 1);
    forall k | i + 1 <= k <= j ensures IsSpace(s[k]) {
      if k < j {
        assert s[k] == s[i + 1..j][k - (i + 1)];
      }
    }
    assert j < run;
  }

  /** The characters between two line breaks are not all whitespace when no separator
      match starts at the first one. */
  lemma NotBlankWithoutSeparator(s: string, i: nat, j: nat)
    requires i < j < |s| && s[i] == '\n' && s[j] == '\n' && SeparatorEnd(s, i).None?
    ensures !IsBlank(s[i + 1..j])
  {
    if IsBlank(s[i + 1..j]) {
      SeparatorAtBlankLine(s, i, j);
      assert false;
    }
  }

  /** A stretch in which no separator match starts holds no blank line. */
  lemma NoBlankLineWithoutSeparator(s: string, b: nat, p: nat)
    requires b <= p <= |s| && NoSeparatorIn(s, b, p)
    ensures !HasBlankLine(s[b..p])
  {
    var t := s[b..p];
    forall i, j | 0 <= i < j < |t| && t[i] == '\n' && t[j] == '\n'
      ensures !IsBlank(t[i + 1..j])
    {
      NotBlankWithoutSeparator(s, b + i, b + j);
      SliceOfSlice(s, b, p, i + 1, j);
    }
  }

  lemma SliceOfSlice(s: string, b: nat, p: nat, i: nat, j: nat)
    requires b <= p <= |s| && i <= j <= p - b
    ensures s[b..p][i..j] == s[b + i..b + j]
  {
    var t := s[b..p];
    assert forall k :: 0 <= k < j - i ==> t[i..j][k] == s[b + i + k];
  }

  /** Every block the scan from `p` cuts holds no blank line. */
  lemma {:induction false} BlocksFromHaveNoBlankLine(s: string, b: nat, p: nat)
    requires b <= p <= |s| && NoSeparatorIn(s, b, p)
    ensures forall k :: 0 <= k < |SplitBlocksFrom(s, b, p)| ==> !HasBlankLine(SplitBlocksFrom(s, b, p)[k])
    decreases |s| - p
  {
    if p == |s| {
      NoBlankLineWithoutSeparator(s, b, p);
      assert s[b..] == s[b..p];
    } else {
      match SeparatorEnd(s, p)
      case Some(e) =>
        NoBlankLineWithoutSeparator(s, b, p);
        BlocksFromHaveNoBlankLine(s, e, e);
      case None =>
        BlocksFromHaveNoBlankLine(s, b, p + 1);
    }
  }

  /** No block of a split holds a blank line. */
  lemma BlocksHaveNoBlankLine(s: string)
    ensures forall k :: 0 <= k < |SplitBlocks(s)| ==> !HasBlankLine(SplitBlocks(s)[k])
  {
    BlocksFromHaveNoBlankLine(s, 0, 0);
  }

  /** Text without a blank line is a single block. */
  lemma SingleBlockWithoutBlankLine(s: string)
    requires !HasBlankLine(s)
    ensures SplitBlocks(s) == [s]
  {
    ScanWithoutSeparator(s, 0, 0);
  }

  lemma {:induction false} ScanWithoutSeparator(s: string, b: nat, p: nat)
    requires b <= p <= |s| && !HasBlankLine(s)
    ensures SplitBlocksFrom(s, b, p) == [s[b..]]
    decreases |s| - p
  {
    if p < |s| {
      match SeparatorEnd(s, p)
      case Some(e) =>
        assert false;
      case None =>
        ScanWithoutSeparator(s, b, p + 1);
    }
  }

  // --------------------------------------------------------------- entries

  /** One subtitle: start and end time in milliseconds, and its text lines. */
  datatype Entry = Entry(start: nat, end: nat, text: string)

  /** The timing line pattern `(TS)\s*-->\s*(TS)` matched at the start of `line`
      (`re.match`), giving its two timestamps. The greedy `\s*` never needs to give
      characters back, since neither `-` nor a digit is whitespace. */
  function MatchTiming(line: string): (r: Option<(string, string)>)
    ensures r.Some? ==> IsTimestamp(r.value.0) && IsTimestamp(r.value.1)
  {
    if |line| < 12 || !IsTimestamp(line[..12]) then None
    else
      var a := SpaceRunEnd(line, 12);
      if a + 3 > |line| || line[a..a + 3] != "-->" then None
      else
        var b := SpaceRunEnd(line, a + 3);
        if b + 12 > |line| || !IsTimestamp(line[b..b + 12]) then None
        else Some((line[..12], line[b..b + 12]))
  }

  /** The entry one block holds, if it holds one: a non-blank block of at least three
      lines whose second line starts with the timing pattern. The first line (the index)
      is ignored and the text is the remaining lines. */
  function ParseBlock(block: string): Option<Entry> {
    if IsBlank(block) then None
    else
      var lines := Split(Strip(block), "\n");
      if |lines| < 3 then None
      else match MatchTiming(lines[1])
        case None => None
        case Some((a, b)) => Some(Entry(ParseSrtTime(a), ParseSrtTime(b), Join(lines[2..], "\n")))
  }

  /** The entries of `blocks`, in order: one for each block that holds one. */
  function EntriesOf(blocks: seq<string>): seq<Entry> {
    if blocks == [] then []
    else
      var init := EntriesOf(blocks[..|blocks| - 1]);
      match ParseBlock(blocks[|blocks| - 1])
      case Some(e) => init + [e]
      case None => init
  }

  lemma EntriesOfStep(blocks: seq<string>, i: nat)
    requires i < |blocks|
    ensures ParseBlock(blocks[i]).Some? ==> EntriesOf(blocks[..i + 1]) == EntriesOf(blocks[..i]) + [ParseBlock(blocks[i]).value]
    ensures ParseBlock(blocks[i]).None? ==> EntriesOf(blocks[..i + 1]) == EntriesOf(blocks[..i])
  {
    assert blocks[..i + 1][..i] == blocks[..i];
  }

  /** What `_parse_srt_entries` returns for `content`. */
  function SrtEntries(content: string): seq<Entry> {
    EntriesOf(SplitBlocks(Strip(content)))
  }

  /** `_parse_srt_entries` */
  method ParseSrtEntries(srtContent: string) returns (entries: seq<Entry>)
    ensures entries == SrtEntries(srtContent)
  {
    entries := [];
    var srtBlocks := SplitBlocks(Strip(srtContent));
    for i := 0 to |srtBlocks|
      invariant entries == EntriesOf(srtBlocks[..i])
    {
      var block := srtBlocks[i];
      EntriesOfStep(srtBlocks, i);
      if !IsBlank(block) {
        var lines := Split(Strip(block), "\n");
        if |lines| >= 3 {
          var timingMatch := MatchTiming(lines[1]);
          if timingMatch.Some? {
            var startTime := ParseSrtTime(timingMatch.value.0);
            var endTime := ParseSrtTime(timingMatch.value.1);
            var text := Join(lines[2..], "\n");
            assert ParseBlock(block) == Some(Entry(startTime, endTime, text));
            entries := entries + [Entry(startTime, endTime, text)];
          } else {
            assert ParseBlock(block) == None;
          }
        } else {
          assert ParseBlock(block) == None;
        }
      } else {
        assert ParseBlock(block) == None;
      }
    }
    assert srtBlocks[..|srtBlocks|] == srtBlocks;
  }

  // -------------------------------------------------------------- stitching

  /** One output entry as the stitcher writes it: number, timing line, text, and a
      closing line break. */
  function RenderEntry(n: nat, e: Entry): string {
    NatToString(n) + "\n" + FormatSrtTime(e.start) + " --> " + FormatSrtTime(e.end) + "\n" + e.text + "\n"
  }

  /** The entries rendered with the numbers 1, 2, ... in order. */
  function Rendered(es: seq<Entry>): (r: seq<string>)
    ensures |r| == |es|
    ensures forall i :: 0 <= i < |es| ==> r[i] == RenderEntry(i + 1, es[i])
  {
    Numbered(es, RenderEntry)
  }

  lemma RenderStep(before: seq<Entry>, es: seq<Entry>, j: nat)
    requires j < |es|
    ensures Rendered(before + es[..j + 1]) == Rendered(before + es[..j]) + [RenderEntry(|before| + j + 1, es[j])]
  {
    assert before + es[..j + 1] == (before + es[..j]) + [es[j]];
    RenderedSnoc(before + es[..j], es[j]);
  }

  lemma RenderedSnoc(es: seq<Entry>, e: Entry)
    ensures Rendered(es + [e]) == Rendered(es) + [RenderEntry(|es| + 1, e)]
  {
    NumberedSnoc(es, e, RenderEntry);
  }

  /** The entries the stitcher takes from one chunk: none from a blank chunk. */
  function ChunkEntries(chunk: string): seq<Entry> {
    if IsBlank(chunk) then [] else SrtEntries(chunk)
  }

  /** The entries moved later by `offset` milliseconds. */
  function Shift(es: seq<Entry>, offset: nat): (r: seq<Entry>)
    ensures |r| == |es|
  {
    seq(|es|, i requires 0 <= i < |es| => Entry(es[i].start + offset, es[i].end + offset, es[i].text))
  }

  /** The entries of every chunk, in chunk order. */
  function ParsedChunks(chunks: seq<string>): (parsed: seq<seq<Entry>>)
    ensures |parsed| == |chunks|
  {
    seq(|chunks|, i requires 0 <= i < |chunks| => ChunkEntries(chunks[i]))
  }

  /** The running offset when chunk `k` is reached: it starts at 0 and grows, after each
      chunk with entries, by that chunk's last entry's end time. */
  function OffsetBefore(parsed: seq<seq<Entry>>, k: nat): nat
    requires k <= |parsed|
  {
    if k == 0 then 0
    else
      var es := parsed[k - 1];
      if es == [] then OffsetBefore(parsed, k - 1)
      else es[|es| - 1].end + OffsetBefore(parsed, k - 1)
  }

  /** The stitched entries of the first `k` chunks. */
  function StitchedUpTo(parsed: seq<seq<Entry>>, k: nat): seq<Entry>
    requires k <= |parsed|
  {
    if k == 0 then []
    else StitchedUpTo(parsed, k - 1) + Shift(parsed[k - 1], OffsetBefore(parsed, k - 1))
  }

  /** The number of entries in the first `k` chunks. */
  function EntryCount(parsed: seq<seq<Entry>>, k: nat): nat
    requires k <= |parsed|
  {
    if k == 0 then 0 else EntryCount(parsed, k - 1) + |parsed[k - 1]|
  }

  /** The stitched entries of all chunks. */
  function Stitched(chunks: seq<string>): seq<Entry> {
    StitchedUpTo(ParsedChunks(chunks), |chunks|)
  }

  /** What `_combine_srt_transcriptions` returns. */
  function CombinedSrt(chunks: seq<string>): string {
    Join(Rendered(Stitched(chunks)), "\n")
  }

  /** `_combine_srt_transcriptions` */
  method CombineSrtTranscriptions(srtChunks: seq<string>) returns (combined: string)
    ensures combined == CombinedSrt(srtChunks)
  {
    ghost var parsed := ParsedChunks(srtChunks);
    var combinedEntries: seq<string> := [];
    var entryCounter: nat := 1;
    var timeOffset: nat := 0;
    for chunkIdx := 0 to |srtChunks|
      invariant combinedEntries == Rendered(StitchedUpTo(parsed, chunkIdx))
      invariant entryCounter == |combinedEntries| + 1
      invariant timeOffset == OffsetBefore(parsed, chunkIdx)
    {
      var srtContent := srtChunks[chunkIdx];
      if !IsBlank(srtContent) {
        var entries := ParseSrtEntries(srtContent);
        ChunkStep(srtChunks, parsed, chunkIdx, entries, timeOffset);
        combinedEntries, entryCounter := AppendShifted(combinedEntries, entryCounter, entries, timeOffset, StitchedUpTo(parsed, chunkIdx));
        if |entries| > 0 {
          timeOffset := entries[|entries| - 1].end + timeOffset;
        }
      } else {
        ChunkStep(srtChunks, parsed, chunkIdx, [], timeOffset);
      }
    }
    combined := Join(combinedEntries, "\n");
  }

  /** The stitcher's inner loop: the entries of one chunk, shifted by `timeOffset`, are
      rendered after those already stitched, numbered on from `entryCounter`. */
  method AppendShifted(combinedEntries: seq<string>, entryCounter: nat, entries: seq<Entry>, timeOffset: nat,
                       ghost before: seq<Entry>)
    returns (combinedEntries': seq<string>, entryCounter': nat)
    requires combinedEntries == Rendered(before) && entryCounter == |before| + 1
    ensures combinedEntries' == Rendered(before + Shift(entries, timeOffset))
    ensures entryCounter' == |combinedEntries'| + 1
  {
    combinedEntries', entryCounter' := combinedEntries, entryCounter;
    NoneTaken(before, Shift(entries, timeOffset));
    for j := 0 to |entries|
      invariant combinedEntries' == Rendered(before + Shift(entries, timeOffset)[..j])
      invariant entryCounter' == |before| + j + 1
    {
      var entry := entries[j];
      var adjustedStart := entry.start + timeOffset;
      var adjustedEnd := entry.end + timeOffset;
      RenderShiftedStep(before, entries, timeOffset, j, entryCounter', entry);
      combinedEntries' := combinedEntries' + [RenderEntry(entryCounter', Entry(adjustedStart, adjustedEnd, entry.text))];
      entryCounter' := entryCounter' + 1;
    }
    PrefixWhole(Shift(entries, timeOffset));
  }

  /** One round of the stitcher's outer loop, in the terms of the chunk's own entries. */
  lemma ChunkStep(chunks: seq<string>, parsed: seq<seq<Entry>>, k: nat, entries: seq<Entry>, offset: nat)
    requires parsed == ParsedChunks(chunks) && k < |chunks| && offset == OffsetBefore(parsed, k)
    requires IsBlank(chunks[k]) ==> entries == []
    requires !IsBlank(chunks[k]) ==> entries == SrtEntries(chunks[k])
    ensures StitchedUpTo(parsed, k + 1) == StitchedUpTo(parsed, k) + Shift(entries, offset)
    ensures entries == [] ==> StitchedUpTo(parsed, k + 1) == StitchedUpTo(parsed, k)
    ensures OffsetBefore(parsed, k + 1) == if entries == [] then offset else entries[|entries| - 1].end + offset
  {
    assert parsed[k] == entries;
    StitchStep(parsed, k);
    if entries == [] {
      EmptyShift(offset);
    }
  }

  /** One round of the stitcher's outer loop: chunk `k`'s entries, shifted by the offset
      reached so far, are appended, and the offset grows by their last end time. */
  lemma StitchStep(parsed: seq<seq<Entry>>, k: nat)
    requires k < |parsed|
    ensures StitchedUpTo(parsed, k + 1) == StitchedUpTo(parsed, k) + Shift(parsed[k], OffsetBefore(parsed, k))
    ensures parsed[k] == [] ==> OffsetBefore(parsed, k + 1) == OffsetBefore(parsed, k)
    ensures parsed[k] != [] ==> OffsetBefore(parsed, k + 1) == parsed[k][|parsed[k]| - 1].end + OffsetBefore(parsed, k)
  {
  }

  /** One round of the stitcher's inner loop: entry `j`, shifted, is rendered with the next number. */
  lemma RenderShiftedStep(before: seq<Entry>, es: seq<Entry>, offset: nat, j: nat, n: nat, e: Entry)
    requires j < |es| && e == es[j] && n == |before| + j + 1
    ensures Rendered(before + Shift(es, offset)[..j + 1])
         == Rendered(before + Shift(es, offset)[..j]) + [RenderEntry(n, Entry(e.start + offset, e.end + offset, e.text))]
  {
    var shifted := Shift(es, offset);
    var moved := Entry(e.start + offset, e.end + offset, e.text);
    assert shifted[j] == moved;
    RenderStep(before, shifted, j);
    assert RenderEntry(|before| + j + 1, shifted[j]) == RenderEntry(n, moved);
  }

  lemma NoneTaken<T>(before: seq<T>, s: seq<T>)
    ensures before + s[..0] == before
  {
  }

  lemma PrefixWhole<T>(s: seq<T>)
    ensures s[..|s|] == s
  {
  }

  lemma EmptyShift(offset: nat)
    ensures Shift([], offset) == []
  {
  }

  /** The stitched entries of the first `k` chunks come first among those of the first `m`. */
  lemma {:induction false} StitchedPrefix(parsed: seq<seq<Entry>>, k: nat, m: nat)
    requires k <= m <= |parsed|
    ensures StitchedUpTo(parsed, k) <= StitchedUpTo(parsed, m)
    ensures |StitchedUpTo(parsed, m)| == EntryCount(parsed, m)
    decreases m
  {
    if m > 0 {
      if k < m {
        StitchedPrefix(parsed, k, m - 1);
      } else {
        StitchedPrefix(parsed, k - 1, m - 1);
      }
    }
  }

  /** Entry `j` of chunk `k` becomes output entry number `EntryCount(parsed, k) + j + 1`:
      the numbering runs 1..N over all parsed entries without gaps, and the entry is
      shifted by the offset reached at its chunk with its text unchanged. */
  lemma StitchedEntry(parsed: seq<seq<Entry>>, k: nat, j: nat)
    requires k < |parsed| && j < |parsed[k]|
    ensures var all := StitchedUpTo(parsed, |parsed|);
      var n := EntryCount(parsed, k) + j;
      var e := parsed[k][j];
      var offset := OffsetBefore(parsed, k);
      && n < |all| == EntryCount(parsed, |parsed|)
      && all[n] == Entry(e.start + offset, e.end + offset, e.text)
      && Rendered(all)[n] == RenderEntry(n + 1, all[n])
  {
    StitchedPrefix(parsed, k, k);
    StitchedPrefix(parsed, k + 1, |parsed|);
    StitchStep(parsed, k);
    var shifted := Shift(parsed[k], OffsetBefore(parsed, k));
    var all := StitchedUpTo(parsed, |parsed|);
    IndexAfter(StitchedUpTo(parsed, k), shifted, j);
    IndexInPrefix(StitchedUpTo(parsed, k + 1), all, EntryCount(parsed, k) + j);
  }

  lemma IndexAfter<T>(a: seq<T>, b: seq<T>, j: nat)
    requires j < |b|
    ensures (a + b)[|a| + j] == b[j]
  {
  }

  lemma IndexInPrefix<T>(a: seq<T>, b: seq<T>, n: nat)
    requires a <= b && n < |a|
    ensures n < |b| && b[n] == a[n]
  {
  }

  /** The offset never shrinks, and passing a chunk with entries adds that chunk's last
      end time to it. */
  lemma {:induction false} OffsetGrows(parsed: seq<seq<Entry>>, k1: nat, k2: nat)
    requires k1 < k2 <= |parsed|
    ensures var es := parsed[k1];
      OffsetBefore(parsed, k2) >= OffsetBefore(parsed, k1) + (if es == [] then 0 else es[|es| - 1].end)
    decreases k2
  {
    if k2 > k1 + 1 {
      OffsetGrows(parsed, k1, k2 - 1);
    }
  }

  /** Every shifted entry of a later chunk starts no earlier than the shifted end of the
      last entry of an earlier chunk with entries. */
  lemma LaterChunkStartsAfter(parsed: seq<seq<Entry>>, k1: nat, k2: nat, j: nat)
    requires k1 < k2 < |parsed| && parsed[k1] != [] && j < |parsed[k2]|
    ensures var last := parsed[k1][|parsed[k1]| - 1];
      parsed[k2][j].start + OffsetBefore(parsed, k2) >= last.end + OffsetBefore(parsed, k1)
  {
    OffsetGrows(parsed, k1, k2);
  }

  // ------------------------------------------------------- the chunk loop

  /** `validate_api_key`: a key is accepted when it is present and not only whitespace. */
  function ValidateApiKey(apiKey: Option<string>): (ok: bool)
    ensures ok <==> apiKey.Some? && Strip(apiKey.value) != []
  {
    if apiKey.Some? then StripEmptyIffBlank(apiKey.value); !IsBlank(apiKey.value) else false
  }

  /** The language sent to the service: none for "Auto-detect", otherwise the choice as given. */
  function LanguageParam(language: Option<string>): (lang: Option<string>)
    ensures lang == None <==> (language == None || language == Some("Auto-detect"))
    ensures lang.Some? ==> lang == language
  {
    if language == Some("Auto-detect") then None else language
  }

  /** The file name the service sees for chunk `i` of `total`: the upload's own name when
      there is a single chunk, `<name>_chunk_<i+1>` otherwise. */
  function ChunkName(filename: string, total: nat, i: nat): string {
    if total > 1 then filename + "_chunk_" + NatToString(i + 1) else filename
  }

  /** A chunk name is the upload's name for a single chunk; for several, the upload's name,
      `_chunk_` and the decimal digits of the chunk's number counted from 1. */
  lemma ChunkNameParts(filename: string, total: nat, i: nat)
    ensures var name := ChunkName(filename, total, i);
      && (total <= 1 ==> name == filename)
      && (total > 1 ==> |name| > |filename| + 7
                        && name[..|filename| + 7] == filename + "_chunk_"
                        && AllDigits(name[|filename| + 7..])
                        && DigitsValue(name[|filename| + 7..]) == i + 1)
  {
    if total > 1 {
      var digits := NatToString(i + 1);
      DigitsValueOfNatToString(i + 1);
      assert ChunkName(filename, total, i)[|filename| + 7..] == digits;
    }
  }

  /** Chunks of a multi-chunk upload are sent under pairwise different names. */
  lemma ChunkNamesDistinct(filename: string, total: nat, i: nat, j: nat)
    requires total > 1 && ChunkName(filename, total, i) == ChunkName(filename, total, j)
    ensures i == j
  {
    ChunkNameParts(filename, total, i);
    ChunkNameParts(filename, total, j);
  }

  /** One call to the transcription service: the file name, the chunk's bytes, the language
      and the response format. */
  datatype Request = Request(name: string, data: Bytes, language: Option<string>, format: string)

  /** The request for chunk `i`. */
  function ChunkRequest(chunks: seq<Bytes>, filename: string, language: Option<string>, format: string, i: nat): Request
    requires i < |chunks|
  {
    Request(ChunkName(filename, |chunks|, i), chunks[i], LanguageParam(language), format)
  }

  /** How the per-chunk replies are put together: a single reply as it is, several replies
      stitched when they are SubRip and joined by a space otherwise. No reply at all has no
      first element to return, which the source's handler turns into None. */
  function Assemble(replies: seq<string>, format: string): Option<string> {
    if |replies| > 1 then
      if format == "srt" then Some(CombinedSrt(replies)) else Some(Join(replies, " "))
    else if |replies| == 1 then Some(replies[0])
    else None
  }

  /** How far the chunk loop got: the replies of all chunks when it ran to the end (None
      when it stopped early) and the requests it sent, in order. */
  datatype Progress = Progress(replies: Option<seq<string>>, sent: seq<Request>)

  /** The chunk loop from request `i` on, with the replies `replies` collected so far.
      `transcribe` is the service (None: the call raised); `cancelled(p)` is the answer of
      the `p`-th poll of the cancellation probe, which is polled before (poll `2i`) and after
      (poll `2i + 1`) chunk `i`. */
  function LoopFrom(requests: seq<Request>, transcribe: Request -> Option<string>, cancelled: nat -> bool,
                    i: nat, replies: seq<string>): (progress: Progress)
    requires i <= |requests|
    ensures |progress.sent| <= |requests| - i
    decreases |requests| - i
  {
    if i == |requests| then Progress(Some(replies), [])
    else if cancelled(2 * i) then Progress(None, [])
    else
      match transcribe(requests[i])
      case None => Progress(None, [requests[i]])
      case Some(text) =>
        if cancelled(2 * i + 1) then Progress(None, [requests[i]])
        else
          var rest := LoopFrom(requests, transcribe, cancelled, i + 1, replies + [text]);
          Progress(rest.replies, [requests[i]] + rest.sent)
  }

  /** `progress` with `sent` sent before it. */
  function After(sent: seq<Request>, progress: Progress): Progress {
    Progress(progress.replies, sent + progress.sent)
  }

  /** The requests for all chunks, in chunk order. */
  function Requests(chunks: seq<Bytes>, filename: string, language: Option<string>, format: string): (requests: seq<Request>)
    ensures |requests| == |chunks|
  {
    seq(|chunks|, k requires 0 <= k < |chunks| => ChunkRequest(chunks, filename, language, format, k))
  }

  /** The outcome of a run: what it returns and the requests it sent, in order. */
  datatype Run = Run(result: Option<string>, sent: seq<Request>)

  /** What `transcribe_audio_chunks` does. */
  function Transcribe(chunks: seq<Bytes>, filename: string, language: Option<string>, format: string,
                      transcribe: Request -> Option<string>, cancelled: nat -> bool): Run
  {
    var progress := LoopFrom(Requests(chunks, filename, language, format), transcribe, cancelled, 0, []);
    match progress.replies
    case None => Run(None, progress.sent)
    case Some(replies) => Run(Assemble(replies, format), progress.sent)
  }

  /** `transcribe_audio_chunks`; `sent` records the service calls in the order made. */
  method TranscribeAudioChunks(fileDataList: seq<Bytes>, filename: string, language: Option<string>, responseFormat: string,
                               transcribe: Request -> Option<string>, cancelled: nat -> bool)
    returns (result: Option<string>, sent: seq<Request>)
    ensures Run(result, sent) == Transcribe(fileDataList, filename, language, responseFormat, transcribe, cancelled)
  {
    var replies;
    replies, sent := SendChunks(fileDataList, filename, language, responseFormat, transcribe, cancelled);
    if replies.None? {
      return None, sent;
    }
    var transcriptions := replies.value;
    var totalChunks := |fileDataList|;
    if totalChunks > 1 {
      if responseFormat == "srt" {
        var combined := CombineSrtTranscriptions(transcriptions);
        result := Some(combined);
      } else {
        result := Some(Join(transcriptions, " "));
      }
    } else if totalChunks == 1 {
      result := Some(transcriptions[0]);
    } else {
      result := None;
    }
  }

  /** The chunk loop of `transcribe_audio_chunks`: the replies of all chunks, or None when
      it stopped early, and the requests sent. */
  method SendChunks(fileDataList: seq<Bytes>, filename: string, language: Option<string>, responseFormat: string,
                    transcribe: Request -> Option<string>, cancelled: nat -> bool)
    returns (replies: Option<seq<string>>, sent: seq<Request>)
    ensures Progress(replies, sent) == LoopFrom(Requests(fileDataList, filename, language, responseFormat), transcribe, cancelled, 0, [])
    ensures replies.Some? ==> |replies.value| == |fileDataList|
  {
    ghost var requests := Requests(fileDataList, filename, language, responseFormat);
    ghost var whole := LoopFrom(requests, transcribe, cancelled, 0, []);
    var langParam := LanguageParam(language);
    var transcriptions: seq<string> := [];
    var totalChunks := |fileDataList|;
    var polls := 0;
    sent := [];
    AfterNone(whole);
    for i := 0 to totalChunks
      invariant polls == 2 * i && |transcriptions| == i
      invariant whole == After(sent, LoopFrom(requests, transcribe, cancelled, i, transcriptions))
    {
      if cancelled(polls) {
        StopsBeforeSending(requests, transcribe, cancelled, i, transcriptions);
        AfterNothing(sent, None);
        return None, sent;
      }
      polls := polls + 1;
      var request := Request(ChunkName(filename, totalChunks, i), fileDataList[i], langParam, responseFormat);
      assert request == requests[i];
      ghost var prior := sent;
      sent := sent + [request];
      var transcript := transcribe(request);
      if transcript.None? {
        StopsAfterSending(requests, transcribe, cancelled, i, transcriptions, request);
        return None, sent;
      }
      ghost var replied := transcriptions;
      transcriptions := transcriptions + [transcript.value];
      if cancelled(polls) {
        StopsAfterSending(requests, transcribe, cancelled, i, replied, request);
        return None, sent;
      }
      GoesOn(requests, transcribe, cancelled, i, replied, request, transcript.value);
      AfterAfter(prior, [request], LoopFrom(requests, transcribe, cancelled, i + 1, transcriptions));
      polls := polls + 1;
    }
    AfterNothing(sent, Some(transcriptions));
    replies := Some(transcriptions);
  }

  /** One chunk of the loop, case by case. */
  lemma LoopStep(requests: seq<Request>, transcribe: Request -> Option<string>, cancelled: nat -> bool, i: nat, replies: seq<string>)
    requires i < |requests|
    ensures var progress := LoopFrom(requests, transcribe, cancelled, i, replies);
      var request := requests[i];
      && (cancelled(2 * i) ==> progress == Progress(None, []))
      && (!cancelled(2 * i) && transcribe(request).None? ==> progress == Progress(None, [request]))
      && (!cancelled(2 * i) && transcribe(request).Some? && cancelled(2 * i + 1) ==> progress == Progress(None, [request]))
      && (!cancelled(2 * i) && transcribe(request).Some? && !cancelled(2 * i + 1) ==>
            progress == After([request], LoopFrom(requests, transcribe, cancelled, i + 1, replies + [transcribe(request).value])))
  {
  }

  /** A poll before chunk `i` that asks to stop ends the loop with nothing sent. */
  lemma StopsBeforeSending(requests: seq<Request>, transcribe: Request -> Option<string>, cancelled: nat -> bool, i: nat, replies: seq<string>)
    requires i < |requests| && cancelled(2 * i)
    ensures LoopFrom(requests, transcribe, cancelled, i, replies) == Progress(None, [])
  {
  }

  /** A failing call for chunk `i`, or a poll after it that asks to stop, ends the loop
      with that one request sent. */
  lemma StopsAfterSending(requests: seq<Request>, transcribe: Request -> Option<string>, cancelled: nat -> bool, i: nat, replies: seq<string>,
                          request: Request)
    requires i < |requests| && request == requests[i] && !cancelled(2 * i)
    requires transcribe(request).None? || cancelled(2 * i + 1)
    ensures LoopFrom(requests, transcribe, cancelled, i, replies) == Progress(None, [request])
  {
  }

  /** A reply for chunk `i` with no stop around it sends the request and goes on to chunk `i + 1`. */
  lemma GoesOn(requests: seq<Request>, transcribe: Request -> Option<string>, cancelled: nat -> bool, i: nat, replies: seq<string>,
               request: Request, text: string)
    requires i < |requests| && request == requests[i] && !cancelled(2 * i)
    requires transcribe(request) == Some(text) && !cancelled(2 * i + 1)
    ensures LoopFrom(requests, transcribe, cancelled, i, replies)
         == After([request], LoopFrom(requests, transcribe, cancelled, i + 1, replies + [text]))
  {
  }

  lemma AfterNone(progress: Progress)
    ensures After([], progress) == progress
  {
    assert [] + progress.sent == progress.sent;
  }

  lemma AfterNothing(sent: seq<Request>, replies: Option<seq<string>>)
    ensures After(sent, Progress(replies, [])) == Progress(replies, sent)
  {
    assert sent + [] == sent;
  }

  lemma AfterAfter(a: seq<Request>, b: seq<Request>, progress: Progress)
    ensures After(a, After(b, progress)) == After(a + b, progress)
  {
    assert a + (b + progress.sent) == (a + b) + progress.sent;
  }

  // ------------------------------------------------- properties of a run

  /** The service's replies to `requests` (the empty string stands in for a failed call). */
  function Replies(requests: seq<Request>, transcribe: Request -> Option<string>): (replies: seq<string>)
    ensures |replies| == |requests|
  {
    seq(|requests|, k requires 0 <= k < |requests| => transcribe(requests[k]).GetOr(""))
  }

  /** No poll of the probe asks to stop and every service call returns. */
  predicate Unbroken(requests: seq<Request>, transcribe: Request -> Option<string>, cancelled: nat -> bool) {
    && (forall p: nat :: p < 2 * |requests| ==> !cancelled(p))
    && (forall k :: 0 <= k < |requests| ==> transcribe(requests[k]).Some?)
  }

  /** From request `i` on, the loop sends requests `i`, `i + 1`, ... in order, each at most once. */
  lemma {:induction false} LoopSends(requests: seq<Request>, transcribe: Request -> Option<string>, cancelled: nat -> bool,
                                     i: nat, replies: seq<string>)
    requires i <= |requests|
    ensures LoopFrom(requests, transcribe, cancelled, i, replies).sent <= requests[i..]
    decreases |requests| - i
  {
    if i < |requests| {
      LoopStep(requests, transcribe, cancelled, i, replies);
      assert requests[i..] == [requests[i]] + requests[i + 1..];
      if !cancelled(2 * i) && transcribe(requests[i]).Some? && !cancelled(2 * i + 1) {
        LoopSends(requests, transcribe, cancelled, i + 1, replies + [transcribe(requests[i]).value]);
      }
    }
  }

  /** A poll at or after chunk `i` that asks to stop makes the loop stop early, and no
      request goes out after that poll. */
  lemma {:induction false} LoopCancelled(requests: seq<Request>, transcribe: Request -> Option<string>, cancelled: nat -> bool,
                                         i: nat, replies: seq<string>, p: nat)
    requires 2 * i <= p < 2 * |requests| && cancelled(p)
    ensures var progress := LoopFrom(requests, transcribe, cancelled, i, replies);
      progress.replies == None && i + |progress.sent| <= (p + 1) / 2
    decreases |requests| - i
  {
    LoopStep(requests, transcribe, cancelled, i, replies);
    if !cancelled(2 * i) && transcribe(requests[i]).Some? && !cancelled(2 * i + 1) {
      LoopCancelled(requests, transcribe, cancelled, i + 1, replies + [transcribe(requests[i]).value], p);
    }
  }

  /** A service call at or after chunk `i` that raises makes the loop stop early, and no
      later chunk is sent. */
  lemma {:induction false} LoopFailed(requests: seq<Request>, transcribe: Request -> Option<string>, cancelled: nat -> bool,
                                      i: nat, replies: seq<string>, k: nat)
    requires i <= k < |requests| && transcribe(requests[k]).None?
    ensures var progress := LoopFrom(requests, transcribe, cancelled, i, replies);
      progress.replies == None && i + |progress.sent| <= k + 1
    decreases |requests| - i
  {
    LoopStep(requests, transcribe, cancelled, i, replies);
    if !cancelled(2 * i) && transcribe(requests[i]).Some? && !cancelled(2 * i + 1) {
      LoopFailed(requests, transcribe, cancelled, i + 1, replies + [transcribe(requests[i]).value], k);
    }
  }

  /** Without a stop and without a failing call from chunk `i` on, the loop sends every
      remaining request and collects every reply. */
  lemma {:induction false} LoopUnbroken(requests: seq<Request>, transcribe: Request -> Option<string>, cancelled: nat -> bool,
                                        i: nat, replies: seq<string>)
    requires i <= |requests|
    requires forall p: nat :: 2 * i <= p < 2 * |requests| ==> !cancelled(p)
    requires forall k :: i <= k < |requests| ==> transcribe(requests[k]).Some?
    ensures LoopFrom(requests, transcribe, cancelled, i, replies)
         == Progress(Some(replies + Replies(requests[i..], transcribe)), requests[i..])
    decreases |requests| - i
  {
    if i < |requests| {
      LoopStep(requests, transcribe, cancelled, i, replies);
      var request := requests[i];
      assert !cancelled(2 * i) && !cancelled(2 * i + 1);
      var more := replies + [transcribe(request).value];
      LoopUnbroken(requests, transcribe, cancelled, i + 1, more);
      var later := requests[i + 1..];
      assert requests[i..] == [request] + later;
      assert Replies(requests[i..], transcribe) == [transcribe(request).value] + Replies(later, transcribe);
      assert more + Replies(later, transcribe) == replies + Replies(requests[i..], transcribe);
    } else {
      assert requests[i..] == [];
      assert replies + Replies(requests[i..], transcribe) == replies;
    }
  }

  /** The service is called at most once per chunk, in chunk order: the requests sent are
      the first few chunk requests. */
  lemma TranscribeSendsInOrder(chunks: seq<Bytes>, filename: string, language: Option<string>, format: string,
                               transcribe: Request -> Option<string>, cancelled: nat -> bool)
    ensures Transcribe(chunks, filename, language, format, transcribe, cancelled).sent <= Requests(chunks, filename, language, format)
  {
    var requests := Requests(chunks, filename, language, format);
    LoopSends(requests, transcribe, cancelled, 0, []);
    assert requests[0..] == requests;
  }

  /** A stop request at poll `p` (before chunk `p / 2` when `p` is even, after it when odd)
      makes the run return None, with no chunk sent after the poll. */
  lemma TranscribeCancelled(chunks: seq<Bytes>, filename: string, language: Option<string>, format: string,
                            transcribe: Request -> Option<string>, cancelled: nat -> bool, p: nat)
    requires p < 2 * |chunks| && cancelled(p)
    ensures var run := Transcribe(chunks, filename, language, format, transcribe, cancelled);
      run.result == None && |run.sent| <= (p + 1) / 2
  {
    LoopCancelled(Requests(chunks, filename, language, format), transcribe, cancelled, 0, [], p);
  }

  /** A service call that raises makes the run return None, with no later chunk sent. */
  lemma TranscribeFailed(chunks: seq<Bytes>, filename: string, language: Option<string>, format: string,
                         transcribe: Request -> Option<string>, cancelled: nat -> bool, k: nat)
    requires k < |chunks| && transcribe(Requests(chunks, filename, language, format)[k]).None?
    ensures var run := Transcribe(chunks, filename, language, format, transcribe, cancelled);
      run.result == None && |run.sent| <= k + 1
  {
    LoopFailed(Requests(chunks, filename, language, format), transcribe, cancelled, 0, [], k);
  }

  /** Without a stop and a failing call, every chunk is sent once, in order, and the result
      is the assembly of all replies. */
  lemma TranscribeUnbroken(chunks: seq<Bytes>, filename: string, language: Option<string>, format: string,
                           transcribe: Request -> Option<string>, cancelled: nat -> bool)
    requires Unbroken(Requests(chunks, filename, language, format), transcribe, cancelled)
    ensures var requests := Requests(chunks, filename, language, format);
      Transcribe(chunks, filename, language, format, transcribe, cancelled)
        == Run(Assemble(Replies(requests, transcribe), format), requests)
  {
    var requests := Requests(chunks, filename, language, format);
    LoopUnbroken(requests, transcribe, cancelled, 0, []);
    assert requests[0..] == requests;
    assert [] + Replies(requests, transcribe) == Replies(requests, transcribe);
  }

  /** A run returns a transcript exactly when there is at least one chunk, no poll asks to
      stop and every service call returns. */
  lemma TranscribeSomeIff(chunks: seq<Bytes>, filename: string, language: Option<string>, format: string,
                          transcribe: Request -> Option<string>, cancelled: nat -> bool)
    ensures Transcribe(chunks, filename, language, format, transcribe, cancelled).result.Some?
        <==> |chunks| >= 1 && Unbroken(Requests(chunks, filename, language, format), transcribe, cancelled)
  {
    var requests := Requests(chunks, filename, language, format);
    if Unbroken(requests, transcribe, cancelled) {
      TranscribeUnbroken(chunks, filename, language, format, transcribe, cancelled);
    } else if p: nat :| p < 2 * |chunks| && cancelled(p) {
      TranscribeCancelled(chunks, filename, language, format, transcribe, cancelled, p);
    } else {
      var k :| 0 <= k < |chunks| && transcribe(requests[k]).None?;
      TranscribeFailed(chunks, filename, language, format, transcribe, cancelled, k);
    }
  }
}
