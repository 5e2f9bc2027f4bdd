/**
 * Splitting a decoded track so that every piece satisfies the transcription
 * service's duration and size limits, and the minimum-duration check.
 *
 * A track is a sequence with one element per millisecond, so `|a|` is pydub's
 * `len(segment)` and slicing is pydub's millisecond slicing. The size of a
 * track's WAV export is an oracle `wavSize`.
 */
module AudioUtils {
  import opened Options
  import opened Seqs
  import opened Arith

  /** One millisecond of decoded audio; the model never looks inside it. */
  type Frame = int

  /** A decoded track (pydub `AudioSegment`), one frame per millisecond. */
  type Audio = seq<Frame>

  const MAX_DURATION_MS: nat := 25 * 60 * 1000
  const MAX_SIZE_BYTES: nat := 24900000
  /** The floor on a size-split piece's planned duration (30 s). */
  const MIN_PIECE_MS: nat := 30000
  /** The shortest track accepted (0.1 s). */
  const MIN_DURATION_MS: nat := 100

  function Min(a: int, b: int): int { if a <= b then a else b }
  function Max(a: int, b: int): int { if a >= b then a else b }

  /** `segment[start:end]`: both ends are clamped to the track, as pydub does. */
  function Slice(a: Audio, start: nat, end: nat): (r: Audio)
    ensures start <= end <= |a| ==> r == a[start..end]
    ensures start < |a| && |a| <= end ==> r == a[start..]
  {
    var s := Min(start, |a|);
    a[s..Min(Max(end, s), |a|)]
  }

  /** `(n + d - 1) // d` */
  function CeilDiv(n: nat, d: nat): nat
    requires d > 0
  {
    (n + d - 1) / d
  }

  /** `k` is the ceiling of `n / d` exactly when `(k-1)*d < n <= k*d`. */
  lemma CeilDivIs(n: nat, d: nat, k: nat)
    requires d > 0 && k >= 1 && (k - 1) * d < n <= k * d
    ensures CeilDiv(n, d) == k
  {
    DivUnique(n + d - 1, d, k);
  }

  /** Every window index below the ceiling starts inside the track. */
  lemma CeilDivStartsInside(n: nat, d: nat, i: nat)
    requires d > 0 && i < CeilDiv(n, d)
    ensures i * d < n
  {
    DivBounds(n + d - 1, d);
    MulMonotone(i + 1, CeilDiv(n, d), d);
  }

  // ------------------------------------------------------- duration split

  /** The windows `split_audio_by_duration` cuts from `start` on: `maxMs` long each,
      the last one holding what remains. */
  function WindowsFrom(a: Audio, maxMs: nat, start: nat): seq<Audio>
    requires maxMs > 0
    decreases |a| - start
  {
    if start >= |a| then []
    else
      var end := Min(start + maxMs, |a|);
      [a[start..end]] + WindowsFrom(a, maxMs, end)
  }

  /** The windows `split_audio_by_duration` returns: the whole track when it is no
      longer than `maxMs`, otherwise the windows cut from 0. */
  function DurationWindows(a: Audio, maxMs: nat): seq<Audio>
    requires maxMs > 0 || |a| == 0
  {
    if |a| <= maxMs then [a] else WindowsFrom(a, maxMs, 0)
  }

  /** The windows from `start` reproduce the rest of the track, there are
      `ceil((len - start) / maxMs)` of them, all but the last are exactly `maxMs`
      long and the last is non-empty. */
  lemma {:induction false} WindowsFromTile(a: Audio, maxMs: nat, start: nat)
    requires maxMs > 0 && start <= |a|
    ensures var ws := WindowsFrom(a, maxMs, start);
      && Flatten(ws) == a[start..]
      && |ws| == CeilDiv(|a| - start, maxMs)
      && (forall i :: 0 <= i < |ws| - 1 ==> |ws[i]| == maxMs)
      && (|ws| == 0 || 0 < |ws[|ws| - 1]| <= maxMs)
    decreases |a| - start
  {
    var ws := WindowsFrom(a, maxMs, start);
    var n := |a| - start;
    if start == |a| {
      DivUnique(maxMs - 1, maxMs, 0);
    } else if start + maxMs >= |a| {
      assert WindowsFrom(a, maxMs, |a|) == [];
      assert Flatten(ws) == a[start..] + [];
      DivUnique(n + maxMs - 1, maxMs, 1);
    } else {
      var rest := WindowsFrom(a, maxMs, start + maxMs);
      WindowsFromTile(a, maxMs, start + maxMs);
      assert ws == [a[start..start + maxMs]] + rest;
      assert a[start..] == a[start..start + maxMs] + a[start + maxMs..];
      var k := CeilDiv(n - maxMs, maxMs);
      DivBounds(n - maxMs + maxMs - 1, maxMs);
      DivUnique(n + maxMs - 1, maxMs, k + 1);
    }
  }

  /** The duration windows reproduce the track exactly; there is one window when the
      track fits, otherwise `ceil(len / maxMs)` of them; all but the last are exactly
      `maxMs` long and the last is non-empty and no longer. */
  lemma DurationWindowsTile(a: Audio, maxMs: nat)
    requires maxMs > 0 || |a| == 0
    ensures var ws := DurationWindows(a, maxMs);
      && Flatten(ws) == a
      && |ws| == (if |a| <= maxMs then 1 else CeilDiv(|a|, maxMs))
      && (forall i :: 0 <= i < |ws| - 1 ==> |ws[i]| == maxMs)
      && (|a| == 0 || 0 < |ws[|ws| - 1]| <= maxMs)
  {
    if |a| <= maxMs {
      assert Flatten([a]) == a + [];
    } else {
      WindowsFromTile(a, maxMs, 0);
    }
  }

  /** `split_audio_by_duration` */
  method SplitByDuration(a: Audio, maxMs: nat) returns (windows: seq<Audio>)
    requires maxMs > 0 || |a| == 0
    ensures windows == DurationWindows(a, maxMs)
  {
    if |a| <= maxMs {
      return [a];
    }
    windows := [];
    var start := 0;
    while start < |a|
      invariant start <= |a|
      invariant windows + WindowsFrom(a, maxMs, start) == WindowsFrom(a, maxMs, 0)
      decreases |a| - start
    {
      var end := Min(start + maxMs, |a|);
      windows := windows + [a[start..end]];
      start := end;
    }
  }

  // ----------------------------------------------------------- size split

  /** `chunk_size > max_size_bytes * 1.1`, in exact arithmetic. */
  predicate OverTolerance(size: nat, maxSize: nat) {
    10 * size > 11 * maxSize
  }

  /** `int(chunk_duration_ms * (max_size_bytes / chunk_size * 0.9))`, in exact arithmetic:
      the duration scaled by 0.9 × limit / size. */
  function ShrunkDuration(pieceMs: nat, size: nat, maxSize: nat): nat
    requires size > 0
  {
    var scaled: nat := pieceMs * (9 * maxSize);
    scaled / (10 * size)
  }

  /** `max(2, ceil(size / max))`: how many pieces an oversized track is planned to need. */
  function PiecesNeeded(size: nat, maxSize: nat): (n: nat)
    requires maxSize > 0
    ensures n >= 2
  {
    Max(2, CeilDiv(size, maxSize))
  }

  /** The planned piece duration: the track length over the planned count, at least 30 s. */
  function PieceDuration(len: nat, size: nat, maxSize: nat): (d: nat)
    requires maxSize > 0
    ensures d >= MIN_PIECE_MS
  {
    Max(MIN_PIECE_MS, len / PiecesNeeded(size, maxSize))
  }

  /** The WAV-export oracle never exceeds 0.9 × `maxSize` bytes per millisecond, counting
      a piece shorter than 30 s as 30 s long. This is what makes every corrective shrink
      keep at least one millisecond; without it `split_audio_by_size` can loop forever. */
  ghost predicate ExportRateBounded(wavSize: Audio -> nat, maxSize: nat) {
    forall c: Audio :: ExportWithinRate(wavSize, maxSize, c)
  }

  ghost predicate ExportWithinRate(wavSize: Audio -> nat, maxSize: nat, c: Audio) {
    10 * wavSize(c) <= 9 * maxSize * Max(|c|, MIN_PIECE_MS)
  }

  /** A corrective shrink of a piece no longer than the planned duration keeps at least
      one millisecond, and keeps less than the planned duration. */
  lemma ShrinkBounds(c: Audio, pieceMs: nat, maxSize: nat, wavSize: Audio -> nat)
    requires ExportRateBounded(wavSize, maxSize)
    requires MIN_PIECE_MS <= pieceMs && |c| <= pieceMs
    requires OverTolerance(wavSize(c), maxSize)
    ensures 1 <= ShrunkDuration(pieceMs, wavSize(c), maxSize) < pieceMs
  {
    var size := wavSize(c);
    var scaled := pieceMs * (9 * maxSize);
    assert ExportWithinRate(wavSize, maxSize, c);
    MulMonotone(Max(|c|, MIN_PIECE_MS), pieceMs, 9 * maxSize);
    DivAtLeastOne(scaled, 10 * size);
    StrictMul(9 * maxSize, 10 * size, pieceMs);
    DivBelow(scaled, 10 * size, pieceMs);
  }


  /** How long `split_audio_by_size` makes the piece starting at `start`: the planned
      duration, or, when the planned piece's export exceeds 110% of the limit, that
      duration shrunk once. The shrunk piece is not measured again. */
  function PieceLength(a: Audio, pieceMs: nat, maxSize: nat, wavSize: Audio -> nat, start: nat): (n: nat)
    requires ExportRateBounded(wavSize, maxSize) && pieceMs >= MIN_PIECE_MS
    ensures 1 <= n <= pieceMs
    ensures var size := wavSize(Slice(a, start, start + pieceMs));
      (OverTolerance(size, maxSize) <==> n < pieceMs)
  {
    var candidate := Slice(a, start, start + pieceMs);
    var size := wavSize(candidate);
    if OverTolerance(size, maxSize) then
      ShrinkBounds(candidate, pieceMs, maxSize, wavSize);
      ShrunkDuration(pieceMs, size, maxSize)
    else pieceMs
  }

  /** The piece-length rule of one size split, as a function of the piece's start. */
  function SizeCut(a: Audio, pieceMs: nat, maxSize: nat, wavSize: Audio -> nat): (cut: nat -> nat)
    requires ExportRateBounded(wavSize, maxSize) && pieceMs >= MIN_PIECE_MS
    ensures forall s :: 1 <= cut(s) <= pieceMs
  {
    s => PieceLength(a, pieceMs, maxSize, wavSize, s)
  }

  /** Consecutive pieces from `start` on, the one beginning at offset `s` being `cut(s)`
      long and clamped to the end of the track. */
  function PiecesFrom(a: Audio, cut: nat -> nat, start: nat): seq<Audio>
    requires forall s :: cut(s) >= 1
    decreases |a| - start
  {
    if start >= |a| then []
    else
      var end := Min(start + cut(start), |a|);
      [a[start..end]] + PiecesFrom(a, cut, end)
  }

  /** The pieces from `start` reproduce the rest of the track. */
  lemma {:induction false} PiecesFromTile(a: Audio, cut: nat -> nat, start: nat)
    requires forall s :: cut(s) >= 1
    requires start <= |a|
    ensures Flatten(PiecesFrom(a, cut, start)) == a[start..]
    decreases |a| - start
  {
    if start < |a| {
      var end := Min(start + cut(start), |a|);
      PiecesFromTile(a, cut, end);
      assert a[start..] == a[start..end] + a[end..];
    }
  }

  /** The `k`-th piece from `start` begins where the first `k` end, inside the track,
      and is `cut` of that offset long, clamped to the track. */
  lemma {:induction false} PieceAt(a: Audio, cut: nat -> nat, start: nat, k: nat)
    requires forall s :: cut(s) >= 1
    requires k < |PiecesFrom(a, cut, start)|
    ensures var ps := PiecesFrom(a, cut, start);
      var offset := start + |Flatten(ps[..k])|;
      offset < |a| && ps[k] == a[offset..Min(offset + cut(offset), |a|)]
    decreases k
  {
    var ps := PiecesFrom(a, cut, start);
    var end := Min(start + cut(start), |a|);
    var rest := PiecesFrom(a, cut, end);
    assert ps == [a[start..end]] + rest;
    if k == 0 {
      assert ps[..0] == [];
    } else {
      PieceAt(a, cut, end, k - 1);
      var before := ps[..k];
      assert before[0] == a[start..end] && before[1..] == rest[..k - 1];
      assert Flatten(before) == a[start..end] + Flatten(rest[..k - 1]);
      assert start + |Flatten(ps[..k])| == end + |Flatten(rest[..k - 1])|;
      assert ps[k] == rest[k - 1];
    }
  }

  /** `split_audio_by_size`: the whole track when its export fits, otherwise the pieces
      cut from 0 with the planned duration and the single-correction rule. */
  function SizeSplit(a: Audio, maxSize: nat, wavSize: Audio -> nat): seq<Audio>
    requires maxSize > 0 && ExportRateBounded(wavSize, maxSize)
  {
    var size := wavSize(a);
    if size <= maxSize then [a]
    else PiecesFrom(a, SizeCut(a, PieceDuration(|a|, size, maxSize), maxSize, wavSize), 0)
  }

  /** The pieces of a size split reproduce the track in order, and a track whose export
      fits is returned alone. */
  lemma SizeSplitTiles(a: Audio, maxSize: nat, wavSize: Audio -> nat)
    requires maxSize > 0 && ExportRateBounded(wavSize, maxSize)
    ensures Flatten(SizeSplit(a, maxSize, wavSize)) == a
    ensures wavSize(a) <= maxSize ==> SizeSplit(a, maxSize, wavSize) == [a]
  {
    if wavSize(a) <= maxSize {
      assert Flatten([a]) == a + [];
    } else {
      PiecesFromTile(a, SizeCut(a, PieceDuration(|a|, wavSize(a), maxSize), maxSize, wavSize), 0);
    }
  }

  /** When the track's export is too large, its `k`-th piece begins where the first `k`
      end and is the planned duration long (clamped to the track), unless that piece's
      export exceeded 110% of the limit, in which case it is that duration shrunk once. */
  lemma SizeSplitPieceAt(a: Audio, maxSize: nat, wavSize: Audio -> nat, k: nat)
    requires maxSize > 0 && ExportRateBounded(wavSize, maxSize)
    requires wavSize(a) > maxSize && k < |SizeSplit(a, maxSize, wavSize)|
    ensures var ps := SizeSplit(a, maxSize, wavSize);
      var offset := |Flatten(ps[..k])|;
      var d := PieceDuration(|a|, wavSize(a), maxSize);
      && offset < |a|
      && ps[k] == a[offset..Min(offset + PieceLength(a, d, maxSize, wavSize, offset), |a|)]
  {
    var d := PieceDuration(|a|, wavSize(a), maxSize);
    var cut := SizeCut(a, d, maxSize, wavSize);
    var ps := PiecesFrom(a, cut, 0);
    assert SizeSplit(a, maxSize, wavSize) == ps;
    PieceAt(a, cut, 0, k);
    var offset := |Flatten(ps[..k])|;
    assert cut(offset) == PieceLength(a, d, maxSize, wavSize, offset);
  }

  /** One turn of `split_audio_by_size`'s loop, which cut `chunk` from `start` and
      moves on to `end`, cuts exactly the next piece of `PiecesFrom`. */
  lemma CutStep(a: Audio, d: nat, maxSize: nat, wavSize: Audio -> nat, cut: nat -> nat, start: nat,
                chunk: Audio, end: nat)
    requires ExportRateBounded(wavSize, maxSize) && d >= MIN_PIECE_MS && start < |a|
    requires cut == SizeCut(a, d, maxSize, wavSize)
    requires var candidate := a[start..Min(start + d, |a|)];
      var size := wavSize(candidate);
      && end == (if OverTolerance(size, maxSize) then start + ShrunkDuration(d, size, maxSize) else Min(start + d, |a|))
      && chunk == (if OverTolerance(size, maxSize) then Slice(a, start, end) else candidate)
    ensures PiecesFrom(a, cut, start) == [chunk] + PiecesFrom(a, cut, Min(end, |a|))
  {
    assert Slice(a, start, start + d) == a[start..Min(start + d, |a|)];
  }

  lemma SnocAssoc<T>(done: seq<T>, x: T, rest: seq<T>, whole: seq<T>)
    requires done + ([x] + rest) == whole
    ensures (done + [x]) + rest == whole
  {
    assert (done + [x]) + rest == done + ([x] + rest);
  }

  /** `split_audio_by_size` */
  method SplitBySize(a: Audio, maxSize: nat, wavSize: Audio -> nat) returns (chunks: seq<Audio>)
    requires maxSize > 0 && ExportRateBounded(wavSize, maxSize)
    ensures chunks == SizeSplit(a, maxSize, wavSize)
  {
    var fileSize := wavSize(a);
    if fileSize <= maxSize {
      return [a];
    }
    var chunkDurationMs := PieceDuration(|a|, fileSize, maxSize);
    ghost var cut := SizeCut(a, chunkDurationMs, maxSize, wavSize);
    ghost var planned := PiecesFrom(a, cut, 0);
    assert planned == SizeSplit(a, maxSize, wavSize);
    chunks := [];
    var start := 0;
    while start < |a|
      invariant chunks + PiecesFrom(a, cut, Min(start, |a|)) == planned
      decreases |a| - start
    {
      var end := Min(start + chunkDurationMs, |a|);
      var chunk := a[start..end];
      var chunkSize := wavSize(chunk);
      if OverTolerance(chunkSize, maxSize) {
        var smallerDuration := ShrunkDuration(chunkDurationMs, chunkSize, maxSize);
        chunk := Slice(a, start, start + smallerDuration);
        end := start + smallerDuration;
      }
      CutStep(a, chunkDurationMs, maxSize, wavSize, cut, start, chunk, end);
      SnocAssoc(chunks, chunk, PiecesFrom(a, cut, Min(end, |a|)), planned);
      chunks := chunks + [chunk];
      start := end;
    }
  }

  // ------------------------------------------------------- combined split

  /** `split_audio_combined`: the duration windows, each size-split, flattened in order. */
  function CombinedSplit(a: Audio, maxSize: nat, maxMs: nat, wavSize: Audio -> nat): seq<Audio>
    requires maxSize > 0 && ExportRateBounded(wavSize, maxSize) && (maxMs > 0 || |a| == 0)
  {
    var ws := DurationWindows(a, maxMs);
    Flatten(seq(|ws|, i requires 0 <= i < |ws| => SizeSplit(ws[i], maxSize, wavSize)))
  }

  /** The combined split reproduces the track exactly, in order. */
  lemma CombinedSplitTiles(a: Audio, maxSize: nat, maxMs: nat, wavSize: Audio -> nat)
    requires maxSize > 0 && ExportRateBounded(wavSize, maxSize) && (maxMs > 0 || |a| == 0)
    ensures Flatten(CombinedSplit(a, maxSize, maxMs, wavSize)) == a
  {
    var ws := DurationWindows(a, maxMs);
    DurationWindowsTile(a, maxMs);
    var groups := seq(|ws|, i requires 0 <= i < |ws| => SizeSplit(ws[i], maxSize, wavSize));
    forall i | 0 <= i < |ws| ensures Flatten(groups[i]) == ws[i] {
      SizeSplitTiles(ws[i], maxSize, wavSize);
    }
    FlattenOfGroups(groups, ws);
  }

  /** Flattening groups of pieces, each of which flattens to one window, gives the
      flattened windows. */
  lemma {:induction false} FlattenOfGroups(groups: seq<seq<Audio>>, ws: seq<Audio>)
    requires |groups| == |ws|
    requires forall i :: 0 <= i < |ws| ==> Flatten(groups[i]) == ws[i]
    ensures Flatten(Flatten(groups)) == Flatten(ws)
  {
    if groups != [] {
      FlattenOfGroups(groups[1..], ws[1..]);
      FlattenAppend(groups[0], Flatten(groups[1..]));
    }
  }

  /** `split_audio_combined` */
  method SplitCombined(a: Audio, maxSize: nat, maxMs: nat, wavSize: Audio -> nat) returns (finalChunks: seq<Audio>)
    requires maxSize > 0 && ExportRateBounded(wavSize, maxSize) && (maxMs > 0 || |a| == 0)
    ensures finalChunks == CombinedSplit(a, maxSize, maxMs, wavSize)
    ensures Flatten(finalChunks) == a
  {
    var durationChunks := SplitByDuration(a, maxMs);
    ghost var groups := seq(|durationChunks|, i requires 0 <= i < |durationChunks| =>
                              SizeSplit(durationChunks[i], maxSize, wavSize));
    assert Flatten(groups) == CombinedSplit(a, maxSize, maxMs, wavSize);
    finalChunks := [];
    var i := 0;
    while i < |durationChunks|
      invariant i <= |durationChunks|
      invariant finalChunks == Flatten(groups[..i])
    {
      var sizeChunks := SplitBySize(durationChunks[i], maxSize, wavSize);
      FlattenPrefixStep(groups, i);
      finalChunks := finalChunks + sizeChunks;
      i := i + 1;
    }
    assert groups[..i] == groups;
    CombinedSplitTiles(a, maxSize, maxMs, wavSize);
  }

  lemma FlattenPrefixStep<T>(groups: seq<seq<T>>, i: nat)
    requires i < |groups|
    ensures Flatten(groups[..i + 1]) == Flatten(groups[..i]) + groups[i]
  {
    FlattenAppend(groups[..i], [groups[i]]);
    assert groups[..i + 1] == groups[..i] + [groups[i]];
    assert Flatten([groups[i]]) == groups[i] + [];
  }

  // ------------------------------------------------------------- validity

  /** `validate_audio_duration` with its default minimum of 0.1 s. */
  function ValidateAudioDuration(a: Audio): (r: (bool, Option<string>))
    ensures r.0 <==> |a| >= MIN_DURATION_MS
    ensures r.0 ==> r.1 == None
    ensures !r.0 ==> r.1 == Some("Audio file is too short (minimum 0.1 seconds)")
  {
    if |a| < MIN_DURATION_MS then (false, Some("Audio file is too short (minimum 0.1 seconds)"))
    else (true, None)
  }
}
