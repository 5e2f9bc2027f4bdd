/**
 * `preprocess_audio`: decode the upload, optionally remove silence, cut the track into
 * 25-minute windows, and turn every window into one or more payloads for the
 * transcription service, each either the window's WAV export or its OGG compression.
 *
 * Everything outside the model is an oracle collected in `Env`: the decoder, pydub's
 * silence splitter, the WAV exporter, ffmpeg's compression and the progress callback.
 */
module Preprocessing {
  import opened Options
  import opened Seqs
  import opened AudioUtils

  /** The outside world `preprocess_audio` talks to. `proceed(step)` is the progress
      callback's answer for that step (each step value is reported at most once per
      run); `copyFails` holds when writing the upload to its temporary file raises;
      `decode` is `None` when the file is not audio; `silence` is `None` when splitting
      on silence raises; `exportFails(window)` holds when one of the WAV exports or
      temporary files made while turning that window into payloads raises; `compress`
      is `None` when ffmpeg fails. */
  datatype Env = Env(
    proceed: nat -> bool,
    copyFails: bool,
    decode: Bytes -> Option<Audio>,
    silence: Audio -> Option<seq<Audio>>,
    wav: Audio -> Bytes,
    exportFails: Audio -> bool,
    compress: Bytes -> Option<Bytes>)

  /** The size of a track's WAV export, in bytes. */
  function WavSize(env: Env): Audio -> nat {
    (a: Audio) => |env.wav(a)|
  }

  /** The exporter meets the rate bound the size splitter needs in order to terminate. */
  ghost predicate Exportable(env: Env) {
    ExportRateBounded(WavSize(env), MAX_SIZE_BYTES)
  }

  // --------------------------------------------------------- silence removal

  /** What `remove_silence` returns: the track itself when the splitter raises or finds
      no speech, otherwise the speech spans joined in order. */
  function SilenceRemoved(audio: Audio, silence: Audio -> Option<seq<Audio>>): Audio {
    match silence(audio)
    case None => audio
    case Some(spans) => if spans == [] then audio else Flatten(spans)
  }

  /** `remove_silence` */
  method RemoveSilence(audio: Audio, silence: Audio -> Option<seq<Audio>>) returns (result: Audio)
    ensures result == SilenceRemoved(audio, silence)
  {
    var chunks := silence(audio);
    if chunks.None? || chunks.value == [] {
      return audio;
    }
    var combined: Audio := [];
    for k := 0 to |chunks.value|
      invariant combined == Flatten(chunks.value[..k])
    {
      FlattenSnoc(chunks.value[..k], chunks.value[k]);
      assert chunks.value[..k + 1] == chunks.value[..k] + [chunks.value[k]];
      combined := combined + chunks.value[k];
    }
    assert chunks.value[..|chunks.value|] == chunks.value;
    return combined;
  }

  lemma FlattenSnoc<T>(ss: seq<seq<T>>, s: seq<T>)
    ensures Flatten(ss + [s]) == Flatten(ss) + s
  {
    FlattenAppend(ss, [s]);
    assert Flatten([s]) == s + [];
  }

  /** The `k`-th speech span sits in the result right after the spans before it. */
  lemma {:induction false} SpanAt(spans: seq<Audio>, k: nat)
    requires k < |spans|
    ensures var start := |Flatten(spans[..k])|;
      start + |spans[k]| <= |Flatten(spans)|
      && Flatten(spans)[start..start + |spans[k]|] == spans[k]
  {
    assert spans == spans[..k] + [spans[k]] + spans[k + 1..];
    FlattenAppend(spans[..k] + [spans[k]], spans[k + 1..]);
    FlattenSnoc(spans[..k], spans[k]);
  }

  /** Silence removal keeps the track when there is nothing to join, and otherwise
      produces the speech spans one after another, each intact and in order. */
  lemma SilenceRemovedSpans(audio: Audio, silence: Audio -> Option<seq<Audio>>)
    ensures silence(audio) == None || silence(audio) == Some([]) ==> SilenceRemoved(audio, silence) == audio
    ensures silence(audio).Some? ==> forall k :: 0 <= k < |silence(audio).value| ==>
      var spans := silence(audio).value;
      var start := |Flatten(spans[..k])|;
      start + |spans[k]| <= |SilenceRemoved(audio, silence)|
      && SilenceRemoved(audio, silence)[start..start + |spans[k]|] == spans[k]
  {
    if silence(audio).Some? {
      forall k | 0 <= k < |silence(audio).value| {
        SpanAt(silence(audio).value, k);
      }
    }
  }

  // ---------------------------------------------------------- window output

  /** One payload: a WAV export or an OGG compression of a piece of the track. */
  datatype Chunk = Wav(data: Bytes) | Ogg(data: Bytes)

  /** A size-split piece: compressed when compression is on and ffmpeg succeeds
      (whatever the result's size), its WAV export otherwise. */
  function PieceOutput(piece: Audio, compressOn: bool, env: Env): Chunk {
    var wavData := env.wav(piece);
    if compressOn then
      match env.compress(wavData)
      case Some(ogg) => Ogg(ogg)
      case None => Wav(wavData)
    else Wav(wavData)
  }

  function PieceOutputs(pieces: seq<Audio>, compressOn: bool, env: Env): seq<Chunk> {
    seq(|pieces|, j requires 0 <= j < |pieces| => PieceOutput(pieces[j], compressOn, env))
  }

  /** The payloads one duration window becomes: its WAV export when that fits; its OGG
      when compression is on and the OGG fits; its WAV when ffmpeg fails; otherwise one
      payload per piece of the window's size split. */
  function WindowOutput(window: Audio, compressOn: bool, env: Env): seq<Chunk>
    requires Exportable(env)
  {
    var wavData := env.wav(window);
    if |wavData| <= MAX_SIZE_BYTES then [Wav(wavData)]
    else if compressOn then
      match env.compress(wavData)
      case None => [Wav(wavData)]
      case Some(ogg) =>
        if |ogg| <= MAX_SIZE_BYTES then [Ogg(ogg)]
        else PieceOutputs(SizeSplit(window, MAX_SIZE_BYTES, WavSize(env)), true, env)
    else PieceOutputs(SizeSplit(window, MAX_SIZE_BYTES, WavSize(env)), false, env)
  }

  /** The four outcomes of the per-window decision. A WAV export that fits is sent as
      is. Otherwise, with compression on, an OGG that fits is sent instead, and a
      failed ffmpeg run sends the oversized WAV. An OGG that is still too big, or
      compression being off, leads to the size split, one payload per piece in order. */
  lemma WindowOutputCases(window: Audio, compressOn: bool, env: Env)
    requires Exportable(env)
    ensures var wavData := env.wav(window);
      var ogg := env.compress(wavData);
      var pieces := SizeSplit(window, MAX_SIZE_BYTES, WavSize(env));
      var out := WindowOutput(window, compressOn, env);
      && (|wavData| <= MAX_SIZE_BYTES ==> out == [Wav(wavData)])
      && (|wavData| > MAX_SIZE_BYTES && compressOn && ogg.Some? && |ogg.value| <= MAX_SIZE_BYTES
          ==> out == [Ogg(ogg.value)])
      && (|wavData| > MAX_SIZE_BYTES && compressOn && ogg.None? ==> out == [Wav(wavData)])
      && (|wavData| > MAX_SIZE_BYTES && (!compressOn || (ogg.Some? && |ogg.value| > MAX_SIZE_BYTES))
          ==> |out| == |pieces| && forall k :: 0 <= k < |out| ==> out[k] == PieceOutput(pieces[k], compressOn, env))
  {
  }

  /** The stretches of the window that the payloads of `WindowOutput` encode. */
  function WindowPieces(window: Audio, compressOn: bool, env: Env): seq<Audio>
    requires Exportable(env)
  {
    var wavData := env.wav(window);
    if |wavData| <= MAX_SIZE_BYTES then [window]
    else if compressOn then
      match env.compress(wavData)
      case None => [window]
      case Some(ogg) =>
        if |ogg| <= MAX_SIZE_BYTES then [window]
        else SizeSplit(window, MAX_SIZE_BYTES, WavSize(env))
    else SizeSplit(window, MAX_SIZE_BYTES, WavSize(env))
  }

  /** The payloads of all windows, in window order. */
  function AllOutputs(windows: seq<Audio>, compressOn: bool, env: Env): seq<Chunk>
    requires Exportable(env)
  {
    if windows == [] then []
    else (AllOutputs(windows[..|windows| - 1], compressOn, env)
          + WindowOutput(windows[|windows| - 1], compressOn, env))
  }

  /** The stretches of track behind `AllOutputs`, one per payload. */
  function AllPieces(windows: seq<Audio>, compressOn: bool, env: Env): seq<Audio>
    requires Exportable(env)
  {
    if windows == [] then []
    else (AllPieces(windows[..|windows| - 1], compressOn, env)
          + WindowPieces(windows[|windows| - 1], compressOn, env))
  }

  function ChunkData(chunks: seq<Chunk>): seq<Bytes> {
    seq(|chunks|, i requires 0 <= i < |chunks| => chunks[i].data)
  }

  /** `chunks_compressed` */
  function CountOgg(chunks: seq<Chunk>): nat {
    if chunks == [] then 0
    else CountOgg(chunks[..|chunks| - 1]) + (if chunks[|chunks| - 1].Ogg? then 1 else 0)
  }

  /** `chunks_kept_wav` */
  function CountWav(chunks: seq<Chunk>): nat {
    if chunks == [] then 0
    else CountWav(chunks[..|chunks| - 1]) + (if chunks[|chunks| - 1].Wav? then 1 else 0)
  }

  /** The format label reported with the payloads. */
  function Label(compressed: nat, kept: nat): string {
    if compressed > 0 && kept > 0 then "mixed"
    else if compressed > 0 then "audio.ogg"
    else "audio.wav"
  }

  /** Some window's exports raise, so the window loop ends in an exception. */
  predicate SomeExportFails(windows: seq<Audio>, env: Env) {
    exists k :: 0 <= k < |windows| && env.exportFails(windows[k])
  }

  /** The windows the track is cut into: 25-minute windows when time splitting is on
      and the track is longer than 25 minutes, otherwise the track alone. */
  function Windows(audio: Audio, splitOn: bool): seq<Audio> {
    if splitOn && |audio| > MAX_DURATION_MS then DurationWindows(audio, MAX_DURATION_MS) else [audio]
  }

  // ---------------------------------------------------------- the whole run

  /** The payloads, the name or label returned with them, and where the upload's read
      position ends up. */
  datatype Outcome = Outcome(chunks: seq<Bytes>, format: string, pos: nat)

  /** What `preprocess_audio` returns for an upload holding `data`, read up to `pos`.
      A cancellation after the upload was copied to the temporary file returns the
      stream's remaining bytes, which are none; only a failure (the temporary copy, the
      decoding, a track under 0.1 s, or an export in the window loop) rewinds the upload
      and returns all of it. */
  function Preprocess(data: Bytes, pos: nat, name: string,
                      silenceOn: bool, compressOn: bool, splitOn: bool, env: Env): Outcome
    requires pos <= |data| && Exportable(env)
  {
    var cancelled := Outcome([[]], name, |data|);
    var failed := Outcome([data], name, |data|);
    if !env.proceed(20) then Outcome([data[pos..]], name, |data|)
    else if env.copyFails then failed
    else if !env.proceed(25) then cancelled
    else match env.decode(data)
      case None => failed
      case Some(audio) =>
        if |audio| < MIN_DURATION_MS then failed
        else if !env.proceed(30) then cancelled
        else if silenceOn && !env.proceed(35) then cancelled
        else
          var processed := if silenceOn then SilenceRemoved(audio, env.silence) else audio;
          var split := splitOn && |processed| > MAX_DURATION_MS;
          if silenceOn && !env.proceed(45) then cancelled
          else if split && !env.proceed(50) then cancelled
          else if !env.proceed(55) || !env.proceed(60) then cancelled
          else if SomeExportFails(Windows(processed, splitOn), env) then failed
          else
            var out := AllOutputs(Windows(processed, splitOn), compressOn, env);
            if !env.proceed(90) || !env.proceed(100) then cancelled
            else Outcome(ChunkData(out), Label(CountOgg(out), CountWav(out)), |data|)
  }

  // -------------------------------------------------------------- the upload

  /** A Streamlit upload: a name and an in-memory byte stream with a read position. */
  class Upload {
    const name: string
    const data: Bytes
    var pos: nat

    predicate Valid()
      reads this
    {
      pos <= |data|
    }

    constructor(name: string, data: Bytes)
      ensures this.name == name && this.data == data && pos == 0 && Valid()
    {
      this.name := name;
      this.data := data;
      pos := 0;
    }

    /** `read()`: the rest of the stream, leaving the position at its end. */
    method Read() returns (bytes: Bytes)
      requires Valid()
      modifies this
      ensures bytes == old(data[pos..]) && pos == |data| && Valid()
    {
      bytes := data[pos..];
      pos := |data|;
    }

    /** `seek(0)` */
    method Rewind()
      modifies this
      ensures pos == 0 && Valid()
    {
      pos := 0;
    }
  }

  // ----------------------------------------------------------- the methods

  /** `preprocess_audio` */
  method PreprocessAudio(upload: Upload, enableSilenceRemoval: bool, enableCompression: bool,
                         enableTimeSplitting: bool, env: Env)
    returns (chunks: seq<Bytes>, format: string)
    requires upload.Valid() && Exportable(env)
    modifies upload
    ensures upload.Valid()
    ensures Outcome(chunks, format, upload.pos)
      == Preprocess(upload.data, old(upload.pos), upload.name,
                    enableSilenceRemoval, enableCompression, enableTimeSplitting, env)
  {
    if !env.proceed(20) {
      var rest := upload.Read();
      return [rest], upload.name;
    }
    // create_temp_audio_file rewinds the upload and reads all of it
    upload.Rewind();
    var contents := upload.Read();
    if env.copyFails {
      upload.Rewind();
      var all := upload.Read();
      return [all], upload.name;
    }
    if !env.proceed(25) {
      var rest := upload.Read();
      return [rest], upload.name;
    }
    var decoded := env.decode(contents);
    if decoded.None? || |decoded.value| < MIN_DURATION_MS {
      upload.Rewind();
      var all := upload.Read();
      return [all], upload.name;
    }
    var audioSegment := decoded.value;
    var processedAudio := audioSegment;
    if !env.proceed(30) {
      var rest := upload.Read();
      return [rest], upload.name;
    }
    if enableSilenceRemoval {
      if !env.proceed(35) {
        var rest := upload.Read();
        return [rest], upload.name;
      }
      processedAudio := RemoveSilence(audioSegment, env.silence);
      if !env.proceed(45) {
        var rest := upload.Read();
        return [rest], upload.name;
      }
    }
    var durationChunks;
    if enableTimeSplitting && |processedAudio| > MAX_DURATION_MS {
      if !env.proceed(50) {
        var rest := upload.Read();
        return [rest], upload.name;
      }
      durationChunks := SplitByDuration(processedAudio, MAX_DURATION_MS);
    } else {
      durationChunks := [processedAudio];
    }
    if !env.proceed(55) || !env.proceed(60) {
      var rest := upload.Read();
      return [rest], upload.name;
    }
    var ok, finalChunkData, chunksCompressed, chunksKeptWav := ProcessWindows(durationChunks, enableCompression, env);
    if !ok {
      upload.Rewind();
      var all := upload.Read();
      return [all], upload.name;
    }
    if !env.proceed(90) || !env.proceed(100) {
      var rest := upload.Read();
      return [rest], upload.name;
    }
    return finalChunkData, Label(chunksCompressed, chunksKeptWav);
  }

  /** The loop of `preprocess_audio` over the duration windows: the payloads in order,
      with the number compressed and the number kept as WAV; `ok` is false when an
      export raises. */
  method ProcessWindows(durationChunks: seq<Audio>, enableCompression: bool, env: Env)
    returns (ok: bool, finalChunkData: seq<Bytes>, chunksCompressed: nat, chunksKeptWav: nat)
    requires Exportable(env)
    ensures ok <==> !SomeExportFails(durationChunks, env)
    ensures var out := AllOutputs(durationChunks, enableCompression, env);
      ok ==> finalChunkData == ChunkData(out) && chunksCompressed == CountOgg(out) && chunksKeptWav == CountWav(out)
  {
    finalChunkData, chunksCompressed, chunksKeptWav := [], 0, 0;
    ghost var emitted: seq<Chunk> := [];
    for i := 0 to |durationChunks|
      invariant emitted == AllOutputs(durationChunks[..i], enableCompression, env)
      invariant Tallied(emitted, finalChunkData, chunksCompressed, chunksKeptWav)
      invariant !SomeExportFails(durationChunks[..i], env)
    {
      var chunk := durationChunks[i];
      if env.exportFails(chunk) {
        ExportFailsAt(durationChunks, i, env);
        return false, finalChunkData, chunksCompressed, chunksKeptWav;
      }
      NoExportFailsStep(durationChunks, i, env);
      finalChunkData, chunksCompressed, chunksKeptWav, emitted :=
        EmitWindow(durationChunks, i, enableCompression, env, finalChunkData, chunksCompressed, chunksKeptWav, emitted);
    }
    assert durationChunks[..|durationChunks|] == durationChunks;
    ok := true;
  }

  lemma ExportFailsAt(windows: seq<Audio>, i: nat, env: Env)
    requires i < |windows| && env.exportFails(windows[i])
    ensures SomeExportFails(windows, env)
  {
  }

  lemma NoExportFailsStep(windows: seq<Audio>, i: nat, env: Env)
    requires i < |windows| && !SomeExportFails(windows[..i], env) && !env.exportFails(windows[i])
    ensures !SomeExportFails(windows[..i + 1], env)
  {
    var longer := windows[..i + 1];
    forall k | 0 <= k < |longer|
      ensures !env.exportFails(longer[k])
    {
      if k < i {
        assert longer[k] == windows[..i][k];
      }
    }
  }

  /** The bytes and both counters agree with the payloads emitted so far. */
  ghost predicate Tallied(emitted: seq<Chunk>, data: seq<Bytes>, compressed: nat, kept: nat) {
    data == ChunkData(emitted) && compressed == CountOgg(emitted) && kept == CountWav(emitted)
  }

  lemma AllOutputsStep(windows: seq<Audio>, i: nat, compressOn: bool, env: Env)
    requires i < |windows| && Exportable(env)
    ensures AllOutputs(windows[..i + 1], compressOn, env)
      == AllOutputs(windows[..i], compressOn, env) + WindowOutput(windows[i], compressOn, env)
  {
    assert windows[..i + 1][..i] == windows[..i];
  }

  /** One turn of the window loop: the window's WAV export when it fits, its OGG when
      compression is on and the OGG fits, its WAV when ffmpeg fails, otherwise its
      size-split pieces. */
  method EmitWindow(durationChunks: seq<Audio>, i: nat, enableCompression: bool, env: Env,
                    data0: seq<Bytes>, compressed0: nat, kept0: nat, ghost emitted0: seq<Chunk>)
    returns (finalChunkData: seq<Bytes>, chunksCompressed: nat, chunksKeptWav: nat, ghost emitted: seq<Chunk>)
    requires i < |durationChunks| && Exportable(env)
    requires emitted0 == AllOutputs(durationChunks[..i], enableCompression, env)
    requires Tallied(emitted0, data0, compressed0, kept0)
    ensures emitted == AllOutputs(durationChunks[..i + 1], enableCompression, env)
    ensures Tallied(emitted, finalChunkData, chunksCompressed, chunksKeptWav)
  {
    AllOutputsStep(durationChunks, i, enableCompression, env);
    var chunk := durationChunks[i];
    finalChunkData, chunksCompressed, chunksKeptWav, emitted := data0, compressed0, kept0, emitted0;
    var chunkWav := env.wav(chunk);
    if |chunkWav| <= MAX_SIZE_BYTES {
      Emit(emitted, Wav(chunkWav));
      finalChunkData := finalChunkData + [chunkWav];
      chunksKeptWav := chunksKeptWav + 1;
      emitted := emitted + [Wav(chunkWav)];
    } else if enableCompression {
      var compressed := env.compress(chunkWav);
      if compressed.Some? && |compressed.value| <= MAX_SIZE_BYTES {
        Emit(emitted, Ogg(compressed.value));
        finalChunkData := finalChunkData + [compressed.value];
        chunksCompressed := chunksCompressed + 1;
        emitted := emitted + [Ogg(compressed.value)];
      } else if compressed.Some? {
        var subChunks := SplitBySize(chunk, MAX_SIZE_BYTES, WavSize(env));
        finalChunkData, chunksCompressed, chunksKeptWav, emitted :=
          EmitPieces(subChunks, true, env, finalChunkData, chunksCompressed, chunksKeptWav, emitted);
      } else {
        Emit(emitted, Wav(chunkWav));
        finalChunkData := finalChunkData + [chunkWav];
        chunksKeptWav := chunksKeptWav + 1;
        emitted := emitted + [Wav(chunkWav)];
      }
    } else {
      var subChunks := SplitBySize(chunk, MAX_SIZE_BYTES, WavSize(env));
      finalChunkData, chunksCompressed, chunksKeptWav, emitted :=
        EmitPieces(subChunks, false, env, finalChunkData, chunksCompressed, chunksKeptWav, emitted);
    }
  }

  /** The inner loop over a window's size-split pieces: each is exported and, when
      compression is on, compressed, falling back to the WAV export when ffmpeg fails. */
  method EmitPieces(subChunks: seq<Audio>, compressOn: bool, env: Env,
                    data0: seq<Bytes>, compressed0: nat, kept0: nat, ghost emitted0: seq<Chunk>)
    returns (finalChunkData: seq<Bytes>, chunksCompressed: nat, chunksKeptWav: nat, ghost emitted: seq<Chunk>)
    requires data0 == ChunkData(emitted0) && compressed0 == CountOgg(emitted0) && kept0 == CountWav(emitted0)
    ensures emitted == emitted0 + PieceOutputs(subChunks, compressOn, env)
    ensures finalChunkData == ChunkData(emitted)
    ensures chunksCompressed == CountOgg(emitted) && chunksKeptWav == CountWav(emitted)
  {
    finalChunkData, chunksCompressed, chunksKeptWav, emitted := data0, compressed0, kept0, emitted0;
    for j := 0 to |subChunks|
      invariant emitted == emitted0 + PieceOutputs(subChunks[..j], compressOn, env)
      invariant finalChunkData == ChunkData(emitted)
      invariant chunksCompressed == CountOgg(emitted) && chunksKeptWav == CountWav(emitted)
    {
      var subWav := env.wav(subChunks[j]);
      var subOgg := if compressOn then env.compress(subWav) else None;
      var c := if subOgg.Some? then Ogg(subOgg.value) else Wav(subWav);
      PiecesStep(subChunks, j, compressOn, env);
      Emit(emitted, c);
      finalChunkData := finalChunkData + [c.data];
      if c.Ogg? {
        chunksCompressed := chunksCompressed + 1;
      } else {
        chunksKeptWav := chunksKeptWav + 1;
      }
      emitted := emitted + [c];
    }
    assert subChunks[..|subChunks|] == subChunks;
  }

  lemma PiecesStep(pieces: seq<Audio>, j: nat, compressOn: bool, env: Env)
    requires j < |pieces|
    ensures PieceOutputs(pieces[..j + 1], compressOn, env)
      == PieceOutputs(pieces[..j], compressOn, env) + [PieceOutput(pieces[j], compressOn, env)]
  {
  }

  /** Appending one payload appends its bytes and adds one to exactly one counter. */
  lemma Emit(emitted: seq<Chunk>, c: Chunk)
    ensures ChunkData(emitted + [c]) == ChunkData(emitted) + [c.data]
    ensures CountOgg(emitted + [c]) == CountOgg(emitted) + (if c.Ogg? then 1 else 0)
    ensures CountWav(emitted + [c]) == CountWav(emitted) + (if c.Wav? then 1 else 0)
  {
    assert (emitted + [c])[..|emitted|] == emitted;
  }

  // ------------------------------------------------------------ properties

  /** A payload carries `piece`: its WAV export, or, only when compression is on, the
      OGG ffmpeg made of that export. */
  predicate Encodes(c: Chunk, piece: Audio, compressOn: bool, env: Env) {
    match c
    case Wav(d) => d == env.wav(piece)
    case Ogg(d) => compressOn && env.compress(env.wav(piece)) == Some(d)
  }

  /** The payloads of one window carry, one each and in order, stretches that put
      together give back the window; a window whose WAV export fits is sent as that WAV. */
  lemma WindowEncodes(window: Audio, compressOn: bool, env: Env)
    requires Exportable(env)
    ensures var out := WindowOutput(window, compressOn, env);
      var pieces := WindowPieces(window, compressOn, env);
      && |out| == |pieces|
      && Flatten(pieces) == window
      && (forall k :: 0 <= k < |out| ==> Encodes(out[k], pieces[k], compressOn, env))
    ensures |env.wav(window)| <= MAX_SIZE_BYTES ==> WindowOutput(window, compressOn, env) == [Wav(env.wav(window))]
  {
    var wavData := env.wav(window);
    assert Flatten([window]) == window + [];
    if |wavData| > MAX_SIZE_BYTES {
      var ps := SizeSplit(window, MAX_SIZE_BYTES, WavSize(env));
      SizeSplitTiles(window, MAX_SIZE_BYTES, WavSize(env));
      if compressOn && env.compress(wavData).Some? && |env.compress(wavData).value| > MAX_SIZE_BYTES {
        PieceOutputsEncode(ps, true, env);
      } else if !compressOn {
        PieceOutputsEncode(ps, false, env);
      }
    }
  }

  lemma PieceOutputsEncode(pieces: seq<Audio>, compressOn: bool, env: Env)
    ensures var out := PieceOutputs(pieces, compressOn, env);
      |out| == |pieces| && forall k :: 0 <= k < |out| ==> Encodes(out[k], pieces[k], compressOn, env)
  {
  }

  /** The same over all windows: the payloads carry, in order, stretches that put
      together give back the windows put together. */
  lemma {:induction false} AllEncode(windows: seq<Audio>, compressOn: bool, env: Env)
    requires Exportable(env)
    ensures var out := AllOutputs(windows, compressOn, env);
      var pieces := AllPieces(windows, compressOn, env);
      && |out| == |pieces|
      && Flatten(pieces) == Flatten(windows)
      && (forall k :: 0 <= k < |out| ==> Encodes(out[k], pieces[k], compressOn, env))
  {
    if windows != [] {
      var n := |windows| - 1;
      var before, last := AllOutputs(windows[..n], compressOn, env), WindowOutput(windows[n], compressOn, env);
      var beforePieces, lastPieces := AllPieces(windows[..n], compressOn, env), WindowPieces(windows[n], compressOn, env);
      AllEncode(windows[..n], compressOn, env);
      WindowEncodes(windows[n], compressOn, env);
      forall k | 0 <= k < |before| + |last|
        ensures Encodes((before + last)[k], (beforePieces + lastPieces)[k], compressOn, env)
      {
        if k < |before| {
          assert (before + last)[k] == before[k] && (beforePieces + lastPieces)[k] == beforePieces[k];
        } else {
          var j := k - |before|;
          assert (before + last)[k] == last[j] && (beforePieces + lastPieces)[k] == lastPieces[j];
        }
      }
      FlattenAppend(beforePieces, lastPieces);
      assert windows == windows[..n] + [windows[n]];
      FlattenSnoc(windows[..n], windows[n]);
    }
  }

  /** Time splitting leaves the track whole unless it is on and the track is longer than
      25 minutes; when it is on, no window is longer than 25 minutes; either way the
      windows put together give back the track. */
  lemma WindowsTile(audio: Audio, splitOn: bool)
    ensures Flatten(Windows(audio, splitOn)) == audio
    ensures !splitOn || |audio| <= MAX_DURATION_MS ==> Windows(audio, splitOn) == [audio]
    ensures splitOn ==> forall i :: 0 <= i < |Windows(audio, splitOn)| ==> |Windows(audio, splitOn)[i]| <= MAX_DURATION_MS
  {
    DurationWindowsTile(audio, MAX_DURATION_MS);
    assert Flatten([audio]) == audio + [];
  }

  /** Every payload is counted exactly once, as compressed or as kept WAV. */
  lemma {:induction false} CountsAddUp(out: seq<Chunk>)
    ensures CountOgg(out) + CountWav(out) == |out| == |ChunkData(out)|
    ensures CountOgg(out) > 0 <==> exists k :: 0 <= k < |out| && out[k].Ogg?
    ensures CountWav(out) > 0 <==> exists k :: 0 <= k < |out| && out[k].Wav?
  {
    if out != [] {
      var n := |out| - 1;
      CountsAddUp(out[..n]);
      if CountOgg(out[..n]) > 0 {
        var k :| 0 <= k < n && out[..n][k].Ogg?;
        assert out[k].Ogg?;
      }
      if CountWav(out[..n]) > 0 {
        var k :| 0 <= k < n && out[..n][k].Wav?;
        assert out[k].Wav?;
      }
      if exists k :: 0 <= k < |out| && out[k].Ogg? {
        var k :| 0 <= k < |out| && out[k].Ogg?;
        if k < n {
          assert out[..n][k].Ogg?;
        }
      }
      if exists k :: 0 <= k < |out| && out[k].Wav? {
        var k :| 0 <= k < |out| && out[k].Wav?;
        if k < n {
          assert out[..n][k].Wav?;
        }
      }
    }
  }

  /** The label says which formats occur among the payloads: "mixed" when both do,
      "audio.ogg" when only OGG does, "audio.wav" when no OGG does. */
  lemma LabelMeaning(out: seq<Chunk>)
    ensures var tag := Label(CountOgg(out), CountWav(out));
      var hasOgg := exists k :: 0 <= k < |out| && out[k].Ogg?;
      var hasWav := exists k :: 0 <= k < |out| && out[k].Wav?;
      && (tag == "mixed" <==> hasOgg && hasWav)
      && (tag == "audio.ogg" <==> hasOgg && !hasWav)
      && (tag == "audio.wav" <==> !hasOgg)
  {
    CountsAddUp(out);
  }

  /** A run that is neither cancelled nor failed returns payloads that carry, one each
      and in order, stretches that put together give back the processed track, under
      the label of the formats used; the upload is left read to its end. */
  lemma CompletedRunCoversTrack(data: Bytes, pos: nat, name: string,
                                silenceOn: bool, compressOn: bool, splitOn: bool, env: Env)
    requires pos <= |data| && Exportable(env)
    requires forall step :: env.proceed(step)
    requires !env.copyFails && forall a :: !env.exportFails(a)
    requires env.decode(data).Some? && |env.decode(data).value| >= MIN_DURATION_MS
    ensures var audio := env.decode(data).value;
      var processed := if silenceOn then SilenceRemoved(audio, env.silence) else audio;
      var out := AllOutputs(Windows(processed, splitOn), compressOn, env);
      var pieces := AllPieces(Windows(processed, splitOn), compressOn, env);
      var r := Preprocess(data, pos, name, silenceOn, compressOn, splitOn, env);
      && r.pos == |data|
      && |r.chunks| == |out| == |pieces|
      && Flatten(pieces) == processed
      && (forall k :: 0 <= k < |out| ==> r.chunks[k] == out[k].data && Encodes(out[k], pieces[k], compressOn, env))
      && r.format == Label(CountOgg(out), CountWav(out))
  {
    var audio := env.decode(data).value;
    var processed := if silenceOn then SilenceRemoved(audio, env.silence) else audio;
    WindowsTile(processed, splitOn);
    AllEncode(Windows(processed, splitOn), compressOn, env);
  }

  /** The progress steps a run checks between decoding its track and the window loop:
      silence removal adds two, and cutting into windows adds one. Steps 90 and 100
      follow the window loop. */
  function PrepSteps(silenceOn: bool, split: bool): set<nat> {
    {30, 55, 60} + (if silenceOn then {35, 45} else {}) + (if split then {50} else {})
  }

  /** A run cancelled before the upload was copied returns the rest of the upload; one
      cancelled after returns a single empty payload, because copying read the upload
      to its end, at whichever later step the run checks it. A run whose temporary copy
      raises, whose upload does not decode or decodes to under 0.1 s, or whose window
      loop raises in an export rewinds and returns the whole upload. All of them
      return the upload's name. */
  lemma IncompleteRuns(data: Bytes, pos: nat, name: string,
                       silenceOn: bool, compressOn: bool, splitOn: bool, env: Env)
    requires pos <= |data| && Exportable(env)
    ensures var r := Preprocess(data, pos, name, silenceOn, compressOn, splitOn, env);
      && (!env.proceed(20) ==> r == Outcome([data[pos..]], name, |data|))
      && (env.proceed(20) && env.copyFails ==> r == Outcome([data], name, |data|))
      && (env.proceed(20) && !env.copyFails && !env.proceed(25) ==> r == Outcome([[]], name, |data|))
      && (env.proceed(20) && !env.copyFails && env.proceed(25)
          && (env.decode(data).None? || |env.decode(data).value| < MIN_DURATION_MS)
          ==> r == Outcome([data], name, |data|))
    ensures env.proceed(20) && !env.copyFails && env.proceed(25) && env.decode(data).Some?
            && |env.decode(data).value| >= MIN_DURATION_MS ==>
      var audio := env.decode(data).value;
      var processed := if silenceOn then SilenceRemoved(audio, env.silence) else audio;
      var steps := PrepSteps(silenceOn, splitOn && |processed| > MAX_DURATION_MS);
      var r := Preprocess(data, pos, name, silenceOn, compressOn, splitOn, env);
      var prepared := forall step :: step in steps ==> env.proceed(step);
      && (!prepared ==> r == Outcome([[]], name, |data|))
      && (prepared && SomeExportFails(Windows(processed, splitOn), env) ==> r == Outcome([data], name, |data|))
      && (prepared && !SomeExportFails(Windows(processed, splitOn), env) && (!env.proceed(90) || !env.proceed(100))
          ==> r == Outcome([[]], name, |data|))
  {
  }
}
