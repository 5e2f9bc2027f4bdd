/**
 * `improve_transcript`: the optional language-model post-processing of a plain-text
 * transcript. A short transcript gets a content pass and then a punctuation pass; a long
 * one is cut at ". " into sentences, the sentences are grouped greedily under 8000
 * characters, every group gets a content pass, and the joined result gets a punctuation
 * pass when it is short enough.
 *
 * The model, the user's cancel button and the progress callback are oracles in `Env`.
 * The cancel button and the progress callback are read by call number: `cancelled(n)`
 * is what the `n`-th cancellation check of a run sees, `proceed(n)` what the `n`-th
 * progress report answers.
 */
module Improvement {
  import opened Options
  import opened Seqs
  import opened Text

  /** `max_chunk_length` */
  const MAX_CHUNK_LENGTH: nat := 8000
  /** A reply must be longer than this, once stripped, to be accepted. */
  const MIN_REPLY_LENGTH: nat := 10

  /** Which prompt a call uses. */
  datatype Pass = Content | Punctuation

  /** `reply(pass, chunk)` is the model's answer to a request for `chunk` with
      `TokenBudget(chunk)` tokens, or `None` when the call raises. The budget is a
      function of the chunk, so the oracle need not take it separately. */
  datatype Env = Env(
    cancelled: nat -> bool,
    proceed: nat -> bool,
    reply: (Pass, string) -> Option<string>)

  /** How many cancellation checks and progress reports a run has made so far. */
  datatype Clock = Clock(polls: nat, reports: nat)

  /** Python truthiness of an optional string. */
  predicate Truthy(s: Option<string>) {
    s.Some? && s.value != ""
  }

  /** `max_tokens`: two and a half tokens per whitespace-separated word, rounded down,
      plus 50. */
  function TokenBudget(chunk: string): (budget: nat)
    ensures budget >= 50
    ensures 2 * (budget - 50) <= 5 * |Words(chunk)| < 2 * (budget - 50) + 2
  {
    5 * |Words(chunk)| / 2 + 50
  }

  /** What is made of the model's reply: the stripped reply when it is longer than ten
      characters, the chunk itself otherwise. */
  function Accept(chunk: string, reply: string): string {
    var text := Strip(reply);
    if |text| > MIN_REPLY_LENGTH then text else chunk
  }

  // ------------------------------------------------------- one model call

  /** What a pass makes of a chunk unless it is cancelled: the chunk itself when the
      call raises, the accepted reply otherwise. */
  function Refined(env: Env, pass: Pass, chunk: string): (r: string)
    ensures chunk != "" ==> r != ""
  {
    match env.reply(pass, chunk)
    case None => chunk
    case Some(reply) => Accept(chunk, reply)
  }

  /** The result of one `_improve_single_chunk` call and the clock after it. */
  datatype Improved = Improved(text: Option<string>, clock: Clock)

  /** `_improve_single_chunk`: `None` when a cancellation is seen before the call, or
      after a call that did not raise; otherwise what the pass makes of the chunk. */
  function ImproveChunk(env: Env, clock: Clock, pass: Pass, chunk: string): (r: Improved)
    ensures r.clock.reports == clock.reports
    ensures clock.polls < r.clock.polls <= clock.polls + 2
  {
    var raised := env.reply(pass, chunk).None?;
    if env.cancelled(clock.polls) then Improved(None, clock.(polls := clock.polls + 1))
    else if raised then Improved(Some(Refined(env, pass, chunk)), clock.(polls := clock.polls + 1))
    else if env.cancelled(clock.polls + 1) then Improved(None, clock.(polls := clock.polls + 2))
    else Improved(Some(Refined(env, pass, chunk)), clock.(polls := clock.polls + 2))
  }

  /** A single call never returns a short reply: it returns nothing, the chunk, or a
      stripped reply of more than ten characters; and it returns nothing exactly when
      a cancellation is seen before the call, or after a call that did not raise. */
  lemma ImproveChunkResult(env: Env, clock: Clock, pass: Pass, chunk: string)
    ensures var r := ImproveChunk(env, clock, pass, chunk);
      var reply := env.reply(pass, chunk);
      && (r.text.None? <==> env.cancelled(clock.polls) || (reply.Some? && env.cancelled(clock.polls + 1)))
      && (r.text.Some? ==>
            (r.text.value == chunk
             || (reply.Some? && r.text.value == Strip(reply.value) && |r.text.value| > MIN_REPLY_LENGTH)))
      && (chunk != "" && r.text.Some? ==> Truthy(r.text))
  {
  }

  /** The run is never cancelled and every progress report lets it go on. */
  ghost predicate Uninterrupted(env: Env) {
    (forall n :: !env.cancelled(n)) && (forall n :: env.proceed(n))
  }

  // --------------------------------------------------------- short path

  /** The two-pass path for a transcript of at most 8000 characters: the punctuation
      pass's text when it is truthy and no cancellation follows, the content pass's
      text otherwise; nothing when the content pass gives nothing or is cancelled. */
  function ShortPath(env: Env, clock: Clock, transcript: string): Option<string> {
    if !env.proceed(clock.reports) then None
    else
      var first := ImproveChunk(env, clock.(reports := clock.reports + 1), Content, transcript);
      if !Truthy(first.text) || env.cancelled(first.clock.polls) then None
      else if !env.proceed(first.clock.reports) then None
      else
        var after := Clock(first.clock.polls + 1, first.clock.reports + 1);
        var second := ImproveChunk(env, after, Punctuation, first.text.value);
        if Truthy(second.text) && !env.cancelled(second.clock.polls) then
          if env.proceed(second.clock.reports) then second.text else None
        else if env.proceed(second.clock.reports) then first.text
        else None
  }

  // ---------------------------------------------------------- grouping

  /** The text sent for a group of sentences: each sentence followed by ". ". */
  function GroupText(group: seq<string>): string {
    if group == [] then ""
    else GroupText(group[..|group| - 1]) + group[|group| - 1] + ". "
  }

  /** The greedy grouping of `improve_transcript`, from sentence `i` on with the group
      `open` being filled: a sentence joins the open group while the open group's text
      and the sentence together stay under 8000 characters; otherwise the open group is
      closed and the sentence starts the next one. The last group is the open one. */
  function GroupsFrom(sentences: seq<string>, i: nat, open: seq<string>): seq<seq<string>>
    decreases |sentences| - i
  {
    if i >= |sentences| then [open]
    else if |GroupText(open) + sentences[i]| < MAX_CHUNK_LENGTH then
      GroupsFrom(sentences, i + 1, open + [sentences[i]])
    else [open] + GroupsFrom(sentences, i + 1, [sentences[i]])
  }

  function Groups(sentences: seq<string>): seq<seq<string>> {
    GroupsFrom(sentences, 0, [])
  }

  lemma GroupTextSnoc(group: seq<string>, s: string)
    ensures GroupText(group + [s]) == GroupText(group) + s + ". "
  {
    assert (group + [s])[..|group|] == group;
  }

  lemma GroupTextSingle(s: string)
    ensures GroupText([s]) == s + ". "
  {
    GroupTextSnoc([], s);
    assert [] + [s] == [s];
  }

  /** A group's text holds each of its sentences and two characters per sentence. */
  lemma {:induction false} GroupTextLength(group: seq<string>, j: nat)
    requires j < |group|
    ensures |GroupText(group)| >= |group[j]| + 2 * |group|
  {
    var n := |group| - 1;
    GroupTextAtLeast(group[..n]);
    if j < n {
      GroupTextLength(group[..n], j);
    }
  }

  lemma {:induction false} GroupTextAtLeast(group: seq<string>)
    ensures |GroupText(group)| >= 2 * |group|
  {
    if group != [] {
      GroupTextAtLeast(group[..|group| - 1]);
    }
  }

  /** Every sentence lands in exactly one group, in order; only a group opened on an
      empty text can be empty, and any group of two or more sentences stays under
      8002 characters. */
  lemma {:induction false} GroupsFromPartition(sentences: seq<string>, i: nat, open: seq<string>)
    requires i <= |sentences|
    requires |open| <= 1 || |GroupText(open)| < MAX_CHUNK_LENGTH + 2
    ensures var gs := GroupsFrom(sentences, i, open);
      && Flatten(gs) == open + sentences[i..]
      && |gs[0]| >= |open| && gs[0][..|open|] == open
      && (forall k :: 1 <= k < |gs| ==> gs[k] != [])
      && (forall k :: 0 <= k < |gs| ==> |gs[k]| <= 1 || |GroupText(gs[k])| < MAX_CHUNK_LENGTH + 2)
      && (forall k :: 0 <= k < |gs| - 1 ==> |GroupText(gs[k]) + gs[k + 1][0]| >= MAX_CHUNK_LENGTH)
    decreases |sentences| - i
  {
    var gs := GroupsFrom(sentences, i, open);
    if i == |sentences| {
      assert Flatten(gs) == open + [];
    } else {
      var s := sentences[i];
      assert sentences[i..] == [s] + sentences[i + 1..];
      GroupTextSnoc(open, s);
      if |GroupText(open) + s| < MAX_CHUNK_LENGTH {
        GroupsFromPartition(sentences, i + 1, open + [s]);
        assert gs[0][..|open| + 1] == open + [s];
        assert gs[0][..|open| + 1][..|open|] == gs[0][..|open|];
      } else {
        var rest := GroupsFrom(sentences, i + 1, [s]);
        assert GroupText([s]) == GroupText([]) + s + ". " by { GroupTextSnoc([], s); }
        GroupsFromPartition(sentences, i + 1, [s]);
        assert gs == [open] + rest;
        assert gs[1..] == rest;
        assert rest[0][..1] == [s];
        assert gs[1][0] == s;
      }
    }
  }

  /** The grouping of a sentence list: the groups put together give back the sentences;
      every group but possibly the first is non-empty; a group of two or more sentences
      has a text under 8002 characters; each group was closed only because the next
      sentence would have reached 8000 characters; and a sentence of 8000 characters or
      more is a group by itself. */
  lemma GroupsPartition(sentences: seq<string>)
    ensures var gs := Groups(sentences);
      && Flatten(gs) == sentences
      && (forall k :: 1 <= k < |gs| ==> gs[k] != [])
      && (forall k :: 0 <= k < |gs| ==> |gs[k]| <= 1 || |GroupText(gs[k])| < MAX_CHUNK_LENGTH + 2)
      && (forall k :: 0 <= k < |gs| - 1 ==> |GroupText(gs[k]) + gs[k + 1][0]| >= MAX_CHUNK_LENGTH)
      && (forall k, j :: 0 <= k < |gs| && 0 <= j < |gs[k]| && |gs[k][j]| >= MAX_CHUNK_LENGTH
            ==> gs[k] == [gs[k][j]])
  {
    var gs := Groups(sentences);
    GroupsFromPartition(sentences, 0, []);
    assert sentences[0..] == sentences;
    forall k, j | 0 <= k < |gs| && 0 <= j < |gs[k]| && |gs[k][j]| >= MAX_CHUNK_LENGTH
      ensures gs[k] == [gs[k][j]]
    {
      GroupTextLength(gs[k], j);
    }
  }

  // ---------------------------------------------------------- long path

  /** The state of the long path: the improved groups so far, or `None` once the run
      has returned nothing. */
  datatype Grouped = Grouped(improved: Option<seq<string>>, clock: Clock)

  /** Closing a group: a blank group is dropped; otherwise, after a progress report,
      its stripped text gets a content pass, and the pass's text is kept when truthy,
      the stripped text otherwise. */
  function Flush(env: Env, clock: Clock, current: string, improved: seq<string>): Grouped {
    var chunk := Strip(current);
    if chunk == [] then Grouped(Some(improved), clock)
    else if !env.proceed(clock.reports) then Grouped(None, clock.(reports := clock.reports + 1))
    else
      var r := ImproveChunk(env, clock.(reports := clock.reports + 1), Content, chunk);
      Grouped(Some(improved + [if Truthy(r.text) then r.text.value else chunk]), r.clock)
  }

  /** The sentence loop from sentence `i` on, with the open group's text `current`,
      and the closing of the last group. */
  function LongFrom(env: Env, sentences: seq<string>, i: nat, current: string,
                    improved: seq<string>, clock: Clock): Grouped
    decreases |sentences| - i
  {
    if i >= |sentences| then Flush(env, clock, current, improved)
    else if env.cancelled(clock.polls) then Grouped(None, clock.(polls := clock.polls + 1))
    else
      var polled := clock.(polls := clock.polls + 1);
      var sentence := sentences[i];
      if |current + sentence| < MAX_CHUNK_LENGTH then
        LongFrom(env, sentences, i + 1, current + sentence + ". ", improved, polled)
      else
        var closed := Flush(env, polled, current, improved);
        if closed.improved.None? then closed
        else LongFrom(env, sentences, i + 1, sentence + ". ", closed.improved.value, closed.clock)
  }

  /** After the loop: nothing when no group was improved or a cancellation is seen;
      otherwise the groups joined by a space, given a punctuation pass when that text
      has at most 8000 characters and the pass's text is truthy and not cancelled. */
  function Finish(env: Env, improved: seq<string>, clock: Clock): Option<string> {
    if improved == [] || env.cancelled(clock.polls) then None
    else
      var combined := Join(improved, " ");
      if !env.proceed(clock.reports) then None
      else
        var after := Clock(clock.polls + 1, clock.reports + 1);
        if |combined| <= MAX_CHUNK_LENGTH then
          var second := ImproveChunk(env, after, Punctuation, combined);
          if Truthy(second.text) && !env.cancelled(second.clock.polls) then
            if env.proceed(second.clock.reports) then second.text else None
          else if env.proceed(second.clock.reports) then Some(combined)
          else None
        else if env.proceed(after.reports) then Some(combined)
        else None
  }

  /** The path for a transcript of more than 8000 characters. */
  function LongPath(env: Env, clock: Clock, transcript: string): Option<string> {
    if !env.proceed(clock.reports) then None
    else
      var g := LongFrom(env, Split(transcript, ". "), 0, "", [], clock.(reports := clock.reports + 1));
      if g.improved.None? then None else Finish(env, g.improved.value, g.clock)
  }

  /** `improve_transcript` */
  function Improve(env: Env, transcript: string): Option<string> {
    if Strip(transcript) == [] then None
    else if env.cancelled(0) || !env.proceed(0) then None
    else if |transcript| <= MAX_CHUNK_LENGTH then ShortPath(env, Clock(1, 1), transcript)
    else LongPath(env, Clock(1, 1), transcript)
  }

  /** `improve_transcript` */
  method ImproveTranscript(transcript: string, env: Env) returns (result: Option<string>)
    ensures result == Improve(env, transcript)
  {
    if Strip(transcript) == [] {
      return None;
    }
    if env.cancelled(0) || !env.proceed(0) {
      return None;
    }
    if |transcript| <= MAX_CHUNK_LENGTH {
      return ShortPath(env, Clock(1, 1), transcript);
    }
    result := ImproveLongTranscript(transcript, env);
  }

  /** The long path of `improve_transcript`. */
  method ImproveLongTranscript(transcript: string, env: Env) returns (result: Option<string>)
    ensures result == LongPath(env, Clock(1, 1), transcript)
  {
    if !env.proceed(1) {
      return None;
    }
    var ok, polls, reports, improvedChunks := GroupSentences(env, Split(transcript, ". "), Clock(1, 2));
    if !ok {
      return None;
    }
    return Finish(env, improvedChunks, Clock(polls, reports));
  }

  /** The sentence loop of the long path and the closing of the last group: the
      improved groups and the clock, or `ok` false once the run has returned nothing. */
  method GroupSentences(env: Env, sentences: seq<string>, start: Clock)
    returns (ok: bool, polls: nat, reports: nat, improvedChunks: seq<string>)
    ensures var whole := LongFrom(env, sentences, 0, "", [], start);
      && (ok <==> whole.improved.Some?)
      && (ok ==> whole == Grouped(Some(improvedChunks), Clock(polls, reports)))
  {
    polls, reports, improvedChunks := start.polls, start.reports, [];
    var currentChunk := "";
    ghost var whole := LongFrom(env, sentences, 0, currentChunk, improvedChunks, Clock(polls, reports));
    for i := 0 to |sentences|
      invariant whole == LongFrom(env, sentences, i, currentChunk, improvedChunks, Clock(polls, reports))
    {
      LongStep(env, sentences, i, currentChunk, improvedChunks, Clock(polls, reports));
      if env.cancelled(polls) {
        return false, polls, reports, improvedChunks;
      }
      polls := polls + 1;
      var sentence := sentences[i];
      if |currentChunk + sentence| < MAX_CHUNK_LENGTH {
        currentChunk := currentChunk + sentence + ". ";
      } else {
        ghost var closed := Flush(env, Clock(polls, reports), currentChunk, improvedChunks);
        ok, polls, reports, improvedChunks := FlushGroup(env, polls, reports, currentChunk, improvedChunks);
        if !ok {
          return;
        }
        assert closed == Grouped(Some(improvedChunks), Clock(polls, reports));
        currentChunk := sentence + ". ";
      }
    }
    assert whole == Flush(env, Clock(polls, reports), currentChunk, improvedChunks);
    ok, polls, reports, improvedChunks := FlushGroup(env, polls, reports, currentChunk, improvedChunks);
  }

  /** Closing the group `currentChunk`, written out twice in the source: in the
      sentence loop and after it. `ok` is false when the progress report stops the run. */
  method FlushGroup(env: Env, polls: nat, reports: nat, currentChunk: string, improvedChunks: seq<string>)
    returns (ok: bool, polls': nat, reports': nat, improvedChunks': seq<string>)
    ensures var closed := Flush(env, Clock(polls, reports), currentChunk, improvedChunks);
      && (ok <==> closed.improved.Some?)
      && (ok ==> closed == Grouped(Some(improvedChunks'), Clock(polls', reports')))
  {
    FlushCases(env, Clock(polls, reports), currentChunk, improvedChunks);
    polls', reports', improvedChunks' := polls, reports, improvedChunks;
    var chunk := Strip(currentChunk);
    if chunk != [] {
      if !env.proceed(reports) {
        return false, polls', reports', improvedChunks';
      }
      reports' := reports + 1;
      var r := ImproveChunk(env, Clock(polls, reports'), Content, chunk);
      polls' := r.clock.polls;
      improvedChunks' := improvedChunks + [if Truthy(r.text) then r.text.value else chunk];
    }
    ok := true;
  }

  /** `Flush` case by case, with the report counter and the clock spelled out. */
  lemma FlushCases(env: Env, clock: Clock, current: string, improved: seq<string>)
    ensures var chunk := Strip(current);
      var r := ImproveChunk(env, Clock(clock.polls, clock.reports + 1), Content, chunk);
      Flush(env, clock, current, improved)
        == if chunk == [] then Grouped(Some(improved), clock)
           else if !env.proceed(clock.reports) then Grouped(None, Clock(clock.polls, clock.reports + 1))
           else Grouped(Some(improved + [if Truthy(r.text) then r.text.value else chunk]), r.clock)
  {
    var reported := Clock(clock.polls, clock.reports + 1);
    assert clock.(reports := clock.reports + 1) == reported;
    if Strip(current) != [] && env.proceed(clock.reports) {
      var r := ImproveChunk(env, reported, Content, Strip(current));
      assert Flush(env, clock, current, improved)
        == Grouped(Some(improved + [if Truthy(r.text) then r.text.value else Strip(current)]), r.clock);
    }
  }

  /** One turn of the sentence loop. */
  lemma LongStep(env: Env, sentences: seq<string>, i: nat, current: string,
                 improved: seq<string>, clock: Clock)
    requires i < |sentences|
    ensures var g := LongFrom(env, sentences, i, current, improved, clock);
      var polled := Clock(clock.polls + 1, clock.reports);
      var s := sentences[i];
      var closed := Flush(env, polled, current, improved);
      && (env.cancelled(clock.polls) ==> g.improved.None?)
      && (!env.cancelled(clock.polls) && |current + s| < MAX_CHUNK_LENGTH
          ==> g == LongFrom(env, sentences, i + 1, current + s + ". ", improved, polled))
      && (!env.cancelled(clock.polls) && |current + s| >= MAX_CHUNK_LENGTH && closed.improved.None?
          ==> g.improved.None?)
      && (!env.cancelled(clock.polls) && |current + s| >= MAX_CHUNK_LENGTH && closed.improved.Some?
          ==> g == LongFrom(env, sentences, i + 1, s + ". ", closed.improved.value, closed.clock))
  {
    assert clock.(polls := clock.polls + 1) == Clock(clock.polls + 1, clock.reports);
  }

  // ---------------------------------------------------------- properties

  /** A blank transcript gets nothing back, whatever the model would say. */
  lemma BlankTranscript(env: Env, transcript: string)
    requires IsBlank(transcript)
    ensures Improve(env, transcript) == None
  {
    StripEmptyIffBlank(transcript);
  }

  /** Uninterrupted, a short transcript comes back with both passes applied. */
  lemma ShortTranscriptTwoPasses(env: Env, transcript: string)
    requires Uninterrupted(env)
    requires !IsBlank(transcript) && |transcript| <= MAX_CHUNK_LENGTH
    ensures Improve(env, transcript) == Some(Refined(env, Punctuation, Refined(env, Content, transcript)))
  {
    ImproveIsShortPath(env, transcript);
    var first := ImproveChunk(env, Clock(1, 2), Content, transcript);
    ChunkUninterrupted(env, Clock(1, 2), Content, transcript);
    var after := Clock(first.clock.polls + 1, first.clock.reports + 1);
    ChunkUninterrupted(env, after, Punctuation, first.text.value);
  }

  /** A non-blank short transcript that passes the first check and report takes the
      short path. */
  lemma ImproveIsShortPath(env: Env, transcript: string)
    requires !IsBlank(transcript) && |transcript| <= MAX_CHUNK_LENGTH
    requires !env.cancelled(0) && env.proceed(0)
    ensures transcript != ""
    ensures Improve(env, transcript) == ShortPath(env, Clock(1, 1), transcript)
  {
    StripEmptyIffBlank(transcript);
  }

  lemma ChunkUninterrupted(env: Env, clock: Clock, pass: Pass, chunk: string)
    requires !env.cancelled(clock.polls) && !env.cancelled(clock.polls + 1)
    ensures ImproveChunk(env, clock, pass, chunk).text == Some(Refined(env, pass, chunk))
  {
  }

  /** Once the content pass of a short transcript has given text and no cancellation
      follows it, the punctuation pass falls back to that text whenever it gives
      nothing truthy or a cancellation is seen: before its call, after its call, or at
      the check that follows it. The text is returned if the last progress report lets
      the run finish, nothing otherwise. */
  lemma CancelledSecondPassKeepsFirst(env: Env, transcript: string)
    requires !IsBlank(transcript) && |transcript| <= MAX_CHUNK_LENGTH
    requires !env.cancelled(0) && env.proceed(0)
    ensures var first := ImproveChunk(env, Clock(1, 2), Content, transcript);
      var second := ImproveChunk(env, Clock(first.clock.polls + 1, 3), Punctuation, Refined(env, Content, transcript));
      Truthy(first.text) && !env.cancelled(first.clock.polls) && env.proceed(1) && env.proceed(2)
      && (env.cancelled(first.clock.polls + 1) || !Truthy(second.text) || env.cancelled(second.clock.polls))
      ==> Improve(env, transcript) == (if env.proceed(3) then Some(Refined(env, Content, transcript)) else None)
  {
    ImproveIsShortPath(env, transcript);
    var first := ImproveChunk(env, Clock(1, 2), Content, transcript);
    if Truthy(first.text) && !env.cancelled(first.clock.polls) && env.proceed(1) && env.proceed(2) {
      var text := Refined(env, Content, transcript);
      assert first.text == Some(text);
      var after := Clock(first.clock.polls + 1, 3);
      var second := ImproveChunk(env, after, Punctuation, text);
      ImproveChunkResult(env, after, Punctuation, text);
      assert second.clock.reports == 3;
      if env.cancelled(first.clock.polls + 1) || !Truthy(second.text) || env.cancelled(second.clock.polls) {
        assert ShortPath(env, Clock(1, 1), transcript) == if env.proceed(3) then Some(text) else None;
      }
    }
  }

  /** The improved texts of the non-blank groups, in order, when nothing is cancelled. */
  function ImprovedGroups(env: Env, groups: seq<seq<string>>): seq<string> {
    if groups == [] then []
    else
      var chunk := Strip(GroupText(groups[0]));
      (if chunk == [] then [] else [Refined(env, Content, chunk)]) + ImprovedGroups(env, groups[1..])
  }

  /** Closing a group, uninterrupted, adds its improved text unless it is blank. */
  lemma FlushUninterrupted(env: Env, clock: Clock, current: string, improved: seq<string>)
    requires env.proceed(clock.reports) && !env.cancelled(clock.polls) && !env.cancelled(clock.polls + 1)
    ensures Flush(env, clock, current, improved).improved
      == Some(improved + (if Strip(current) == [] then [] else [Refined(env, Content, Strip(current))]))
  {
    var chunk := Strip(current);
    if chunk == [] {
      assert improved + [] == improved;
    } else {
      ChunkUninterrupted(env, clock.(reports := clock.reports + 1), Content, chunk);
      assert Refined(env, Content, chunk) != "";
    }
  }

  lemma ImprovedGroup(env: Env, open: seq<string>)
    ensures ImprovedGroups(env, [open])
      == if Strip(GroupText(open)) == [] then [] else [Refined(env, Content, Strip(GroupText(open)))]
  {
    assert [open][1..] == [];
  }

  lemma ImprovedGroupsCons(env: Env, group: seq<string>, rest: seq<seq<string>>)
    ensures ImprovedGroups(env, [group] + rest) == ImprovedGroups(env, [group]) + ImprovedGroups(env, rest)
  {
    assert ([group] + rest)[1..] == rest;
    assert [group][1..] == [];
  }

  lemma LongFromGroupsEnd(env: Env, sentences: seq<string>, open: seq<string>,
                          improved: seq<string>, clock: Clock)
    requires env.proceed(clock.reports) && !env.cancelled(clock.polls) && !env.cancelled(clock.polls + 1)
    ensures LongFrom(env, sentences, |sentences|, GroupText(open), improved, clock).improved
      == Some(improved + ImprovedGroups(env, GroupsFrom(sentences, |sentences|, open)))
  {
    FlushUninterrupted(env, clock, GroupText(open), improved);
    ImprovedGroup(env, open);
  }

  /** A turn of the loop that closes the open group, given what the rest of the loop
      does after it. */
  lemma LongFromGroupsClose(env: Env, sentences: seq<string>, i: nat, open: seq<string>,
                            improved: seq<string>, clock: Clock, after: Clock)
    requires i < |sentences| && |GroupText(open) + sentences[i]| >= MAX_CHUNK_LENGTH
    requires !env.cancelled(clock.polls)
    requires Flush(env, Clock(clock.polls + 1, clock.reports), GroupText(open), improved)
      == Grouped(Some(improved + ImprovedGroups(env, [open])), after)
    requires LongFrom(env, sentences, i + 1, sentences[i] + ". ", improved + ImprovedGroups(env, [open]), after).improved
      == Some((improved + ImprovedGroups(env, [open]))
              + ImprovedGroups(env, GroupsFrom(sentences, i + 1, [sentences[i]])))
    ensures LongFrom(env, sentences, i, GroupText(open), improved, clock).improved
      == Some(improved + ImprovedGroups(env, GroupsFrom(sentences, i, open)))
  {
    LongStepClose(env, sentences, i, GroupText(open), improved, clock);
    ClosedGroups(env, sentences, i, open);
    AppendAssoc(improved, ImprovedGroups(env, [open]),
                ImprovedGroups(env, GroupsFrom(sentences, i + 1, [sentences[i]])));
  }

  lemma ClosedGroups(env: Env, sentences: seq<string>, i: nat, open: seq<string>)
    requires i < |sentences| && |GroupText(open) + sentences[i]| >= MAX_CHUNK_LENGTH
    ensures ImprovedGroups(env, GroupsFrom(sentences, i, open))
      == ImprovedGroups(env, [open]) + ImprovedGroups(env, GroupsFrom(sentences, i + 1, [sentences[i]]))
  {
    var rest := GroupsFrom(sentences, i + 1, [sentences[i]]);
    assert GroupsFrom(sentences, i, open) == [open] + rest;
    ImprovedGroupsCons(env, open, rest);
  }

  lemma LongStepClose(env: Env, sentences: seq<string>, i: nat, current: string,
                      improved: seq<string>, clock: Clock)
    requires i < |sentences| && !env.cancelled(clock.polls)
    requires |current + sentences[i]| >= MAX_CHUNK_LENGTH
    requires Flush(env, Clock(clock.polls + 1, clock.reports), current, improved).improved.Some?
    ensures var closed := Flush(env, Clock(clock.polls + 1, clock.reports), current, improved);
      LongFrom(env, sentences, i, current, improved, clock)
        == LongFrom(env, sentences, i + 1, sentences[i] + ". ", closed.improved.value, closed.clock)
  {
    LongStep(env, sentences, i, current, improved, clock);
  }

  lemma AppendAssoc<T>(a: seq<T>, b: seq<T>, c: seq<T>)
    ensures (a + b) + c == a + (b + c)
  {
  }

  /** Uninterrupted, the sentence loop improves exactly the non-blank groups of the
      greedy grouping, in order. */
  lemma {:induction false} LongFromGroups(env: Env, sentences: seq<string>, i: nat, open: seq<string>,
                                          improved: seq<string>, clock: Clock)
    requires Uninterrupted(env) && i <= |sentences|
    ensures LongFrom(env, sentences, i, GroupText(open), improved, clock).improved
      == Some(improved + ImprovedGroups(env, GroupsFrom(sentences, i, open)))
    decreases |sentences| - i, 1
  {
    var current := GroupText(open);
    assert env.proceed(clock.reports) && !env.cancelled(clock.polls);
    assert !env.cancelled(clock.polls + 1) && !env.cancelled(clock.polls + 2);
    if i == |sentences| {
      LongFromGroupsEnd(env, sentences, open, improved, clock);
    } else {
      var s := sentences[i];
      var polled := Clock(clock.polls + 1, clock.reports);
      if |current + s| < MAX_CHUNK_LENGTH {
        LongStep(env, sentences, i, current, improved, clock);
        GroupTextSnoc(open, s);
        LongFromGroups(env, sentences, i + 1, open + [s], improved, polled);
      } else {
        LongFromGroupsClosing(env, sentences, i, open, improved, clock);
      }
    }
  }

  lemma {:induction false} LongFromGroupsClosing(env: Env, sentences: seq<string>, i: nat, open: seq<string>,
                                                 improved: seq<string>, clock: Clock)
    requires Uninterrupted(env) && i < |sentences|
    requires |GroupText(open) + sentences[i]| >= MAX_CHUNK_LENGTH
    ensures LongFrom(env, sentences, i, GroupText(open), improved, clock).improved
      == Some(improved + ImprovedGroups(env, GroupsFrom(sentences, i, open)))
    decreases |sentences| - i, 0
  {
    var s := sentences[i];
    var polled := Clock(clock.polls + 1, clock.reports);
    assert !env.cancelled(clock.polls) && env.proceed(polled.reports);
    assert !env.cancelled(polled.polls) && !env.cancelled(polled.polls + 1);
    FlushUninterrupted(env, polled, GroupText(open), improved);
    ImprovedGroup(env, open);
    var closed := Flush(env, polled, GroupText(open), improved);
    var kept := improved + ImprovedGroups(env, [open]);
    assert closed == Grouped(Some(kept), closed.clock);
    LongFromGroups(env, sentences, i + 1, [s], kept, closed.clock);
    GroupTextSingle(s);
    assert LongFrom(env, sentences, i + 1, s + ". ", kept, closed.clock).improved
      == Some(kept + ImprovedGroups(env, GroupsFrom(sentences, i + 1, [s])));
    LongFromGroupsClose(env, sentences, i, open, improved, clock, closed.clock);
  }

  /** Uninterrupted, the end of the long path joins the improved groups and gives the
      result a punctuation pass when it has at most 8000 characters. */
  lemma FinishUninterrupted(env: Env, improved: seq<string>, clock: Clock)
    requires Uninterrupted(env)
    requires forall k :: 0 <= k < |improved| ==> improved[k] != ""
    ensures var combined := Join(improved, " ");
      Finish(env, improved, clock)
        == if improved == [] then None
           else if |combined| <= MAX_CHUNK_LENGTH then Some(Refined(env, Punctuation, combined))
           else Some(combined)
  {
    if improved != [] {
      var combined := Join(improved, " ");
      JoinNonEmpty(improved, " ");
      var after := Clock(clock.polls + 1, clock.reports + 1);
      assert !env.cancelled(clock.polls) && env.proceed(clock.reports) && env.proceed(after.reports);
      assert !env.cancelled(after.polls) && !env.cancelled(after.polls + 1) && !env.cancelled(after.polls + 2);
      if |combined| <= MAX_CHUNK_LENGTH {
        var second := ImproveChunk(env, after, Punctuation, combined);
        assert second.text == Some(Refined(env, Punctuation, combined));
        assert !env.cancelled(second.clock.polls) && env.proceed(second.clock.reports);
      }
    }
  }

  /** Uninterrupted, a long transcript comes back as the content-pass texts of the
      non-blank groups of its sentences joined by a space, given a punctuation pass
      when that text has at most 8000 characters; nothing when no group is non-blank. */
  lemma LongTranscriptGroups(env: Env, transcript: string)
    requires Uninterrupted(env)
    requires !IsBlank(transcript) && |transcript| > MAX_CHUNK_LENGTH
    ensures var improved := ImprovedGroups(env, Groups(Split(transcript, ". ")));
      var combined := Join(improved, " ");
      Improve(env, transcript)
        == if improved == [] then None
           else if |combined| <= MAX_CHUNK_LENGTH then Some(Refined(env, Punctuation, combined))
           else Some(combined)
  {
    var sentences := Split(transcript, ". ");
    var improved := ImprovedGroups(env, Groups(sentences));
    assert !env.cancelled(0) && env.proceed(0) && env.proceed(1);
    ImproveIsLongPath(env, transcript);
    LongFromGroups(env, sentences, 0, [], [], Clock(1, 2));
    var g := LongFrom(env, sentences, 0, "", [], Clock(1, 2));
    assert GroupText([]) == "";
    assert [] + improved == improved;
    assert g.improved == Some(improved);
    ImprovedNonEmpty(env, Groups(sentences));
    FinishUninterrupted(env, improved, g.clock);
  }

  /** A non-blank long transcript that passes the first check takes the long path. */
  lemma ImproveIsLongPath(env: Env, transcript: string)
    requires !IsBlank(transcript) && |transcript| > MAX_CHUNK_LENGTH
    requires !env.cancelled(0) && env.proceed(0)
    ensures Improve(env, transcript) == LongPath(env, Clock(1, 1), transcript)
  {
    StripEmptyIffBlank(transcript);
  }

  lemma {:induction false} ImprovedNonEmpty(env: Env, groups: seq<seq<string>>)
    ensures forall k :: 0 <= k < |ImprovedGroups(env, groups)| ==> ImprovedGroups(env, groups)[k] != ""
  {
    if groups != [] {
      ImprovedNonEmpty(env, groups[1..]);
    }
  }

  lemma {:induction false} JoinNonEmpty(parts: seq<string>, sep: string)
    requires parts != [] && parts[0] != ""
    ensures Join(parts, sep) != ""
  {
  }
}
