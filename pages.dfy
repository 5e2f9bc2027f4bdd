/**
 * The two pieces of `transcription_app/ui/pages.py` that decide something: the
 * transcription pipeline behind the "Transcribe" button (`handle_transcription`) and the
 * paged, searchable history (`render_history_section`).
 *
 * Widgets are inputs: a run of the history section sees at most one click, and the
 * pipeline's cancellation checks are an oracle. The page number and the last search query
 * live in the Streamlit session, modelled as the `Pager` class.
 */
module Pages {
  import opened Options
  import opened Seqs
  import opened Text
  import opened Arith
  import opened Models
  import opened AudioUtils
  import opened Preprocessing
  import opened Transcription
  import Improvement

  /** `items_per_page` */
  const ITEMS_PER_PAGE: nat := 5

  // --------------------------------------------------------------- pagination

  /** The number of history pages for `total` matches: one page even when nothing
      matches, otherwise just enough pages of five to hold every match. */
  function TotalPages(total: nat): (pages: nat)
    ensures pages >= 1
    ensures total <= pages * ITEMS_PER_PAGE
    ensures pages == 1 || (pages - 1) * ITEMS_PER_PAGE < total
  {
    Max(1, (total + ITEMS_PER_PAGE - 1) / ITEMS_PER_PAGE)
  }

  /** `max(1, min(page, total_pages))` */
  function Clamp(page: int, totalPages: nat): (p: int)
    requires totalPages >= 1
    ensures 1 <= p <= totalPages
    ensures 1 <= page <= totalPages ==> p == page
    ensures page < 1 ==> p == 1
    ensures page > totalPages ==> p == totalPages
  {
    Max(1, Min(page, totalPages))
  }

  /** The page a run of the history section settles on before any click is handled,
      given the session's page and last query (None: not set yet). */
  function SyncedPage(page: Option<int>, lastQuery: Option<string>, query: string, totalPages: nat): (p: int)
    requires totalPages >= 1
    ensures 1 <= p <= totalPages
    ensures query != lastQuery.GetOr("") ==> p == 1
    ensures query == lastQuery.GetOr("") && page.Some? && 1 <= page.value <= totalPages ==> p == page.value
    ensures page.None? ==> p == 1
  {
    Clamp(if query != lastQuery.GetOr("") then 1 else page.GetOr(1), totalPages)
  }

  /** The items shown on page `page`: Python's `items[start:end]` with
      `start = (page - 1) * 5` and `end = min(start + 5, len(items))`. */
  function PageItems<T>(items: seq<T>, page: int): (shown: seq<T>)
    requires page >= 1
    ensures |shown| <= ITEMS_PER_PAGE
    ensures forall k :: 0 <= k < |shown| ==>
              (page - 1) * ITEMS_PER_PAGE + k < |items| && shown[k] == items[(page - 1) * ITEMS_PER_PAGE + k]
    ensures 0 < |items| && page <= TotalPages(|items|) ==> |shown| >= 1
    ensures page < TotalPages(|items|) ==> |shown| == ITEMS_PER_PAGE
  {
    var start := (page - 1) * ITEMS_PER_PAGE;
    if start >= |items| then [] else items[start..Min(start + ITEMS_PER_PAGE, |items|)]
  }

  /** Every match is shown on some page the history offers: item `i` on page
      `i / 5 + 1`, in slot `i % 5` (and, by `PageItems`, on no other page or slot). */
  lemma EveryItemOnOnePage<T>(items: seq<T>, i: nat)
    requires i < |items|
    ensures 1 <= i / ITEMS_PER_PAGE + 1 <= TotalPages(|items|)
    ensures i % ITEMS_PER_PAGE < |PageItems(items, i / ITEMS_PER_PAGE + 1)|
    ensures PageItems(items, i / ITEMS_PER_PAGE + 1)[i % ITEMS_PER_PAGE] == items[i]
  {
    var page := i / ITEMS_PER_PAGE + 1;
    assert (page - 1) * ITEMS_PER_PAGE + i % ITEMS_PER_PAGE == i;
  }

  /** The id a history item is deleted by: its own, or its position in the matches. */
  function ItemId(item: Record, position: nat): (id: string)
    ensures item.id.Some? ==> id == item.id.value
    ensures item.id.None? ==> AllDigits(id) && DigitsValue(id) == position
  {
    match item.id
    case Some(id) => id
    case None => DigitsValueOfNatToString(position); NatToString(position)
  }

  /** When the only item of a page after the first is deleted from the matches, the page
      before it is the last page of what remains, so the decremented page is in range. */
  lemma DeletingOnlyItemKeepsPageInRange<T>(items: seq<T>, page: int)
    requires 1 < page
    requires |PageItems(items, page)| == 1
    ensures page == TotalPages(|items|)
    ensures page - 1 == TotalPages(|items| - 1)
  {
    var start := (page - 1) * ITEMS_PER_PAGE;
    assert |items| == start + 1;
    DivUnique(start + 1 + ITEMS_PER_PAGE - 1, ITEMS_PER_PAGE, page);
    DivUnique(start + ITEMS_PER_PAGE - 1, ITEMS_PER_PAGE, page - 1);
  }

  // ------------------------------------------------------- the history section

  /** The one widget event a run of the history section reacts to. `ClearAll(confirmed)`
      is the "Clear All History" button together with the state of its confirmation
      checkbox; `DeleteItem(i)` is the delete button of the `i`-th item on the page. */
  datatype Click = NoClick | ClearAll(confirmed: bool) | PreviousPage | NextPage | DeleteItem(index: nat)

  /** The session and history after a run, with the page items the run displayed. */
  datatype Screen = Screen(history: seq<Record>, page: Option<int>, lastQuery: Option<string>, shown: seq<Record>)

  /** What one run of `render_history_section` does. A click that deletes, clears or
      turns the page ends the run with a rerun, so the items after it are not shown. */
  function Render(history: seq<Record>, page0: Option<int>, lastQuery0: Option<string>,
                  query: string, click: Click): Screen
  {
    if history == [] then Screen(history, page0, lastQuery0, [])
    else if click == ClearAll(true) then Screen([], page0, lastQuery0, [])
    else
      var filtered := Search(history, query);
      RenderPage(history, filtered, SyncedPage(page0, lastQuery0, query, TotalPages(|filtered|)), query, click)
  }

  /** The part of a run after the page was synced to `page`, for the matches `filtered`. */
  function RenderPage(history: seq<Record>, filtered: seq<Record>, page: int, query: string, click: Click): Screen
    requires 1 <= page <= TotalPages(|filtered|)
  {
    if |filtered| == 0 then Screen(history, Some(page), Some(query), [])
    else
      match click
      case PreviousPage => Screen(history, Some(if page > 1 then page - 1 else page), Some(query), [])
      case NextPage => Screen(history, Some(if page < TotalPages(|filtered|) then page + 1 else page), Some(query), [])
      case DeleteItem(i) =>
        var items := PageItems(filtered, page);
        if i < |items| then
          var id := ItemId(items[i], (page - 1) * ITEMS_PER_PAGE + i);
          Screen(Filter(history, KeepUnlessId(id)), Some(if |items| == 1 && page > 1 then page - 1 else page),
                 Some(query), items[..i + 1])
        else Screen(history, Some(page), Some(query), items)
      case _ => Screen(history, Some(page), Some(query), PageItems(filtered, page))
  }

  /** The page stays within the pages of the current matches whatever the click, a search
      that differs from the last one starts again at page one, Previous and Next move by
      exactly one when their button is enabled, and an undisturbed run shows the five (or
      fewer) matches of its page. */
  lemma RenderKeepsPageInRange(history: seq<Record>, page0: Option<int>, lastQuery0: Option<string>,
                               query: string, click: Click)
    requires history != [] && click != ClearAll(true)
    ensures var after := Render(history, page0, lastQuery0, query, click);
      var filtered := Search(history, query);
      var totalPages := TotalPages(|filtered|);
      var page := SyncedPage(page0, lastQuery0, query, totalPages);
      && after.lastQuery == Some(query)
      && after.page.Some? && 1 <= after.page.value <= totalPages
      && (query != lastQuery0.GetOr("") && (click.NoClick? || click.ClearAll?) ==> after.page == Some(1))
      && (click.PreviousPage? && |filtered| > 0 && page > 1 ==> after.page.value == page - 1)
      && (click.NextPage? && |filtered| > 0 && page < totalPages ==> after.page.value == page + 1)
      && (click.NoClick? ==> after.history == history && after.shown == PageItems(filtered, page) && |after.shown| <= ITEMS_PER_PAGE)
      && (click.NoClick? && |filtered| > 0 ==> after.shown != [])
  {
  }

  /** Deleting the only item on a page after the first moves back one page, and that page
      is then the last one of the matches that remain; any other delete keeps the page. */
  lemma DeleteMovesBackFromEmptiedPage(history: seq<Record>, page0: Option<int>, lastQuery0: Option<string>,
                                       query: string, i: nat)
    requires history != []
    ensures var after := Render(history, page0, lastQuery0, query, DeleteItem(i));
      var filtered := Search(history, query);
      var page := SyncedPage(page0, lastQuery0, query, TotalPages(|filtered|));
      var items := PageItems(filtered, page);
      && (i < |items| ==> after.history == Filter(history, KeepUnlessId(ItemId(items[i], (page - 1) * ITEMS_PER_PAGE + i))))
      && (i < |items| && |items| == 1 && page > 1 ==>
            after.page == Some(page - 1) && page - 1 == TotalPages(|filtered| - 1))
      && (!(i < |items| && |items| == 1 && page > 1) ==> after.page == Some(page))
  {
    var filtered := Search(history, query);
    var page := SyncedPage(page0, lastQuery0, query, TotalPages(|filtered|));
    assert Render(history, page0, lastQuery0, query, DeleteItem(i)) == RenderPage(history, filtered, page, query, DeleteItem(i));
    DeleteOnPage(history, filtered, page, query, i);
  }

  lemma DeleteOnPage(history: seq<Record>, filtered: seq<Record>, page: int, query: string, i: nat)
    requires 1 <= page <= TotalPages(|filtered|)
    ensures var after := RenderPage(history, filtered, page, query, DeleteItem(i));
      var items := PageItems(filtered, page);
      && (i < |items| ==> after.history == Filter(history, KeepUnlessId(ItemId(items[i], (page - 1) * ITEMS_PER_PAGE + i))))
      && (i < |items| && |items| == 1 && page > 1 ==>
            after.page == Some(page - 1) && page - 1 == TotalPages(|filtered| - 1))
      && (!(i < |items| && |items| == 1 && page > 1) ==> after.page == Some(page))
  {
    if |PageItems(filtered, page)| == 1 && page > 1 {
      DeletingOnlyItemKeepsPageInRange(filtered, page);
    }
  }

  /** The session keys `current_page` and `last_search_query` (None: not set yet). */
  class Pager {
    var currentPage: Option<int>
    var lastSearchQuery: Option<string>

    constructor()
      ensures currentPage == None && lastSearchQuery == None
    {
      currentPage := None;
      lastSearchQuery := None;
    }

    predicate InRange(totalPages: nat)
      reads this
    {
      currentPage.Some? && 1 <= currentPage.value <= totalPages
    }

    /** Initialise the two keys, go back to page one when the query changed, and clamp
        the page into the current page range. */
    method Sync(searchQuery: string, totalPages: nat)
      requires totalPages >= 1
      modifies this
      ensures lastSearchQuery == Some(searchQuery)
      ensures currentPage == Some(SyncedPage(old(currentPage), old(lastSearchQuery), searchQuery, totalPages))
      ensures InRange(totalPages)
    {
      if currentPage.None? {
        currentPage := Some(1);
      }
      if lastSearchQuery.None? {
        lastSearchQuery := Some("");
      }
      if searchQuery != lastSearchQuery.value {
        currentPage := Some(1);
        lastSearchQuery := Some(searchQuery);
      }
      currentPage := Some(Max(1, Min(currentPage.value, totalPages)));
    }

    /** The "Previous" button, disabled on the first page. */
    method Previous(totalPages: nat)
      requires InRange(totalPages)
      modifies this
      ensures old(currentPage.value) > 1 ==> currentPage == Some(old(currentPage.value) - 1)
      ensures old(currentPage.value) <= 1 ==> currentPage == old(currentPage)
      ensures lastSearchQuery == old(lastSearchQuery) && InRange(totalPages)
    {
      if currentPage.value <= 1 {
        return;
      }
      currentPage := Some(Max(1, currentPage.value - 1));
    }

    /** The "Next" button, disabled on the last page. */
    method Next(totalPages: nat)
      requires InRange(totalPages)
      modifies this
      ensures old(currentPage.value) < totalPages ==> currentPage == Some(old(currentPage.value) + 1)
      ensures old(currentPage.value) >= totalPages ==> currentPage == old(currentPage)
      ensures lastSearchQuery == old(lastSearchQuery) && InRange(totalPages)
    {
      if currentPage.value >= totalPages {
        return;
      }
      currentPage := Some(Min(totalPages, currentPage.value + 1));
    }

    /** `render_history_section` for one run that sees `click`. */
    method RenderHistorySection(db: TranscriptionDB, searchQuery: string, click: Click) returns (shown: seq<Record>)
      requires db.Ready()
      modifies this, db.session
      ensures db.Ready()
      ensures Screen(db.session.transcriptionHistory.value, currentPage, lastSearchQuery, shown)
        == Render(old(db.session.transcriptionHistory.value), old(currentPage), old(lastSearchQuery), searchQuery, click)
    {
      var transcriptionHistory := db.GetAllTranscriptions();
      if transcriptionHistory == [] {
        return [];
      }
      if click == ClearAll(true) {
        var cleared := db.ClearAllTranscriptions();
        return [];
      }
      var filteredHistory := db.SearchTranscriptions(searchQuery);
      var totalPages := TotalPages(|filteredHistory|);
      Sync(searchQuery, totalPages);
      shown := ShowPage(db, filteredHistory, searchQuery, click);
    }

    /** The part of `render_history_section` after the page was synced: the page buttons
        and the items of the page with their delete buttons. */
    method ShowPage(db: TranscriptionDB, filteredHistory: seq<Record>, searchQuery: string, click: Click)
      returns (shown: seq<Record>)
      requires db.Ready() && InRange(TotalPages(|filteredHistory|)) && lastSearchQuery == Some(searchQuery)
      modifies this, db.session
      ensures db.Ready()
      ensures Screen(db.session.transcriptionHistory.value, currentPage, lastSearchQuery, shown)
        == RenderPage(old(db.session.transcriptionHistory.value), filteredHistory, old(currentPage.value), searchQuery, click)
    {
      var totalItems := |filteredHistory|;
      var totalPages := TotalPages(totalItems);
      if totalItems == 0 {
        return [];
      }
      if click == PreviousPage {
        Previous(totalPages);
        return [];
      }
      if click == NextPage {
        Next(totalPages);
        return [];
      }
      ghost var history := db.session.transcriptionHistory.value;
      shown := ShowItems(db, filteredHistory, searchQuery, click);
      assert RenderPage(history, filteredHistory, old(currentPage.value), searchQuery, click)
          == Screen(db.session.transcriptionHistory.value, currentPage, lastSearchQuery, shown);
    }

    /** The items of the current page, each with its delete button; a click on one deletes
        that record, moving back one page when it was the only item of a later page. */
    method ShowItems(db: TranscriptionDB, filteredHistory: seq<Record>, searchQuery: string, click: Click)
      returns (shown: seq<Record>)
      requires db.Ready() && InRange(TotalPages(|filteredHistory|)) && lastSearchQuery == Some(searchQuery)
      modifies this, db.session
      ensures db.Ready() && lastSearchQuery == Some(searchQuery)
      ensures var items := PageItems(filteredHistory, old(currentPage.value));
        click.DeleteItem? && click.index < |items| ==> shown == items[..click.index + 1]
      ensures var page := old(currentPage.value);
        var items := PageItems(filteredHistory, page);
        click.DeleteItem? && click.index < |items| ==>
          && db.session.transcriptionHistory.value
             == Filter(old(db.session.transcriptionHistory.value), KeepUnlessId(ItemId(items[click.index], (page - 1) * ITEMS_PER_PAGE + click.index)))
          && currentPage == Some(if |items| == 1 && page > 1 then page - 1 else page)
      ensures var items := PageItems(filteredHistory, old(currentPage.value));
        !(click.DeleteItem? && click.index < |items|) ==>
          && shown == items
          && db.session.transcriptionHistory == old(db.session.transcriptionHistory)
          && currentPage == old(currentPage)
    {
      var totalItems := |filteredHistory|;
      var page := currentPage.value;
      var startIdx := (page - 1) * ITEMS_PER_PAGE;
      var endIdx := Min(startIdx + ITEMS_PER_PAGE, totalItems);
      var currentPageItems := filteredHistory[startIdx..endIdx];
      assert currentPageItems == PageItems(filteredHistory, page);
      ghost var history := db.session.transcriptionHistory.value;
      shown := [];
      for idx := 0 to |currentPageItems|
        invariant shown == currentPageItems[..idx]
        invariant currentPage == Some(page) && lastSearchQuery == Some(searchQuery)
        invariant db.session.transcriptionHistory == Some(history)
        invariant !(click.DeleteItem? && click.index < idx)
      {
        var item := currentPageItems[idx];
        shown := shown + [item];
        if click == DeleteItem(idx) {
          DeleteShownItem(db, item, startIdx + idx, |currentPageItems| == 1);
          assert shown == currentPageItems[..idx + 1];
          return;
        }
      }
      assert shown == currentPageItems;
    }

    /** The delete button of the item at `position` among the matches: the record with the
        item's id leaves the history, and when it was the only item of a page after the
        first, the view moves back one page. */
    method DeleteShownItem(db: TranscriptionDB, item: Record, position: nat, onlyItem: bool)
      requires db.Ready() && currentPage.Some?
      modifies this, db.session
      ensures db.Ready() && lastSearchQuery == old(lastSearchQuery)
      ensures db.session.transcriptionHistory
        == Some(Filter(old(db.session.transcriptionHistory.value), KeepUnlessId(ItemId(item, position))))
      ensures var page := old(currentPage.value);
        currentPage == Some(if onlyItem && page > 1 then page - 1 else page)
    {
      var itemId := item.id.GetOr(NatToString(position));
      assert itemId == ItemId(item, position);
      var deleted := db.DeleteTranscription(itemId);
      var page := currentPage.value;
      if onlyItem && page > 1 {
        currentPage := Some(page - 1);
      }
    }
  }

  // ------------------------------------------------------ the pipeline

  /** The four switches of the upload form and the requested output format. */
  datatype Settings = Settings(silenceRemoval: bool, compression: bool, timeSplitting: bool,
                               improvement: bool, outputFormat: string)

  /** The outside world of one pipeline run. `halt(p)` is the answer of the cancellation
      check made just before the progress bar moves to `p` percent (the check before 10
      percent also stands for the cancel button itself); `prepare`, `transcribe` with
      `transcribeCancelled`, and `improve` are the worlds of the three stages. */
  datatype World = World(halt: nat -> bool, prepare: Preprocessing.Env,
                         transcribe: Request -> Option<string>, transcribeCancelled: nat -> bool,
                         improve: Improvement.Env)

  /** Whether the pipeline sends the upload through `preprocess_audio`. */
  predicate Preprocesses(s: Settings) {
    s.silenceRemoval || s.compression
  }

  /** The payloads and the name handed to the transcription stage, and where the upload's
      read position ends up. */
  function AudioToSend(data: Bytes, pos: nat, name: string, s: Settings, prepare: Preprocessing.Env): Outcome
    requires pos <= |data| && Exportable(prepare)
  {
    if Preprocesses(s) then Preprocess(data, pos, name, s.silenceRemoval, s.compression, s.timeSplitting, prepare)
    else Outcome([data], name, |data|)
  }

  /** Without silence removal or compression the whole upload, from its first byte and
      whatever was read before, is the single payload, under the upload's own name; time
      splitting alone does not start preprocessing. */
  lemma RawUploadIsOneChunk(data: Bytes, pos: nat, name: string, s: Settings, prepare: Preprocessing.Env)
    requires pos <= |data| && Exportable(prepare)
    requires !s.silenceRemoval && !s.compression
    ensures AudioToSend(data, pos, name, s, prepare) == Outcome([data], name, |data|)
    ensures AudioToSend(data, pos, name, s.(timeSplitting := !s.timeSplitting), prepare) == AudioToSend(data, pos, name, s, prepare)
  {
  }

  /** The improvement stage runs only for a non-empty transcript, when improvement is on
      and the format is plain text. */
  predicate ImprovementApplies(transcript: string, s: Settings) {
    transcript != "" && s.improvement && s.outputFormat == "text"
  }

  /** A transcription as the pipeline saves it. The date and the fresh uuid are inputs.
      The saved dictionary always has "improved_text" and "language" keys, set to None
      when there is no value; here a missing value leaves its key out of `other`. */
  function NewRecord(id: string, date: string, customName: string, fileName: string, transcript: string,
                     improved: Option<string>, language: Option<string>, s: Settings): (r: Record)
    ensures r.id == Some(id) && r.text == Some(transcript)
    ensures r.name == Some(if customName != "" then customName else fileName)
    ensures "filename" in r.other && r.other["filename"] == fileName
    ensures "output_format" in r.other && r.other["output_format"] == s.outputFormat
    ensures "improved_text" in r.other <==> improved.Some?
    ensures improved.Some? ==> r.other["improved_text"] == improved.value
  {
    var base := map["filename" := fileName, "date" := date, "output_format" := s.outputFormat];
    var withLanguage := if language.Some? then base["language" := language.value] else base;
    var fields := if improved.Some? then withLanguage["improved_text" := improved.value] else withLanguage;
    Record(Some(id), Some(if customName != "" then customName else fileName), Some(transcript), fields)
  }

  /** What one pipeline run did: where the upload's position ended, the transcription
      requests sent, the transcript, its improvement, and the record saved. */
  datatype Handling = Handling(pos: nat, sent: seq<Request>, transcript: Option<string>,
                               improved: Option<string>, saved: Option<Record>)

  /** `handle_transcription` from the transcription step on, for the payloads `chunks`
      named `fileName`, with the upload's position already at `pos`. */
  function HandledFrom(pos: nat, chunks: seq<Bytes>, fileName: string, uploadName: string, customName: string,
                       language: Option<string>, s: Settings, w: World, id: string, date: string): Handling
  {
    if w.halt(75) then Handling(pos, [], None, None, None)
    else
      var run := Transcribe(chunks, fileName, language, s.outputFormat, w.transcribe, w.transcribeCancelled);
      if w.halt(80) then Handling(pos, run.sent, run.result, None, None)
      else
        var text := run.result.GetOr("");
        if ImprovementApplies(text, s) && w.halt(85) then Handling(pos, run.sent, run.result, None, None)
        else
          var improved := if ImprovementApplies(text, s) then Improvement.Improve(w.improve, text) else None;
          if text != "" && s.improvement && s.outputFormat == "srt" && w.halt(95) then
            Handling(pos, run.sent, run.result, None, None)
          else if text == "" || w.halt(96) then Handling(pos, run.sent, run.result, improved, None)
          else
            Handling(pos, run.sent, run.result, improved,
                     Some(NewRecord(id, date, customName, uploadName, text, improved, language, s)))
  }

  /** What one run of `handle_transcription` does for an upload holding `data`, read up
      to `pos`. */
  function Handled(data: Bytes, pos: nat, uploadName: string, customName: string, language: Option<string>,
                   s: Settings, w: World, id: string, date: string): Handling
    requires pos <= |data| && Exportable(w.prepare)
  {
    if w.halt(10) then Handling(pos, [], None, None, None)
    else if Preprocesses(s) && w.halt(20) then Handling(pos, [], None, None, None)
    else if !Preprocesses(s) && w.halt(30) then Handling(pos, [], None, None, None)
    else
      var audio := AudioToSend(data, pos, uploadName, s, w.prepare);
      if w.halt(if Preprocesses(s) then 70 else 50) then Handling(audio.pos, [], None, None, None)
      else HandledFrom(audio.pos, audio.chunks, audio.format, uploadName, customName, language, s, w, id, date)
  }

  /** The transcription requests carry exactly the payloads chosen for the run, in
      order, each under its chunk name; a saved record holds the non-empty transcript,
      the custom name or else the upload's name, and the improvement if there was one;
      an improvement exists only for a non-empty plain-text transcript with improvement
      switched on, so an SRT transcript is never improved. */
  lemma HandledMeaning(data: Bytes, pos: nat, uploadName: string, customName: string, language: Option<string>,
                       s: Settings, w: World, id: string, date: string)
    requires pos <= |data| && Exportable(w.prepare)
    ensures var h := Handled(data, pos, uploadName, customName, language, s, w, id, date);
      var audio := AudioToSend(data, pos, uploadName, s, w.prepare);
      && (forall k :: 0 <= k < |h.sent| ==> k < |audio.chunks| && h.sent[k] == ChunkRequest(audio.chunks, audio.format, language, s.outputFormat, k))
      && (h.improved.Some? ==> h.transcript.Some? && ImprovementApplies(h.transcript.value, s))
      && (s.outputFormat == "srt" ==> h.improved == None)
      && (h.saved.Some? ==>
            && h.transcript.Some? && h.transcript.value != ""
            && h.saved.value == NewRecord(id, date, customName, uploadName, h.transcript.value, h.improved, language, s))
  {
    var audio := AudioToSend(data, pos, uploadName, s, w.prepare);
    HandledFromMeaning(audio.pos, audio.chunks, audio.format, uploadName, customName, language, s, w, id, date);
  }

  /** `HandledMeaning` for the stages after the audio was prepared. */
  lemma HandledFromMeaning(pos: nat, chunks: seq<Bytes>, fileName: string, uploadName: string, customName: string,
                           language: Option<string>, s: Settings, w: World, id: string, date: string)
    ensures var h := HandledFrom(pos, chunks, fileName, uploadName, customName, language, s, w, id, date);
      && (forall k :: 0 <= k < |h.sent| ==> k < |chunks| && h.sent[k] == ChunkRequest(chunks, fileName, language, s.outputFormat, k))
      && (h.improved.Some? ==> h.transcript.Some? && ImprovementApplies(h.transcript.value, s))
      && (s.outputFormat == "srt" ==> h.improved == None)
      && (h.saved.Some? ==>
            && h.transcript.Some? && h.transcript.value != ""
            && h.saved.value == NewRecord(id, date, customName, uploadName, h.transcript.value, h.improved, language, s))
  {
    TranscribeSendsInOrder(chunks, fileName, language, s.outputFormat, w.transcribe, w.transcribeCancelled);
  }

  /** `handle_transcription`. The record's uuid and date are inputs; the method returns
      what the run produced besides the stored record. */
  method HandleTranscription(upload: Upload, customName: string, language: Option<string>, s: Settings,
                             w: World, db: TranscriptionDB, id: string, date: string)
    returns (sent: seq<Request>, transcript: Option<string>, improved: Option<string>, saved: Option<Record>)
    requires upload.Valid() && db.Ready() && Exportable(w.prepare)
    modifies upload, db.session
    ensures upload.Valid() && db.Ready()
    ensures Handling(upload.pos, sent, transcript, improved, saved)
      == Handled(upload.data, old(upload.pos), upload.name, customName, language, s, w, id, date)
    ensures db.session.transcriptionHistory
      == Some(if saved.Some? then [saved.value] + old(db.session.transcriptionHistory.value)
              else old(db.session.transcriptionHistory.value))
  {
    sent, transcript, improved, saved := [], None, None, None;
    if w.halt(10) {
      return;
    }
    var processedAudioDataList: seq<Bytes>;
    var processedFilename: string;
    if Preprocesses(s) {
      if w.halt(20) {
        return;
      }
      processedAudioDataList, processedFilename :=
        PreprocessAudio(upload, s.silenceRemoval, s.compression, s.timeSplitting, w.prepare);
      if w.halt(70) {
        return;
      }
    } else {
      if w.halt(30) {
        return;
      }
      upload.Rewind();
      var contents := upload.Read();
      processedAudioDataList := [contents];
      processedFilename := upload.name;
      if w.halt(50) {
        return;
      }
    }
    sent, transcript, improved, saved :=
      TranscribeAndSave(processedAudioDataList, processedFilename, upload.name, customName, language, s, w, db, id, date,
                        upload.pos);
  }

  /** The part of `handle_transcription` after the audio was prepared: transcription,
      improvement and saving. */
  method TranscribeAndSave(chunks: seq<Bytes>, fileName: string, uploadName: string, customName: string,
                           language: Option<string>, s: Settings, w: World, db: TranscriptionDB, id: string, date: string,
                           ghost pos: nat)
    returns (sent: seq<Request>, transcript: Option<string>, improved: Option<string>, saved: Option<Record>)
    requires db.Ready()
    modifies db.session
    ensures db.Ready()
    ensures Handling(pos, sent, transcript, improved, saved)
      == HandledFrom(pos, chunks, fileName, uploadName, customName, language, s, w, id, date)
    ensures db.session.transcriptionHistory
      == Some(if saved.Some? then [saved.value] + old(db.session.transcriptionHistory.value)
              else old(db.session.transcriptionHistory.value))
  {
    sent, transcript, improved, saved := [], None, None, None;
    if w.halt(75) {
      return;
    }
    var transcriptionText;
    transcriptionText, sent := TranscribeAudioChunks(chunks, fileName, language,
                                                     s.outputFormat, w.transcribe, w.transcribeCancelled);
    if w.halt(80) {
      transcript := transcriptionText;
      return;
    }
    transcript := transcriptionText;
    var text := transcriptionText.GetOr("");
    if text != "" && s.improvement && s.outputFormat == "text" {
      if w.halt(85) {
        return;
      }
      improved := Improvement.ImproveTranscript(text, w.improve);
    } else if text != "" && s.improvement && s.outputFormat == "srt" {
      if w.halt(95) {
        return;
      }
    }
    if text != "" {
      if w.halt(96) {
        return;
      }
      var transcriptionRecord := NewRecord(id, date, customName, uploadName, text, improved, language, s);
      var added := db.AddTranscription(transcriptionRecord);
      saved := Some(transcriptionRecord);
    }
  }
}
