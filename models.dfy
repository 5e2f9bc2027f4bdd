/**
 * The transcription history kept in the browser session when no database is
 * configured: a list of records, newest first, that the store updates in place.
 */
module Models {
  import opened Options
  import opened Seqs
  import opened Text

  /** A saved transcription. Only the keys the store looks at are spelled out; the
      others (file name, date, language, improved text, output format) ride along in
      `other`. A key the record lacks is None. */
  datatype Record = Record(id: Option<string>, name: Option<string>, text: Option<string>, other: map<string, string>)

  /** The per-user session state; `transcriptionHistory` is None until some store creates it. */
  class SessionState {
    var transcriptionHistory: Option<seq<Record>>

    constructor()
      ensures transcriptionHistory == None
    {
      transcriptionHistory := None;
    }
  }

  /** Delete keeps a record unless its `id` is present and equal to the one deleted. */
  function KeepUnlessId(id: string): Record -> bool {
    (r: Record) => r.id != Some(id)
  }

  /** The search test: the lower-cased query occurs in the lower-cased name or text, a
      missing name or text counting as the empty string. */
  predicate Matches(r: Record, query: string) {
    Contains(Lower(r.name.GetOr("")), Lower(query)) || Contains(Lower(r.text.GetOr("")), Lower(query))
  }

  /** What `search_transcriptions` returns for the history `all`. */
  function Search(all: seq<Record>, query: string): seq<Record> {
    if query == "" then all else Filter(all, r => Matches(r, query))
  }

  /** The session-state store. */
  class TranscriptionDB {
    const session: SessionState

    /** The history exists once a store has been created. */
    predicate Ready()
      reads this, session
    {
      session.transcriptionHistory.Some?
    }

    /** `__init__` without a database: creates an empty history unless one is already there. */
    constructor(session: SessionState)
      modifies session
      ensures this.session == session
      ensures session.transcriptionHistory == Some(old(session.transcriptionHistory).GetOr([]))
    {
      this.session := session;
      new;
      if session.transcriptionHistory.None? {
        session.transcriptionHistory := Some([]);
      }
    }

    /** `add_transcription`: the new record goes in front of the others. */
    method AddTranscription(transcription: Record) returns (ok: bool)
      requires Ready()
      modifies session
      ensures ok
      ensures session.transcriptionHistory == Some([transcription] + old(session.transcriptionHistory.value))
    {
      session.transcriptionHistory := Some([transcription] + session.transcriptionHistory.value);
      ok := true;
    }

    /** `get_all_transcriptions`: the history as it is. */
    method GetAllTranscriptions() returns (all: seq<Record>)
      requires Ready()
      ensures all == session.transcriptionHistory.value
    {
      all := session.transcriptionHistory.value;
    }

    /** `delete_transcription`: the history without the records carrying `transcriptionId`. */
    method DeleteTranscription(transcriptionId: string) returns (ok: bool)
      requires Ready()
      modifies session
      ensures ok
      ensures session.transcriptionHistory == Some(Filter(old(session.transcriptionHistory.value), KeepUnlessId(transcriptionId)))
    {
      var history := session.transcriptionHistory.value;
      session.transcriptionHistory := Some(Filter(history, KeepUnlessId(transcriptionId)));
      ok := true;
    }

    /** `clear_all_transcriptions` */
    method ClearAllTranscriptions() returns (ok: bool)
      requires Ready()
      modifies session
      ensures ok && session.transcriptionHistory == Some([])
    {
      session.transcriptionHistory := Some([]);
      ok := true;
    }

    /** `search_transcriptions` */
    method SearchTranscriptions(query: string) returns (results: seq<Record>)
      requires Ready()
      ensures results == Search(session.transcriptionHistory.value, query)
    {
      var allTranscriptions := GetAllTranscriptions();
      if query == "" {
        return allTranscriptions;
      }
      results := Filter(allTranscriptions, r => Matches(r, query));
    }
  }

  /** After a delete, no record carries the deleted id, every other record is still there
      as often as before, and the survivors keep their order. */
  lemma DeleteRemovesExactly(history: seq<Record>, id: string)
    ensures var rest := Filter(history, KeepUnlessId(id));
      && (forall r :: r in rest <==> r in history && r.id != Some(id))
      && (forall r: Record :: r.id != Some(id) ==> multiset(rest)[r] == multiset(history)[r])
      && IsSubsequence(rest, history)
  {
    FilterSpec(history, KeepUnlessId(id));
  }

  /** Deleting an id no record carries leaves the history as it was. */
  lemma DeleteUnknownIdChangesNothing(history: seq<Record>, id: string)
    requires forall i :: 0 <= i < |history| ==> history[i].id != Some(id)
    ensures Filter(history, KeepUnlessId(id)) == history
  {
    FilterAllKept(history, KeepUnlessId(id));
  }

  /** A delete right after adding a record with a fresh id gives back the old history. */
  lemma DeleteUndoesAdd(history: seq<Record>, r: Record, id: string)
    requires r.id == Some(id) && forall i :: 0 <= i < |history| ==> history[i].id != Some(id)
    ensures Filter([r] + history, KeepUnlessId(id)) == history
  {
    assert ([r] + history)[1..] == history;
    FilterAllKept(history, KeepUnlessId(id));
  }

  /** An empty query finds everything, in order. */
  lemma SearchEmptyQuery(all: seq<Record>)
    ensures Search(all, "") == all
  {
  }

  /** A non-empty query finds exactly the matching records, each as often as it occurs,
      in their original order. */
  lemma SearchFindsExactlyMatches(all: seq<Record>, query: string)
    requires query != ""
    ensures var found := Search(all, query);
      && (forall r :: r in found <==> r in all && Matches(r, query))
      && (forall r :: Matches(r, query) ==> multiset(found)[r] == multiset(all)[r])
      && IsSubsequence(found, all)
  {
    FilterSpec(all, r => Matches(r, query));
  }

  /** Upper and lower case in the query make no difference. */
  lemma SearchIgnoresCase(all: seq<Record>, query: string)
    requires query != ""
    ensures Search(all, query) == Search(all, Lower(query))
  {
    assert Lower(Lower(query)) == Lower(query);
    FilterSameTest(all, r => Matches(r, query), r => Matches(r, Lower(query)));
  }
}
