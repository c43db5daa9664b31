/**
 * The open/responded life cycle of a suggestion. The admin update in both
 * suggestion-box action files derives the same three columns from the
 * trimmed response text; the service keeps every row well formed.
 */
module Lifecycle {

  import opened Wrappers
  import opened Strings
  import opened Database
  import opened SuggestionStore

  const Open: string := "open"
  const Responded: string := "responded"

  /**
   * The response columns for an admin reply `text` given at `now`: a
   * non-blank reply is stored trimmed, stamped and marks the row
   * responded; a blank one clears both and reopens the row.
   */
  function PatchFor(text: string, now: Timestamp): (p: ResponsePatch)
    ensures p.status == Responded <==> !AllWhitespace(text)
    ensures p.status == Responded || p.status == Open
    ensures p.admin_response.Some? <==> p.status == Responded
    ensures p.admin_responded_at.Some? <==> p.status == Responded
    ensures p.admin_response.Some? ==> p.admin_response.value == Trim(text) && p.admin_response.value != ""
    ensures p.admin_responded_at.Some? ==> p.admin_responded_at.value == now
  {
    TrimBlankIff(text);
    var trimmed := Trim(text);
    ResponsePatch(
      if trimmed != "" then Responded else Open,
      if trimmed != "" then Some(trimmed) else None,
      if trimmed != "" then Some(now) else None)
  }

  /**
   * The three response columns agree: all unset (never reviewed), all
   * cleared with status "open", or a non-empty trimmed response with its
   * instant and status "responded".
   */
  predicate ResponseConsistent(row: Suggestion) {
    || (row.status.None? && row.admin_response.None? && row.admin_responded_at.None?)
    || (row.status == Some(Open) && row.admin_response == Some(None) && row.admin_responded_at == Some(None))
    || (&& row.status == Some(Responded)
        && row.admin_response.Some? && row.admin_response.value.Some?
        && row.admin_response.value.value != "" && IsTrimmed(row.admin_response.value.value)
        && row.admin_responded_at.Some? && row.admin_responded_at.value.Some?)
  }

  /** The content a create action stores: non-empty and already trimmed. */
  predicate ContentValid(row: Suggestion) {
    row.content != "" && IsTrimmed(row.content)
  }

  predicate WellFormed(row: Suggestion) {
    ContentValid(row) && ResponseConsistent(row)
  }

  predicate AllWellFormed(rows: seq<Suggestion>) {
    forall k :: 0 <= k < |rows| ==> WellFormed(rows[k])
  }

  /** Appending a well-formed row keeps the table well formed. */
  lemma AppendWellFormed(rows: seq<Suggestion>, row: Suggestion)
    requires AllWellFormed(rows) && WellFormed(row)
    ensures AllWellFormed(rows + [row])
  {
  }

  /** A freshly inserted row with non-blank trimmed content is well formed. */
  lemma {:induction false} InsertedWellFormed(payload: NewSuggestion, text: string, id: string, now: Timestamp, defaultCategory: string)
    requires payload.content == Trim(text) && !AllWhitespace(text)
    ensures WellFormed(Stored(payload, id, now, defaultCategory))
  {
    TrimBlankIff(text);
  }

  /** The three columns a patch writes agree with each other. */
  predicate PatchConsistent(p: ResponsePatch) {
    || (p.status == Open && p.admin_response.None? && p.admin_responded_at.None?)
    || (&& p.status == Responded
        && p.admin_response.Some? && p.admin_response.value != "" && IsTrimmed(p.admin_response.value)
        && p.admin_responded_at.Some?)
  }

  /** Every admin reply yields a consistent patch. */
  lemma PatchForConsistent(text: string, now: Timestamp)
    ensures PatchConsistent(PatchFor(text, now))
  {
  }

  /** A consistent patch leaves the three response columns consistent and keeps the row well formed. */
  lemma PatchIsConsistent(row: Suggestion, p: ResponsePatch)
    requires PatchConsistent(p)
    ensures ResponseConsistent(Apply(row, p))
    ensures WellFormed(row) ==> WellFormed(Apply(row, p))
  {
  }

  /** Updating some rows with an admin reply keeps the table well formed. */
  lemma UpdateKeepsWellFormed(rows: seq<Suggestion>, id: string, text: string, now: Timestamp)
    requires AllWellFormed(rows)
    ensures AllWellFormed(PatchRows(rows, id, PatchFor(text, now)))
  {
    var p := PatchFor(text, now);
    PatchForConsistent(text, now);
    var after := PatchRows(rows, id, p);
    forall k | 0 <= k < |after| ensures WellFormed(after[k]) {
      assert WellFormed(rows[k]);
      if rows[k].id == id {
        PatchIsConsistent(rows[k], p);
      }
    }
  }

  /** A blank reply gives the same columns whatever its whitespace and whatever the clock says. */
  lemma {:induction false} BlankPatchIsClear(text: string, now: Timestamp)
    requires AllWhitespace(text)
    ensures PatchFor(text, now) == ResponsePatch(Open, None, None)
  {
  }

  /**
   * Replying and then clearing leaves the row exactly as clearing it
   * directly does; clearing twice is clearing once.
   */
  lemma {:induction false} ClearAfterReply(row: Suggestion, reply: string, blank: string, t1: Timestamp, t2: Timestamp)
    requires AllWhitespace(blank)
    ensures Apply(Apply(row, PatchFor(reply, t1)), PatchFor(blank, t2)) == Apply(row, PatchFor("", t2))
    ensures Apply(Apply(row, PatchFor(blank, t1)), PatchFor(blank, t2)) == Apply(row, PatchFor(blank, t1))
  {
    BlankPatchIsClear(blank, t1);
    BlankPatchIsClear(blank, t2);
    BlankPatchIsClear("", t2);
  }

  /** Trimming the reply before the update changes nothing. */
  lemma {:induction false} PatchOfTrimmed(text: string, now: Timestamp)
    ensures PatchFor(Trim(text), now) == PatchFor(text, now)
  {
    TrimIdempotent(text);
    TrimBlankIff(text);
    TrimBlankIff(Trim(text));
  }
}
