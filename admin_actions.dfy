/**
 * The admin dashboard's server actions (src/app/suggestion-box/admin/actions.ts).
 * Every store operation follows the admin check, and store failures are
 * thrown rather than returned.
 */
module AdminActions {

  import opened Wrappers
  import opened Strings
  import opened Database
  import opened SuggestionStore
  import opened Lifecycle
  import opened Replies
  import opened Cookies
  import opened Admin
  import Box = BoxActions

  const AdminLoginPath: string := "/suggestion-box/admin/login"

  /** `adminLogout`: deletes the admin cookie, then redirects to the admin login page. */
  method AdminLogout(cookies: CookieStore) returns (r: Reply)
    modifies cookies
    ensures r == Redirected(AdminLoginPath)
    ensures cookies.jar == old(cookies.jar) - {AdminCookie}
    ensures cookies.Get(AdminCookie).None?
  {
    ClearAdminSession(cookies);
    r := Redirected(AdminLoginPath);
  }

  /**
   * `getAdminSuggestions`: the same code as the legacy file's, behind this
   * file's own copy of `requireAdmin` (which `Box.RequireAdmin` models).
   */
  method GetAdminSuggestions(table: Table, env: Env, sha256: string -> string, cookies: CookieStore?, fails: bool)
    returns (r: Listing<Box.BoxSuggestion>)
    ensures !IsAdminSession(env, sha256, cookies) ==> r == ListingThrown(Box.AdminRequiredMessage)
    ensures IsAdminSession(env, sha256, cookies) && fails ==> r == Rows([])
    ensures IsAdminSession(env, sha256, cookies) && !fails ==>
              r.Rows? && Box.ViewsNewestFirst(r.rows) && multiset(r.rows) == multiset(Box.Views(table.rows))
  {
    var gate := Box.RequireAdmin(env, sha256, cookies);
    if gate.Fail? {
      return ListingThrown(gate.error);
    }
    if fails {
      return Rows([]);
    }
    var vs := Box.ListNewestFirst(table);
    r := Rows(vs);
  }

  /** `admin_comment?.trim() || ""`: a missing comment reads as "". */
  function TrimmedComment(comment: Option<string>): string {
    match comment
    case None => ""
    case Some(c) => Trim(c)
  }

  /** The trimmed comment is trimmed, and empty exactly when the comment is missing or blank. */
  lemma TrimmedCommentIsTrim(comment: Option<string>)
    ensures IsTrimmed(TrimmedComment(comment))
    ensures TrimmedComment(comment) == "" <==> comment.None? || AllWhitespace(comment.value)
  {
    if comment.Some? {
      TrimBlankIff(comment.value);
    }
  }

  /** Deriving the columns from the trimmed comment is deriving them from the comment. */
  lemma CommentPatch(comment: Option<string>, now: Timestamp)
    ensures PatchFor(TrimmedComment(comment), now) == PatchFor(comment.GetOr(""), now)
  {
    match comment
    case None =>
    case Some(c) => PatchOfTrimmed(c, now);
  }

  /** So the rows the update writes are those the comment itself determines. */
  lemma CommentRows(rows: seq<Suggestion>, id: string, comment: Option<string>, now: Timestamp)
    ensures PatchRows(rows, id, PatchFor(TrimmedComment(comment), now)) == PatchRows(rows, id, PatchFor(comment.GetOr(""), now))
  {
    CommentPatch(comment, now);
  }

  /**
   * `updateAdminResponse`: without an admin session it throws and the
   * table is untouched; otherwise the row with `id`, and only its three
   * response columns, take the values derived from the comment, or the
   * store error is thrown.
   */
  method UpdateAdminResponse(table: Table, env: Env, sha256: string -> string, cookies: CookieStore?,
                             id: string, comment: Option<string>, now: Timestamp, fails: bool) returns (r: Reply)
    requires table.Valid()
    modifies table
    ensures table.Valid()
    ensures !old(IsAdminSession(env, sha256, cookies)) ==> r == Thrown(Box.AdminRequiredMessage) && table.rows == old(table.rows)
    ensures old(IsAdminSession(env, sha256, cookies)) ==> r == if fails then Thrown(Box.SaveFailedMessage) else Success
    ensures table.rows == if r == Success then PatchRows(old(table.rows), id, PatchFor(comment.GetOr(""), now))
                         else old(table.rows)
    ensures AllWellFormed(old(table.rows)) ==> AllWellFormed(table.rows)
  {
    var gate := Box.RequireAdmin(env, sha256, cookies);
    if gate.Fail? {
      return Thrown(gate.error);
    }
    var trimmed := TrimmedComment(comment);
    ghost var before := table.rows;
    CommentRows(before, id, comment, now);
    var ok := table.UpdateById(id, PatchFor(trimmed, now), fails);
    if AllWellFormed(before) {
      UpdateKeepsWellFormed(before, id, comment.GetOr(""), now);
    }
    if !ok {
      return Thrown(Box.SaveFailedMessage);
    }
    r := Success;
  }

  /**
   * `deleteSuggestion`: without an admin session it throws and the table is
   * untouched; otherwise the row with `id` goes, or the store error is
   * thrown.
   */
  method DeleteSuggestion(table: Table, env: Env, sha256: string -> string, cookies: CookieStore?,
                          id: string, fails: bool) returns (r: Reply)
    requires table.Valid()
    modifies table
    ensures table.Valid()
    ensures !old(IsAdminSession(env, sha256, cookies)) ==> r == Thrown(Box.AdminRequiredMessage) && table.rows == old(table.rows)
    ensures old(IsAdminSession(env, sha256, cookies)) ==> r == if fails then Thrown(Box.DeleteFailedMessage) else Success
    ensures table.rows == if r == Success then RemoveId(old(table.rows), id) else old(table.rows)
    ensures AllWellFormed(old(table.rows)) ==> AllWellFormed(table.rows)
  {
    var gate := Box.RequireAdmin(env, sha256, cookies);
    if gate.Fail? {
      return Thrown(gate.error);
    }
    var ok := table.DeleteById(id, fails);
    r := if ok then Success else Thrown(Box.DeleteFailedMessage);
  }
}
