/**
 * The legacy suggestion-box server actions (src/app/suggestion-box/actions.ts):
 * anonymous posting with an optional author name, the public listing, the
 * admin login and logout, and the admin-gated delete, reply and listing.
 */
module BoxActions {

  import opened Wrappers
  import opened Strings
  import opened Database
  import opened SuggestionStore
  import opened Lifecycle
  import opened Replies
  import opened Cookies
  import opened Admin

  const EmptyContentMessage: string := "ご意見を入力してください。"
  const PostFailedMessage: string := "投稿に失敗しました。しばらくおいて再度お試しください。"
  const EnterPasswordMessage: string := "パスワードを入力してください。"
  const WrongPasswordMessage: string := "パスワードが正しくありません。"
  const AdminRequiredMessage: string := "管理者としてログインしてください。"
  const DeleteFailedMessage: string := "削除に失敗しました。"
  const SaveFailedMessage: string := "返答の保存に失敗しました。"

  /** The file's `Suggestion` type: the columns its selects ask for. */
  datatype BoxSuggestion = BoxSuggestion(
    id: string,
    content: string,
    author_name: Option<string>,
    status: Option<string>,
    admin_response: Option<Option<string>>,
    admin_responded_at: Option<Option<Timestamp>>,
    created_at: Timestamp)

  /** The projection `select("id, content, author_name, status, admin_response, admin_responded_at, created_at")`. */
  function View(row: Suggestion): (v: BoxSuggestion)
    ensures v.id == row.id && v.content == row.content && v.author_name == row.author_name
    ensures v.status == row.status && v.created_at == row.created_at
    ensures v.admin_response == row.admin_response && v.admin_responded_at == row.admin_responded_at
  {
    BoxSuggestion(row.id, row.content, row.author_name, row.status, row.admin_response,
                  row.admin_responded_at, row.created_at)
  }

  /** The projection of every row, in order. */
  function Views(rows: seq<Suggestion>): (vs: seq<BoxSuggestion>)
    ensures |vs| == |rows|
    ensures forall k :: 0 <= k < |rows| ==> vs[k] == View(rows[k])
  {
    if rows == [] then [] else [View(rows[0])] + Views(rows[1..])
  }

  predicate ViewsNewestFirst(vs: seq<BoxSuggestion>) {
    forall i, j :: 0 <= i < j < |vs| ==> vs[i].created_at >= vs[j].created_at
  }

  /** Projection distributes over concatenation. */
  lemma {:induction false} ViewsAppend(p: seq<Suggestion>, q: seq<Suggestion>)
    ensures Views(p + q) == Views(p) + Views(q)
    decreases |p|
  {
    if p == [] {
      assert p + q == q;
    } else {
      assert (p + q)[1..] == p[1..] + q;
      ViewsAppend(p[1..], q);
    }
  }

  /** Projecting `b` projects its element at `i` once plus the rest. */
  lemma ViewsWithout(b: seq<Suggestion>, i: nat)
    requires i < |b|
    ensures multiset(Views(b)) == multiset(Views(b[..i] + b[i + 1..])) + multiset{View(b[i])}
  {
    var left, mid, right := b[..i], b[i..], b[i + 1..];
    assert b == left + mid;
    assert mid[0] == b[i] && mid[1..] == right;
    ViewsAppend(left, mid);
    ViewsAppend(left, right);
    var vl, v, vr := Views(left), View(b[i]), Views(right);
    assert Views(mid) == [v] + vr;
    assert Views(b) == vl + ([v] + vr);
    assert Views(left + right) == vl + vr;
    MultisetOfThree(vl, v, vr);
  }

  lemma MultisetOfThree(p: seq<BoxSuggestion>, v: BoxSuggestion, q: seq<BoxSuggestion>)
    ensures multiset(p + ([v] + q)) == multiset(p + q) + multiset{v}
  {
    assert multiset(p + ([v] + q)) == multiset(p) + multiset([v] + q);
    assert multiset([v] + q) == multiset{v} + multiset(q);
    assert multiset(p + q) == multiset(p) + multiset(q);
  }

  /** Taking the element at `i` out of `b` takes one copy of it out of `b`'s multiset. */
  lemma {:induction false} RemoveAt(a: seq<Suggestion>, b: seq<Suggestion>, i: nat)
    requires multiset(a) == multiset(b) && a != [] && i < |b| && b[i] == a[0]
    ensures multiset(a[1..]) == multiset(b[..i] + b[i + 1..])
  {
    var x, left, right := a[0], b[..i], b[i + 1..];
    assert b == left + [x] + right;
    assert a == [x] + a[1..];
    assert multiset(left + right) == multiset(left) + multiset(right);
    forall y ensures multiset(a[1..])[y] == multiset(left + right)[y] {
      assert multiset(a)[y] == multiset(b)[y];
    }
  }

  /** Projecting two permutations of each other gives two permutations of each other. */
  lemma {:induction false} ViewsOfPermutation(a: seq<Suggestion>, b: seq<Suggestion>)
    requires multiset(a) == multiset(b)
    ensures multiset(Views(a)) == multiset(Views(b))
    decreases |a|
  {
    if a == [] {
      assert |b| == |multiset(b)| == 0;
    } else {
      var x := a[0];
      assert x in multiset(b);
      assert x in b;
      var i :| 0 <= i < |b| && b[i] == x;
      RemoveAt(a, b, i);
      ViewsOfPermutation(a[1..], b[..i] + b[i + 1..]);
      ViewsWithout(b, i);
      assert Views(a) == [View(x)] + Views(a[1..]);
    }
  }

  /** The public and the admin listing: every row, newest first, projected. */
  method ListNewestFirst(table: Table) returns (vs: seq<BoxSuggestion>)
    ensures ViewsNewestFirst(vs)
    ensures multiset(vs) == multiset(Views(table.rows))
  {
    var rows := table.SelectNewestFirst();
    ViewsOfPermutation(rows, table.rows);
    vs := Views(rows);
  }

  /** `formData.get("author_name")`, trimmed, with a missing or blank name stored as null. */
  function AuthorOrNull(authorName: Option<string>): (a: Option<string>)
    ensures a.Some? <==> authorName.Some? && !AllWhitespace(authorName.value)
    ensures a.Some? ==> a.value == Trim(authorName.value) && a.value != "" && IsTrimmed(a.value)
  {
    match authorName
    case None => None
    case Some(name) =>
      TrimBlankIff(name);
      if name == "" || Trim(name) == "" then None else Some(Trim(name))
  }

  /**
   * `createSuggestion`: no sign-in is asked for. The row has the trimmed
   * content, the trimmed author name or null, no user and the column
   * default for `category`.
   */
  method CreateSuggestion(table: Table, content: Option<string>, authorName: Option<string>,
                          id: string, now: Timestamp, fails: bool) returns (r: Reply)
    requires table.Valid()
    modifies table
    ensures table.Valid()
    ensures content.None? || AllWhitespace(content.value) ==> r == Error(EmptyContentMessage)
    ensures r == Success <==> content.Some? && !AllWhitespace(content.value) && !fails && !HasId(old(table.rows), id)
    ensures r != Success ==> r.Error? && table.rows == old(table.rows)
    ensures content.Some? && !AllWhitespace(content.value) && r != Success ==> r == Error(PostFailedMessage)
    ensures r == Success ==>
              table.rows == old(table.rows) + [Suggestion(id, Trim(content.value), AuthorOrNull(authorName), None,
                                                          table.defaultCategory, None, None, None, now)]
    ensures AllWellFormed(old(table.rows)) ==> AllWellFormed(table.rows)
  {
    if content.None? || Trim(content.value) == "" {
      TrimBlankIff(content.GetOr(""));
      return Error(EmptyContentMessage);
    }
    TrimBlankIff(content.value);
    var payload := NewSuggestion(Trim(content.value), None, None, AuthorOrNull(authorName));
    InsertedWellFormed(payload, content.value, id, now, table.defaultCategory);
    ghost var before := table.rows;
    var ok := table.Insert(payload, id, now, fails);
    if ok && AllWellFormed(before) {
      AppendWellFormed(before, Stored(payload, id, now, table.defaultCategory));
    }
    if !ok {
      return Error(PostFailedMessage);
    }
    r := Success;
  }

  /** `getSuggestions`: the public listing, or [] when the store fails. */
  method GetSuggestions(table: Table, fails: bool) returns (vs: seq<BoxSuggestion>)
    ensures fails ==> vs == []
    ensures !fails ==> ViewsNewestFirst(vs) && multiset(vs) == multiset(Views(table.rows))
  {
    if fails {
      return [];
    }
    vs := ListNewestFirst(table);
  }

  /**
   * `adminLogin`: a blank password and a wrong one are refused without
   * touching the cookies; the right one opens an admin session.
   */
  method AdminLogin(env: Env, sha256: string -> string, cookies: CookieStore, password: Option<string>)
    returns (r: Reply)
    modifies cookies
    ensures password.None? || AllWhitespace(password.value) ==> r == Error(EnterPasswordMessage)
    ensures (password.Some? && !AllWhitespace(password.value) && !VerifyAdminPassword(env, password.value))
            ==> r == Error(WrongPasswordMessage)
    ensures r == Success <==> password.Some? && VerifyAdminPassword(env, password.value)
    ensures r == Success || r == Error(EnterPasswordMessage) || r == Error(WrongPasswordMessage)
    ensures r != Success ==> cookies.jar == old(cookies.jar)
    ensures r == Success ==> IsAdminSession(env, sha256, cookies)
    ensures r == Success ==>
              cookies.jar == old(cookies.jar)[AdminCookie := Cookie(ExpectedToken(env, sha256).value,
                                                                    Some(SessionCookieOptions(env)))]
  {
    if password.None? || Trim(password.value) == "" {
      TrimBlankIff(password.GetOr(""));
      return Error(EnterPasswordMessage);
    }
    TrimBlankIff(password.value);
    TrimIdempotent(password.value);
    var valid := VerifyAdminPassword(env, Trim(password.value));
    if !valid {
      return Error(WrongPasswordMessage);
    }
    var session := SetAdminSession(env, sha256, cookies);
    if session.Fail? {
      return Thrown(MissingSecretMessage);
    }
    r := Success;
  }

  /** `adminLogout`: deletes the admin cookie and reports success. */
  method AdminLogout(cookies: CookieStore) returns (r: Reply)
    modifies cookies
    ensures r == Success
    ensures cookies.jar == old(cookies.jar) - {AdminCookie}
  {
    ClearAdminSession(cookies);
    r := Success;
  }

  /** `requireAdmin`: passes exactly for an admin session, otherwise throws. */
  function RequireAdmin(env: Env, sha256: string -> string, cookies: CookieStore?): (o: Outcome<string>)
    reads cookies
    ensures o.Pass? <==> IsAdminSession(env, sha256, cookies)
    ensures o.Fail? ==> o.error == AdminRequiredMessage
  {
    if IsAdminSession(env, sha256, cookies) then Pass else Fail(AdminRequiredMessage)
  }

  /**
   * `deleteSuggestion`: without an admin session it throws and the table is
   * untouched; otherwise the row with `id` goes, or the store error is
   * reported.
   */
  method DeleteSuggestion(table: Table, env: Env, sha256: string -> string, cookies: CookieStore?,
                          id: string, fails: bool) returns (r: Reply)
    requires table.Valid()
    modifies table
    ensures table.Valid()
    ensures !old(IsAdminSession(env, sha256, cookies)) ==> r == Thrown(AdminRequiredMessage) && table.rows == old(table.rows)
    ensures old(IsAdminSession(env, sha256, cookies)) ==> r == if fails then Error(DeleteFailedMessage) else Success
    ensures table.rows == if r == Success then RemoveId(old(table.rows), id) else old(table.rows)
    ensures AllWellFormed(old(table.rows)) ==> AllWellFormed(table.rows)
  {
    var gate := RequireAdmin(env, sha256, cookies);
    if gate.Fail? {
      return Thrown(gate.error);
    }
    var ok := table.DeleteById(id, fails);
    r := if ok then Success else Error(DeleteFailedMessage);
  }

  /**
   * `updateAdminResponse`: without an admin session it throws and the table
   * is untouched; otherwise the row with `id` gets the response columns
   * derived from the reply, or the store error is reported.
   */
  method UpdateAdminResponse(table: Table, env: Env, sha256: string -> string, cookies: CookieStore?,
                             id: string, adminResponse: string, now: Timestamp, fails: bool) returns (r: Reply)
    requires table.Valid()
    modifies table
    ensures table.Valid()
    ensures !old(IsAdminSession(env, sha256, cookies)) ==> r == Thrown(AdminRequiredMessage) && table.rows == old(table.rows)
    ensures old(IsAdminSession(env, sha256, cookies)) ==> r == if fails then Error(SaveFailedMessage) else Success
    ensures table.rows == if r == Success then PatchRows(old(table.rows), id, PatchFor(adminResponse, now))
                         else old(table.rows)
    ensures AllWellFormed(old(table.rows)) ==> AllWellFormed(table.rows)
  {
    var gate := RequireAdmin(env, sha256, cookies);
    if gate.Fail? {
      return Thrown(gate.error);
    }
    ghost var before := table.rows;
    var ok := table.UpdateById(id, PatchFor(adminResponse, now), fails);
    if AllWellFormed(before) {
      UpdateKeepsWellFormed(before, id, adminResponse, now);
    }
    r := if ok then Success else Error(SaveFailedMessage);
  }

  /** `getAdminSuggestions`: throws without an admin session; every row newest first, or [] on a store error. */
  method GetAdminSuggestions(table: Table, env: Env, sha256: string -> string, cookies: CookieStore?, fails: bool)
    returns (r: Listing<BoxSuggestion>)
    ensures !IsAdminSession(env, sha256, cookies) ==> r == ListingThrown(AdminRequiredMessage)
    ensures IsAdminSession(env, sha256, cookies) && fails ==> r == Rows([])
    ensures IsAdminSession(env, sha256, cookies) && !fails ==>
              r.Rows? && ViewsNewestFirst(r.rows) && multiset(r.rows) == multiset(Views(table.rows))
  {
    var gate := RequireAdmin(env, sha256, cookies);
    if gate.Fail? {
      return ListingThrown(gate.error);
    }
    if fails {
      return Rows([]);
    }
    var vs := ListNewestFirst(table);
    r := Rows(vs);
  }
}
