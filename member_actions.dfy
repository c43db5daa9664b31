/**
 * The members' app server actions (src/app/actions.ts): a signed-in
 * member posts a suggestion, and everyone's suggestions are listed newest
 * first.
 */
module MemberActions {

  import opened Wrappers
  import opened Strings
  import opened Database
  import opened SuggestionStore
  import opened Lifecycle
  import opened Replies
  import Categories

  const EmptyContentMessage: string := "ご意見を入力してください。"
  const SignInMessage: string := "ログインしてください。"
  const PostFailedMessage: string := "投稿に失敗しました。しばらくおいて再度お試しください。"

  /** The member `auth.getUser()` resolves to. */
  datatype User = User(id: string)

  /** `(formData.get("category") as string) || "other"`: a missing or empty category becomes "other". */
  function CategoryOrDefault(category: Option<string>): (r: string)
    ensures r != ""
    ensures category.Some? && category.value != "" ==> r == category.value
    ensures category.None? || category.value == "" ==> r == "other"
  {
    if category.None? || category.value == "" then Categories.DefaultCategory else category.value
  }

  /**
   * `createSuggestion`. `content` and `category` are the form fields
   * (`None` when absent), `user` the signed-in member, `id` and `now` the
   * values the store assigns, `clientFails` a client that cannot be built
   * or a `getUser()` that throws (both caught before the member is
   * checked), `fails` a store error on the insert.
   */
  method CreateSuggestion(table: Table, content: Option<string>, category: Option<string>, user: Option<User>,
                          id: string, now: Timestamp, clientFails: bool, fails: bool) returns (r: Reply)
    requires table.Valid()
    modifies table
    ensures table.Valid()
    ensures content.None? || AllWhitespace(content.value) ==> r == Error(EmptyContentMessage)
    ensures content.Some? && !AllWhitespace(content.value) && clientFails ==> r == Error(PostFailedMessage)
    ensures content.Some? && !AllWhitespace(content.value) && !clientFails && user.None? ==> r == Error(SignInMessage)
    ensures r == Success <==>
              content.Some? && !AllWhitespace(content.value) && !clientFails && user.Some? && !fails
              && !HasId(old(table.rows), id)
    ensures r != Success ==> r.Error? && table.rows == old(table.rows)
    ensures content.Some? && !AllWhitespace(content.value) && !clientFails && user.Some? && r != Success ==>
              r == Error(PostFailedMessage)
    ensures r == Success ==>
              table.rows == old(table.rows) + [Suggestion(id, Trim(content.value), None, Some(user.value.id),
                                                          CategoryOrDefault(category), None, None, None, now)]
    ensures r == Success ==> ContentValid(table.rows[|table.rows| - 1])
    ensures AllWellFormed(old(table.rows)) ==> AllWellFormed(table.rows)
  {
    if content.None? || Trim(content.value) == "" {
      TrimBlankIff(content.GetOr(""));
      return Error(EmptyContentMessage);
    }
    TrimBlankIff(content.value);
    if clientFails {
      return Error(PostFailedMessage);
    }
    if user.None? {
      return Error(SignInMessage);
    }
    var payload := NewSuggestion(Trim(content.value), Some(CategoryOrDefault(category)), Some(user.value.id), None);
    InsertedWellFormed(payload, content.value, id, now, table.defaultCategory);
    ghost var row := Stored(payload, id, now, table.defaultCategory);
    assert row == Suggestion(id, Trim(content.value), None, Some(user.value.id),
                             CategoryOrDefault(category), None, None, None, now);
    ghost var before := table.rows;
    var ok := table.Insert(payload, id, now, fails);
    if !ok {
      assert table.rows == before;
      return Error(PostFailedMessage);
    }
    assert table.rows == before + [row];
    if AllWellFormed(before) {
      AppendWellFormed(before, row);
    }
    r := Success;
  }

  /**
   * `getSuggestions`: every row newest first, or [] when the store fails
   * (the privileged client's configuration missing included).
   */
  method GetSuggestions(table: Table, fails: bool) returns (rows: seq<Suggestion>)
    ensures fails ==> rows == []
    ensures !fails ==> NewestFirst(rows) && multiset(rows) == multiset(table.rows)
  {
    if fails {
      return [];
    }
    rows := table.SelectNewestFirst();
  }
}
