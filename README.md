# suggestion-box, modelled in Dafny

A model of the server-side core of the suggestion box. The box is a
Next.js application backed by a Supabase `suggestions` table. Members post
suggestions and read a shared timeline. An administrator, who signs in with
a shared secret, reads every suggestion, replies to it or deletes it.

The project models these parts:

- **Categories**: the six-valued category enumeration with its label and
  colour tables (`categories.dfy`), and the four-valued one of the member
  timeline (`database.dfy`).
- **Rows**: the `Suggestion` row type (`database.dfy`).
- **The table**: a class whose methods insert a row, patch the response
  columns of the row with a given id, delete the row with a given id, and
  select every row newest first (`store.dfy`). The insert, the patch and
  the delete may fail, and a failure leaves the table as it was. The
  select itself does not fail; a failed listing is the actions' `fails`
  parameter.
- **Reply columns**: the three response columns an admin reply derives
  (`lifecycle.dfy`), and the well-formedness that every action keeps.
- **Admin session**: the shared-secret check and the admin cookie
  (`admin.dfy`), over a cookie-jar class (`cookies.dfy`).
- **Route guard**: the request middleware (`middleware.dfy`).
- **Server actions**:
  - the members' app (`member_actions.dfy`);
  - the legacy suggestion box (`box_actions.dfy`);
  - the admin dashboard (`admin_actions.dfy`).
- **Poster id**: the anonymous poster-id cookie (`poster_session.dfy`).
- **Timeline helpers**: the display name and the category badge
  (`timeline_page.dfy`).
- **Shared pieces**: ECMAScript `trim` and `startsWith` (`strings.dfy`),
  and the result and option types (`wrappers.dfy`, `replies.dfy`).

Conventions of the model:

- **Optional and nullable fields.** A TypeScript field that may be absent or
  null (`x?: T | null`) is an `Option<Option<T>>`:
  - `None` means absent;
  - `Some(None)` means null;
  - `Some(Some(v))` means a value.
- **Outside values are parameters.**
  - The store's id, its clock (`now`) and its failures (`fails`) are method
    parameters.
  - So are the SHA-256 digest (`sha256`) and `randomUUID()` (`freshId`).
  - The environment variables arrive as an `Env` value.
  - A cookie read that throws is a null jar (`CookieStore?`) for the
    actions that check the admin session.
- **Thrown errors are values.** A thrown error is the `Thrown` reply. A
  returned `{ error }` is `Error`.

Four behaviours of the code that a reader might not expect, which the
model keeps:

- **Category.** The members' create action only replaces a missing or
  empty category by "other". It does not map unknown strings to "other"
  (`MemberActions.CategoryOrDefault`).
- **Response columns on insert.** The create actions do not send `status`
  or the response columns. A fresh row leaves them unset (`None`); it does
  not set "open" and nulls (`SuggestionStore.Stored`).
- **Listing order.** Listings are ordered by `created_at` descending, with
  no tie-break on `id`. `NewestFirst` allows any order among equal
  instants.
- **Timeline labels.** The timeline knows only four categories. "welfare"
  and "event" rows show the raw id and the fallback colour
  (`TimelinePage.BadgeLookup`).

## Model

| member | source | states |
|---|---|---|
| Categories.Parse | src/lib/categories.ts:2-11 | a stored string reads as a category exactly when it is one of the six listed ids, and that category's id is the string |
| Categories.Label | src/lib/categories.ts:13-20 | every category has an entry in the label table, and its label is that entry |
| Categories.Color | src/lib/categories.ts:22-29 | every category has an entry in the colour table, and its colour is that entry |
| Categories.ListIsEnumeration | src/lib/categories.ts:2-9 | the list is the six ids in declaration order, with no id twice |
| Categories.IdRoundTrip | src/lib/categories.ts:2-11 | each category parses back from its own id |
| Categories.TablesCoverExactlyTheList | src/lib/categories.ts:2-29 | both tables are keyed by exactly the listed ids, and the default "other" is one of them |
| Database.Widen | src/types/database.ts:13-27 | each timeline category is the six-set category with the same id, the same label and the same colour |
| Database.CategoriesEnumerateTheType | src/types/database.ts:13-27 | `CATEGORIES` lists the four ids once each, in order, and the colour record covers all four |
| Database.FourSetIsSubsetOfSixSet | src/types/database.ts:13 | the timeline ids are the six ids without "welfare" and "event" |
| Strings.Trim | src/lib/admin.ts:8 | the result of `trim` neither starts nor ends with ECMAScript whitespace |
| Strings.TrimIsInfix | src/lib/admin.ts:8 | the result of `trim` is an infix of the input with only whitespace before and after it |
| Strings.TrimBlankIff | src/app/actions.ts:23 | `s.trim()` is empty (falsy) exactly when `s` is all whitespace |
| Strings.TrimOfTrimmed | src/app/suggestion-box/admin/actions.ts:50 | trimming a trimmed string changes nothing |
| Strings.TrimIdempotent | src/app/suggestion-box/actions.ts:74 | trimming twice, as `adminLogin` then `verifyAdminPassword` do, is trimming once |
| Strings.TrimIgnoresPadding | src/lib/admin.ts:18 | whitespace added around a string does not survive trimming |
| Middleware.SomePrefix | src/middleware.ts:46-47 | `some(startsWith)` holds exactly when some listed path is a prefix of the pathname |
| Middleware.Decide | src/middleware.ts:46-63 | a redirect to sign-in happens exactly for a path that is neither admin nor public without a member, and it carries the pathname; a redirect home happens exactly for a member on "/login" |
| Middleware.PublicIffLoginPrefix | src/middleware.ts:18-46 | a path is public exactly when it starts with "/login" ("/loginx" included) |
| Middleware.AdminPathsPass | src/middleware.ts:47-51 | a path under "/suggestion-box/admin" always passes, with or without a member |
| Middleware.SignedInOnLoginPaths | src/middleware.ts:59-63 | a member on "/login" goes home; on any other "/login…" path the request passes |
| Middleware.AnonymousMemberPathRedirects | src/middleware.ts:53-57 | without a member, any path outside "/login…" and the admin area goes to sign-in with itself as `redirect` |
| Admin.Secret | src/lib/admin.ts:8-9 | there is no secret exactly when the variable is unset or blank; otherwise the secret is the non-empty trimmed value |
| Admin.ExpectedToken | src/lib/admin.ts:7-13 | the token exists exactly when the secret does, and it is the digest of the secret followed by the salt |
| Admin.VerifyAdminPassword | src/lib/admin.ts:15-19 | a password is accepted exactly when a secret exists and the trimmed password equals it; an accepted password is not blank |
| Admin.SessionCookieOptions | src/lib/admin.ts:25-31 | the admin cookie is HTTP-only, SameSite=Lax, on path "/", kept for one day (86400 seconds), and secure exactly in production |
| Admin.SetAdminSession | src/lib/admin.ts:21-32 | without a secret it fails and writes nothing; otherwise it writes the token with the session attributes, after which the jar is an admin session |
| Admin.ClearAdminSession | src/lib/admin.ts:34-37 | the admin cookie is gone and every other cookie is as it was |
| Admin.IsAdminSession | src/lib/admin.ts:39-49 | true exactly when the jar is readable, a token exists, and the admin cookie holds that token |
| Admin.AcceptedPasswordHasToken | src/lib/admin.ts:15-32 | after an accepted password, `setAdminSession` cannot throw |
| Admin.NoSecretFailsClosed | src/lib/admin.ts:7-49 | without a usable secret no password is accepted and no jar is an admin session |
| Admin.VerifyIgnoresPadding | src/lib/admin.ts:15-19 | whitespace around the typed password or around the configured secret never changes the verdict |
| Admin.RotatedSecretRejectsOldCookie | src/lib/admin.ts:39-49 | a cookie written under one secret is not a session under a secret with a different token |
| PosterSession.PosterCookieOptions | src/lib/posterSession.ts:14-20 | the poster cookie is HTTP-only, SameSite=Lax, on path "/", kept for one year (31536000 seconds), and secure exactly in production |
| PosterSession.GetPosterId | src/lib/posterSession.ts:8-24 | a stored non-empty id is returned and nothing is written; otherwise the fresh id is stored with the one-year attributes and returned; no other cookie changes |
| PosterSession.GetPosterIdTwice | src/lib/posterSession.ts:8-24 | a second call returns the same id and writes nothing more |
| SuggestionStore.InsertNewestFirst | src/app/actions.ts:57-60 | inserting a row into a newest-first sequence keeps it newest first and adds exactly that row |
| SuggestionStore.RemoveId | src/app/suggestion-box/admin/actions.ts:76 | no row with the id remains, every other row stays, no row is added, and ids stay unique |
| SuggestionStore.RemoveIdCount | src/app/suggestion-box/admin/actions.ts:76 | with unique ids, deleting by id removes one row when the id is present and none otherwise |
| SuggestionStore.PatchRows | src/app/suggestion-box/admin/actions.ts:54-61 | rows with the id get the patch, every other row is unchanged, and the length is kept |
| SuggestionStore.Table.Insert | src/app/actions.ts:37-42 | the insert succeeds exactly when the store does not fail and the id is new; it then appends the stored row, and otherwise changes nothing |
| SuggestionStore.Table.UpdateById | src/app/suggestion-box/admin/actions.ts:54-61 | on success the rows become the patched rows, and otherwise they are unchanged |
| SuggestionStore.Table.DeleteById | src/app/suggestion-box/admin/actions.ts:76 | on success the row with the id is removed, so the table shrinks by one row exactly when the id was present; otherwise nothing changes |
| SuggestionStore.Table.SelectNewestFirst | src/app/actions.ts:57-60 | the result is newest first and a permutation of the table |
| Lifecycle.PatchFor | src/app/suggestion-box/admin/actions.ts:50-60 | a non-blank reply gives "responded" with the trimmed, non-empty text and the instant; a blank one gives "open" with both columns null |
| Lifecycle.PatchForConsistent | src/app/suggestion-box/admin/actions.ts:50-60 | every reply yields a patch whose three columns agree |
| Lifecycle.PatchIsConsistent | src/app/suggestion-box/admin/actions.ts:54-61 | applying a consistent patch leaves the row's response columns consistent and keeps a well-formed row well formed |
| Lifecycle.UpdateKeepsWellFormed | src/app/suggestion-box/admin/actions.ts:50-61 | an admin reply keeps every row of the table well formed |
| Lifecycle.AppendWellFormed | src/app/actions.ts:37-42 | appending a well-formed row keeps the table well formed |
| Lifecycle.InsertedWellFormed | src/app/actions.ts:23-42 | a row inserted with non-blank, trimmed content is well formed |
| Lifecycle.BlankPatchIsClear | src/app/suggestion-box/actions.ts:119-121 | every blank reply clears the row the same way, whatever the clock says |
| Lifecycle.ClearAfterReply | src/app/suggestion-box/actions.ts:116-123 | replying and then clearing equals clearing directly, and clearing twice equals clearing once |
| Lifecycle.PatchOfTrimmed | src/app/suggestion-box/admin/actions.ts:50-60 | trimming the reply before deriving the columns changes nothing |
| MemberActions.CategoryOrDefault | src/app/actions.ts:21-39 | a present, non-empty category is kept as it is; a missing or empty one becomes "other"; the result is never empty |
| MemberActions.CreateSuggestion | src/app/actions.ts:19-51 | empty content is refused first; then a client that cannot be built fails with the post error, even without a member; then a missing member is refused; none of these writes; otherwise exactly one row is appended (trimmed content, the member's id, no author, the defaulted category), or, when the store fails, the retry message is returned and nothing is written; the table stays well formed |
| MemberActions.GetSuggestions | src/app/actions.ts:54-68 | every row, newest first, or [] when the store fails |
| BoxActions.View | src/app/suggestion-box/actions.ts:55 | the view keeps the seven selected columns of the row |
| BoxActions.Views | src/app/suggestion-box/actions.ts:55 | the listing projects every row in place: same length, and each position is the view of the row there |
| BoxActions.ViewsOfPermutation | src/app/suggestion-box/actions.ts:53-56 | projecting two permutations of each other gives two permutations of each other |
| BoxActions.ListNewestFirst | src/app/suggestion-box/actions.ts:53-56 | the projected listing is newest first and a permutation of the table's projection |
| BoxActions.AuthorOrNull | src/app/suggestion-box/actions.ts:27-37 | a name is stored exactly when it is present and not blank, and then trimmed and non-empty |
| BoxActions.CreateSuggestion | src/app/suggestion-box/actions.ts:25-48 | empty content is refused without writing; otherwise one row with trimmed content, the trimmed author or null and no user is appended, or, when the store fails, the retry message is returned and nothing is written |
| BoxActions.GetSuggestions | src/app/suggestion-box/actions.ts:50-64 | every row, projected and newest first, or [] when the store fails |
| BoxActions.AdminLogin | src/app/suggestion-box/actions.ts:68-82 | a blank password and a wrong one are refused without touching the cookies; success is exactly an accepted password, and it leaves an admin session |
| BoxActions.AdminLogout | src/app/suggestion-box/actions.ts:84-88 | the admin cookie is deleted and success is reported |
| BoxActions.RequireAdmin | src/app/suggestion-box/actions.ts:90-95 | passes exactly for an admin session, and otherwise fails with the sign-in message |
| BoxActions.DeleteSuggestion | src/app/suggestion-box/actions.ts:97-110 | without a session it throws and leaves the table as it was; otherwise the row with the id is removed, or the store error is returned |
| BoxActions.UpdateAdminResponse | src/app/suggestion-box/actions.ts:112-133 | without a session it throws and leaves the table as it was; otherwise the row with the id gets the derived columns, or the store error is returned; the table stays well formed |
| BoxActions.GetAdminSuggestions | src/app/suggestion-box/actions.ts:135-150 | throws without a session; otherwise every row, projected and newest first, or [] |
| AdminActions.AdminLogout | src/app/suggestion-box/admin/actions.ts:25-29 | the admin cookie is deleted, after which there is no admin cookie, and the reply redirects to the admin login page |
| AdminActions.GetAdminSuggestions | src/app/suggestion-box/admin/actions.ts:31-46 | throws without a session; otherwise every row, projected and newest first, or [] |
| AdminActions.TrimmedCommentIsTrim | src/app/suggestion-box/admin/actions.ts:50 | the comment used is trimmed, and empty exactly when the comment is missing or blank |
| AdminActions.CommentPatch | src/app/suggestion-box/admin/actions.ts:50-60 | the columns derived from the trimmed comment are those derived from the comment |
| AdminActions.CommentRows | src/app/suggestion-box/admin/actions.ts:50-61 | so the rows written are those the comment determines |
| AdminActions.UpdateAdminResponse | src/app/suggestion-box/admin/actions.ts:48-70 | without a session it throws and leaves the table as it was; otherwise the row with the id gets the derived columns, or the save error is thrown; the table stays well formed |
| AdminActions.DeleteSuggestion | src/app/suggestion-box/admin/actions.ts:72-85 | without a session it throws and leaves the table as it was; otherwise the row with the id is removed, or the delete error is thrown |
| TimelinePage.ToInt32 | src/app/page.tsx:26 | the result is a 32-bit signed integer congruent to the input modulo 2^32 |
| TimelinePage.Utf16 | src/app/page.tsx:25-26 | one code unit or more per character, each below 0x10000 |
| TimelinePage.Utf16RoundTrip | src/app/page.tsx:25-26 | the code units `charCodeAt` reads decode back to exactly the code points of the id: one unit for a character of the Basic Multilingual Plane, a surrogate pair for any other |
| TimelinePage.ToInt32KeepsParity | src/app/page.tsx:26 | ToInt32 keeps parity |
| TimelinePage.ShiftIsEven | src/app/page.tsx:26 | the shifted term `hash << 5` is always even |
| TimelinePage.HashParity | src/app/page.tsx:24-27 | the hash has the parity of the sum of the code units |
| TimelinePage.HashBound | src/app/page.tsx:24-27 | after n code units the hash's magnitude is at most n * (2^31 + 0xFFFF): each unit adds at most 2^31 + 0xFFFF to it |
| TimelinePage.HashIsExact | src/app/page.tsx:24-27 | below 2^21 code units the hash stays below 2^53, so doubles compute it exactly |
| TimelinePage.GetDisplayName | src/app/page.tsx:22-29 | no id, or an empty one, is anonymous; otherwise the label of the hash, which is decided by the parity of the code-unit sum |
| TimelinePage.Find | src/app/page.tsx:126 | a found entry is in the list and has the id, and no earlier entry has it; no entry is found only when none has it |
| TimelinePage.CategoryLabel | src/app/page.tsx:126 | an id listed in `CATEGORIES` shows that entry's label; any other string shows itself |
| TimelinePage.CategoryBadgeColor | src/app/page.tsx:123 | a timeline id shows its own colour; any other string shows the slate fallback |
| TimelinePage.BadgeLookup | src/app/page.tsx:123-126 | of the six categories a row can carry, the four the timeline knows show the six-category label and colour; "welfare" and "event" show their raw id, not their label, in the fallback colour |

## Left out

- The Supabase client is not modelled: connecting, authentication, row-level security, and the `createClient` / `createAdminClient` configuration checks. Store errors, a missing service key included, are the `fails` parameter. In the members' create, a client that cannot be built or a `getUser()` that throws is the separate `clientFails` parameter, checked before the member is.
- The member listing's column projection is not modelled. The member listing selects `user_id` and `category` but not `author_name`. The legacy listing selects `author_name` but not those two. The model returns whole rows to members, and `BoxSuggestion` views on the legacy side.
- The database's column defaults (for `category`, `status` and the others) come from a schema that is not part of this repository. The table's `defaultCategory` is a constructor parameter. The select always returns `status`, `admin_response` and `admin_responded_at`; in the model, `None` in those fields stands for a schema default that is not known here.
- ISO-8601 text for `created_at` and `admin_responded_at` is not modelled; instants are integers ordered chronologically.
- `revalidatePath`, `console.error`, the `redirect` call's control transfer, and React rendering are side effects on the framework; they are left out. `redirect` becomes the `Redirected` reply.
- The identity provider's `getUser()` is an input: `userPresent` in the middleware, `Option<User>` in the member action.
- Middleware: the `setAll` cookie forwarding and the `matcher` pattern are left out; the model decides only from the pathname and the member's presence.
- `randomUUID()` and SHA-256 are parameters; nothing about their values is assumed beyond a non-empty fresh id. The source tests the token for truthiness (`if (!token)`, `if (!expected)`), the model only for its presence: the two agree because a hex SHA-256 digest is never empty.
- Concurrency and `await` ordering are not modelled; each action runs to completion on its own.
- Admin.VerifyAdminPassword: uses plain string equality, as the source does; timing is not modelled.
- TimelinePage.GetDisplayName: exact integers are used, which are proved to agree with JavaScript doubles below 2^21 code units (`TimelinePage.HashIsExact`); longer ids are not modelled.
- TimelinePage.CategoryBadgeColor: does not model keys inherited from `Object.prototype` (such as "constructor"), which the source's record lookup would also find.
- Categories.Label: does not model keys inherited from `Object.prototype` either; it is stated for the six category ids only.
