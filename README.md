# CommuniGram session, query and account-serializer logic in Dafny

This project models the three pieces of CommuniGram that carry real logic:

- **The authentication slice** of the web client's store (`frontend/src/redux/slices/authSlice.ts`).
  The session is `{userInfo, loading, error}`. It is hydrated from the persisted `'userInfo'` slot.
  The `register` and `login` thunks each go through pending, then fulfilled or rejected.
  Two synchronous actions exist: `resetUserInfo` and `updateUser`.
  `AuthSlice.Reduce` is the reducer as a pure function of state and action.
  `AuthSlice.AuthStore` is the store: its `Dispatch` assigns the draft fields one by one, as the case reducers do, and its `Perform` runs a thunk, writing the storage slot on success only.
- **The query layer's decisions** (`frontend/src/lib/react-query/queries.ts`):
  - the request path each query and mutation builds, including `${id}` of an absent id (the text `undefined`) and `id ?? ''`;
  - the `enabled` gates;
  - the cache keys and the key each mutation invalidates;
  - the infinite feed's cursor (first page 1, next page `pages.length + 1` while the last page has `next`, page size 6).
- **The account serializers** of the backend (`backend/accounts/serializers.py`):
  - the password/confirmation check;
  - the in-place rewrite of the validated data in `save`, including which `KeyError` it raises and what it has already popped by then;
  - the key-by-key merge of the user's fields into the token response;
  - the `isAdmin` and `profile_picture` fields.

JavaScript values are the datatype `JsValues.Json`, with `JNull` standing for `null`.
Truthiness, `String(v)`, `Object.values`, `join` and `split` are written out in `js_values.dfy`.
This matters because the source tests `if (state.userInfo)` and `lastPage.next` by truthiness, and because a rejected register joins `Object.values(payload)` with newlines.
Django REST framework reports a field's errors as a list, and a list inside `join` becomes its elements joined with commas.

Calls into code the model cannot see become inputs:
- an HTTP response or failure is a `Response` value;
- the toolkit's `action.error.message` is a field of the rejected action;
- the feed server is a function from request path to body;
- the database id, the refresh-token object, the access-token text, the image URL builder and the parent token serializer's output are parameters.

Three behaviours of the code worth noting:
- `updateUser` tests `userInfo` for truthiness, not for being non-null;
- a failed login's error is `action.error.message || null`, which the toolkit supplies, not the server's error body;
- a query by user id with no id requests `/api/user/undefined/`, while the follow toggle requests `/api/user/follow//`.

Some facts visible in the model:
- saving or unsaving a post does not invalidate the saved-posts list (`Queries.InvalidationTable`);
- the room-messages and users keys do not include their parameter (`Queries.QueryKey`);
- a failed login clears `userInfo` but leaves a previously persisted session in storage (`AuthSlice.RunThunk`), so the next start-up restores it.

## Model

| member | source | states |
|---|---|---|
| `AuthSlice.StoredUserInfo` | frontend/src/redux/slices/authSlice.ts:12-14 | hydration reads the parsed slot when it holds JSON text; an absent key or empty text gives null |
| `AuthSlice.InitialState` | frontend/src/redux/slices/authSlice.ts:16-20 | the initial session has `loading` false, `error` null and the hydrated user |
| `AuthSlice.RegisterRejectedError` | frontend/src/redux/slices/authSlice.ts:120 | an absent or falsy payload gives exactly "Registration failed"; a truthy payload with no values (`{}`, `[]`, `true`, a non-zero number) gives the empty string; every other truthy payload is characterised by `AuthSlice.RegisterErrorLines` |
| `AuthSlice.LoginRejectedError` | frontend/src/redux/slices/authSlice.ts:133 | the error is set iff the toolkit's message is present and non-empty, and it is then that message |
| `AuthSlice.Reduce` | frontend/src/redux/slices/authSlice.ts:99-134 | pending sets `loading` and keeps user and error; fulfilled gives the payload, not loading, no error; rejected clears user and loading and sets each thunk's error (`AuthSlice.RejectedError`: the register error at line 120, the login error at line 133); reset returns the initial state; `updateUser` keeps `loading` and `error` and is a no-op on a falsy user |
| `AuthSlice.RunThunk` | frontend/src/redux/slices/authSlice.ts:22-92 | success writes the response to the `'userInfo'` slot and the session becomes that response, and a reload would restore the same session; failure leaves storage untouched and clears user and loading |
| `AuthSlice.LoadingFollowsLastLifecycleAction` | frontend/src/redux/slices/authSlice.ts:109-134 | after any trace, `loading` is true exactly when the last non-`updateUser` action is a pending one; a trailing fulfilled leaves no error |
| `AuthSlice.ResetForgetsHistory` | frontend/src/redux/slices/authSlice.ts:99 | a trace ending in `resetUserInfo` yields the initial state whatever came before, and a second reset changes nothing |
| `AuthSlice.StorageHoldsLastSuccess` | frontend/src/redux/slices/authSlice.ts:35-90 | after any sequence of logins and registers (the writes at lines 41 and 85), the slot holds the last successful response, or its old content if none succeeded; no other key changes |
| `AuthSlice.AuthStore.constructor` | frontend/src/redux/slices/authSlice.ts:12-20 | the store starts in the initial state hydrated from the given storage |
| `AuthSlice.AuthStore.Dispatch` | frontend/src/redux/slices/authSlice.ts:101-134 | the field assignments give exactly the reducer's new state and leave storage alone |
| `AuthSlice.AuthStore.Perform` | frontend/src/redux/slices/authSlice.ts:79-90 | dispatching pending, writing storage on success, then fulfilled or rejected gives exactly `RunThunk`'s session and storage |
| `AuthSlice.RegisterErrorLines` | frontend/src/redux/slices/authSlice.ts:120 | for every truthy payload with at least one value, the error split at newlines is each converted value's own newline-split pieces, value after value, so values holding newlines (a string body's newline characters, say) are covered too |
| `AuthSlice.RegisterErrorListsMessages` | frontend/src/redux/slices/authSlice.ts:120 | for every truthy payload with at least one value (an object of messages or of Django REST framework message lists, an array, a string) whose converted values hold no newline, the error split at newlines is exactly those converted values in order; a list value converts to its elements joined by commas (`JsValues.ElementString`) |
| `AuthSlice.RegisterErrorExample` | frontend/src/redux/slices/authSlice.ts:120 | the payload `{field1: "a", field2: "b"}` gives "a\nb" |
| `AuthSlice.RegisterErrorFieldList` | frontend/src/redux/slices/authSlice.ts:120 | a field holding a list of messages contributes them joined by commas |
| `JsValues.ObjectValues` | frontend/src/redux/slices/authSlice.ts:120 | `Object.values` gives an object's values in order, an array's elements, a string's characters, and nothing for other values |
| `JsValues.JoinSplit` | frontend/src/redux/slices/authSlice.ts:120 | joining the pieces of a split with the separator rebuilds the string |
| `JsValues.SplitJoin` | frontend/src/redux/slices/authSlice.ts:120 | splitting the newline join of separator-free messages gives them back |
| `JsValues.SplitAppend` | frontend/src/redux/slices/authSlice.ts:120 | splitting two strings joined by the separator gives the pieces of the first, then those of the second |
| `JsValues.SplitOfJoin` | frontend/src/redux/slices/authSlice.ts:120 | splitting a join of any strings gives each string's own pieces, in order |
| `JsValues.Lookup` | frontend/src/lib/react-query/queries.ts:272 | a property read gives undefined iff no field has the key, and otherwise a value the object holds under it |
| `Decimal.NatToString` | frontend/src/lib/react-query/queries.ts:266 | a page number is written as canonical decimal digits |
| `Decimal.DecimalValueOfNatToString` | frontend/src/lib/react-query/queries.ts:266 | reading back the decimal text of a number gives the number |
| `Queries.Interpolated` | frontend/src/lib/react-query/queries.ts:44 | `${id}` is the id, or the text "undefined" when absent |
| `Queries.OrEmpty` | frontend/src/lib/react-query/queries.ts:66 | `id ?? ''` is the id, or "" when absent |
| `Queries.QueryKey` | frontend/src/lib/react-query/queries.ts:27-323 | every query key starts with its registry tag |
| `Queries.RequestPath` | frontend/src/lib/react-query/queries.ts:217-289 | a query issues no request (it is not `Queries.Enabled`, the `enabled: !!x` options at lines 225, 255 and 287) iff it is post-by-id or user-posts with an empty or absent id, or a post search with an empty term; when enabled the user-posts path holds the id itself, so the `?? ''` fallback never reaches it; user-by-id with no id requests `/api/user/undefined/` |
| `Queries.MutationPath` | frontend/src/lib/react-query/queries.ts:55-240 | the follow path is the prefix, then the id or "" for an absent id, then "/" |
| `Queries.FollowPathCoercion` | frontend/src/lib/react-query/queries.ts:66 | an absent follow id gives `/api/user/follow//`, the same path as the empty id; paths are equal iff the coerced ids are |
| `Queries.InvalidationTable` | frontend/src/lib/react-query/queries.ts:59-243 | with `Queries.InvalidationFilter` as the `onSuccess` keys (lines 69-71, 117-119, 138-140, 175-177, 192-194, 209-211, 239-241), under prefix matching, like/unlike/save/unsave/delete-post mark exactly the recent-posts query stale, follow marks every user-by-id query, like-comment every post-by-id query, comment and sign-out none |
| `Queries.GetNextPageParam` | frontend/src/lib/react-query/queries.ts:271-275 | a next page is named iff the last page is an object with a truthy `next`, and it is `pages.length + 1`; a null page raises the TypeError |
| `Queries.Crawl` | frontend/src/lib/react-query/queries.ts:261-276 | after n fetches the feed holds between 1 and n + 1 pages |
| `Queries.CrawlRequestsConsecutivePages` | frontend/src/lib/react-query/queries.ts:264-273 | the i-th page held is the server's answer to the request for page i + 1, so pages 1, 2, 3, ... are requested in order without gaps or repeats |
| `Queries.CrawlGrowth` | frontend/src/lib/react-query/queries.ts:271-275 | while every page has `next`, each fetch adds one page; once the last page has none, further fetches add nothing |
| `Queries.FeedPathNamesItsPage` | frontend/src/lib/react-query/queries.ts:260-270 | a feed request (`Queries.FeedPath`, lines 264-266) is `/api/post?limit=6&page=` followed by the page's digits, the page is recoverable from it, and an absent page is page 1 |
| `Queries.FeedPathsDistinct` | frontend/src/lib/react-query/queries.ts:264-266 | two feed requests have the same path iff they are for the same page |
| `Queries.SignOutStorage` | frontend/src/lib/react-query/queries.ts:76-80 | after the logout request resolves, the `'userInfo'` slot is removed, the key set is exactly the old keys without it and every other key keeps its value, so the next start-up has no user; a rejected logout request skips the removal and leaves storage unchanged |
| `Serializers.ValidateRegistration` | backend/accounts/serializers.py:76-93 | validation succeeds iff both passwords are present and equal, and then returns the data unchanged; "Passwords do not match." is raised iff both are present and differ; otherwise a `KeyError` names a missing password key |
| `Serializers.FirstMissing` | backend/accounts/serializers.py:109-114 | returns the first of the keys read that is missing, or none iff all are present |
| `Serializers.SaveEffect` | backend/accounts/serializers.py:95-125 | on success `confirmPassword` is gone, `id`, `access_token` and `refresh_token` hold the given values, the key set is exactly the old keys minus the confirmation plus those three, and every other key keeps its value; a missing confirmation raises before any change; a later `KeyError` leaves only the pop done |
| `Serializers.Save` | backend/accounts/serializers.py:108-125 | the step-by-step updates of the caller's dictionary give exactly `SaveEffect`'s dictionary and exception |
| `Serializers.GetProfilePicture` | backend/accounts/serializers.py:29-34 | None iff the user has no picture, otherwise the first element of the URL builder's result for the picture's public id |
| `Serializers.SerializeUser` | backend/accounts/serializers.py:8-34 | the seven declared fields in order, with `isAdmin` equal to `is_staff` (`Serializers.GetIsAdmin`, lines 21-23) and `profile_picture` as derived |
| `Serializers.MergeDistinct` | backend/accounts/serializers.py:56-57 | merging items with distinct keys adds exactly their keys, gives each its item's value and keeps every other key's value |
| `Serializers.MergeOverrides` | backend/accounts/serializers.py:56-57 | after the loop (`Serializers.Merge`) each key given maps to its last value, and every other key keeps its presence and value |
| `Serializers.TokenResponseFields` | backend/accounts/serializers.py:54-58 | the token response holds every user field with the user's value, overriding a token key of the same name, and every other token key unchanged |
| `Serializers.ObtainTokenPair` | backend/accounts/serializers.py:42-58 | the loop builds exactly the merge, and `id`, `username`, `isAdmin` and `profile_picture` come from the user while the token keys survive |

## Left out

- The HTTP calls (axios) and the parsing of responses are not modelled. Each fetch result is an input value.
- React Query's cache, deduplication, refetching and retry are not modelled. Its code is not part of this model. Invalidation is modelled only as which keys a mutation's filter matches by prefix.
- `localStorage` and `JSON.parse`/`JSON.stringify` are abstracted. Storage is a map from keys to either empty text or the serialization of a value. Malformed persisted JSON, which the source does not catch, is not modelled. A `setItem` that throws is not modelled either.
- Overlapping concurrent thunks are not modelled. Events form a sequential trace.
- JavaScript numbers are integers here. Floating-point ids and page numbers are not modelled.
- `Object.values` follows insertion order. JavaScript's rule that integer-like keys come first is not modelled. Object keys are taken to be distinct.
- The thunks' request bodies and headers are not modelled. They only travel over the network.
- `Queries.Crawl` does not carry the TypeError that reading `lastPage.next` on a null page body throws (queries.ts:272), which nothing in the query layer catches. `Queries.GetNextPageParam` reports it as `NullPageError`, but the crawl treats it like "no next page". It stops quietly with the pages it holds, and `Queries.CrawlGrowth`'s stability statement covers that case too. The crawl also assumes the library asks for `getNextPageParam(lastPage, pages)` after each fetch.
- `Queries.QueryTag`: the `QUERY_KEYS` values come from `queryKeys.ts`, which is not part of this model. They are taken to be distinct strings. `Queries.InvalidationTable`'s "exactly" statements rely on this: if two keys were equal, a mutation would also invalidate the other query.
- `JsValues.ObjectValues` splits a string into Unicode scalar values, while JavaScript's `Object.values` splits it into UTF-16 code units. The two differ for a string error body holding a character outside the Basic Multilingual Plane: JavaScript yields two lone surrogates with a newline between them, the model one character. Dafny strings have no UTF-16 code units to model.
- `JsValues.Lookup` states only that the value is held under the key, not that it is the first such field. A parsed object has distinct keys, so the two agree.
- `console.log` (queries.ts:68) is not modelled. Nor is the `useCreateComment` `onSuccess` that returns its data unchanged.
- `frontend/src/_root/pages/Saved.tsx` is a render component and is not part of this model. `backend/accounts/migrations/0003_user_following.py` is a declarative schema migration.
- Some foreign calls are absent: the database's `User.objects.create`, `set_password` and `save`; simplejwt's `RefreshToken.for_user` and the parent `TokenObtainPairSerializer.validate`; and `cloudinary_url`. Their results are parameters. A database error raised by `create` is not modelled.
- Django REST framework's own field validation is not modelled. Neither are two unused members: `RegistrationSerializer`'s `tokens`/`token` method fields, which have no getter, and `UserSerializer.get__id`, which no field uses.
