/**
 * The authentication slice of the client's store: the session
 * `{userInfo, loading, error}`, the case reducers of the `register` and
 * `login` thunks, the synchronous `resetUserInfo` and `updateUser` actions,
 * and the single persisted storage slot the thunks write on success.
 *
 * `Reduce` is the reducer as a function of (state, action); `AuthStore` is the
 * store whose methods assign the draft fields one by one, as the case
 * reducers do, and whose thunk method also writes storage.
 */
module AuthSlice {
  import opened Wrappers
  import opened JsValues

  /** The one storage key the session is persisted under. */
  const StorageKey: string := "userInfo"

  /** The error text a rejected register shows when the response carried no usable payload. */
  const RegistrationFallback: string := "Registration failed"

  /** What a storage slot holds: the empty string, or the JSON text of a value
      (`JSON.stringify` of that value, which `JSON.parse` reads back). */
  datatype Blob = EmptyText | Serialized(value: Json)

  type Storage = map<string, Blob>

  /** The slice state. `userInfo == JNull` is "no user". */
  datatype Session = Session(userInfo: Json, loading: bool, error: Option<string>)

  /** The two asynchronous thunks. */
  datatype Thunk = Register | Login

  /** The actions the slice's reducer handles. A rejected action carries the
      thunk's `rejectWithValue` payload (the error response's body, absent when
      there was no response) and the `error.message` the toolkit attaches. */
  datatype Action =
    | Pending(thunk: Thunk)
    | Fulfilled(thunk: Thunk, payload: Json)
    | Rejected(thunk: Thunk, errorPayload: Option<Json>, message: Option<string>)
    | ResetUserInfo
    | UpdateUser(patch: Json)

  /** The outcome of a thunk's POST: the response body, or a failure with the
      error response's body (if any) and the rejected action's error message. */
  datatype Response = Ok(data: Json) | Failed(responseData: Option<Json>, message: Option<string>)

  /** The session together with the persisted storage. */
  datatype AppState = AppState(session: Session, storage: Storage)

  /** The user hydrated at start-up: the parsed slot when it holds non-empty text, else null. */
  function StoredUserInfo(storage: Storage): (r: Json)
    ensures StorageKey in storage && storage[StorageKey].Serialized? ==> r == storage[StorageKey].value
    ensures StorageKey !in storage || storage[StorageKey].EmptyText? ==> r == JNull
  {
    if StorageKey in storage && storage[StorageKey].Serialized? then storage[StorageKey].value else JNull
  }

  /** The state the slice starts from (and `resetUserInfo` returns to). */
  function InitialState(storage: Storage): (r: Session)
    ensures !r.loading && r.error == None
    ensures r.userInfo == StoredUserInfo(storage)
  {
    Session(StoredUserInfo(storage), false, None)
  }

  /** `err.response?.data` joined: the payload's values, each converted as `join` does, separated by newlines. */
  function RegisterRejectedError(payload: Option<Json>): (r: string)
    ensures payload.None? || !Truthy(payload.value) ==> r == RegistrationFallback
    ensures payload.Some? && Truthy(payload.value) && ObjectValues(payload.value) == [] ==> r == ""
  {
    if payload.Some? && Truthy(payload.value) then
      Join(ElementStrings(ObjectValues(payload.value)), "\n")
    else RegistrationFallback
  }

  /** `action.error.message || null`. */
  function LoginRejectedError(message: Option<string>): (r: Option<string>)
    ensures r.Some? <==> message.Some? && message.value != ""
    ensures r.Some? ==> r == message
  {
    if message.Some? && message.value != "" then message else None
  }

  function RejectedError(t: Thunk, payload: Option<Json>, message: Option<string>): Option<string> {
    match t
    case Register => Some(RegisterRejectedError(payload))
    case Login => LoginRejectedError(message)
  }

  /** The slice reducer: the new state a state and an action give; `init` is the slice's initial state. */
  function Reduce(s: Session, init: Session, a: Action): (r: Session)
    ensures a.Pending? ==> r.loading && r.userInfo == s.userInfo && r.error == s.error
    ensures a.Fulfilled? ==> !r.loading && r.userInfo == a.payload && r.error == None
    ensures a.Rejected? ==> !r.loading && r.userInfo == JNull
    ensures a.Rejected? && a.thunk == Register ==> r.error == Some(RegisterRejectedError(a.errorPayload))
    ensures a.Rejected? && a.thunk == Login ==> r.error == LoginRejectedError(a.message)
    ensures a.ResetUserInfo? ==> r == init
    ensures a.UpdateUser? ==> r.loading == s.loading && r.error == s.error
    ensures a.UpdateUser? && !Truthy(s.userInfo) ==> r == s
    ensures a.UpdateUser? && Truthy(s.userInfo) ==> r.userInfo == a.patch
  {
    match a
    case Pending(_) => s.(loading := true)
    case Fulfilled(_, payload) => s.(loading := false, userInfo := payload, error := None)
    case Rejected(t, payload, message) =>
      s.(loading := false, userInfo := JNull, error := RejectedError(t, payload, message))
    case ResetUserInfo => init
    case UpdateUser(patch) => if Truthy(s.userInfo) then s.(userInfo := patch) else s
  }

  /** One run of a thunk: pending, then on success the storage write and fulfilled,
      on failure rejected, with storage untouched. */
  function RunThunk(w: AppState, init: Session, t: Thunk, resp: Response): (r: AppState)
    ensures resp.Ok? ==> r.session == Session(resp.data, false, None)
    ensures resp.Ok? ==> r.storage == w.storage[StorageKey := Serialized(resp.data)]
    ensures resp.Ok? ==> InitialState(r.storage) == r.session
    ensures resp.Failed? ==> r.storage == w.storage && !r.session.loading && r.session.userInfo == JNull
    ensures resp.Failed? ==> r.session.error == RejectedError(t, resp.responseData, resp.message)
  {
    var pending := Reduce(w.session, init, Pending(t));
    match resp
    case Ok(data) =>
      AppState(Reduce(pending, init, Fulfilled(t, data)), w.storage[StorageKey := Serialized(data)])
    case Failed(payload, message) =>
      AppState(Reduce(pending, init, Rejected(t, payload, message)), w.storage)
  }

  /** The state after dispatching a sequence of actions in order. */
  function Run(s: Session, init: Session, actions: seq<Action>): Session
    decreases |actions|
  {
    if actions == [] then s
    else Reduce(Run(s, init, actions[..|actions| - 1]), init, actions[|actions| - 1])
  }

  /** Actions after the last pending/fulfilled/rejected/reset that are all `updateUser`
      leave `loading` where that action put it: `loading` is true exactly when the last
      such action is a pending one. */
  lemma {:induction false} LoadingFollowsLastLifecycleAction(s: Session, init: Session, actions: seq<Action>, i: nat)
    requires !init.loading
    requires i < |actions| && !actions[i].UpdateUser?
    requires forall j :: i < j < |actions| ==> actions[j].UpdateUser?
    ensures Run(s, init, actions).loading == actions[i].Pending?
    ensures actions[i].Fulfilled? ==> Run(s, init, actions).error == None
    decreases |actions|
  {
    if i < |actions| - 1 {
      LoadingFollowsLastLifecycleAction(s, init, actions[..|actions| - 1], i);
    }
  }

  /** `resetUserInfo` gives the initial state whatever was dispatched before it, so
      dispatching it again changes nothing. */
  lemma {:induction false} ResetForgetsHistory(s: Session, init: Session, actions: seq<Action>)
    requires |actions| > 0 && actions[|actions| - 1] == ResetUserInfo
    ensures Run(s, init, actions) == init
    ensures Run(s, init, actions + [ResetUserInfo]) == init
  {
    assert (actions + [ResetUserInfo])[..|actions|] == actions;
  }

  /** The state (session and storage) after thunk runs in sequence. */
  function RunThunks(w: AppState, init: Session, calls: seq<(Thunk, Response)>): AppState
    decreases |calls|
  {
    if calls == [] then w
    else
      var last := calls[|calls| - 1];
      RunThunk(RunThunks(w, init, calls[..|calls| - 1]), init, last.0, last.1)
  }

  /** The body of the last successful response among the calls, if any. */
  function LastSuccess(calls: seq<(Thunk, Response)>): Option<Json>
    decreases |calls|
  {
    if calls == [] then None
    else if calls[|calls| - 1].1.Ok? then Some(calls[|calls| - 1].1.data)
    else LastSuccess(calls[..|calls| - 1])
  }

  /** After any sequence of logins and registers the storage slot holds the last
      successful response (failures never write it) and no other key has changed. */
  lemma {:induction false} StorageHoldsLastSuccess(w: AppState, init: Session, calls: seq<(Thunk, Response)>)
    ensures var st := RunThunks(w, init, calls).storage;
      (LastSuccess(calls).Some? ==> StorageKey in st && st[StorageKey] == Serialized(LastSuccess(calls).value)) &&
      (LastSuccess(calls).None? ==> (StorageKey in st <==> StorageKey in w.storage)) &&
      (LastSuccess(calls).None? && StorageKey in w.storage ==> st[StorageKey] == w.storage[StorageKey])
    ensures var st := RunThunks(w, init, calls).storage;
      forall k :: k != StorageKey ==> (k in st <==> k in w.storage) && (k in st ==> st[k] == w.storage[k])
    decreases |calls|
  {
    if calls != [] {
      StorageHoldsLastSuccess(w, init, calls[..|calls| - 1]);
    }
  }

  /** The store: the slice's state, the storage slot it persists to, and the initial
      state computed once from storage at start-up. */
  class AuthStore {
    var userInfo: Json
    var loading: bool
    var error: Option<string>
    var storage: Storage
    const initialState: Session

    function State(): Session
      reads this
    {
      Session(userInfo, loading, error)
    }

    function Current(): AppState
      reads this
    {
      AppState(State(), storage)
    }

    /** Start-up: hydrate the user from the persisted slot. */
    constructor (persisted: Storage)
      ensures storage == persisted
      ensures initialState == InitialState(persisted)
      ensures State() == initialState
    {
      initialState := InitialState(persisted);
      userInfo := StoredUserInfo(persisted);
      loading := false;
      error := None;
      storage := persisted;
    }

    /** Dispatch one action: the case reducers write the draft field by field. */
    method Dispatch(a: Action)
      modifies this
      ensures State() == Reduce(old(State()), initialState, a)
      ensures storage == old(storage)
    {
      match a {
        case Pending(_) =>
          loading := true;
        case Fulfilled(_, payload) =>
          loading := false;
          userInfo := payload;
          error := None;
        case Rejected(t, payload, message) =>
          loading := false;
          userInfo := JNull;
          error := RejectedError(t, payload, message);
        case ResetUserInfo =>
          userInfo := initialState.userInfo;
          loading := initialState.loading;
          error := initialState.error;
        case UpdateUser(patch) =>
          if Truthy(userInfo) {
            userInfo := patch;
          }
      }
    }

    /** Run the `login` or `register` thunk against the response its POST produced. */
    method Perform(t: Thunk, resp: Response)
      modifies this
      ensures Current() == RunThunk(old(Current()), initialState, t, resp)
    {
      Dispatch(Pending(t));
      match resp {
        case Ok(data) =>
          storage := storage[StorageKey := Serialized(data)];
          Dispatch(Fulfilled(t, data));
        case Failed(payload, message) =>
          Dispatch(Rejected(t, payload, message));
      }
    }
  }

  /** For any truthy payload with at least one value, the error split at newlines is the
      pieces of each converted value split at newlines, value after value: a value that
      itself holds newlines (a character of a string body, say) contributes several lines. */
  lemma RegisterErrorLines(p: Json)
    requires Truthy(p) && |ObjectValues(p)| > 0
    ensures Split(RegisterRejectedError(Some(p)), '\n') == Flatten(SplitEach(ElementStrings(ObjectValues(p)), '\n'))
  {
    SplitOfJoin(ElementStrings(ObjectValues(p)), '\n');
  }

  /** For any truthy payload with at least one value (an object of messages or of message
      lists, an array, a string), the error split at newlines is exactly the payload's values,
      each converted as `join` converts it, in order, provided no converted value holds a newline. */
  lemma RegisterErrorListsMessages(p: Json)
    requires Truthy(p) && |ObjectValues(p)| > 0
    requires forall k :: 0 <= k < |ObjectValues(p)| ==> '\n' !in ElementString(ObjectValues(p)[k])
    ensures Split(RegisterRejectedError(Some(p)), '\n') == ElementStrings(ObjectValues(p))
  {
    SplitJoin(ElementStrings(ObjectValues(p)), '\n');
  }

  /** The structured payload `{field1: "a", field2: "b"}` yields the message "a\nb". */
  lemma RegisterErrorExample()
    ensures RegisterRejectedError(Some(JObj([("field1", JStr("a")), ("field2", JStr("b"))]))) == "a\nb"
  {
    var vs := ObjectValues(JObj([("field1", JStr("a")), ("field2", JStr("b"))]));
    assert ElementStrings(vs) == ["a", "b"];
  }

  /** A field whose value is a list of messages (as Django REST framework reports
      validation errors) contributes those messages joined with commas. */
  lemma RegisterErrorFieldList()
    ensures RegisterRejectedError(Some(JObj([("email", JArr([JStr("x"), JStr("y")]))]))) == "x,y"
  {
    var list := JArr([JStr("x"), JStr("y")]);
    assert ElementStrings(list.items) == ["x", "y"];
    assert Join(["x", "y"], ",") == "x,y";
    assert ElementString(list) == "x,y";
    var vs := ObjectValues(JObj([("email", JArr([JStr("x"), JStr("y")]))]));
    assert ElementStrings(vs) == ["x,y"];
  }
}
