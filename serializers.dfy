/**
 * The account serializers of the backend: the registration password check,
 * the in-place rewrite `save` applies to the validated data, the user fields
 * the token endpoint merges into its response, and the derived `isAdmin` and
 * `profile_picture` fields. Python dictionaries are string-keyed maps; object
 * creation in the database, token minting and the image URL builder are inputs.
 */
module Serializers {
  import opened Wrappers

  /** A Python value held in a serializer's dictionary. `Object` is an opaque object
      (the refresh token) identified by a handle. */
  datatype Value = Str(s: string) | Int(i: int) | Bool(b: bool) | NoneValue | Object(handle: nat)

  type Dict = map<string, Value>

  /** The exceptions these serializers raise. */
  datatype PyError = KeyError(key: string) | ValidationError(message: string)

  const PasswordMismatch: string := "Passwords do not match."

  /** `RegistrationSerializer.validate`: the data unchanged when the two passwords agree. */
  function ValidateRegistration(data: Dict): (r: Result<Dict, PyError>)
    ensures r.Success? <==> "password" in data && "confirmPassword" in data
                            && data["password"] == data["confirmPassword"]
    ensures r.Success? ==> r.value == data
    ensures r == Failure(ValidationError(PasswordMismatch)) <==>
              "password" in data && "confirmPassword" in data && data["password"] != data["confirmPassword"]
    ensures r.Failure? && r.error.KeyError? ==> r.error.key in {"password", "confirmPassword"} && r.error.key !in data
  {
    if "password" !in data then Failure(KeyError("password"))
    else if "confirmPassword" !in data then Failure(KeyError("confirmPassword"))
    else if data["password"] != data["confirmPassword"] then Failure(ValidationError(PasswordMismatch))
    else Success(data)
  }

  /** The keys `save` reads after popping the confirmation, in the order it reads them. */
  const SaveReads: seq<string> := ["name", "username", "email", "password"]

  /** The keys `save` adds. */
  const SaveAdds: set<string> := {"id", "access_token", "refresh_token"}

  /** The first of `keys` missing from `d`. */
  function FirstMissing(d: Dict, keys: seq<string>): (r: Option<string>)
    ensures r.None? <==> forall i :: 0 <= i < |keys| ==> keys[i] in d
    ensures r.Some? ==> exists i :: 0 <= i < |keys| && keys[i] == r.value && r.value !in d
                          && forall j :: 0 <= j < i ==> keys[j] in d
  {
    if keys == [] then None
    else if keys[0] !in d then Some(keys[0])
    else
      assert forall j :: 0 <= j < |keys| - 1 ==> keys[1..][j] == keys[j + 1];
      FirstMissing(d, keys[1..])
  }

  /** What `save` leaves in the dictionary and the exception it raises, if any, given the
      id the database assigns, the refresh token object and the access token text. */
  function SaveEffect(data: Dict, userId: int, refresh: Value, access: string): (r: (Dict, Option<PyError>))
    ensures "confirmPassword" !in data ==> r == (data, Some(KeyError("confirmPassword")))
    ensures "confirmPassword" in data && r.1.Some? ==> r.0 == data - {"confirmPassword"}
    ensures r.1.Some? ==> r.1.value.KeyError? && r.1.value.key !in data
    ensures r.1.None? <==> "confirmPassword" in data && forall i :: 0 <= i < |SaveReads| ==> SaveReads[i] in data
    ensures r.1.None? ==> "confirmPassword" !in r.0
    ensures r.1.None? ==> r.0.Keys == data.Keys - {"confirmPassword"} + SaveAdds
    ensures r.1.None? ==> r.0["id"] == Int(userId) && r.0["access_token"] == Str(access)
                          && r.0["refresh_token"] == refresh
    ensures r.1.None? ==> forall k :: k in data && k != "confirmPassword" && k !in SaveAdds ==> r.0[k] == data[k]
  {
    if "confirmPassword" !in data then (data, Some(KeyError("confirmPassword")))
    else
      var popped := data - {"confirmPassword"};
      var missing := FirstMissing(popped, SaveReads);
      if missing.Some? then (popped, Some(KeyError(missing.value)))
      else (popped["id" := Int(userId)]["access_token" := Str(access)]["refresh_token" := refresh], None)
  }

  /** A Python dictionary: an object other code holds a reference to, updated in place. */
  class PyDict {
    var items: Dict

    constructor (initial: Dict)
      ensures items == initial
    {
      items := initial;
    }
  }

  /** `RegistrationSerializer.save`: pops the confirmation, reads the fields the new user
      is created from, then adds the id and the two tokens, all in the caller's dictionary. */
  method Save(d: PyDict, userId: int, refresh: Value, access: string) returns (raised: Option<PyError>)
    modifies d
    ensures (d.items, raised) == SaveEffect(old(d.items), userId, refresh, access)
  {
    if "confirmPassword" !in d.items {
      return Some(KeyError("confirmPassword"));
    }
    d.items := d.items - {"confirmPassword"};
    var missing := FirstMissing(d.items, SaveReads);
    if missing.Some? {
      return Some(KeyError(missing.value));
    }
    d.items := d.items["id" := Int(userId)];
    d.items := d.items["access_token" := Str(access)];
    d.items := d.items["refresh_token" := refresh];
    return None;
  }

  /** The stored image of a profile picture. */
  datatype Picture = Picture(publicId: string)

  /** The user record the serializers read. */
  datatype User = User(
    id: int, username: string, name: string, email: string,
    isStaff: bool, bio: Value, profilePicture: Option<Picture>)

  /** `UserSerializer`'s fields, in declaration order. */
  const UserFields: seq<string> := ["id", "username", "name", "email", "isAdmin", "bio", "profile_picture"]

  /** `get_isAdmin`. */
  function GetIsAdmin(u: User): bool {
    u.isStaff
  }

  /** `get_profile_picture`: None without a picture, else the first element of what the URL
      builder returns for the picture's public id. */
  function GetProfilePicture(u: User, cloudinaryUrl: string -> (string, Value)): (r: Value)
    ensures r == NoneValue <==> u.profilePicture.None?
    ensures u.profilePicture.Some? ==> r == Str(cloudinaryUrl(u.profilePicture.value.publicId).0)
  {
    if u.profilePicture.Some? then Str(cloudinaryUrl(u.profilePicture.value.publicId).0) else NoneValue
  }

  /** `UserSerializer(user).data`, as its ordered items. */
  function SerializeUser(u: User, cloudinaryUrl: string -> (string, Value)): (r: seq<(string, Value)>)
    ensures |r| == |UserFields| && forall i :: 0 <= i < |r| ==> r[i].0 == UserFields[i]
    ensures r[0].1 == Int(u.id) && r[1].1 == Str(u.username) && r[2].1 == Str(u.name) && r[3].1 == Str(u.email)
    ensures r[4].1 == Bool(u.isStaff)
    ensures r[5].1 == u.bio
    ensures r[6].1 == GetProfilePicture(u, cloudinaryUrl)
  {
    [ ("id", Int(u.id)), ("username", Str(u.username)), ("name", Str(u.name)), ("email", Str(u.email)),
      ("isAdmin", Bool(GetIsAdmin(u))), ("bio", u.bio), ("profile_picture", GetProfilePicture(u, cloudinaryUrl)) ]
  }

  /** `for k, v in items: data[k] = v`. */
  function Merge(data: Dict, items: seq<(string, Value)>): Dict
    decreases |items|
  {
    if items == [] then data
    else Merge(data, items[..|items| - 1])[items[|items| - 1].0 := items[|items| - 1].1]
  }

  /** The value the last item with key `k` carries. */
  function LastValue(items: seq<(string, Value)>, k: string): Option<Value>
    decreases |items|
  {
    if items == [] then None
    else if items[|items| - 1].0 == k then Some(items[|items| - 1].1)
    else LastValue(items[..|items| - 1], k)
  }

  predicate DistinctKeys(items: seq<(string, Value)>) {
    forall i, j :: 0 <= i < j < |items| ==> items[i].0 != items[j].0
  }

  /** A key no item carries has no last value. */
  lemma {:induction false} LastValueAbsent(items: seq<(string, Value)>, k: string)
    ensures LastValue(items, k).None? <==> forall j :: 0 <= j < |items| ==> items[j].0 != k
    decreases |items|
  {
    if items != [] {
      LastValueAbsent(items[..|items| - 1], k);
    }
  }

  /** With distinct keys, the last value of an item's key is that item's value. */
  lemma {:induction false} LastValueOfDistinct(items: seq<(string, Value)>, i: nat)
    requires DistinctKeys(items) && i < |items|
    ensures LastValue(items, items[i].0) == Some(items[i].1)
    decreases |items|
  {
    if i < |items| - 1 {
      var front := items[..|items| - 1];
      assert front[i] == items[i];
      LastValueOfDistinct(front, i);
    }
  }

  /** After the merge every item's key maps to the last value given for it, and every
      other key keeps the value it had. */
  lemma {:induction false} MergeOverrides(data: Dict, items: seq<(string, Value)>, k: string)
    ensures LastValue(items, k).Some? ==> k in Merge(data, items) && Merge(data, items)[k] == LastValue(items, k).value
    ensures LastValue(items, k).None? ==> (k in Merge(data, items) <==> k in data)
    ensures LastValue(items, k).None? && k in data ==> Merge(data, items)[k] == data[k]
    decreases |items|
  {
    if items != [] {
      MergeOverrides(data, items[..|items| - 1], k);
    }
  }

  /** Merging items with distinct keys adds exactly their keys, gives each key its item's
      value and keeps every other key's value. */
  lemma MergeDistinct(data: Dict, items: seq<(string, Value)>)
    requires DistinctKeys(items)
    ensures Merge(data, items).Keys == data.Keys + (set i | 0 <= i < |items| :: items[i].0)
    ensures forall i :: 0 <= i < |items| ==> Merge(data, items)[items[i].0] == items[i].1
    ensures forall k :: k in data && (forall i :: 0 <= i < |items| ==> items[i].0 != k) ==>
              Merge(data, items)[k] == data[k]
  {
    var merged := Merge(data, items);
    forall i | 0 <= i < |items| ensures items[i].0 in merged && merged[items[i].0] == items[i].1 {
      LastValueOfDistinct(items, i);
      MergeOverrides(data, items, items[i].0);
    }
    forall k | k in merged ensures k in data || exists i :: 0 <= i < |items| && items[i].0 == k {
      LastValueAbsent(items, k);
      MergeOverrides(data, items, k);
    }
    forall k | k in data && (forall i :: 0 <= i < |items| ==> items[i].0 != k) ensures k in merged && merged[k] == data[k] {
      LastValueAbsent(items, k);
      MergeOverrides(data, items, k);
    }
  }

  /** The token response: the parent's keys and the user fields; each user field carries
      the user's value, overriding a token key of the same name; other token keys are kept. */
  lemma TokenResponseFields(parent: Dict, u: User, cloudinaryUrl: string -> (string, Value))
    ensures var data := Merge(parent, SerializeUser(u, cloudinaryUrl));
      && data.Keys == parent.Keys + (set i | 0 <= i < |UserFields| :: UserFields[i])
      && (forall i :: 0 <= i < |UserFields| ==> data[UserFields[i]] == SerializeUser(u, cloudinaryUrl)[i].1)
      && (forall k :: k in parent && k !in UserFields ==> data[k] == parent[k])
  {
    var items := SerializeUser(u, cloudinaryUrl);
    assert DistinctKeys(items);
    MergeDistinct(parent, items);
    assert (set i | 0 <= i < |items| :: items[i].0) == (set i | 0 <= i < |UserFields| :: UserFields[i]);
  }

  /** `MyTokenObtainPairSerializer.validate`: the parent's token response with every user
      field written over it, one key at a time. */
  method ObtainTokenPair(parent: Dict, u: User, cloudinaryUrl: string -> (string, Value)) returns (data: Dict)
    ensures data == Merge(parent, SerializeUser(u, cloudinaryUrl))
    ensures "id" in data && data["id"] == Int(u.id)
    ensures "username" in data && data["username"] == Str(u.username)
    ensures "isAdmin" in data && data["isAdmin"] == Bool(u.isStaff)
    ensures "profile_picture" in data && data["profile_picture"] == GetProfilePicture(u, cloudinaryUrl)
    ensures forall k :: k in parent && k !in UserFields ==> k in data && data[k] == parent[k]
  {
    var items := SerializeUser(u, cloudinaryUrl);
    data := parent;
    var i := 0;
    while i < |items|
      invariant 0 <= i <= |items|
      invariant data == Merge(parent, items[..i])
    {
      assert items[..i + 1][..i] == items[..i];
      data := data[items[i].0 := items[i].1];
      i := i + 1;
    }
    assert items[..|items|] == items;
    TokenResponseFields(parent, u, cloudinaryUrl);
    assert UserFields[0] == "id" && UserFields[1] == "username" && UserFields[4] == "isAdmin";
    assert UserFields[6] == "profile_picture";
  }
}
