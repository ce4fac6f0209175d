/** The session helpers and response handling of src/services/api.js: the
    request headers built from the stored token, saving and clearing the
    session in `localStorage`, the login test, the stored current user, the
    success / error decision on a server response, and the request bodies
    whose shape carries a rule. */
module Api {
  import opened Common
  import opened Storage

  /** `localStorage.getItem('token')` as text; a key holding a record is
      not something these helpers write. */
  function TokenOf(items: map<string, Value>): Option<string> {
    if "token" in items && items["token"].Text? then Some(items["token"].text) else None
  }

  /** `token && …`: null and the empty string add nothing. */
  predicate TokenTruthy(token: Option<string>) {
    token.Some? && token.value != ""
  }

  /** `getAuthHeaders`. */
  function AuthHeaders(token: Option<string>): (h: map<string, string>)
    ensures "Content-Type" in h && h["Content-Type"] == "application/json"
    ensures "Authorization" in h <==> TokenTruthy(token)
    ensures "Authorization" in h ==> h["Authorization"] == "Bearer " + token.value
    ensures h.Keys <= {"Content-Type", "Authorization"}
  {
    var base := map["Content-Type" := "application/json"];
    if TokenTruthy(token) then base["Authorization" := "Bearer " + token.value] else base
  }

  /** `getAuthHeadersMultipart`: the browser sets the content type. */
  function MultipartHeaders(token: Option<string>): (h: map<string, string>)
    ensures "Content-Type" !in h
    ensures "Authorization" in h <==> TokenTruthy(token)
  {
    if TokenTruthy(token) then map["Authorization" := "Bearer " + token.value] else map[]
  }

  /** The two header sets differ only in the content type. */
  lemma MultipartIsAuthWithoutContentType(token: Option<string>)
    ensures MultipartHeaders(token) == AuthHeaders(token) - {"Content-Type"}
  {
  }

  /** What a login or registration response carries; `user` holds the
      fields the server sent. */
  datatype AuthData = AuthData(token: Option<string>, user: map<string, Field>)

  const UserKeys: set<string> :=
    {"userId", "name", "gender", "userType", "role", "studentClass", "avatarNumber", "hasCertificate", "createdAt"}

  /** The record `saveAuthData` stores: the nine user fields the server
      sent (JSON drops the missing ones). */
  function UserRecordOf(a: AuthData): (r: map<string, Field>)
    ensures r.Keys == a.user.Keys * UserKeys
    ensures forall k :: k in r ==> r[k] == a.user[k]
  {
    map k | k in a.user && k in UserKeys :: a.user[k]
  }

  /** `String(token)`: a missing token is stored as the text "undefined". */
  function TokenText(token: Option<string>): string {
    if token.None? then "undefined" else token.value
  }

  /** The store after `saveAuthData`. */
  function Saved(items: map<string, Value>, a: AuthData): map<string, Value> {
    items["token" := Text(TokenText(a.token))]["isLoggedIn" := Text("true")]
         ["currentUser" := Record(UserRecordOf(a))]
  }

  /** The store after `clearAuthData`. */
  function Cleared(items: map<string, Value>): map<string, Value> {
    (items - {"token", "currentUser"})["isLoggedIn" := Text("false")]
  }

  /** What `isAuthenticated` returns: `false`, or the stored token (null
      when missing). */
  datatype JsValue = JsFalse | JsNull | JsStr(s: string)

  predicate JsTruthy(v: JsValue) {
    v.JsStr? && v.s != ""
  }

  function IsAuthenticated(items: map<string, Value>): (r: JsValue)
    ensures JsTruthy(r) <==>
              "isLoggedIn" in items && items["isLoggedIn"] == Text("true") && TokenTruthy(TokenOf(items))
  {
    if !("isLoggedIn" in items && items["isLoggedIn"] == Text("true")) then JsFalse
    else if "token" !in items then JsNull
    else if items["token"].Text? then JsStr(items["token"].text)
    else JsNull
  }

  /** `getCurrentUser`: the stored record, or null when there is none or
      the stored text is empty. */
  function CurrentUser(items: map<string, Value>): (r: Option<Value>)
    ensures r.Some? <==> "currentUser" in items && items["currentUser"] != Text("")
    ensures r.Some? ==> r.value == items["currentUser"]
  {
    if "currentUser" in items && items["currentUser"] != Text("") then Some(items["currentUser"]) else None
  }

  /** After saving a session the user counts as logged in unless the token
      is the empty string (a missing token is saved as "undefined", which
      counts), and the current user is the saved record. */
  lemma SaveThenQuery(items: map<string, Value>, a: AuthData)
    ensures JsTruthy(IsAuthenticated(Saved(items, a))) <==> a.token != Some("")
    ensures CurrentUser(Saved(items, a)) == Some(Record(UserRecordOf(a)))
  {
    assert TokenOf(Saved(items, a)) == Some(TokenText(a.token));
  }

  /** After clearing, nobody is logged in and there is no current user,
      whatever was stored before; other keys are untouched. */
  lemma ClearThenQuery(items: map<string, Value>)
    ensures IsAuthenticated(Cleared(items)) == JsFalse
    ensures CurrentUser(Cleared(items)).None?
    ensures forall k :: k in items && k !in {"token", "currentUser", "isLoggedIn"} ==>
              k in Cleared(items) && Cleared(items)[k] == items[k]
  {
  }

  /** `saveAuthData` on the store. */
  method SaveAuthData(storage: LocalStorage, a: AuthData)
    modifies storage
    ensures storage.items == Saved(old(storage.items), a)
  {
    storage.SetItem("token", Text(TokenText(a.token)));
    storage.SetItem("isLoggedIn", Text("true"));
    storage.SetItem("currentUser", Record(UserRecordOf(a)));
  }

  /** `clearAuthData` on the store. */
  method ClearAuthData(storage: LocalStorage)
    modifies storage
    ensures storage.items == Cleared(old(storage.items))
  {
    storage.RemoveItem("token");
    storage.RemoveItem("currentUser");
    storage.SetItem("isLoggedIn", Text("false"));
    assert old(storage.items) - {"token"} - {"currentUser"} == old(storage.items) - {"token", "currentUser"};
  }

  /** A response body: not JSON at all, or a JSON object with its `success`
      flag and its `error.message` ("" when absent). */
  datatype Body = NotJson | Json(success: bool, errorMessage: string)

  datatype Response = Response(ok: bool, status: int, body: Body)

  /** What `handleResponse` does: return the parsed body or throw an error
      with a message. */
  datatype Outcome = Returned(data: Body) | Thrown(message: string)

  function HandleResponse(r: Response): (o: Outcome)
    ensures o.Returned? <==> r.ok && r.body.Json? && r.body.success
    ensures o.Returned? ==> o.data == r.body
    ensures o.Thrown? ==> o.message != ""
    ensures o.Thrown? && r.body.Json? && r.body.errorMessage != "" ==> o.message == r.body.errorMessage
    ensures !r.ok && r.body.NotJson? ==>
              o == Thrown("Сервер недоступний або повернув некоректну відповідь (" + IntToDecimal(r.status) + ")")
    ensures !r.ok && r.body.Json? && r.body.errorMessage == "" ==>
              o == Thrown("Помилка сервера: " + IntToDecimal(r.status))
    ensures r.ok && r.body.NotJson? ==> o == Thrown("Сервер повернув некоректну відповідь")
    ensures r.ok && r.body.Json? && !r.body.success && r.body.errorMessage == "" ==>
              o == Thrown("Помилка сервера")
  {
    if !r.ok then
      match r.body
      case NotJson =>
        Thrown("Сервер недоступний або повернув некоректну відповідь (" + IntToDecimal(r.status) + ")")
      case Json(_, msg) =>
        Thrown(if msg != "" then msg else "Помилка сервера: " + IntToDecimal(r.status))
    else
      match r.body
      case NotJson => Thrown("Сервер повернув некоректну відповідь")
      case Json(success, msg) =>
        if !success then Thrown(if msg != "" then msg else "Помилка сервера") else Returned(r.body)
  }

  /** The most images one pin request carries. */
  const MaxImages: nat := 5

  datatype PinData = PinData(regionId: string, regionName: string, pinType: string, description: string)

  /** A multipart entry: a text field or an image file (by index in the
      caller's list). */
  datatype FormValue = TextValue(text: string) | ImageFile(file: nat)

  function ImageEntries(count: nat): (r: seq<(string, FormValue)>)
    ensures |r| == count
    ensures forall i :: 0 <= i < count ==> r[i] == ("images", ImageFile(i))
  {
    if count == 0 then [] else ImageEntries(count - 1) + [("images", ImageFile(count - 1))]
  }

  function Min(a: nat, b: nat): nat {
    if a < b then a else b
  }

  /** The form `createPinWithImages` sends: the four pin fields, then the
      first five images at most, in order. */
  method PinForm(pin: PinData, imageCount: nat) returns (form: seq<(string, FormValue)>)
    ensures |form| == 4 + Min(imageCount, MaxImages) <= 4 + MaxImages
    ensures form[..4] == [("regionId", TextValue(pin.regionId)), ("regionName", TextValue(pin.regionName)),
                          ("pinType", TextValue(pin.pinType)), ("description", TextValue(pin.description))]
    ensures form[4..] == ImageEntries(Min(imageCount, MaxImages))
  {
    var header := [("regionId", TextValue(pin.regionId)), ("regionName", TextValue(pin.regionName)),
                   ("pinType", TextValue(pin.pinType)), ("description", TextValue(pin.description))];
    form := header;
    var i := 0;
    while i < Min(imageCount, MaxImages)
      invariant 0 <= i <= Min(imageCount, MaxImages)
      invariant |form| == 4 + i
      invariant form[..4] == header
      invariant form[4..] == ImageEntries(i)
    {
      form := form + [("images", ImageFile(i))];
      i := i + 1;
    }
  }

  /** The registration body: the class is sent only for students. */
  function RegisterBody(name: string, password: string, gender: string, userType: string,
                        studentClass: string): (b: map<string, Field>)
    ensures b.Keys == {"name", "password", "gender", "userType", "studentClass"}
    ensures b["studentClass"] == (if userType == "student" then Str(studentClass) else Null)
  {
    map["name" := Str(name), "password" := Str(password), "gender" := Str(gender),
        "userType" := Str(userType),
        "studentClass" := (if userType == "student" then Str(studentClass) else Null)]
  }
}
