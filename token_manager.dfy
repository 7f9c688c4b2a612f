/** The frontend's token storage (`utils/tokenManager.ts`): the two tokens
    and the user's data in the browser's `localStorage`, and the expiry
    check with a five-minute margin. Decoding a token's payload
    (`decodeToken`, which yields `null` when the text is not a token) is
    the parameter `decode`, the clock the parameter `now` (milliseconds),
    and `JSON.stringify`/`JSON.parse` the parameters `stringify`/`parse`. */
module TokenManager {
  import opened Common

  const AccessTokenKey: string := "access_token"
  const RefreshTokenKey: string := "refresh_token"
  const UserDataKey: string := "user_data"
  const BufferTime: int := 5 * 60 * 1000

  type Decoder = string -> JsValue

  /** `isTokenExpired(token)`: a token whose payload or `exp` is missing or
      falsy is expired; otherwise it is expired when it runs out within
      the next five minutes. `exp * 1000` converts `exp` with `Number`
      (`ToNumber`), so `true`, numeric text and one-element arrays count
      as numbers; an `exp` that converts to `NaN` makes the comparison
      false, so such a token never counts as expired. */
  predicate IsTokenExpired(token: string, decode: Decoder, now: int) {
    var decoded := decode(token);
    if !JsTruthy(decoded) || !JsTruthy(Get(decoded, "exp")) then true
    else
      var exp := ToNumber(Get(decoded, "exp"));
      exp.Some? && exp.value * 1000 - now < BufferTime
  }

  /** The expiry check stated directly: for a numeric `exp` (in seconds),
      a token is expired from five minutes before `exp` on. */
  lemma ExpiryMeaning(token: string, decode: Decoder, now: int, exp: int)
    requires decode(token).Obj? && Get(decode(token), "exp") == Num(exp)
    ensures exp == 0 ==> IsTokenExpired(token, decode, now)
    ensures exp != 0 ==> (IsTokenExpired(token, decode, now) <==> now > exp * 1000 - BufferTime)
  {
  }

  /** Undecodable tokens and tokens without `exp` are expired. */
  lemma UndecodableExpired(token: string, decode: Decoder, now: int)
    requires decode(token) == Null || Get(decode(token), "exp") == Undefined
    ensures IsTokenExpired(token, decode, now)
  {
  }

  /** An array `exp` is converted through its text. */
  lemma ArrayExpiry(token: string, decode: Decoder, now: int)
    requires decode(token).Obj? && Get(decode(token), "exp").Arr?
    ensures var e := TextToNumber(JsString(Get(decode(token), "exp")));
            IsTokenExpired(token, decode, now) <==> e.Some? && e.value * 1000 - now < BufferTime
  {
    var v := Get(decode(token), "exp");
    ArrayNumberIsTextNumber(v);
    assert JsTruthy(decode(token)) && JsTruthy(v);
  }

  /** `[]` is 0 and `[n]` is `n`, so both are compared like numbers. */
  lemma ShortArrayExpiry(token: string, decode: Decoder, now: int, n: int)
    requires decode(token).Obj?
    ensures Get(decode(token), "exp") == Arr([]) ==> (IsTokenExpired(token, decode, now) <==> now > -BufferTime)
    ensures Get(decode(token), "exp") == Arr([Num(n)]) ==> (IsTokenExpired(token, decode, now) <==> now > n * 1000 - BufferTime)
  {
  }

  /** Once expired, a token stays expired. */
  lemma ExpiryMonotone(token: string, decode: Decoder, now: int, later: int)
    requires now <= later && IsTokenExpired(token, decode, now)
    ensures IsTokenExpired(token, decode, later)
  {
  }

  /** `localStorage.getItem(key)`. */
  function Item(items: map<string, string>, key: string): Option<string> {
    if key in items then Some(items[key]) else None
  }

  /** `isAuthenticated()` over a store's contents. */
  predicate Authenticated(items: map<string, string>, decode: Decoder, now: int) {
    Item(items, AccessTokenKey).Some? && !IsTokenExpired(items[AccessTokenKey], decode, now)
  }

  /** `getUserData()`: `null` when nothing (or the empty string) is
      stored. */
  function UserData(items: map<string, string>, parse: string -> JsValue): JsValue {
    if Item(items, UserDataKey).Some? && items[UserDataKey] != "" then parse(items[UserDataKey]) else Null
  }

  /** `localStorage`, holding strings under keys. */
  class LocalStorage {
    var items: map<string, string>

    constructor (items: map<string, string>)
      ensures this.items == items
    {
      this.items := items;
    }

    function GetAccessToken(): (r: Option<string>)
      reads this
      ensures r.Some? <==> AccessTokenKey in items
      ensures r.Some? ==> r.value == items[AccessTokenKey]
    {
      Item(items, AccessTokenKey)
    }

    function GetRefreshToken(): (r: Option<string>)
      reads this
      ensures r.Some? <==> RefreshTokenKey in items
      ensures r.Some? ==> r.value == items[RefreshTokenKey]
    {
      Item(items, RefreshTokenKey)
    }

    function GetUserData(parse: string -> JsValue): (r: JsValue)
      reads this
      ensures UserDataKey !in items ==> r == Null
      ensures UserDataKey in items && items[UserDataKey] != "" ==> r == parse(items[UserDataKey])
    {
      UserData(items, parse)
    }

    function IsAuthenticated(decode: Decoder, now: int): (r: bool)
      reads this
      ensures r <==> AccessTokenKey in items && !IsTokenExpired(items[AccessTokenKey], decode, now)
    {
      Authenticated(items, decode, now)
    }

    method SetTokens(accessToken: string, refreshToken: string)
      modifies this
      ensures items == old(items)[AccessTokenKey := accessToken][RefreshTokenKey := refreshToken]
    {
      items := items[AccessTokenKey := accessToken];
      items := items[RefreshTokenKey := refreshToken];
    }

    method SetUserData(userData: JsValue, stringify: JsValue -> string)
      modifies this
      ensures items == old(items)[UserDataKey := stringify(userData)]
    {
      items := items[UserDataKey := stringify(userData)];
    }

    /** Removes the three keys and nothing else. */
    method ClearTokens()
      modifies this
      ensures items == old(items) - {AccessTokenKey, RefreshTokenKey, UserDataKey}
    {
      items := items - {AccessTokenKey};
      items := items - {RefreshTokenKey};
      items := items - {UserDataKey};
    }
  }

  /** Storing tokens makes the user signed in exactly while the new
      access token is fresh, and reads give back what was stored. */
  lemma StoredTokensRead(items: map<string, string>, accessToken: string, refreshToken: string,
                         decode: Decoder, now: int)
    ensures var after := items[AccessTokenKey := accessToken][RefreshTokenKey := refreshToken];
            && Item(after, AccessTokenKey) == Some(accessToken)
            && Item(after, RefreshTokenKey) == Some(refreshToken)
            && (Authenticated(after, decode, now) <==> !IsTokenExpired(accessToken, decode, now))
            && (forall k :: k in items && k != AccessTokenKey && k != RefreshTokenKey ==> Item(after, k) == Item(items, k))
  {
  }

  /** After signing out nobody is signed in and no user data is read,
      while every other key keeps its value. */
  lemma ClearedSignsOut(items: map<string, string>, decode: Decoder, now: int, parse: string -> JsValue)
    ensures var after := items - {AccessTokenKey, RefreshTokenKey, UserDataKey};
            && !Authenticated(after, decode, now)
            && Item(after, RefreshTokenKey).None?
            && UserData(after, parse) == Null
            && (forall k :: k in items && k !in {AccessTokenKey, RefreshTokenKey, UserDataKey} ==> Item(after, k) == Item(items, k))
  {
  }

  /** User data survives storage when `parse` undoes `stringify` and the
      text is not empty. */
  lemma UserDataRoundTrip(items: map<string, string>, userData: JsValue,
                          stringify: JsValue -> string, parse: string -> JsValue)
    requires parse(stringify(userData)) == userData && stringify(userData) != ""
    ensures UserData(items[UserDataKey := stringify(userData)], parse) == userData
  {
  }
}
