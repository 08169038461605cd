/**
 * Conversion of browser cookies between the WebDriver (Selenium) shape and
 * the shape of the Cookie-Editor browser extension.
 *
 * A cookie is a dictionary. Every key either converter reads or writes is a
 * field of Cookie, and each field says whether the key is absent, present
 * with None, or present with a value. Keys neither converter knows are not
 * modelled: both converters drop them.
 */
module Cookies {
  import opened Wrappers

  /** One key of a cookie dictionary. */
  datatype Entry<+T> = Missing | Null | Present(value: T)

  /** dict.get(key): None for an absent key and for a stored None. */
  function Get<T>(e: Entry<T>): (r: Option<T>)
    ensures r.Some? <==> e.Present?
    ensures r.Some? ==> r.value == e.value
  {
    match e
    case Present(v) => Some(v)
    case _ => None
  }

  /** dict.get(key, default): the default only for an absent key; a stored
   *  None is returned as it is. */
  function GetOr<T>(e: Entry<T>, default: T): (r: Option<T>)
    ensures e.Missing? ==> r == Some(default)
    ensures !e.Missing? ==> r == Get(e)
  {
    match e
    case Missing => Some(default)
    case Null => None
    case Present(v) => Some(v)
  }

  /** The entry dst[key] = v leaves in the new dictionary. */
  function Stored<T>(v: Option<T>): (e: Entry<T>)
    ensures !e.Missing? && Get(e) == v
  {
    match v
    case None => Null
    case Some(x) => Present(x)
  }

  datatype Cookie = Cookie(
    domain: Entry<string>,
    name: Entry<string>,
    path: Entry<string>,
    httpOnly: Entry<bool>,
    secure: Entry<bool>,
    sameSite: Entry<string>,
    value: Entry<string>,
    expiry: Entry<int>,            // WebDriver: expiry in whole seconds
    hostOnly: Entry<bool>,         // Cookie-Editor only
    session: Entry<bool>,          // Cookie-Editor only
    expirationDate: Entry<real>,   // Cookie-Editor: expiry as a float
    storeId: Entry<string>)        // Cookie-Editor only

  /** The cookie with no keys at all. */
  const Empty: Cookie := Cookie(Missing, Missing, Missing, Missing, Missing, Missing,
                                Missing, Missing, Missing, Missing, Missing, Missing)

  /** SameSite spelled as WebDriver spells it (keys) and as the extension
   *  spells it (values); None is Python's None. */
  const SeleniumToChromeSameSite: map<Option<string>, string> :=
    map[None := "unspecified", Some("Lax") := "lax", Some("Strict") := "strict",
        Some("None") := "no_restriction"]

  const ChromeToSeleniumSameSite: map<Option<string>, Option<string>> :=
    map[None := None, Some("unspecified") := None, Some("lax") := Some("Lax"),
        Some("strict") := Some("Strict"), Some("no_restriction") := Some("None")]

  /** The extension's spelling of a WebDriver SameSite value; anything the
   *  table does not know becomes "unspecified". */
  function ChromeSameSite(raw: Option<string>): (r: string)
    ensures r in SeleniumToChromeSameSite.Values
    ensures raw !in SeleniumToChromeSameSite ==> r == "unspecified"
    ensures raw in SeleniumToChromeSameSite ==> r == SeleniumToChromeSameSite[raw]
  {
    if raw in SeleniumToChromeSameSite then SeleniumToChromeSameSite[raw]
    else assert None in SeleniumToChromeSameSite; "unspecified"
  }

  /** The WebDriver spelling of an extension SameSite value; anything the
   *  table does not know becomes None. */
  function SeleniumSameSite(raw: Option<string>): (r: Option<string>)
    ensures r in ChromeToSeleniumSameSite.Values
    ensures raw !in ChromeToSeleniumSameSite ==> r == None
    ensures raw in ChromeToSeleniumSameSite ==> r == ChromeToSeleniumSameSite[raw]
  {
    if raw in ChromeToSeleniumSameSite then ChromeToSeleniumSameSite[raw]
    else assert None in ChromeToSeleniumSameSite; None
  }

  /** The two tables undo each other on every WebDriver value they know. */
  lemma SameSiteTablesInverse(s: Option<string>)
    requires s in SeleniumToChromeSameSite
    ensures SeleniumSameSite(Some(ChromeSameSite(s))) == s
  {
  }

  /** ... and on every extension value except "unspecified", which WebDriver
   *  writes as None. */
  lemma SameSiteTablesInverseBack(s: string)
    requires Some(s) in ChromeToSeleniumSameSite
    ensures ChromeSameSite(SeleniumSameSite(Some(s))) == s
  {
  }

  /** Python's str(x).startswith(".") on a domain; str(None) is "None". */
  predicate StartsWithDot(domain: Option<string>)
  {
    domain.Some? && |domain.value| > 0 && domain.value[0] == '.'
  }

  /** Python's truth value of a stored entry. */
  predicate Truthy(v: Option<bool>)
  {
    v == Some(true)
  }

  /** int(x) on a float: truncation toward zero. */
  function Trunc(x: real): (n: int)
    ensures x >= 0.0 ==> n as real <= x < n as real + 1.0
    ensures x < 0.0 ==> n as real - 1.0 < x <= n as real
  {
    if x >= 0.0 then x.Floor else -((-x).Floor)
  }

  lemma TruncOfWhole(n: int)
    ensures Trunc(n as real) == n
  {
  }

  /** One iteration of selenium_to_editor: the Cookie-Editor dictionary made
   *  from one WebDriver cookie. */
  function ToEditor(c: Cookie): (d: Cookie)
    ensures Get(d.domain) == Get(c.domain) && Get(d.name) == Get(c.name)
    ensures Get(d.path) == GetOr(c.path, "/") && Get(d.value) == GetOr(c.value, "")
    ensures Get(d.httpOnly) == GetOr(c.httpOnly, false) && Get(d.secure) == GetOr(c.secure, false)
    ensures d.sameSite == Present(ChromeSameSite(Get(c.sameSite)))
    ensures d.hostOnly == Present(!StartsWithDot(Get(c.domain)))
    ensures d.session == Present(true) <==> Get(c.expiry).None?
    ensures d.session == Present(true) <==> d.expirationDate == Null
    ensures d.session.Present? && d.expirationDate != Missing
    ensures Get(c.expiry).Some? ==> d.expirationDate == Present(c.expiry.value as real)
    ensures d.storeId == Null && d.expiry == Missing
  {
    var domain := Get(c.domain);
    var expiry := Get(c.expiry);
    Cookie(
      domain := Stored(domain),
      name := Stored(Get(c.name)),
      path := Stored(GetOr(c.path, "/")),
      httpOnly := Stored(GetOr(c.httpOnly, false)),
      secure := Stored(GetOr(c.secure, false)),
      sameSite := Present(ChromeSameSite(Get(c.sameSite))),
      value := Stored(GetOr(c.value, "")),
      expiry := Missing,
      hostOnly := Present(!StartsWithDot(domain)),
      session := Present(expiry.None?),
      expirationDate := if expiry.None? then Null else Present(expiry.value as real),
      storeId := Null)
  }

  /** One iteration of editor_to_selenium: the WebDriver dictionary made
   *  from one Cookie-Editor cookie. */
  function ToSelenium(c: Cookie): (d: Cookie)
    ensures Get(d.domain) == Get(c.domain) && Get(d.name) == Get(c.name)
    ensures Get(d.path) == GetOr(c.path, "/") && Get(d.value) == GetOr(c.value, "")
    ensures Get(d.httpOnly) == GetOr(c.httpOnly, false) && Get(d.secure) == GetOr(c.secure, false)
    ensures Get(d.sameSite) == SeleniumSameSite(Get(c.sameSite)) && d.sameSite != Missing
    ensures d.expiry != Missing <==> !Truthy(GetOr(c.session, false)) && Get(c.expirationDate).Some?
    ensures d.expiry != Missing ==> d.expiry == Present(Trunc(c.expirationDate.value))
    ensures d.hostOnly == Missing && d.session == Missing && d.expirationDate == Missing && d.storeId == Missing
  {
    var expiry :=
      if !Truthy(GetOr(c.session, false)) && Get(c.expirationDate).Some?
      then Present(Trunc(c.expirationDate.value)) else Missing;
    Empty.(
      domain := Stored(Get(c.domain)),
      name := Stored(Get(c.name)),
      path := Stored(GetOr(c.path, "/")),
      httpOnly := Stored(GetOr(c.httpOnly, false)),
      secure := Stored(GetOr(c.secure, false)),
      sameSite := Stored(SeleniumSameSite(Get(c.sameSite))),
      value := Stored(GetOr(c.value, "")),
      expiry := expiry)
  }

  /** A list of cookies converted one by one, in order. */
  function MapCookies(cs: seq<Cookie>, convert: Cookie -> Cookie): (r: seq<Cookie>)
    ensures |r| == |cs|
    ensures forall i :: 0 <= i < |cs| ==> r[i] == convert(cs[i])
  {
    if cs == [] then [] else MapCookies(cs[..|cs| - 1], convert) + [convert(cs[|cs| - 1])]
  }

  method SeleniumToEditor(cookies: seq<Cookie>) returns (out: seq<Cookie>)
    ensures out == MapCookies(cookies, ToEditor)
  {
    out := [];
    for i := 0 to |cookies|
      invariant out == MapCookies(cookies[..i], ToEditor)
    {
      assert cookies[..i + 1][..i] == cookies[..i];
      out := out + [ToEditor(cookies[i])];
    }
    assert cookies[..|cookies|] == cookies;
  }

  method EditorToSelenium(cookies: seq<Cookie>) returns (out: seq<Cookie>)
    ensures out == MapCookies(cookies, ToSelenium)
  {
    out := [];
    for i := 0 to |cookies|
      invariant out == MapCookies(cookies[..i], ToSelenium)
    {
      assert cookies[..i + 1][..i] == cookies[..i];
      out := out + [ToSelenium(cookies[i])];
    }
    assert cookies[..|cookies|] == cookies;
  }

  const SourceError: string := "source doit être 'selenium' ou 'editor'"

  /** convert_cookies: routes on the name of the source format; any other
   *  name is a ValueError. */
  method ConvertCookies(cookies: seq<Cookie>, source: string) returns (r: Result<seq<Cookie>, string>)
    ensures source == "selenium" ==> r == Success(MapCookies(cookies, ToEditor))
    ensures source == "editor" ==> r == Success(MapCookies(cookies, ToSelenium))
    ensures r.Failure? <==> source != "selenium" && source != "editor"
    ensures r.Failure? ==> r.error == SourceError
  {
    if source == "selenium" {
      var out := SeleniumToEditor(cookies);
      r := Success(out);
    } else if source == "editor" {
      var out := EditorToSelenium(cookies);
      r := Success(out);
    } else {
      r := Failure(SourceError);
    }
  }

  /** The WebDriver keys of two cookies read the same through dict.get,
   *  with the defaults the converters use. */
  predicate ReadsAlike(a: Cookie, b: Cookie)
  {
    Get(a.domain) == Get(b.domain) && Get(a.name) == Get(b.name)
    && GetOr(a.path, "/") == GetOr(b.path, "/") && GetOr(a.value, "") == GetOr(b.value, "")
    && GetOr(a.httpOnly, false) == GetOr(b.httpOnly, false)
    && GetOr(a.secure, false) == GetOr(b.secure, false)
    && Get(a.sameSite) == Get(b.sameSite) && Get(a.expiry) == Get(b.expiry)
  }

  /** The SameSite values WebDriver writes. */
  predicate KnownSameSite(c: Cookie)
  {
    Get(c.sameSite) in SeleniumToChromeSameSite
  }

  /** A WebDriver cookie survives the trip through the extension's format
   *  exactly when its SameSite value is one the tables know. */
  lemma SeleniumRoundTrip(c: Cookie)
    ensures ReadsAlike(ToSelenium(ToEditor(c)), c) <==> KnownSameSite(c)
  {
    var d := ToEditor(c);
    var back := ToSelenium(d);
    if Get(c.expiry).Some? {
      TruncOfWhole(c.expiry.value);
    }
    if KnownSameSite(c) {
      SameSiteTablesInverse(Get(c.sameSite));
    } else {
      assert Get(back.sameSite) == None;
    }
  }

  /** A WebDriver cookie with every key it carries stored (expiry may be
   *  absent but not None) comes back with exactly the same keys. */
  lemma SeleniumRoundTripExact(c: Cookie)
    requires KnownSameSite(c)
    requires !c.domain.Missing? && !c.name.Missing? && !c.path.Missing? && !c.value.Missing?
    requires !c.httpOnly.Missing? && !c.secure.Missing? && !c.sameSite.Missing? && !c.expiry.Null?
    ensures var back := ToSelenium(ToEditor(c));
      back == Empty.(domain := c.domain, name := c.name, path := c.path, httpOnly := c.httpOnly,
                     secure := c.secure, sameSite := c.sameSite, value := c.value, expiry := c.expiry)
  {
    SeleniumRoundTrip(c);
  }

  /** The list form: every cookie of a WebDriver list survives the trip. */
  lemma {:induction false} SeleniumListRoundTrip(cs: seq<Cookie>)
    requires forall i :: 0 <= i < |cs| ==> KnownSameSite(cs[i])
    ensures var back := MapCookies(MapCookies(cs, ToEditor), ToSelenium);
      |back| == |cs| && forall i :: 0 <= i < |cs| ==> ReadsAlike(back[i], cs[i])
  {
    var back := MapCookies(MapCookies(cs, ToEditor), ToSelenium);
    forall i | 0 <= i < |cs|
      ensures ReadsAlike(back[i], cs[i])
    {
      SeleniumRoundTrip(cs[i]);
    }
  }

  /** An extension cookie whose expiration is a whole number of seconds,
   *  present exactly when it is not a session cookie, and whose SameSite
   *  value is one the tables know. */
  predicate WellFormedEditorCookie(c: Cookie)
  {
    Get(c.sameSite) in ChromeToSeleniumSameSite
    && Get(c.sameSite).Some?
    && c.session.Present? && (c.session.value <==> Get(c.expirationDate).None?)
    && (Get(c.expirationDate).Some? ==> c.expirationDate.value == c.expirationDate.value.Floor as real)
  }

  /** Such a cookie survives the trip through WebDriver's format: the
   *  extension keys come back as they were, hostOnly is recomputed from
   *  the domain and storeId is None. */
  lemma EditorRoundTrip(c: Cookie)
    requires WellFormedEditorCookie(c)
    ensures var back := ToEditor(ToSelenium(c));
      Get(back.domain) == Get(c.domain) && Get(back.name) == Get(c.name)
      && Get(back.path) == GetOr(c.path, "/") && Get(back.value) == GetOr(c.value, "")
      && Get(back.httpOnly) == GetOr(c.httpOnly, false) && Get(back.secure) == GetOr(c.secure, false)
      && back.sameSite == c.sameSite && back.session == c.session
      && Get(back.expirationDate) == Get(c.expirationDate)
      && back.hostOnly == Present(!StartsWithDot(Get(c.domain)))
  {
    var s := ToSelenium(c);
    SameSiteTablesInverseBack(c.sameSite.value);
    if Get(c.expirationDate).Some? {
      TruncOfWhole(c.expirationDate.value.Floor);
    }
  }

  /** A fractional expiration is cut to whole seconds on the way to WebDriver. */
  lemma FractionalExpirationIsTruncated()
    ensures ToSelenium(Empty.(session := Present(false), expirationDate := Present(1.5))).expiry == Present(1)
  {
  }
}
