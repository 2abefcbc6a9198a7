/** The authenticator of `app/backends/gemini/jwt_manager.py`: the
    `kq_encode` packing, the HS256 token of RFC 7519 in the compact
    serialisation of section 7.1 of RFC 7515, a cached token that is
    refreshed through the `getoxsrf` handshake, and the capture of rotated
    session cookies. JSON text, HMAC-SHA256 and the handshake itself are
    inputs. */
module Jwt {
  import opened Wrappers
  import opened Strings
  import opened Base64Url
  import opened AccountConfigs

  /** The bytes of one character: its code when at most 255, otherwise the
      low byte and then the high byte; a code above 0xFFFF has a high part
      that is no byte, which `bytearray.append` refuses. */
  function CharBytes(c: char): Option<seq<Byte>> {
    var v := c as int;
    if v <= 255 then Some([v])
    else if v / 256 <= 255 then Some([v % 256, v / 256])
    else None
  }

  /** The packing of `kq_encode`, character by character. */
  function KqBytes(s: string): Option<seq<Byte>> {
    if s == [] then Some([])
    else match (KqBytes(s[..|s| - 1]), CharBytes(s[|s| - 1]))
      case (Some(b), Some(c)) => Some(b + c)
      case _ => None
  }

  /** What `kq_encode` returns, or `None` where it raises. */
  function KqEncoded(s: string): Option<string> {
    match KqBytes(s)
    case None => None
    case Some(b) => Some(Encode(b))
  }

  /** `kq_encode`: the packing loop, then base64url. */
  method KqEncode(s: string) returns (r: Option<string>)
    ensures r == KqEncoded(s)
  {
    var b: seq<Byte> := [];
    var i := 0;
    while i < |s|
      invariant 0 <= i <= |s|
      invariant KqBytes(s[..i]) == Some(b)
    {
      assert s[..i + 1][..i] == s[..i];
      var v := s[i] as int;
      if v > 255 {
        if v / 256 > 255 {
          KqPrefixFails(s, i + 1);
          return None;
        }
        b := b + [v % 256, v / 256];
      } else {
        b := b + [v];
      }
      i := i + 1;
    }
    assert s[..i] == s;
    r := Some(Encode(b));
  }

  /** Once a prefix cannot be packed, neither can the whole. */
  lemma {:induction false} KqPrefixFails(s: string, i: nat)
    requires i <= |s| && KqBytes(s[..i]).None?
    ensures KqBytes(s).None?
    decreases |s| - i
  {
    if i < |s| {
      assert s[..i + 1][..i] == s[..i];
      KqPrefixFails(s, i + 1);
    } else {
      assert s[..i] == s;
    }
  }

  /** A text whose codes are all at most 255 packs to exactly those codes,
      one byte per character. */
  lemma {:induction false} KqLatin1(s: string)
    requires forall i :: 0 <= i < |s| ==> s[i] as int <= 255
    ensures KqBytes(s).Some?
    ensures |KqBytes(s).value| == |s|
    ensures forall i :: 0 <= i < |s| ==> KqBytes(s).value[i] == s[i] as int
    decreases |s|
  {
    if s != [] {
      var init := s[..|s| - 1];
      KqLatin1(init);
      assert forall i :: 0 <= i < |init| ==> init[i] == s[i];
    }
  }

  /** A character above 255 and at most 0xFFFF takes two bytes, low then
      high, that put its code back together. */
  lemma WideChar(c: char)
    requires 255 < c as int <= 0xFFFF
    ensures CharBytes(c).Some? && |CharBytes(c).value| == 2
    ensures var b := CharBytes(c).value; b[0] as int + 256 * (b[1] as int) == c as int
  {
  }

  /** The decoded text of a packed segment is the packing itself. */
  lemma KqRoundTrip(s: string)
    requires KqEncoded(s).Some?
    ensures Decode(KqEncoded(s).value) == KqBytes(s)
  {
    DecodeEncode(KqBytes(s).value);
  }

  /** The claims of a token issued at `now` for `csesidx`. */
  datatype Claims = Claims(iss: string, aud: string, sub: string, iat: int, exp: int, nbf: int)

  const Lifetime := 300
  const CacheLifetime := 270

  function ClaimsAt(csesidx: string, now: int): (c: Claims)
    ensures c.exp == c.iat + Lifetime && c.nbf == c.iat && c.iat == now
    ensures c.sub == "csesidx/" + csesidx
  {
    Claims("https://business.gemini.google", "https://biz-discoveryengine.googleapis.com",
           "csesidx/" + csesidx, now, now + Lifetime, now)
  }

  /** The inputs the model takes in place of libraries: `json.dumps` of a
      string (with its quotes), `json.loads` of the handshake body reduced
      to its `xsrfToken` and `keyId`, and HMAC-SHA256 of a key and a
      message. */
  datatype Env = Env(
    quote: string -> string,
    parseHandshake: string -> Option<(string, string)>,
    hmac: (seq<Byte>, string) -> seq<Byte>)

  /** The compact JSON texts `json.dumps(..., separators=(",", ":"))`
      gives for the header and the claims. */
  function HeaderText(env: Env, keyId: string): string {
    "{\"alg\":\"HS256\",\"typ\":\"JWT\",\"kid\":" + env.quote(keyId) + "}"
  }

  function PayloadText(env: Env, c: Claims): string {
    "{\"iss\":" + env.quote(c.iss) + ",\"aud\":" + env.quote(c.aud) + ",\"sub\":" + env.quote(c.sub)
      + ",\"iat\":" + IntToString(c.iat) + ",\"exp\":" + IntToString(c.exp) + ",\"nbf\":" + IntToString(c.nbf) + "}"
  }

  /** Three segments joined by dots. */
  function Token(header: string, payload: string, signature: string): string {
    header + "." + payload + "." + signature
  }

  /** `create_jwt`: the packed header and claims, and the base64url HMAC of
      the two joined by a dot; `None` where the packing raises. */
  function CreateJwt(env: Env, key: seq<Byte>, keyId: string, c: Claims): Option<string> {
    match (KqEncoded(HeaderText(env, keyId)), KqEncoded(PayloadText(env, c)))
    case (Some(h), Some(p)) => Some(Token(h, p, Encode(env.hmac(key, h + "." + p))))
    case _ => None
  }

  /** A token has exactly three dot-separated segments: the header and the
      claims, each decoding to its packed JSON text, and the signature over
      the first two. */
  lemma TokenShape(env: Env, key: seq<Byte>, keyId: string, c: Claims)
    requires CreateJwt(env, key, keyId, c).Some?
    ensures var h := KqEncoded(HeaderText(env, keyId)).value;
      var p := KqEncoded(PayloadText(env, c)).value;
      && Split(CreateJwt(env, key, keyId, c).value, '.') == [h, p, Encode(env.hmac(key, h + "." + p))]
      && Decode(h) == KqBytes(HeaderText(env, keyId))
      && Decode(p) == KqBytes(PayloadText(env, c))
  {
    var h := KqEncoded(HeaderText(env, keyId)).value;
    var p := KqEncoded(PayloadText(env, c)).value;
    var sig := Encode(env.hmac(key, h + "." + p));
    EncodeAlphabet(KqBytes(HeaderText(env, keyId)).value);
    EncodeAlphabet(KqBytes(PayloadText(env, c)).value);
    EncodeAlphabet(env.hmac(key, h + "." + p));
    ThreeSegments(h, p, sig);
    KqRoundTrip(HeaderText(env, keyId));
    KqRoundTrip(PayloadText(env, c));
  }

  lemma NoDot(s: string)
    requires AllUrlChars(s)
    ensures Split(s, '.') == [s]
  {
    assert forall i :: 0 <= i < |s| ==> s[i] != '.';
  }

  lemma ThreeSegments(h: string, p: string, sig: string)
    requires AllUrlChars(h) && AllUrlChars(p) && AllUrlChars(sig)
    ensures Split(Token(h, p, sig), '.') == [h, p, sig]
  {
    NoDot(h);
    NoDot(p);
    NoDot(sig);
    assert Token(h, p, sig) == h + ['.'] + (p + ['.'] + sig);
    SplitFirst(h, '.', p + ['.'] + sig);
    SplitFirst(p, '.', sig);
  }

  /** The response of the handshake: status, headers in order, body. */
  datatype Response = Response(status: int, headers: seq<(string, string)>, text: string)

  /** The `cookie` header of the handshake request. */
  function RequestCookie(v: ConfigValue): string {
    "__Secure-C_SES=" + v.secureCSes
      + (if v.hostCOses.Some? && v.hostCOses.value != [] then "; __Host-C_OSES=" + v.hostCOses.value else "")
  }

  /** The body with the `)]}'` guard removed when it is there. */
  function Unguarded(text: string): (r: string)
    ensures ")]}'" <= text ==> text == ")]}'" + r
    ensures !(")]}'" <= text) ==> r == text
  {
    if ")]}'" <= text then text[4..] else text
  }

  /** The cookie state a `Set-Cookie` header leaves: the session cookie and
      the host cookie, and whether either changed. */
  function CookieStep(ses: string, host: Option<string>, header: (string, string)): (string, Option<string>, bool) {
    var (name, value) := header;
    if Lower(name) != "set-cookie" then (ses, host, false)
    else
      var pair := Split(value, ';')[0];
      if '=' !in pair then (ses, host, false)
      else
        var i := IndexOf(pair, '=');
        var cname, cval := Strip(pair[..i]), Strip(pair[i + 1..]);
        if cname == "__Secure-C_SES" && cval != [] && cval != ses then (cval, host, true)
        else if cname == "__Host-C_OSES" && cval != [] && cval != host.GetOr([]) then (ses, Some(cval), true)
        else (ses, host, false)
  }

  /** The headers scanned in order. */
  function Captured(ses: string, host: Option<string>, headers: seq<(string, string)>): (string, Option<string>, bool) {
    if headers == [] then (ses, host, false)
    else
      var (s1, h1, u1) := Captured(ses, host, headers[..|headers| - 1]);
      var (s2, h2, u2) := CookieStep(s1, h1, headers[|headers| - 1]);
      (s2, h2, u1 || u2)
  }

  /** Whatever the headers hold, a cookie is only ever replaced by a
      non-empty value, and any change is reported. */
  lemma {:induction false} CapturedShape(ses: string, host: Option<string>, headers: seq<(string, string)>)
    ensures var (s, h, updated) := Captured(ses, host, headers);
      && (s != ses ==> s != [] && updated)
      && (h != host ==> h.Some? && h.value != [] && updated)
    decreases |headers|
  {
    if headers != [] {
      CapturedShape(ses, host, headers[..|headers| - 1]);
    }
  }

  predicate IsSetCookie(header: (string, string)) {
    Lower(header.0) == "set-cookie"
  }

  /** Headers other than `Set-Cookie` change nothing. */
  lemma {:induction false} OnlySetCookie(ses: string, host: Option<string>, headers: seq<(string, string)>)
    requires forall k :: 0 <= k < |headers| ==> !IsSetCookie(headers[k])
    ensures Captured(ses, host, headers) == (ses, host, false)
    decreases |headers|
  {
    if headers != [] {
      OnlySetCookie(ses, host, headers[..|headers| - 1]);
    }
  }

  /** What a cached token was made from: the libraries, the signing key,
      the key id and the claims. */
  datatype Issue = Issue(env: Env, key: seq<Byte>, keyId: string, claims: Claims)

  /** The token an issue makes, if the packing succeeds. */
  function Issued(i: Issue): Option<string> {
    CreateJwt(i.env, i.key, i.keyId, i.claims)
  }

  /** The end of `_refresh` after the status check: the guard is removed,
      the body parsed, the key decoded from `xsrfToken`, and the token made
      for claims issued at `now` for `csesidx`. */
  function TokenFrom(env: Env, text: string, csesidx: string, now: int): (r: Result<Issue, string>)
    ensures var parsed := env.parseHandshake(Unguarded(text));
      && (r.Ok? <==> parsed.Some? && Decode(parsed.value.0).Some?
                     && CreateJwt(env, Decode(parsed.value.0).value, parsed.value.1, ClaimsAt(csesidx, now)).Some?)
      && (r.Ok? ==> r.value == Issue(env, Decode(parsed.value.0).value, parsed.value.1, ClaimsAt(csesidx, now))
                    && Issued(r.value).Some?)
  {
    match env.parseHandshake(Unguarded(text))
    case None => Err("invalid handshake body")
    case Some((xsrf, keyId)) =>
      match Decode(xsrf)
      case None => Err("invalid xsrfToken")
      case Some(key) =>
        var issue := Issue(env, key, keyId, ClaimsAt(csesidx, now));
        if Issued(issue).None? then Err("byte must be in range(0, 256)") else Ok(issue)
  }

  /** A token holder for one account (`JWTManager`). */
  class JwtManager {
    const config: AccountConfig
    var jwt: string
    var expires: int
    /** What the cached token was made from, if one was issued. */
    ghost var issued: Option<Issue>

    /** No token is cached before the first refresh; a cached token is the
        one its issue makes, and its own expiry lies 30 seconds after the
        cache's. */
    ghost predicate Valid()
      reads this
    {
      && (issued.None? ==> jwt == [] && expires == 0)
      && (issued.Some? ==> Issued(issued.value) == Some(jwt)
                           && issued.value.claims.exp == expires + (Lifetime - CacheLifetime))
    }

    constructor (config: AccountConfig)
      ensures Valid() && this.config == config && jwt == [] && expires == 0 && issued.None?
    {
      this.config := config;
      jwt, expires := [], 0;
      issued := None;
    }

    /** `_capture_set_cookies`: rotated cookies from the response, and the
        refresh time only when something changed. */
    method CaptureSetCookies(headers: seq<(string, string)>, now: int)
      modifies config
      ensures var (s, h, updated) := Captured(old(config.secureCSes), old(config.hostCOses), headers);
        && config.secureCSes == s && config.hostCOses == h
        && config.lastCookieRefresh == (if updated then now else old(config.lastCookieRefresh))
      ensures config.csesidx == old(config.csesidx)
    {
      ghost var ses0, host0 := config.secureCSes, config.hostCOses;
      var updated := false;
      var k := 0;
      while k < |headers|
        invariant 0 <= k <= |headers|
        invariant Captured(ses0, host0, headers[..k]) == (config.secureCSes, config.hostCOses, updated)
        invariant config.csesidx == old(config.csesidx)
        invariant config.lastCookieRefresh == old(config.lastCookieRefresh)
      {
        assert headers[..k + 1][..k] == headers[..k];
        var (s, h, changed) := CookieStep(config.secureCSes, config.hostCOses, headers[k]);
        config.secureCSes, config.hostCOses := s, h;
        updated := updated || changed;
        k := k + 1;
      }
      assert headers[..k] == headers;
      if updated {
        config.lastCookieRefresh := now;
      }
    }

    /** `_refresh`: the handshake is sent with the account's cookies; a
        status other than 200 fails and changes nothing; otherwise rotated
        cookies are captured first, then the body is read, the key is
        decoded from `xsrfToken`, and the token for claims issued at `now`
        is cached until `now + 270`. A failure after the status check keeps
        the cached token but not the old cookies. */
    method Refresh(env: Env, handshake: (string, string) -> Response, now: int) returns (r: Result<(), string>)
      requires Valid()
      modifies this`jwt, this`expires, this`issued, config
      ensures Valid()
      ensures var resp := handshake(RequestCookie(old(config.Value())), old(config.csesidx));
        resp.status != 200 ==>
          && r == Err("getoxsrf failed: " + IntToString(resp.status))
          && jwt == old(jwt) && expires == old(expires) && issued == old(issued)
          && config.Value() == old(config.Value())
      ensures var resp := handshake(RequestCookie(old(config.Value())), old(config.csesidx));
        var (ses, host, updated) := Captured(old(config.secureCSes), old(config.hostCOses), resp.headers);
        resp.status == 200 ==>
          && config.secureCSes == ses && config.hostCOses == host
          && config.lastCookieRefresh == (if updated then now else old(config.lastCookieRefresh))
      ensures var resp := handshake(RequestCookie(old(config.Value())), old(config.csesidx));
        var t := TokenFrom(env, resp.text, old(config.csesidx), now);
        && (r.Ok? <==> resp.status == 200 && t.Ok?)
        && (r.Ok? ==> issued == Some(t.value) && Issued(t.value) == Some(jwt) && expires == now + CacheLifetime)
        && (resp.status == 200 && t.Err? ==> r == Err(t.error))
        && (r.Err? ==> jwt == old(jwt) && expires == old(expires) && issued == old(issued))
      ensures config.csesidx == old(config.csesidx)
    {
      var resp := handshake(RequestCookie(config.Value()), config.csesidx);
      if resp.status != 200 {
        return Err("getoxsrf failed: " + IntToString(resp.status));
      }
      r := Accept(env, resp, now);
    }

    /** The part of `_refresh` after a 200: the rotated cookies are
        captured, then the token made from the body is cached until
        `now + 270`; when the body yields no token, the cached one stays. */
    method Accept(env: Env, resp: Response, now: int) returns (r: Result<(), string>)
      requires Valid()
      modifies this`jwt, this`expires, this`issued, config
      ensures Valid()
      ensures var (ses, host, updated) := Captured(old(config.secureCSes), old(config.hostCOses), resp.headers);
        && config.secureCSes == ses && config.hostCOses == host
        && config.lastCookieRefresh == (if updated then now else old(config.lastCookieRefresh))
      ensures var t := TokenFrom(env, resp.text, old(config.csesidx), now);
        && (r.Ok? <==> t.Ok?)
        && (r.Ok? ==> issued == Some(t.value) && Issued(t.value) == Some(jwt) && expires == now + CacheLifetime)
        && (r.Err? ==> r == Err(t.error) && jwt == old(jwt) && expires == old(expires) && issued == old(issued))
      ensures config.csesidx == old(config.csesidx)
    {
      CaptureSetCookies(resp.headers, now);
      var t := TokenFrom(env, resp.text, config.csesidx, now);
      if t.Err? {
        return Err(t.error);
      }
      jwt := Issued(t.value).value;
      issued := Some(t.value);
      expires := now + CacheLifetime;
      r := Ok(());
    }

    /** `get`: the cached token while `now` has not passed the cache's
        expiry, a fresh one otherwise. A token it returns is the one its
        issue makes, and the claims inside it have not expired at `now`. */
    method Get(env: Env, handshake: (string, string) -> Response, now: int) returns (r: Result<string, string>)
      requires Valid()
      modifies this, config
      ensures Valid()
      ensures now <= old(expires) ==>
        r == Ok(old(jwt)) && jwt == old(jwt) && expires == old(expires) && issued == old(issued)
        && config.Value() == old(config.Value())
      ensures var resp := handshake(RequestCookie(old(config.Value())), old(config.csesidx));
        var t := TokenFrom(env, resp.text, old(config.csesidx), now);
        now > old(expires) ==>
          && (r.Ok? <==> resp.status == 200 && t.Ok?)
          && (resp.status != 200 ==> r == Err("getoxsrf failed: " + IntToString(resp.status)))
          && (resp.status == 200 && t.Err? ==> r == Err(t.error))
      ensures now > old(expires) && r.Ok? ==>
        r.value == jwt && expires == now + CacheLifetime
        && issued.Some? && issued.value.env == env && issued.value.claims == ClaimsAt(config.csesidx, now)
      ensures r.Ok? && issued.Some? ==> Issued(issued.value) == Some(r.value) && now < issued.value.claims.exp
      ensures r.Ok? && issued.None? ==> r.value == []
      ensures config.csesidx == old(config.csesidx)
    {
      if now > expires {
        var refreshed := Refresh(env, handshake, now);
        if refreshed.Err? {
          return Err(refreshed.error);
        }
      }
      r := Ok(jwt);
    }
  }
}
