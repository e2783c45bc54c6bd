/** `AuthGuard.canActivate`: HTTP Basic authentication (section 2 of
    RFC 7617) of the admin pages against the configured login and password.
    A rejection sets the `WWW-Authenticate` challenge. Base64 decoding is a
    parameter `decode`. */
module AuthGuard {
  import opened Wrappers
  import opened Js

  const CHALLENGE: string := "Basic realm=\"Admin Area\""

  /** `ADMIN_LOGIN` and `ADMIN_PASSWORD`; either may be unset. */
  datatype AdminEnv = AdminEnv(username: Option<string>, password: Option<string>)

  /** `true`, or an `UnauthorizedException` with the challenge header set. */
  datatype Decision = Allow | Deny(wwwAuthenticate: string)

  /** A present header that starts with `Basic `. */
  predicate IsBasic(header: Option<string>) {
    header.Some? && |header.value| >= 6 && header.value[..6] == "Basic "
  }

  /** A text with a separator splits into at least two pieces. */
  lemma SplitHasTwo(h: string, sep: char, i: nat)
    requires i < |h| && h[i] == sep
    ensures |Split(h, sep)| >= 2
  {
    JoinSingle(Split(h, sep), sep);
    assert h[i] == sep;
  }

  lemma JoinSingle(parts: seq<string>, sep: char)
    ensures |parts| == 1 ==> Join(parts, sep) == parts[0]
  {
  }

  /** `authHeader.split(' ')[1]`. */
  function Token(h: string): string
    requires |h| >= 6 && h[..6] == "Basic "
  {
    assert h[5] == ' ';
    SplitHasTwo(h, ' ', 5);
    Split(h, ' ')[1]
  }

  /** The token of `Basic <token>` is the token itself when it holds no
      space. */
  lemma TokenOf(token: string)
    requires ' ' !in token
    ensures Token("Basic " + token) == token
  {
    var parts := ["Basic", token];
    assert Join(parts[1..], ' ') == token;
    assert Join(parts, ' ') == "Basic " + token;
    SplitJoin(parts, ' ');
  }

  // ---------------------------------------------------------------------------
  // As written

  /** `const [user, pass] = decoded.split(':')`: the text up to the first
      colon and the piece between the first and second colon, or `undefined`
      without a colon. */
  function UserPassAsWritten(decoded: string): (r: (string, Option<string>))
    ensures ':' !in decoded ==> r == (decoded, None)
    ensures ':' in decoded ==>
      var up := UserPass(decoded).value;
      r == (up.0, Some(Split(up.1, ':')[0]))
  {
    SplitAtFirst(decoded);
    var parts := Split(decoded, ':');
    (parts[0], if |parts| > 1 then Some(parts[1]) else None)
  }

  /** The pieces of a text are its user id and the pieces of its password. */
  lemma SplitAtFirst(decoded: string)
    ensures ':' !in decoded ==> Split(decoded, ':') == [decoded]
    ensures ':' in decoded ==>
      Split(decoded, ':') == [UserPass(decoded).value.0] + Split(UserPass(decoded).value.1, ':')
  {
    if ':' in decoded {
      var up := UserPass(decoded).value;
      SplitFirst(up.0, ':', up.1);
    } else {
      SplitJoin([decoded], ':');
    }
  }

  /** `canActivate` as written. Against the reading at the first colon, it
      compares the password only up to its own first colon, and credentials
      without a colon meet an unset password. */
  function CanActivateAsWritten(header: Option<string>, env: AdminEnv, decode: string -> string): (d: Decision)
    ensures d.Deny? ==> d.wwwAuthenticate == CHALLENGE
    ensures !IsBasic(header) ==> d.Deny?
    ensures IsBasic(header) && ':' in decode(Token(header.value)) ==>
      var up := UserPass(decode(Token(header.value))).value;
      (d == Allow <==> Some(up.0) == env.username && Some(Split(up.1, ':')[0]) == env.password)
    ensures IsBasic(header) && ':' !in decode(Token(header.value)) ==>
      (d == Allow <==> Some(decode(Token(header.value))) == env.username && env.password.None?)
  {
    if !IsBasic(header) then Deny(CHALLENGE)
    else
      var up := UserPassAsWritten(decode(Token(header.value)));
      if Some(up.0) == env.username && up.1 == env.password then Allow else Deny(CHALLENGE)
  }

  /** Splitting `x:rest` with a colon-free `x` gives `x` and the pieces of
      `rest`. */
  lemma SplitFirst(x: string, sep: char, rest: string)
    requires sep !in x
    ensures Split(x + [sep] + rest, sep) == [x] + Split(rest, sep)
  {
    var tail := Split(rest, sep);
    var parts := [x] + tail;
    assert parts[1..] == tail;
    assert Join(parts, sep) == x + [sep] + rest;
    SplitUnique(x + [sep] + rest, sep, parts, Split(x + [sep] + rest, sep));
  }

  /** A configured password that holds a colon never matches: the guard
      compares only the piece before the password's first colon. */
  lemma ColonPasswordRejected(user: string, pass: string, token: string, decode: string -> string)
    requires ':' !in user && ':' in pass && ' ' !in token
    requires decode(token) == user + ":" + pass
    ensures CanActivateAsWritten(Some("Basic " + token), AdminEnv(Some(user), Some(pass)), decode) == Deny(CHALLENGE)
  {
    TokenOf(token);
    SplitFirst(user, ':', pass);
    var first := Split(pass, ':')[0];
    assert ':' !in first;
  }

  /** With `ADMIN_PASSWORD` unset, the login alone, with no colon, is let in. */
  lemma MissingPasswordAdmits(user: string, token: string, decode: string -> string)
    requires ':' !in user && ' ' !in token
    requires decode(token) == user
    ensures CanActivateAsWritten(Some("Basic " + token), AdminEnv(Some(user), None), decode) == Allow
  {
    TokenOf(token);
    SplitJoin([user], ':');
  }

  // ---------------------------------------------------------------------------
  // At the first colon

  lemma IndexOfSpec(s: string, sep: char)
    ensures sep !in s[..IndexOf(s, sep)]
    ensures IndexOf(s, sep) < |s| ==> s[IndexOf(s, sep)] == sep
    ensures IndexOf(s, sep) == |s| <==> sep !in s
  {
    if s != [] && s[0] != sep {
      IndexOfSpec(s[1..], sep);
      assert s[..IndexOf(s, sep)] == [s[0]] + s[1..][..IndexOf(s[1..], sep)];
    }
  }

  /** `user-pass = user-id ":" password`: the user id ends at the first
      colon, and the password is everything after it. */
  function UserPass(decoded: string): (r: Option<(string, string)>)
    ensures r.Some? <==> ':' in decoded
    ensures r.Some? ==> ':' !in r.value.0 && decoded == r.value.0 + ":" + r.value.1
  {
    var i := IndexOf(decoded, ':');
    IndexOfSpec(decoded, ':');
    if i == |decoded| then None
    else
      assert decoded == decoded[..i] + ":" + decoded[i + 1..];
      Some((decoded[..i], decoded[i + 1..]))
  }

  /** Any user id without a colon and any password are read back. */
  lemma UserPassRoundTrip(user: string, pass: string)
    requires ':' !in user
    ensures UserPass(user + ":" + pass) == Some((user, pass))
  {
    var r := UserPass(user + ":" + pass).value;
    FirstPieces(user + ":" + pass, ':', user, r.0, pass, r.1);
  }

  /** `canActivate` with the credentials split at the first colon. */
  function CanActivate(header: Option<string>, env: AdminEnv, decode: string -> string): (d: Decision)
    ensures d.Deny? ==> d.wwwAuthenticate == CHALLENGE
    ensures !IsBasic(header) ==> d.Deny?
  {
    if !IsBasic(header) then Deny(CHALLENGE)
    else
      match UserPass(decode(Token(header.value)))
      case Some((user, pass)) =>
        if Some(user) == env.username && Some(pass) == env.password then Allow else Deny(CHALLENGE)
      case None => Deny(CHALLENGE)
  }

  /** A Basic header whose token decodes to `user:pass` is let in exactly
      when both equal the configured values, whatever colons the password
      holds; an unset login or password admits nobody. */
  lemma CanActivateSpec(user: string, pass: string, token: string, env: AdminEnv, decode: string -> string)
    requires ':' !in user && ' ' !in token
    requires decode(token) == user + ":" + pass
    ensures CanActivate(Some("Basic " + token), env, decode) == Allow <==> env == AdminEnv(Some(user), Some(pass))
  {
    TokenOf(token);
    UserPassRoundTrip(user, pass);
  }

  /** Credentials without a colon are refused. */
  lemma NoColonRejected(header: Option<string>, env: AdminEnv, decode: string -> string)
    requires IsBasic(header) && ':' !in decode(Token(header.value))
    ensures CanActivate(header, env, decode) == Deny(CHALLENGE)
  {
  }

  /** When neither the user id nor the password holds a colon and the
      password is configured, the guard as written decides the same. */
  lemma AsWrittenAgrees(user: string, pass: string, token: string, env: AdminEnv, decode: string -> string)
    requires ':' !in user && ':' !in pass && ' ' !in token
    requires decode(token) == user + ":" + pass
    requires env.password.Some?
    ensures CanActivateAsWritten(Some("Basic " + token), env, decode) == CanActivate(Some("Basic " + token), env, decode)
  {
    TokenOf(token);
    UserPassRoundTrip(user, pass);
    SplitJoin([user, pass], ':');
    assert Join([user, pass], ':') == user + ":" + pass by {
      assert [user, pass][1..] == [pass];
    }
  }
}
