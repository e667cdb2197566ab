/** `BasicAuthMiddleware`: every request except the one for the root path must carry an
    `Authorization` header of the form `Basic <base64 of user:password>` (section 2 of
    RFC 7617) naming the configured credentials. The checks run in a fixed order and the
    first one that fails decides the error; any failure aborts the request with 400. */
module BasicAuth {
  import opened Wrappers
  import opened Json
  import opened Text
  import opened Bytes
  import Base64
  import HttpUtils

  /** The four ways authentication fails, in the order they are checked. */
  datatype AuthError = HeaderRequired | HeaderInvalid | DecodeFailed | InvalidCredentials
  {
    function Message(): string
    {
      match this
      case HeaderRequired => "Autenticação de headers requerida"
      case HeaderInvalid => "Autenticação de headers inválida"
      case DecodeFailed => "Falha ao decodificar o header"
      case InvalidCredentials => "Credenciais inválidas"
    }
  }

  const Scheme: string := "Basic"
  const Colon: byte := 58

  /** The token of a well-formed header: `Basic`, one space, and a token without spaces. */
  function BasicToken(header: string): (t: Option<string>)
    ensures t.Some? ==> header == Scheme + " " + t.value && ' ' !in t.value
  {
    if |header| >= 6 && header[..6] == Scheme + " " && ' ' !in header[6..] then Some(header[6..]) else None
  }

  /** `authenticate`, with the request's `Authorization` header value given directly (the
      empty string when there is none). The contract describes the four outcomes without
      splitting: the header form, the token's decoding and the decoded credentials. */
  function Authenticate(header: string, username: string, password: string): (r: Option<AuthError>)
    ensures r == Some(HeaderRequired) <==> header == ""
    ensures r == Some(HeaderInvalid) <==> header != "" && BasicToken(header).None?
    ensures r == Some(DecodeFailed) <==>
              BasicToken(header).Some? && Base64.DecodeString(BasicToken(header).value).None?
    ensures r.None? <==>
              && BasicToken(header).Some?
              && Base64.DecodeString(BasicToken(header).value) == Some(Utf8(username + ":" + password))
              && ':' !in username && ':' !in password
  {
    if header == "" then Some(HeaderRequired)
    else
      var parts := Split(header, ' ');
      HeaderParts(header);
      if |parts| != 2 || parts[0] != Scheme then Some(HeaderInvalid)
      else
        match Base64.DecodeString(parts[1])
        case None => Some(DecodeFailed)
        case Some(decoded) =>
          var credentials := Split(decoded, Colon);
          CredentialParts(decoded, username, password);
          if |credentials| != 2 || credentials[0] != Utf8(username) || credentials[1] != Utf8(password) then
            Some(InvalidCredentials)
          else None
  }

  /** Splitting in exactly two at `sep` is the same as being two separator-free pieces
      glued by one `sep`. */
  lemma SplitInTwo<T>(s: seq<T>, sep: T, a: seq<T>, b: seq<T>)
    ensures Split(s, sep) == [a, b] <==> s == a + [sep] + b && sep !in a && sep !in b
  {
    if Split(s, sep) == [a, b] {
      JoinSplit(s, sep);
      assert Join([a, b], sep) == a + [sep] + Join([b], sep);
    }
    if s == a + [sep] + b && sep !in a && sep !in b {
      SplitJoin([a, b], sep);
      assert Join([a, b], sep) == a + [sep] + Join([b], sep);
    }
  }

  /** The header splits on spaces into `Basic` and one more piece exactly when it has the
      `BasicToken` form, and that piece is the token. */
  lemma HeaderParts(header: string)
    ensures var parts := Split(header, ' ');
            (|parts| == 2 && parts[0] == Scheme) <==> BasicToken(header).Some?
    ensures var parts := Split(header, ' ');
            |parts| == 2 && parts[0] == Scheme ==> parts[1] == BasicToken(header).value
  {
    var parts := Split(header, ' ');
    if |parts| == 2 && parts[0] == Scheme {
      SplitInTwo(header, ' ', parts[0], parts[1]);
      assert header[..6] == Scheme + " " && header[6..] == parts[1];
    }
    if BasicToken(header).Some? {
      var t := BasicToken(header).value;
      assert ' ' !in Scheme;
      SplitInTwo(header, ' ', Scheme, t);
    }
  }

  /** The decoded bytes split on `:` into the expected user and password exactly when they
      are the encoding of `user:password` and neither part contains a colon. */
  lemma CredentialParts(decoded: seq<byte>, username: string, password: string)
    ensures var c := Split(decoded, Colon);
            (|c| == 2 && c[0] == Utf8(username) && c[1] == Utf8(password)) <==>
            (decoded == Utf8(username + ":" + password) && ':' !in username && ':' !in password)
  {
    Utf8Append(username, ":" + password);
    Utf8Append(":", password);
    assert Utf8(":") == [Colon] by {
      assert ":"[1..] == "";
    }
    assert username + ":" + password == username + (":" + password);
    assert Utf8(username + ":" + password) == Utf8(username) + [Colon] + Utf8(password);
    assert Colon == AsciiByte(':');
    Utf8AsciiByte(username, ':');
    Utf8AsciiByte(password, ':');
    SplitInTwo(decoded, Colon, Utf8(username), Utf8(password));
    var c := Split(decoded, Colon);
    if |c| == 2 && c[0] == Utf8(username) && c[1] == Utf8(password) {
      assert c == [Utf8(username), Utf8(password)];
    }
  }

  /** What the middleware does with a request. */
  datatype Outcome = Proceed | Abort(status: int, body: map<string, Json>)

  /** `BasicAuthMiddleware`: the root path is let through unchecked; otherwise the request
      proceeds exactly when it authenticates, and is aborted with 400 and the first
      failing check's message in the error body (without `errors`, which is nil) when it
      does not. */
  function Middleware(path: string, header: string, username: string, password: string): (o: Outcome)
    ensures path == "/" ==> o == Proceed
    ensures path != "/" ==> (o.Proceed? <==> Authenticate(header, username, password).None?)
    ensures o.Abort? ==>
              && o.status == 400
              && o.body.Keys == {"statusCode", "message"}
              && o.body["statusCode"] == JInt(400)
              && o.body["message"] == JString(Authenticate(header, username, password).value.Message())
  {
    if path == "/" then Proceed
    else
      match Authenticate(header, username, password)
      case Some(e) => Abort(400, map["statusCode" := JInt(400), "message" := JString(e.Message())])
      case None => Proceed
  }

  /** The header the delivery client builds authenticates against the same credentials
      whenever neither contains a colon. */
  lemma CreatedHeaderAuthenticates(username: string, password: string)
    requires ':' !in username && ':' !in password
    ensures Authenticate(HttpUtils.CreateBasicAuthHeader(username, password)[HttpUtils.AuthorizationKey],
                         username, password).None?
  {
    var h := HttpUtils.CreateBasicAuthHeader(username, password)[HttpUtils.AuthorizationKey];
    assert h == Scheme + " " + h[6..];
  }

  /** A colon in the password (or the user name) locks the account out: no header at all
      authenticates. */
  lemma ColonNeverAuthenticates(header: string, username: string, password: string)
    requires ':' in username || ':' in password
    ensures Authenticate(header, username, password).Some?
  {
  }

  /** A header that authenticates is the scheme followed by a token that decodes to the
      UTF-8 bytes of `user:password`. */
  lemma AcceptedHeaderShape(header: string, username: string, password: string)
    requires Authenticate(header, username, password).None?
    ensures exists token :: header == "Basic " + token && Base64.DecodeString(token) == Some(Utf8(username + ":" + password))
  {
    var token := BasicToken(header).value;
    assert header == "Basic " + token;
  }
}
