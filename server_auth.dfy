/** The `authenticateToken` middleware: it takes the second space-separated
    word of the `Authorization` header as the token, answers 401 when there is
    none, and otherwise asks the JWT library (`isValid`, not modelled) whether
    the token verifies, answering 403 when it does not. */
module Auth {
  import opened Wrappers
  import opened Strings

  /** `authHeader && authHeader.split(' ')[1]`, read as a truthy token or not:
      a missing or empty header, a header with no second word, and an empty
      second word (two spaces in a row) all give no token. */
  function HeaderToken(header: Option<string>): (r: Option<string>)
    ensures header.None? ==> r.None?
    ensures r.Some? ==> r.value != "" && ' ' !in r.value
    ensures r.Some? ==> header.Some? && Contains(header.value, " " + r.value)
  {
    match header
    case None => None
    case Some(h) =>
      var parts := Split(h, ' ');
      if |parts| < 2 || parts[1] == "" then None
      else
        SplitJoin(h, ' ');
        assert h == parts[0] + [' '] + Join(parts[1..], ' ');
        assert Join(parts[1..], ' ')[..|parts[1]|] == parts[1];
        ContainsAt(h, " " + parts[1], |parts[0]|);
        Some(parts[1])
  }

  /** The token is the second space-separated word, whatever follows it: a
      header of one word has none, and a second word left empty by two
      spaces in a row gives none either. */
  lemma HeaderTokenIsSecondWord(a: string, t: string, rest: string)
    requires ' ' !in a && ' ' !in t && t != ""
    ensures HeaderToken(Some(a + " " + t)) == Some(t)
    ensures HeaderToken(Some(a + " " + t + " " + rest)) == Some(t)
    ensures HeaderToken(Some(a)) == None
    ensures HeaderToken(Some(a + "  " + rest)) == None
  {
    assert a + " " + t == a + [' '] + t;
    SplitAfter(a, ' ', t);
    SplitNone(t, ' ');
    assert a + " " + t + " " + rest == a + [' '] + (t + [' '] + rest);
    SplitAfter(a, ' ', t + [' '] + rest);
    SplitAfter(t, ' ', rest);
    SplitNone(a, ' ');
    assert a + "  " + rest == a + [' '] + ([] + [' '] + rest);
    SplitAfter(a, ' ', [] + [' '] + rest);
    SplitAfter([], ' ', rest);
  }

  datatype AuthOutcome = Unauthorized(status: int, message: string)
                       | Forbidden(status: int, message: string)
                       | Authorized(token: string)

  function Authenticate(header: Option<string>, isValid: string -> bool): (r: AuthOutcome)
    ensures r.Unauthorized? <==> HeaderToken(header).None?
    ensures r.Unauthorized? ==> r.status == 401 && r.message == "Se requiere autenticación"
    ensures r.Forbidden? <==> HeaderToken(header).Some? && !isValid(HeaderToken(header).value)
    ensures r.Forbidden? ==> r.status == 403 && r.message == "Token inválido o expirado"
    ensures r.Authorized? ==> HeaderToken(header) == Some(r.token) && isValid(r.token)
  {
    match HeaderToken(header)
    case None => Unauthorized(401, "Se requiere autenticación")
    case Some(token) =>
      if isValid(token) then Authorized(token) else Forbidden(403, "Token inválido o expirado")
  }

  /** The header the admin client sends, `Bearer ${token}`. */
  function BearerHeader(token: string): string {
    "Bearer " + token
  }

  /** The server reads back exactly the token the client put in a bearer
      header if and only if that token is non-empty and has no space (a JWT
      never has one). */
  lemma BearerRoundTrip(token: string)
    ensures HeaderToken(Some(BearerHeader(token))) == Some(token) <==> (token != "" && ' ' !in token)
  {
    if token != "" && ' ' !in token {
      assert BearerHeader(token) == "Bearer" + [' '] + token;
      SplitAfter("Bearer", ' ', token);
      SplitNone(token, ' ');
    }
  }
}
