/** The server's guard on protected routes: the bearer token is read from
    the `Authorization` header and checked; a request goes on to its handler
    only with a token that passes the check. Signature verification is a
    parameter (`verify`), since it lives in the JWT library. */
module TokenCheck {
  import opened Wrappers
  import opened Strings

  datatype Outcome = Next | Unauthorized(message: string)

  const MissingMessage: string := "Yetkilendirme gerekli"
  const InvalidMessage: string := "Geçersiz token"

  /** `authorization?.split(' ')[1]`, with a missing field or an empty one
      (both falsy) read as no token. */
  function HeaderToken(header: Option<string>): (r: Option<string>)
    ensures r.Some? ==> r.value != "" && ' ' !in r.value
  {
    if header.None? then None
    else
      var fields := Split(header.value, ' ');
      if |fields| >= 2 && fields[1] != "" then Some(fields[1]) else None
  }

  /** `tokenDogrula`. */
  function TokenDogrula(header: Option<string>, verify: string -> bool): Outcome {
    match HeaderToken(header)
    case None => Unauthorized(MissingMessage)
    case Some(token) => if verify(token) then Next else Unauthorized(InvalidMessage)
  }

  /** The handler runs exactly when a token is present and verifies; a
      missing token and a rejected one are told apart by the message. */
  lemma TokenDogrulaSpec(header: Option<string>, verify: string -> bool)
    ensures TokenDogrula(header, verify) == Next <==> HeaderToken(header).Some? && verify(HeaderToken(header).value)
    ensures TokenDogrula(header, verify) == Unauthorized(MissingMessage) <==> HeaderToken(header).None?
  {
  }

  /** The header a client builds, `Bearer <token>`, gives the token back for
      any non-empty token without spaces. */
  lemma BearerToken(token: string)
    requires token != "" && ' ' !in token
    ensures HeaderToken(Some("Bearer " + token)) == Some(token)
  {
    SplitCons("Bearer", ' ', token);
    assert "Bearer " + token == "Bearer" + [' '] + token;
  }

  /** A header without a space, such as a bare token, carries no token. */
  lemma NoSpaceNoToken(header: string)
    requires ' ' !in header
    ensures HeaderToken(Some(header)).None?
  {
  }
}
