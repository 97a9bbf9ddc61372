/** The login endpoint: it requires both fields, accepts the single built-in
    test account, and answers with a token signed over that account's claims.
    Signing is a parameter, since it lives in the JWT library. */
module Login {
  import opened Wrappers
  import TokenCheck

  datatype Claims = Claims(id: int, kullaniciAdi: string, expiresIn: string)

  const TestClaims: Claims := Claims(1, "test", "24h")

  datatype Response =
    | BadRequest(message: string)
    | Issued(token: string)
    | Unauthorized(message: string)

  /** A field is present when it is given and not empty (JavaScript
      truthiness for strings). */
  predicate Present(field: Option<string>) {
    field.Some? && field.value != ""
  }

  function LoginResponse(kullaniciAdi: Option<string>, sifre: Option<string>, sign: Claims -> string): Response {
    if !Present(kullaniciAdi) || !Present(sifre) then BadRequest("Kullanıcı adı ve şifre gerekli")
    else if kullaniciAdi.value == "test" && sifre.value == "test" then Issued(sign(TestClaims))
    else Unauthorized("Hatalı kullanıcı adı veya şifre")
  }

  /** Missing fields give 400, exactly `test`/`test` gives a token signed over
      the test claims, and every other pair gives 401. */
  lemma LoginSpec(kullaniciAdi: Option<string>, sifre: Option<string>, sign: Claims -> string)
    ensures LoginResponse(kullaniciAdi, sifre, sign).BadRequest? <==> !Present(kullaniciAdi) || !Present(sifre)
    ensures LoginResponse(kullaniciAdi, sifre, sign).Issued? <==> kullaniciAdi == Some("test") && sifre == Some("test")
    ensures LoginResponse(kullaniciAdi, sifre, sign).Issued? ==> LoginResponse(kullaniciAdi, sifre, sign).token == sign(TestClaims)
    ensures LoginResponse(kullaniciAdi, sifre, sign).Unauthorized? <==>
      Present(kullaniciAdi) && Present(sifre) && !(kullaniciAdi.value == "test" && sifre.value == "test")
  {
  }

  /** A token from a successful login, sent back as `Bearer <token>`, passes
      the route guard whenever the verifier accepts what the signer signs and
      the signer's tokens contain no spaces (as a JWT's do not). */
  lemma LoginThenAccess(sign: Claims -> string, verify: string -> bool)
    requires verify(sign(TestClaims))
    requires sign(TestClaims) != "" && ' ' !in sign(TestClaims)
    ensures var r := LoginResponse(Some("test"), Some("test"), sign);
      r.Issued? && TokenCheck.TokenDogrula(Some("Bearer " + r.token), verify) == TokenCheck.Next
  {
    TokenCheck.BearerToken(sign(TestClaims));
  }
}
