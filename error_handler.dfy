/** The server's last-resort error handler: the error's name picks the
    status, and the message is passed on except for unexpected errors
    outside development. Writing the error to the server's logger is not
    part of this model. */
module ErrorHandling {
  import opened Wrappers

  datatype ErrorResponse = ErrorResponse(status: int, message: string, details: string)

  function HandleError(name: string, message: string, nodeEnv: Option<string>): ErrorResponse {
    if name == "ValidationError" then ErrorResponse(400, "Geçersiz veri formatı", message)
    else if name == "UnauthorizedError" then ErrorResponse(401, "Yetkisiz erişim", message)
    else ErrorResponse(500, "Sunucu hatası", if nodeEnv == Some("development") then message else "Bir hata oluştu")
  }

  /** Each status belongs to exactly one kind of error; the error's own
      message reaches the client for the two named kinds always, and for
      any other error only in development. */
  lemma HandleErrorSpec(name: string, message: string, nodeEnv: Option<string>)
    ensures HandleError(name, message, nodeEnv).status == 400 <==> name == "ValidationError"
    ensures HandleError(name, message, nodeEnv).status == 401 <==> name == "UnauthorizedError"
    ensures HandleError(name, message, nodeEnv).status == 500 <==> name != "ValidationError" && name != "UnauthorizedError"
    ensures HandleError(name, message, nodeEnv).details == message <==>
      name == "ValidationError" || name == "UnauthorizedError" || nodeEnv == Some("development") || message == "Bir hata oluştu"
  {
  }

  /** Outside development an unexpected error's message never reaches the
      client. */
  lemma ProductionHidesMessage(name: string, message: string, nodeEnv: Option<string>)
    requires name != "ValidationError" && name != "UnauthorizedError"
    requires nodeEnv != Some("development")
    ensures HandleError(name, message, nodeEnv).details == "Bir hata oluştu"
  {
  }
}
