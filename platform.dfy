/**
 * Everything the core calls but does not define: the JSON text parser,
 * BCrypt, the e-mail validator, User.isActive / User.toJSON, date
 * formatting, the response-code messages of the message center, the clock
 * and the session timeout. Each is a field of `Env`, fixed for one request.
 */
module Platform {
  import opened Wrappers
  import opened Strings
  import opened Json

  datatype Env = Env(
    parse: string -> Option<Value>,             // JSONParser.parse; None for a ParseException
    isValidEmail: string -> bool,               // User.isValidEmail
    hashPassword: string -> string,             // BCrypt.hashpw(plain, gensalt(SALT_ROUNDS))
    checkPassword: (string, string) -> bool,    // BCrypt.checkpw(plain, hashed)
    isHash: string -> bool,                     // the text is a BCrypt hash; checkpw throws on any other
    jsonToPair: Obj -> Option<(string, Value)>, // JSONToPair on a one-entry object
    isActive: Obj -> bool,                      // User.isActive
    userToJSON: Obj -> Obj,                     // User.toJSON
    formatDate: int -> string,                  // SimpleDateFormat of a timestamp
    codeMessage: string -> string,              // MessageObjectResponseCodes.getMessage
    nowMillis: nat,                             // System.currentTimeMillis()
    sessionTimeout: int                         // MessageCenter.SESSION_TIMEOUT
  )

  /** `(System.currentTimeMillis() / 1000).toInt()`: seconds, truncated to 32 bits. */
  function Now(env: Env): (r: int)
    ensures IsInt32(r)
    ensures env.nowMillis / 1000 <= INT_MAX ==> r == env.nowMillis / 1000
  {
    WrapInt32(env.nowMillis / 1000)
  }
}
