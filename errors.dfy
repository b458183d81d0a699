/** The failures the client reports instead of a result. */
module Errors {
  import opened ByteStrings

  datatype Error =
    | ConfigurationError(option: Bytes)  // a required option is missing or empty
    | AuthExchangeFailed(status: int)     // the token endpoint answered with a non-2xx status
    | TokenParseError                     // the token endpoint's body is unreadable or has no access_token
    | MissingRefreshToken                 // a refresh was asked for without a stored refresh_token
}
