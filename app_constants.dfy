/** AppConstants: the header and scheme of bearer authentication and the length limits
    of the user fields. */
module AppConstants {
  const TOKEN_PREFIX := "Bearer "
  const HEADER_STRING := "Authorization"

  const MAX_NICKNAME_LENGTH: nat := 20
  const MAX_FIRSTNAME_LENGTH: nat := 20
  const MAX_LASTNAME_LENGTH: nat := 20
  const MAX_EMAIL_LENGTH: nat := 50
  const MAX_PASSWORD_LENGTH: nat := 120

  const MAX_MESSAGE_LENGTH: nat := 500
}
