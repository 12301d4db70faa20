# One-to-one chat relay: a Dafny model

This project models the routing and identity core of a Spring Boot one-to-one chat
application and proves properties of that model. It covers these parts:

- **Conversation identity (`ChatRoomService`).** A conversation between two users is a pair of
  directed rows in the room store. The rows are sender→recipient and recipient→sender, and
  both carry one `chatId`. The model keeps the store as a `seq<ChatRoom>` field of a class.
  Its invariant `ValidRooms` says four things:
  - each row has its mirror row;
  - all rows of one ordered pair agree on the id;
  - each id is built from its two parties, in one order or the other;
  - an ordered pair has a second row only in a self-chat.

  How the id is built is a configuration value of the service (`IdFormat`).
  `SourceFormat` is the code as written, `sender + "_" + recipient`. `EscapedFormat`
  is the corrected id of the Findings section, which escapes the sender's '\\' and '_'.
  Everything proved without naming a format holds for both.
- **Message relay (`ChatMessageService`, `ChatController`).**
  - Saving a message resolves or creates its room, stamps the id on the message and appends
    it to the message store.
  - The history of a pair is every stored message with the pair's id. It is empty when the
    pair has no room.
  - The controller pushes a `ChatNotification` to the recipient's `/queue/messages`. The model
    has the messaging template record each delivery in an outbox sequence.
- **Presence (`UserService`).** The user store is a map keyed by nickname, and a save into it
  is an upsert.
  - `disconnect` reads the stored record and then sets its status to OFFLINE.
  - `findConnectedUsers` returns the stored users whose status is ONLINE.
- **Tokens (`JwtTokenUtil`).** A token is abstract: its claims plus the key that signed it.
  - A function-valued codec turns a token into its compact string and back. The lemmas
    require that it round-trips.
  - A token's expiration is issuance + `expirationMs`, which the library stores rounded
    down to a whole second. The parser refuses the token, with `ExpiredJwtException`, only
    when that stored expiration is strictly before the clock reading it takes.
  - Every parse reads the clock, and `isTokenExpired` reads it once more in `new Date()`.
    So one `validateToken` call takes three readings, and the model keeps them apart.
- **Authentication filter (`JwtAuthenticationFilter`).** The filter takes the token that
  follows `"Bearer "` in the header. It sets an authentication only when none exists and the
  token validates for the user it names. The security context is a class with a mutable field.
- **Request validation (`SignupRequestDTO`, `LoginRequestDTO`).** These use the Bean
  Validation constraints as Hibernate Validator defines them:
  - `@NotBlank` means that `String.trim()`, which strips every character at or below U+0020,
    leaves something.
  - `@Size(max)` counts UTF-16 code units, and a null value passes it.
  - `@Email` accepts null and the empty string. Any other value must satisfy the address-syntax
    predicate, which is a parameter of the model.
  - The limits come from `AppConstants`.
- **Error mapping (`GlobalExceptionHandler`).** A total function from an exception to a status
  and a body.

The model takes several things from outside as inputs:

- The clock is an integer parameter, in milliseconds. Each reading the code takes is a
  separate parameter: three in `validateToken` (`JwtTokens.ValidationReads`) and four in one
  filter pass (`JwtFilter.FilterReads`). The model does not assume the readings increase.
- The password encoder, the user loader of Spring Security and the e-mail syntax are
  function-valued parameters.
- The JWT string codec is a parameter, with a lawfulness predicate.

The model does not show how any of these work inside.

Some behaviours of the code are worth stating outright:

- **Failed validation.** There is no handler for `MethodArgumentNotValidException`.
  The handler for `Exception` answers a failed `@Valid` check with 500
  (`Exceptions.HandleException`).
- **Duplicate registrations.** `UserAlreadyExistsException` is declared but never raised.
  Signup ends in `userRepository.save`, an upsert, so a second signup with the same
  nickname replaces the stored user. If the exception were raised, it too would get 500
  (`Exceptions.UserAlreadyExistsIsServerError`).
- **Invalid tokens.** The filter passes every exception from the token utility to the
  `HandlerExceptionResolver`. Nothing in the core produces a 401.
- **The expiration instant.** The parser refuses a token only when its stored expiration
  is strictly before the parse's clock reading. The stored expiration is issuance +
  `expirationMs` rounded down to a whole second. So a parse at exactly issuance +
  `expirationMs` accepts the token only when that instant falls on a whole second
  (`JwtTokens.NominalExpirationInstant`).
- **The millisecond after expiration.** Suppose both parses read exactly the stored
  expiration and `new Date()` reads a later millisecond. Then `isTokenExpired` answers true,
  and `validateToken` answers false, with no exception, for the token's own user
  (`JwtTokens.ExpiredAnswerWindow`, `JwtTokens.LateComparisonRefusesOwner`). The
  filter then continues the chain without authenticating anyone
  (`JwtFilter.GeneratedBearerAuthenticates`).
- **Swallowed errors.** `processMessage` catches `ChatRoomNotFoundException`, writes it
  to standard error and sends nothing. The model shows that `save` never raises it.

## Model

| member | source | states |
|---|---|---|
| ChatRooms.FindChatId | src/main/java/com/danielkhen/websocket/chatroom/ChatRoomService.java:31-32 | A found id is the chatId of a row for exactly that ordered pair, and nothing found means no row joins the pair. |
| ChatRooms.ChatRoomService.GetChatRoomId | src/main/java/com/danielkhen/websocket/chatroom/ChatRoomService.java:26-40 | An existing row's id is returned with the store unchanged. With no row and no creation the result is empty and the store unchanged. With no row and creation, the id built in the service's format is returned and exactly its two rows are appended. The invariant is kept. A returned id is then found in both directions. |
| ChatRooms.ChatRoomService.CreateChatId | src/main/java/com/danielkhen/websocket/chatroom/ChatRoomService.java:49-68 | The id is built from (sender, recipient) in the service's format: exactly `sender + "_" + recipient` for the source format. Only the rows (id, sender, recipient) and (id, recipient, sender) are appended, in that order. Both directions then find the id, and the store invariant is kept. |
| ChatRooms.SourceChatIdCollides | src/main/java/com/danielkhen/websocket/chatroom/ChatRoomService.java:50 | The source's `sender_recipient` id is the same for ("a_b", "c") and ("a", "b_c"). |
| ChatRooms.SplitChatIdInverts | src/main/java/com/danielkhen/websocket/chatroom/ChatRoomService.java:50 | The corrected id can be decoded back into its sender and recipient. |
| ChatRooms.ChatIdInjective | src/main/java/com/danielkhen/websocket/chatroom/ChatRoomService.java:50 | Different ordered pairs get different corrected ids. |
| ChatRooms.ChatIdMatchesSourceFormat | src/main/java/com/danielkhen/websocket/chatroom/ChatRoomService.java:50 | If the sender contains neither '_' nor '\\', the corrected id is exactly `sender + "_" + recipient`. |
| ChatRooms.FindChatIdOfRow | src/main/java/com/danielkhen/websocket/chatroom/ChatRoomService.java:31-32 | Under the invariant, looking up any stored row's pair returns that row's id. |
| ChatRooms.LookupSymmetric | src/main/java/com/danielkhen/websocket/chatroom/ChatRoomService.java:58-62 | Looking up (a, b) and (b, a) gives the same answer, found or not. |
| ChatRooms.FindChatIdAppend | src/main/java/com/danielkhen/websocket/chatroom/ChatRoomService.java:64-65 | Appended rows never change a lookup that already succeeds. A lookup that fails continues into the appended rows. |
| ChatRooms.CreationPreservesValidity | src/main/java/com/danielkhen/websocket/chatroom/ChatRoomService.java:52-65 | Adding the two rows for a pair that has none keeps every row mirrored, each pair consistent, ids derived and conversations distinct. |
| ChatRooms.FirstContactFixesId | src/main/java/com/danielkhen/websocket/chatroom/ChatRoomService.java:58-62 | After the first contact from a to b, both (a, b) and (b, a) resolve to the id built from (a, b), not (b, a). |
| ChatRooms.WithRoomResolves | src/main/java/com/danielkhen/websocket/chatroom/ChatRoomService.java:26-40 | Resolving with creation keeps the invariant. Afterwards both directions find the id it returned. |
| ChatRooms.WithRoomIdempotent | src/main/java/com/danielkhen/websocket/chatroom/ChatRoomService.java:31-39 | A second resolve with creation, in either direction, returns the same id and adds no rows. |
| ChatRooms.WithRoomKeepsExistingRooms | src/main/java/com/danielkhen/websocket/chatroom/ChatRoomService.java:52-65 | Resolving one pair leaves the answer unchanged for every pair that already had a room. |
| ChatRooms.RowsOfOneConversation | src/main/java/com/danielkhen/websocket/chatroom/ChatRoomService.java:50-62 | With the corrected id, two rows with the same id are the same row or mirror rows. |
| ChatMessages.FindByChatId | src/main/java/com/danielkhen/websocket/chat/ChatMessageService.java:49 | A message is in the result exactly when it is stored with that chatId, and it appears there as many times as it is stored. The result is no longer than the store. |
| ChatMessages.ChatMessageService.Save | src/main/java/com/danielkhen/websocket/chat/ChatMessageService.java:30-38 | Save always succeeds, so `ChatRoomNotFoundException` is never raised. The saved message is the payload with only its chatId replaced by the resolved id, and it is appended. The room store becomes the resolved store, and every stored message stays filed under its pair's id. |
| ChatMessages.ChatMessageService.FindChatMessages | src/main/java/com/danielkhen/websocket/chat/ChatMessageService.java:47-50 | No room is created, and the result is empty when the pair has no room. Every stored message exchanged between the two users, in either direction, is in the result, and the result holds only stored messages. With the corrected id the result is exactly those messages. With the source's id it can hold others (`ChatMessages.SourceHistoryLeaks`). |
| ChatMessages.SaveKeepsFiled | src/main/java/com/danielkhen/websocket/chat/ChatMessageService.java:30-37 | Resolving and appending keeps every stored message under the id of its own sender→recipient room. |
| ChatMessages.HistorySymmetric | src/main/java/com/danielkhen/websocket/chat/ChatMessageService.java:47-50 | The history of (a, b) equals the history of (b, a). |
| ChatMessages.HistoryComplete | src/main/java/com/danielkhen/websocket/chat/ChatMessageService.java:47-50 | Every stored message between a and b, in either direction, is in their history, in either id format. |
| ChatMessages.HistorySound | src/main/java/com/danielkhen/websocket/chat/ChatMessageService.java:47-50 | With the corrected id, every message in the history of a and b was exchanged between a and b. |
| ChatMessages.BothDirectionsShareChatId | src/main/java/com/danielkhen/websocket/chat/ChatMessageService.java:31-36 | A message saved from a to b and one saved from b to a get the same chatId, whichever is saved first. |
| ChatMessages.SourceHistoryLeaks | src/main/java/com/danielkhen/websocket/chat/ChatMessageService.java:30-50 | Starting from an empty store with the source's id, "a_b" writes to "c" and then "a" writes to "b_c". The room invariant holds and every message is filed, yet the history of ("a", "b_c") holds the message from "a_b" to "c". |
| ChatControl.HistoryResponse | src/main/java/com/danielkhen/websocket/chat/ChatController.java:65-72 | A successful read gives status 200 with the list as body. A read that throws gives 500 with no body. |
| ChatControl.MessagingTemplate.ConvertAndSendToUser | src/main/java/com/danielkhen/websocket/chat/ChatController.java:37-46 | A send records exactly one delivery (user, destination, payload) and nothing else. |
| ChatControl.ChatController.ProcessMessage | src/main/java/com/danielkhen/websocket/chat/ChatController.java:34-51 | The message is saved, and exactly one notification is sent to the payload's recipientId on `/queue/messages`. The notification has the saved message's id, senderId, recipientId and content. The room and message stores change only as `save` changes them. |
| ChatControl.ChatController.FindChatMessages | src/main/java/com/danielkhen/websocket/chat/ChatController.java:61-73 | The response is status 200 with the pair's history, and no room is created. |
| Users.ConnectedUsers | src/main/java/com/danielkhen/websocket/user/UserService.java:59-61 | A user is in the result exactly when it is a stored record with status ONLINE. |
| Users.DisconnectedLeavesConnectedUsers | src/main/java/com/danielkhen/websocket/user/UserService.java:47-52 | After a disconnect the store stays keyed by nickname. The connected users are the previous ones minus the disconnected user's stored record. |
| Users.UserService.SaveUser | src/main/java/com/danielkhen/websocket/user/UserService.java:25-28 | The record is stored under its nickname with its password encoded. It replaces any earlier record with that nickname, and no other record changes. |
| Users.UserService.UpdateUser | src/main/java/com/danielkhen/websocket/user/UserService.java:35-39 | The record is stored with its password encoded and status ONLINE, and no other record changes. Afterwards it is among the connected users. |
| Users.UserService.Disconnect | src/main/java/com/danielkhen/websocket/user/UserService.java:47-52 | An unknown nickname yields `UserNotFoundException("User not found: " + nickname)` and changes nothing. A known nickname has its stored record, not the payload, set OFFLINE. Either way nobody with that nickname is connected afterwards. |
| Users.UserService.FindConnectedUsers | src/main/java/com/danielkhen/websocket/user/UserService.java:59-61 | It returns the ONLINE users of the store and changes nothing. |
| JwtTokens.WholeSeconds | src/main/java/com/danielkhen/websocket/security/JwtTokenUtil.java:58-59 | A claim date keeps only whole seconds: the result is a multiple of 1000 within one second of the input, toward zero. |
| JwtTokens.JwtTokenUtil.ExtractAllClaims | src/main/java/com/danielkhen/websocket/security/JwtTokenUtil.java:124-130 | Claims come back exactly when the string parses, was signed with this component's key and its expiration is not before now. An unparsable string is a malformed-token error, and one signed with another key is a signature error. A correctly signed token past its expiration is exactly the expired-token error. |
| JwtTokens.JwtTokenUtil.IsTokenExpired | src/main/java/com/danielkhen/websocket/security/JwtTokenUtil.java:138-140 | It answers exactly when the parser accepts the token at the parse's clock reading. It then answers true exactly when the expiration is strictly before the separate `new Date()` reading. Otherwise it raises the parser's error. |
| JwtTokens.GeneratedTokenClaims | src/main/java/com/danielkhen/websocket/security/JwtTokenUtil.java:42-62 | Up to its expiration, a generated token reads back with the username as subject, no extra claims, and issuedAt and expiration equal to now and now + expirationMs, each rounded down to a whole second. After that, reading it raises the expired-token error. |
| JwtTokens.ExtractUsernameOfGenerated | src/main/java/com/danielkhen/websocket/security/JwtTokenUtil.java:92-94 | The username extracted from an unexpired generated token is the user's. |
| JwtTokens.OtherKeyRejected | src/main/java/com/danielkhen/websocket/security/JwtTokenUtil.java:124-130 | A token signed under another secret fails extraction and validation with a signature error, at any time. |
| JwtTokens.ValidateTokenIff | src/main/java/com/danielkhen/websocket/security/JwtTokenUtil.java:81-84 | Validation is true exactly when the token is readable under this key and its subject is the user's username. In addition, each of the three clock readings (two parses and `new Date()`) must be at or before its expiration. |
| JwtTokens.NoValidationForOtherUser | src/main/java/com/danielkhen/websocket/security/JwtTokenUtil.java:81-84 | A token never validates for a user other than its subject, however the clock readings fall. When the subject is present the answer is false, because `&&` skips `isTokenExpired`. |
| JwtTokens.GeneratedTokenValidity | src/main/java/com/danielkhen/websocket/security/JwtTokenUtil.java:54-84 | Let E be t0 + expirationMs rounded down to a whole second, for a token generated at t0. If the first parse reads after E, validation raises the expired-token error. Otherwise another user gets false. For the token's own user, a second parse after E raises the error. Otherwise the answer is true exactly when `new Date()` reads no later than E. |
| JwtTokens.NominalExpirationInstant | src/main/java/com/danielkhen/websocket/security/JwtTokenUtil.java:54-62 | Let both parses read exactly issuance + expirationMs. Then a generated token gets past the parser only when that instant is a whole second; otherwise validation raises the expired-token error. Past the parser, the answer is true exactly when `new Date()` reads no later than that instant. |
| JwtTokens.ExpiredAnswerWindow | src/main/java/com/danielkhen/websocket/security/JwtTokenUtil.java:81-140 | `isTokenExpired` answers true exactly when its parse reads at or before the expiration and `new Date()` reads after it. With one reading for both it never answers true. Validation answers false for the token's own subject only in that window. |
| JwtTokens.LateComparisonRefusesOwner | src/main/java/com/danielkhen/websocket/security/JwtTokenUtil.java:81-140 | Suppose both parses read exactly a generated token's stored expiration and `new Date()` reads one millisecond later. Then validation answers false for the token's own user, with no exception. |
| JwtFilter.BearerToken | src/main/java/com/danielkhen/websocket/security/JwtAuthenticationFilter.java:53-60 | There is a token exactly when the header is present and starts with "Bearer ", and the header is then "Bearer " + token. |
| JwtFilter.BearerTokenOfPrefixed | src/main/java/com/danielkhen/websocket/security/JwtAuthenticationFilter.java:60 | Taking the token out of "Bearer " + jwt gives back jwt. |
| JwtFilter.NoBearerNoChange | src/main/java/com/danielkhen/websocket/security/JwtAuthenticationFilter.java:53-56 | A missing header, or one with another scheme, continues the chain and leaves the context unchanged. |
| JwtFilter.ExistingAuthenticationKept | src/main/java/com/danielkhen/websocket/security/JwtAuthenticationFilter.java:63-66 | An authentication already in the context is never replaced or cleared. |
| JwtFilter.AuthenticationSetIff | src/main/java/com/danielkhen/websocket/security/JwtAuthenticationFilter.java:66-79 | On an unauthenticated request, an authentication is set exactly when the token names a loadable user and validates for that user at the pass's four clock readings. It is then that user, with null credentials and that user's authorities. |
| JwtFilter.FailureKeepsContext | src/main/java/com/danielkhen/websocket/security/JwtAuthenticationFilter.java:83-86 | A request that ends in the exception resolver sets no authentication. |
| JwtFilter.GeneratedBearerAuthenticates | src/main/java/com/danielkhen/websocket/security/JwtAuthenticationFilter.java:58-86 | Take a freshly generated bearer token for a known user, with stored whole-second expiration E. If all three parses of the pass read at or before E, the chain continues. The user is then authenticated exactly when `new Date()` also reads no later than E; otherwise nobody is. If some parse reads after E, the request goes to the resolver with the expired-token error, and nobody is authenticated. |
| JwtFilter.ForeignBearerRejected | src/main/java/com/danielkhen/websocket/security/JwtAuthenticationFilter.java:58-86 | A token signed under another secret goes to the resolver with a signature error, and the context is left as it was. |
| JwtFilter.JwtAuthenticationFilter.DoFilterInternal | src/main/java/com/danielkhen/websocket/security/JwtAuthenticationFilter.java:45-87 | The method's outcome and new context equal one pass of the filter. It never overwrites an existing authentication. A failing pass changes nothing. Any new authentication belongs to a user the token authenticates. |
| Constraints.TrimStart | src/main/java/com/danielkhen/websocket/dto/SignupRequestDTO.java:20 | The result is a suffix of the input. Everything removed is at or below U+0020, and the result does not start with such a character. |
| Constraints.TrimEnd | src/main/java/com/danielkhen/websocket/dto/SignupRequestDTO.java:20 | The result is a prefix of the input. Everything removed is at or below U+0020, and the result does not end with such a character. |
| Constraints.NotBlankIff | src/main/java/com/danielkhen/websocket/dto/SignupRequestDTO.java:20 | A present value is non-blank exactly when some character in it is above U+0020. |
| Constraints.WhitespaceOnlyIsBlank | src/main/java/com/danielkhen/websocket/dto/SignupRequestDTO.java:20 | A value made only of characters at or below U+0020 is blank. |
| Constraints.Utf16Length | src/main/java/com/danielkhen/websocket/dto/SignupRequestDTO.java:21 | The UTF-16 length is between the number of characters and twice that. It equals the number of characters when all of them lie in the Basic Multilingual Plane. |
| Constraints.FieldViolations | src/main/java/com/danielkhen/websocket/dto/SignupRequestDTO.java:20-51 | A field has no violation exactly when it satisfies all its annotations. Each violation names the field and one annotation it fails, and each failed annotation is reported. |
| Constraints.Decimal | src/main/java/com/danielkhen/websocket/dto/SignupRequestDTO.java:21 | A limit is written into a message as a non-empty string of decimal digits, with no leading zero, that denotes the limit. |
| Constraints.DecimalOfLimits | src/main/java/com/danielkhen/websocket/util/AppConstants.java:21-25 | The limits 20, 50 and 120 are written "20", "50" and "120". |
| Constraints.SizeMessagesOfLimits | src/main/java/com/danielkhen/websocket/dto/SignupRequestDTO.java:21-50 | The @Size message of a field with limit 20, 50 or 120 is "<name> can be at most <limit> characters long", with the limit written out. |
| SignupRequests.BoundedFieldAccepted | src/main/java/com/danielkhen/websocket/dto/SignupRequestDTO.java:20-22 | A field with @NotBlank and @Size(max) passes exactly when it is present, non-blank and at most max long. |
| SignupRequests.EmailFieldAccepted | src/main/java/com/danielkhen/websocket/dto/SignupRequestDTO.java:41-44 | The email passes exactly when it is present, non-blank, at most 50 long and of address syntax. |
| SignupRequests.SignupAcceptedIff | src/main/java/com/danielkhen/websocket/dto/SignupRequestDTO.java:16-52 | A signup body has no violation exactly when all five field conditions hold, with limits 20, 20, 20, 50 and 120. |
| SignupRequests.WhitespaceOnlyRejected | src/main/java/com/danielkhen/websocket/dto/SignupRequestDTO.java:20-51 | A whitespace-only value in any of the five fields is reported with that field's "is required" message. |
| LoginRequests.LoginAcceptedIff | src/main/java/com/danielkhen/websocket/dto/LoginRequestDTO.java:15-29 | A login body has no violation exactly when the nickname and the password are present, non-blank and within 20 and 120. |
| LoginRequests.LoginChecksAreSignupChecks | src/main/java/com/danielkhen/websocket/dto/LoginRequestDTO.java:19-28 | The login violations of a nickname and password are exactly the signup violations of those two fields. The credentials of an accepted signup therefore pass the login checks. |
| Exceptions.HandleException | src/main/java/com/danielkhen/websocket/exception/GlobalExceptionHandler.java:21-46 | The two not-found exceptions give 404 with their own message as body. Every other exception gives 500 with "An unexpected error occurred: " + message. No other status is produced. |
| Exceptions.UserAlreadyExistsIsServerError | src/main/java/com/danielkhen/websocket/exception/GlobalExceptionHandler.java:43-46 | A `UserAlreadyExistsException` would get the general 500 response; no code raises one. |
| Exceptions.ServerErrorBodyDeterminesMessage | src/main/java/com/danielkhen/websocket/exception/GlobalExceptionHandler.java:43-46 | Two 500 responses are equal only when the message texts are equal. A null message has the text "null". |

## Left out

- The id format (`ChatRooms.IdFormat`) is a constant of the service rather than a fixed part of `createChatId`, so that the code as written (`SourceFormat`) and the corrected id (`EscapedFormat`) share one model. The two differ only when the sender's nickname contains '_' or '\\' (`ChatRooms.ChatIdMatchesSourceFormat`).
- Duplicate rows for one ordered pair: the only way a pair gets two rows is a self-chat (a user writing to themself), which creates two identical rows. There Spring Data's single-result query `findBySenderIdAndRecipientId` would raise `IncorrectResultSizeDataAccessException`. The model returns the id the rows share, because derived-query semantics are not part of it.
- The race between two concurrent first contacts: the model is sequential.
- Store-generated document ids (`@Id` of ChatRoom and ChatMessage): they are not modelled. A message keeps the id of its payload.
- A message payload whose id already names a stored message: MongoDB would replace that message, but the model appends.
- ChatMessage timestamps and history order: there is no ordering property, because the code does not sort.
- ChatMessage's field constraints are not modelled, because no `@Valid` check runs on the websocket path.
- Storage failures: the 500 branch of the controller's `findChatMessages` appears only in `ChatControl.HistoryResponse`. No modelled store operation can fail.
- Writing errors to standard error in `processMessage`, and the controller's logging.
- JwtTokens.JwtTokenUtil.ExtractAllClaims: the library's allowed clock skew is zero here and is not modelled as a setting, and the signature check is not modelled as a cryptographic operation.
- JwtTokens.JwtTokenUtil.CreateToken: the two reads of the clock, for `iat` and for `exp`, are one value `now`.
- Clock monotonicity: the readings of one call are free parameters. No lemma requires them to increase, so the lemmas also cover a wall clock that steps back.
- JwtTokens.JwtTokenUtil.SigningKey: `Keys.hmacShaKeyFor` rejects a secret shorter than 256 bits, and the HMAC itself is not modelled. A key is identified by its secret.
- Long overflow of `now + expirationMs`: integers are unbounded in the model.
- `extractClaim`'s generic resolver parameter: only its two uses, subject and expiration, are modelled.
- JwtFilter.JwtAuthenticationFilter.DoFilterInternal: the request details (`WebAuthenticationDetailsSource`) that the filter attaches are left out. So is the rest of the filter chain, which can itself throw into the resolver.
- The `isTokenValid` call in the filter is modelled as `validateToken`, the method `JwtTokenUtil` defines.
- UserDetailsServiceImpl, AuthService, AuthController and UserController: these thin layers are not part of this model. The user loader is a function parameter, where None stands for `UsernameNotFoundException`.
- UserNotFoundException.java is not part of this model. Its message is taken from the call site in `UserService`.
- Null fields of `User` (status, password), and BCrypt itself: the encoder is an uninterpreted function.
- The address syntax of `@Email`: it is a predicate parameter.
- The text of Spring's `MethodArgumentNotValidException` message.
- Spring configuration (security chain, CORS, STOMP broker): these files contain wiring only.

## Findings

| source | as written | input that shows it | evidently intended | confidence | as-written member | corrected member |
|---|---|---|---|---|---|---|
| src/main/java/com/danielkhen/websocket/chatroom/ChatRoomService.java:50 | `chatId = sender + "_" + recipient`, and history is looked up by chatId alone | from an empty store, sender "a_b" writes to "c", then "a" writes to "b_c", then "a" reads its history with "b_c". Both pairs get the id "a_b_c", so the history holds the message from "a_b" to "c", which neither "a" nor "b_c" sent | An id that determines the ordered pair, so that a history holds only the two users' messages | high, not executed | ChatMessages.SourceHistoryLeaks | ChatMessages.HistorySound |
