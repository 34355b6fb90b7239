# chatapp core in Dafny

A model of the messaging core of a one-to-one chat application, with proofs.

- **The socket server** (`server/index.js`). It keeps a registry of online users (user id to socket id) and puts every socket in a room named after its user. It stores messages and moves each one through the lifecycle sent, delivered, read. It emits presence, message, status and typing events to everyone or to a user's room.
- **The two read-side REST routes.**
  - The user list annotates every other user with `isOnline`.
  - The conversation history is the two-way message filter, sorted by creation time.
- **The client's form validation** on the register and login screens: the e-mail pattern, the per-field rules with their priority, the `errors` state and the guards before the network calls.
- **The client's two session stores**: user and auth.

The server is modelled twice:
- `ServerSpec` describes it as a transition system over a `State` value: one step function per socket handler, plus `Run` over a sequence of inbound events.
- `ChatServer.Server` is a class whose fields the handler methods update in place, as the JavaScript does. Each method is proved to leave exactly the state its step function describes and to keep the invariant `ServerSpec.Valid`.

The invariant `ServerSpec.Valid` has three parts:
- message ids are store positions;
- registered sockets are in their user's room;
- every emission so far was addressed correctly.

The outbox is the append-only sequence of everything emitted. An emission to a room stands for delivery to every socket in that room.

Each persistence call is an input flag on its handler. The flag is `createFails` or `updateFails` for `message:send`, and `storeFails` for `message:read`. A throwing store call sends the handler to its `catch`, which only logs, so the flag decides how far the handler got.

The routes are functions of the collection, or of the error the query throws.

The screens are classes holding `formData` and `errors`. The rules themselves are functions, and the validation methods build `newErrors` one field at a time, as the source does.

The stores are classes over their fields. The HTTP response of login and register is an input `HttpResult`: either the response body, or a failure carrying the server's optional message.

Behaviours of the code that are easy to misread, all modelled as written:
- `message:send` stores and echoes an empty text. `ServerSpec.SendAcceptsEmptyText` states this.
- A message to an offline receiver stays at status sent.
- The sender's echo carries status sent, even when the receiver is online.
- `disconnect` removes the registry entry and broadcasts `user:offline` unconditionally. It does so even for a user who was not registered, and even when a newer socket of the same user holds the entry. That newer socket stays in the user's room.
- `message:read` reports no error for an unknown id. It does not check who is asking. Repeating it re-saves the message and re-broadcasts it.

## Model

| member | source | states |
|---|---|---|
| ServerSpec.Connect | server/index.js:44-51 | The "connection" handler as a step function. Its meaning is stated by ConnectMarksOnline and SupersededSocketStillInRoom, and StepPreservesValid covers it. |
| ServerSpec.Send | server/index.js:56-78 | The "message:send" handler as a step function. Its meaning is stated by SendCreatesOneMessage, SendAcceptsEmptyText, SendToOfflineReceiver, SendToOnlineReceiver and PushReachesRegisteredSocket. |
| ServerSpec.RelayTyping | server/index.js:83-93 | The two typing handlers as one step function. Its meaning is stated by TypingRelayedIffOnline and TypingReachesRegisteredSocket. |
| ServerSpec.MarkRead | server/index.js:98-112 | The "message:read" handler as a step function. Its meaning is stated by ReadUnknownIsNoOp, ReadMarksAndNotifiesBoth, ReadIsIdempotent and ReadIgnoresRequester. |
| ServerSpec.Disconnect | server/index.js:117-121 | The "disconnect" handler as a step function. Its meaning is stated by DisconnectMarksOffline and StaleDisconnectReportsOffline. |
| ServerSpec.ConnectMarksOnline | server/index.js:44-51 | The user's registry entry becomes this socket's id, replacing any earlier one. The socket is in room U. Exactly `user:online {U}` is appended, addressed to everyone. Every other user's entry and room are unchanged. |
| ServerSpec.DisconnectMarksOffline | server/index.js:117-121 | The user leaves the registry and the socket leaves the room. `user:offline {U}` is appended to everyone, whether or not U was registered. Other users are unchanged. |
| ServerSpec.SupersededSocketStillInRoom | server/index.js:47-51 | A second connection of the same user takes over the registry entry. Both sockets are in the user's room. |
| ServerSpec.StaleDisconnectReportsOffline | server/index.js:117-121 | When the superseded socket disconnects, the user is unregistered and announced offline. The newer socket is still in the room, and typing signals to the user are dropped from then on. |
| ServerSpec.SendCreatesOneMessage | server/index.js:56-77 | A failed create changes nothing. Otherwise exactly one message is appended with the next id, from the socket's user, carrying the given receiver, text and time. Earlier messages and emissions are kept. The first new emission is `message:new` to the sender's room at status sent. Registry and rooms are unchanged. |
| ServerSpec.SendAcceptsEmptyText | server/index.js:56-63 | An empty text is stored like any other: one new entry from the socket's user whose text is empty. |
| ServerSpec.SendToOfflineReceiver | server/index.js:65-74 | With the receiver unregistered, only the echo is emitted. Nothing goes to the receiver's room and no status notice follows. The stored status stays sent. |
| ServerSpec.SendToOnlineReceiver | server/index.js:65-74 | With the receiver registered, the emissions come in order: the echo at status sent to the sender's room, then the same message at delivered to the receiver's room. If the update succeeds, the store holds delivered and `message:status {id, delivered}` goes to the sender's room. If the update throws, the store keeps sent and no notice follows. |
| ServerSpec.TypingRelayedIffOnline | server/index.js:83-93 | `{from}` is appended under the same event name to the receiver's room exactly when the receiver is registered. Otherwise nothing is emitted. No other state changes. |
| ServerSpec.ReadUnknownIsNoOp | server/index.js:98-112 | An id naming no stored message, or a store failure, leaves the whole state unchanged. |
| ServerSpec.ReadMarksAndNotifiesBoth | server/index.js:98-108 | The message becomes read and is otherwise unchanged, as is every other message. The updated message is emitted to the sender's room and then to the receiver's room. |
| ServerSpec.ReadIsIdempotent | server/index.js:98-108 | A second read leaves the store as the first left it and appends the same two emissions again. |
| ServerSpec.ReadIgnoresRequester | server/index.js:98-104 | The outcome does not depend on which socket asks. |
| ServerSpec.StepProgress | server/index.js:56-121 | Under any handler, the store only grows, each stored message only moves forward along sent, delivered, read with its other fields fixed, and the outbox only grows. |
| ServerSpec.RunProgress | server/index.js:56-121 | The same holds over any sequence of handlers. |
| ServerSpec.RunKeepsRead | server/index.js:98-104 | A read message stays read whatever follows. |
| ServerSpec.OnlyReadChangesExistingMessages | server/index.js:56-112 | A handler changes an already stored message only when it is `message:read` for that id, and the change marks it read. Delivered is written only by the send that created the message. |
| ServerSpec.StepPreservesValid | server/index.js:44-121 | Every handler keeps the invariant: ids are positions, registered sockets are in their rooms, and every emission is correctly addressed. |
| ServerSpec.RunPreservesValid | server/index.js:44-121 | The invariant holds after any sequence of handlers. |
| ServerSpec.MessagesReachOnlyTheirParties | server/index.js:41-121 | From start-up on, a message is emitted only to its sender's or receiver's room and agrees with its stored record on all but status. A status notice goes only to the sender's room. Presence goes to everyone. |
| ServerSpec.TypingReachesRegisteredSocket | server/index.js:48-51 | From start-up on, a typing signal relayed to a registered receiver goes to that receiver's room, and the room holds the socket the registry names for the receiver. |
| ServerSpec.PushReachesRegisteredSocket | server/index.js:69-70 | From start-up on, the delivered copy of a message sent to a registered receiver goes to that receiver's room, and the room holds the socket the registry names for the receiver. |
| ChatServer.Server.constructor | server/index.js:41-42 | The server starts with an empty registry, no rooms, no messages and nothing emitted, and satisfies the invariant. |
| ChatServer.Server.Emit | server/index.js:49 | One emission is appended to the outbox. |
| ChatServer.Server.OnConnect | server/index.js:44-51 | The fields become `Connect` of the old state, and the invariant is kept. |
| ChatServer.Server.OnSend | server/index.js:56-78 | The fields become `Send` of the old state under the given store outcomes, and the invariant is kept. |
| ChatServer.Server.OnTypingStart | server/index.js:83-87 | The fields become `RelayTyping` with `typing:start`, and the invariant is kept. |
| ChatServer.Server.OnTypingStop | server/index.js:89-93 | The fields become `RelayTyping` with `typing:stop`, and the invariant is kept. |
| ChatServer.Server.OnRead | server/index.js:98-112 | The fields become `MarkRead` of the old state, and the invariant is kept. |
| ChatServer.Server.OnDisconnect | server/index.js:117-121 | The fields become `Disconnect` of the old state, and the invariant is kept. |
| UserRoutes.Others | server/routes/users.js:11 | Keeps exactly the users whose id differs from the requester's, and never lengthens the list. |
| UserRoutes.OthersKeepsOrder | server/routes/users.js:11 | The filter distributes over concatenation, so it keeps collection order. |
| UserRoutes.WithPresence | server/routes/users.js:12-15 | Same length. Each entry keeps its user's id and fields without the password, and `isOnline` holds iff the id is a registry key. |
| UserRoutes.ListUsers | server/routes/users.js:9-20 | A query error gives status 500 with the error's message, and only an error does. |
| UserRoutes.ListUsersExcludesRequester | server/routes/users.js:11 | The requester never appears in the list. |
| UserRoutes.ListUsersAnnotatesEachOther | server/routes/users.js:11-17 | One entry per other user, in order, with the same id and fields. `isOnline` holds iff the id is a registry key. |
| MessageRoutes.Conversation | server/routes/messages.js:10-14 | Every kept message is between the two parties, in either direction. Every such message is kept as often as it is stored. |
| MessageRoutes.Insert | server/routes/messages.js:15 | Adds one message to the multiset and keeps a creation-sorted list sorted. |
| MessageRoutes.SortByCreation | server/routes/messages.js:15 | Returns a permutation of its input, sorted ascending by creation time. |
| MessageRoutes.History | server/routes/messages.js:8-21 | A query error gives status 500 with the error's message, and only an error does. |
| MessageRoutes.HistoryIsTheSortedConversation | server/routes/messages.js:10-17 | The history is sorted ascending by creation time. It holds only messages between the two parties. Every message between them occurs exactly as often as it is stored, so a message that was never stored does not occur. |
| MessageRoutes.ConversationSymmetric | server/routes/messages.js:11-14 | A's conversation with B equals B's conversation with A. |
| MessageRoutes.HistorySymmetric | server/routes/messages.js:8-21 | A's history with B is B's history with A, the error case included. |
| Validation.IsWhitespace | mobile/app/register.jsx:36 | The `\s` class of the pattern, which is also the set `trim` strips: the ECMAScript white-space and line-terminator code points. Trim, Plain and Blank are built on it. |
| Validation.FirstNonBlank | mobile/app/register.jsx:43 | The position where the text starts: everything before it is whitespace, and the character there is not. |
| Validation.EndNonBlank | mobile/app/register.jsx:43 | The position where the text ends: everything after it is whitespace, and the character before it is not. |
| Validation.Trim | mobile/app/register.jsx:43-45 | The result is empty iff the string is empty or whitespace only. A non-empty result neither starts nor ends with whitespace. |
| Validation.TrimRemovesOnlyMargins | mobile/app/register.jsx:43-45 | The trimmed string is a contiguous slice of the input, and everything cut off on either side is whitespace. |
| Validation.IndexOf | mobile/app/register.jsx:35-38 | The first position of a character, or the length when it is absent. |
| Validation.MatchesEmailRegex | mobile/app/register.jsx:36 | The language of `^[^\s@]+@[^\s@]+\.[^\s@]+$`: a split at an '@' and a later '.' into three non-empty parts free of whitespace and '@'. ValidateEmailMatchesRegex ties it to the executable check. |
| Validation.ValidateEmail | mobile/app/register.jsx:35-38 | The executable `validateEmail`. Its meaning is stated by ValidateEmailMatchesRegex (it accepts exactly the pattern's language) and ValidateEmailShape. |
| Validation.ValidateEmailMatchesRegex | mobile/app/register.jsx:35-38 | The executable check accepts exactly the strings of `^[^\s@]+@[^\s@]+\.[^\s@]+$`, both directions. |
| Validation.ValidateEmailShape | mobile/app/register.jsx:35-38 | The check holds iff the string has no whitespace and exactly one '@', with text before it and, after it, a '.' with text on both sides. |
| Validation.ValidEmailNotBlank | mobile/app/register.jsx:49-53 | An accepted address is never blank, so "required" and "invalid" never both apply. |
| Validation.Text | mobile/app/register.jsx:43-65 | Each rule's message has a non-empty text, so a stored message is truthy. |
| Validation.EmailError | mobile/app/register.jsx:49-53 | The three outcomes are exclusive. "required" iff the value is blank. "invalid" iff it is not blank and the raw value fails the pattern. No error iff the pattern matches. |
| Validation.EmailWithWhitespaceRejected | mobile/app/register.jsx:49-53 | Any whitespace in the address, leading and trailing spaces included, gives an e-mail error. |
| Validation.PasswordError | mobile/app/register.jsx:55-59 | "required" iff the password is empty, "too short" iff its length is 1 to 5, and no error iff it has at least 6 characters. Nothing is trimmed. |
| Validation.CheckField | mobile/app/register.jsx:43-47 | One field's chain: the first failing rule's message is added for that field. With no failing rule the map is unchanged. |
| Validation.Shown | mobile/app/register.jsx:67 | `setErrors(newErrors)` shows the same fields with the same messages. |
| Register.Form.Set | mobile/app/register.jsx:106-107 | The named field takes the value, and every other field keeps its value. |
| Register.NameError | mobile/app/register.jsx:43-47 | "required" iff the name is blank, "too short" iff it has one character once trimmed, and no error iff it has at least two. |
| Register.ConfirmError | mobile/app/register.jsx:61-65 | "please confirm" iff the confirmation is empty, "don't match" iff it is non-empty and differs from the password, and no error iff it equals a non-empty password entry. |
| Register.FormErrors | mobile/app/register.jsx:40-66 | The `newErrors` object the four if/else chains build. Its meaning is stated by FormErrorsPerField and FormValidIff, and the screen's ValidateForm is proved to build exactly it. |
| Register.FormErrorsPerField | mobile/app/register.jsx:40-66 | `newErrors` has an entry for a field iff that field's rule fails, holding that rule's one message. |
| Register.FormValidIff | mobile/app/register.jsx:40-68 | There are no errors iff all four hold: the trimmed name has at least 2 characters, the raw e-mail matches the pattern, the password has at least 6 characters, and the confirmation equals it. |
| Register.RegisterScreen.constructor | mobile/app/register.jsx:23-31 | The screen starts with all fields empty and no errors. |
| Register.RegisterScreen.ValidateForm | mobile/app/register.jsx:40-69 | The shown errors become exactly the errors found, and the result is true iff there are none. |
| Register.RegisterScreen.HandleRegister | mobile/app/register.jsx:71-79 | A register request is produced iff validation passes. It carries the name, e-mail and password as the form holds them. |
| Register.RegisterScreen.UpdateFormData | mobile/app/register.jsx:106-112 | Only the named field changes. Its shown error becomes null if it was truthy. Every other field and error is unchanged. |
| Login.Form.Set | mobile/app/login.jsx:109-110 | The named field takes the value, and the other field keeps its value. |
| Login.FormErrors | mobile/app/login.jsx:36-50 | The `newErrors` object the two if/else chains build. Its meaning is stated by FormErrorsPerField and FormValidIff, and the screen's ValidateForm is proved to build exactly it. |
| Login.FormErrorsPerField | mobile/app/login.jsx:36-50 | Only e-mail and password are checked. Each has an entry iff its rule fails, holding that rule's message. |
| Login.FormValidIff | mobile/app/login.jsx:36-53 | There are no errors iff the raw e-mail matches the pattern and the password has at least 6 characters. |
| Login.ForgotPassword | mobile/app/login.jsx:82-107 | A blank e-mail gives the "Email Required" outcome. Otherwise an address failing the pattern gives "Invalid Email". Otherwise the reset prompt names the address as the form holds it. The three cases are exclusive and exhaustive. |
| Login.ForgotPasswordAgreesWithEmailRule | mobile/app/login.jsx:82-91 | The reset prompt is offered iff the login form's e-mail rule reports no error. The "required" alert appears iff that rule says "required". |
| Login.LoginScreen.constructor | mobile/app/login.jsx:23-28 | The screen starts with empty fields and no errors. |
| Login.LoginScreen.ValidateForm | mobile/app/login.jsx:36-53 | The shown errors become exactly the errors found, and the result is true iff there are none. |
| Login.LoginScreen.HandleLogin | mobile/app/login.jsx:57-61 | The form goes to `login`, unchanged, iff validation passes. |
| Login.LoginScreen.UpdateFormData | mobile/app/login.jsx:109-115 | Only the named field changes. Its shown error becomes null if it was truthy. Everything else is unchanged. |
| Stores.MigrateUserState | mobile/store/useUserStore.js:57-61 | Any persisted user state is taken as it is, whatever its version. |
| Stores.MigrateAuthState | mobile/store/useAuthStore.js:67-70 | Any persisted auth state is taken as it is, whatever its version. |
| Stores.UserStore.constructor | mobile/store/useUserStore.js:27-28 | The store starts with no user and no error. |
| Stores.UserStore.SetUser | mobile/store/useUserStore.js:30-33 | The user becomes the given record and the error becomes null. |
| Stores.UserStore.ClearUser | mobile/store/useUserStore.js:35-38 | The user and the error both become null. |
| Stores.UserStore.UpdateUser | mobile/store/useUserStore.js:40-47 | Without a user nothing changes. With one, every key of the update takes its new value, every other key keeps its old value, no key is lost, and the error is untouched. |
| Stores.UserStore.IsAuthenticated | mobile/store/useUserStore.js:49-51 | True iff a user is set. |
| Stores.ErrorText | mobile/store/useAuthStore.js:28-31 | The server's message when it is present and non-empty, otherwise the fallback. |
| Stores.WithoutToken | mobile/store/useAuthStore.js:21 | The response body without its `token` key, with every other key and value kept. |
| Stores.TokenOf | mobile/store/useAuthStore.js:21 | The `token` of the destructuring, absent when the body has none. TokenSplitIsLossless states its meaning together with WithoutToken. |
| Stores.TokenSplitIsLossless | mobile/store/useAuthStore.js:21 | The token and the rest together give back the whole response body. Without a token, the rest is the whole body. |
| Stores.AuthStore.constructor | mobile/store/useAuthStore.js:10-13 | No token, not authenticated, not loading and no error. |
| Stores.AuthStore.BeginRequest | mobile/store/useAuthStore.js:16 | The first stage of login and register, while the request is pending: loading is true and the error is null. Token, authentication and the user store are unchanged. |
| Stores.AuthStore.CompleteRequest | mobile/store/useAuthStore.js:17-33 | The second stage, starting from loading, with the given fallback message. Loading becomes false either way. On success: the token is the response's, the user is authenticated, the error keeps the value the first stage set, the user store holds the body minus `token` with a null error, and the body is returned. On failure: the error is the server message or the fallback; token, authentication and the user store are unchanged; the failure is passed on. |
| Stores.AuthStore.Login | mobile/store/useAuthStore.js:15-34 | Both stages in order. Loading ends false either way. On success: the token is the response's, the user is authenticated, the error is null, the user store holds the body minus `token` with a null error, and the body is returned. On failure: the error is the server message or "Login failed", token, authentication and the user store are unchanged, and the failure is passed on. |
| Stores.AuthStore.Register | mobile/store/useAuthStore.js:36-55 | The same as Login, with the fallback "Registration failed". |
| Stores.AuthStore.Logout | mobile/store/useAuthStore.js:57-61 | No token and not authenticated. The user store is cleared. Loading and error are untouched. |

## Left out

- Transport and bootstrap: express, socket.io, CORS, the database connection and `listen` (server/index.js:1-39, 124-127). Emitting is appending to the outbox. The model takes it as the transport's behaviour that socket.io takes a closed socket out of its rooms.
- Authentication: `verifySocket` and `protect` (server/middleware/auth.js is not part of this model). A socket's user id and a route's requester id are inputs.
- Interleavings across `await`: every handler is one atomic step. The model therefore does not show the race in which a `message:read` lands between the create and the delivered update of line 72, after which the update overwrites read with delivered.
- The message store's internals (server/models/Message.js is not part of this model):
  - Ids are store positions rather than ObjectIds.
  - `createdAt` is the handler's `now` input.
  - A `msgId` that is not a well-formed id makes `findById` throw. That path is the same no-op as `storeFails`.
  - `_doc`, `toString` conversions and schema validation are not modelled.
- MessageRoutes.SortByCreation: the order of messages with equal `createdAt` is not fixed by the store. The contract states sortedness and contents, not the order of ties.
- User documents: fields other than id and password are a flat string map, and `toObject` is not modelled.
- Register.NameError: lengths count Unicode scalar values, whereas JavaScript's `length` counts UTF-16 code units, so a character outside the Basic Multilingual Plane counts once here and twice in the source.
- Validation.PasswordError: lengths count Unicode scalar values, whereas JavaScript's `length` counts UTF-16 code units.
- Screens:
  - The rendering, the show-password toggles, `rememberMe`, the alerts and the navigation are left out.
  - What happens after the `register` or `login` call is left out; those calls are modelled in the auth store.
  - `handleRegister` and `handleLogin` are modelled up to the request they hand over.
  - Both screens lowercase the e-mail as it is typed (mobile/app/register.jsx:164, mobile/app/login.jsx:150), before it reaches `formData`. The model takes the form's e-mail as given, so its "as the form holds it" means the lowercased text.
- Stores.AuthStore.Login: the pending state is observable in the source, since both screens disable their button and show a spinner on `loading`. BeginRequest models that state. Login itself runs both stages with nothing in between, so it does not model another handler running while the request is pending.
- Stores.AuthStore.Register: runs both stages with nothing in between, as for Login.
- The HTTP response of login and register:
  - The response body is always a flat record of JSON scalars. Nested values, and a body that is not an object, are not modelled. The destructuring throws only for a null or undefined body; a string body gives no token and a record of its characters.
  - A server message is a string or absent. Other JSON types are not modelled.
- Persistence backends and rehydration of the stores (AsyncStorage, localStorage, `onRehydrateStorage`), and all console logging.
- mobile/app/_layout.jsx and mobile/lib/axios.js: the screen switch and the HTTP client configuration.
