# Chat back end: the decision logic, modelled in Dafny

This project models the parts of the TicketBan chat back end that make decisions. It covers the chat
service and the shared crate, plus the user service's own checks. The parts modelled:

- the websocket **room registry**: `SESSIONS`, a map from chat id to the list of live session addresses;
- the **chat session actor**: joining and leaving the registry, which inbound frames lead to a broadcast,
  who receives it, the envelope sent, and the detached save;
- **chat creation**, in two layers: `ChatService::create` (empty list, duplicates, one lookup per
  distinct id, one aggregated 404) and `PgChatRepository::create` (one transaction, committed only at
  the end);
- the repository's membership operations over two abstract tables: chats keyed by uid, and membership
  rows keyed by (chat, user);
- the message content checks and the guard order of `MessageService`;
- the `UserService` guards: get by id, the signup checks, the duplicate-key remapping, and password
  verification errors;
- the JWT claim rules: one week of validity, the strict `exp > now` check, and the mapping of decode
  errors;
- the authentication middleware's pass-or-401 decision;
- the `ServiceError` constructors and the HTTP response built from them.

Everything the code does not decide for itself is a parameter of the model. That covers:

- what the user service answers, and what the database reports at each step;
- what jsonwebtoken, argon2, `validator` and serde_json return;
- the clock;
- the iteration order of a `HashSet`.

Results that depend on other services come with a *trace*: the calls made to those services, in order.
With the trace, "the repository is not called" is something a contract can state.

Each block that holds the registry's lock is one atomic step. The objects the source updates in place
are classes with `modifies` frames:

- the registry (`Session.Registry`);
- a session (`Session.ChatSession`);
- the actor system's outbox and the task runtime (`Session.Runtime`);
- the repository's tables (`ChatRepository.PgChatRepository`).

Some helper modules model library behaviour the core depends on:

- `Uuids`: uuid text forms. `to_string` writes the hyphenated lower-case form. `parse_str` reads the
  simple, hyphenated, braced and URN forms, in either letter case.
- `Text`: `str` operations. These are `starts_with`, `contains`, Unicode `trim`, and `len` in UTF-8 bytes.
- `Json`: the part of `serde_json::Value` the session reads and builds.
- `Models`: the records.

Behaviour kept as the code has it, where a reader might expect otherwise:

- A websocket `ProtocolError` is ignored rather than ending the session.
- Any string `content`, the empty one included, is broadcast; only `MessageService::create` rejects
  blank content.
- A room's entry is a list, not a set, so the same address may appear more than once. Leaving removes
  every copy.
- The aggregated not-found message labels each failure with `participants[idx]`, where `idx` is the
  position in the `HashSet`'s iteration. It may therefore name an id that was found.
- The length limit is 5000 *bytes* of UTF-8, although its message says "characters".
- The excluded path list holds `/api/users/auth` twice.
- `get_by_uid` is treated as the repository's `get_by_id`. The service and message layers call
  `get_by_uid`, but the repository trait declares `get_by_id`.

## Model

| member | source | states |
|---|---|---|
| ServiceErrors.New | services/chat_service/src/errors/service_error.rs:20-25 | the message and status code are stored unchanged |
| ServiceErrors.BadRequest | services/chat_service/src/errors/service_error.rs:27-29 | status 400, a client error, message unchanged |
| ServiceErrors.NotFound | services/chat_service/src/errors/service_error.rs:31-33 | status 404, a client error, message unchanged |
| ServiceErrors.InternalError | services/chat_service/src/errors/service_error.rs:35-37 | status 500, not a client error, message unchanged |
| ServiceErrors.ConstructorsDistinct | services/chat_service/src/errors/service_error.rs:27-37 | the three constructors never produce equal errors, whatever the messages |
| ServiceErrors.ErrorResponseAsWritten | services/chat_service/src/errors/service_error.rs:12-17 | as written, the response status is always 500, whatever the error's code |
| ServiceErrors.ClientErrorsSentAs500 | services/chat_service/src/errors/service_error.rs:12-17 | as written, a 400 or 404 error is sent with a status different from its own code |
| ServiceErrors.ErrorResponse | services/chat_service/src/errors/service_error.rs:12-17 | corrected: the response status is the error's own code, and client errors stay 4xx |
| Uuids.ToString | shared/src/models/user_token.rs:32 | `to_string`: 36 characters, with hyphens exactly at positions 8, 13, 18 and 23 |
| Uuids.Parse | services/chat_service/src/services/chat_service.rs:90-93 | `parse_str`: only lengths 32, 36, 38 and 45 can parse, any other length is `InvalidLength`, and an accepted hyphenated form has its four hyphens in place; its round trip is `Uuids.ParseToString` |
| Uuids.ParseToString | shared/src/models/user_token.rs:65-67 | `parse_str` reads back exactly the UUID that `to_string` wrote |
| UserTokens.New | shared/src/models/user_token.rs:25-34 | `iat` is the clock, `exp` is `iat + 604800`, and `sub` is the id's text form |
| UserTokens.IsValid | shared/src/models/user_token.rs:60-63 | `is_valid` with the clock as a parameter, strict `exp > now`; its properties are stated by `UserTokens.ValidForOneWeek` and the `Auth` lemmas |
| UserTokens.ValidForOneWeek | shared/src/models/user_token.rs:60-63 | a new token is valid exactly while `now < iat + one week`; at the expiry second it is invalid |
| UserTokens.GenerateToken | shared/src/models/user_token.rs:36-44 | the encoder's token is passed through; an encoder failure becomes `Creation` with its text |
| UserTokens.ValidateToken | shared/src/models/user_token.rs:46-58 | decoded claims pass through; `ExpiredSignature` maps to `Expired`; every other decode failure maps to `Invalid` |
| UserTokens.GetUserId | shared/src/models/user_token.rs:65-67 | `get_user_id` parses `sub`; for any token made by `new` this gives the user id back, by `UserTokens.GetUserIdOfNew` |
| UserTokens.GetUserIdOfNew | shared/src/models/user_token.rs:65-67 | `get_user_id` of a token made by `new` gives back the original user id |
| Text.ContainsAt | services/user_service/src/services/user_service.rs:59 | `contains` holds exactly when the pattern occurs at some position |
| Text.TrimEmpty | services/chat_service/src/services/message_service.rs:41 | `trim` leaves nothing exactly when every character is Unicode white space |
| Text.Utf8LengthBounds | services/chat_service/src/services/message_service.rs:45 | the UTF-8 byte length lies between the character count and four times it |
| Auth.HeaderToStr | shared/src/middleware/auth.rs:45 | the header converts to text exactly when every byte is visible ASCII or a tab, and then byte for byte |
| Auth.AnyPrefix | shared/src/middleware/auth.rs:34 | true exactly when the path starts with one of the listed prefixes |
| Auth.Call | shared/src/middleware/auth.rs:27-69 | the pass-or-401 decision of `AuthenticationMiddleware::call`; its contract is carried by `Auth.AuthPathsPass`, `Auth.BearerTokenDecides`, `Auth.ExpiredTokenRefused`, `Auth.NoBearerRefused` and `Auth.PassImpliesValidToken` |
| Auth.ExcludedIsAuthPrefix | shared/src/middleware/auth.rs:30-34 | the excluded list amounts to the single prefix `/api/users/auth` |
| Auth.AuthPathsPass | shared/src/middleware/auth.rs:34-39 | every path under `/api/users/auth` is passed on, whatever its headers |
| Auth.BearerTokenDecides | shared/src/middleware/auth.rs:42-58 | elsewhere, a `Bearer <token>` request passes exactly when the text after the 7 prefix characters decodes with `SECRETKEY` to claims with `exp > now` |
| Auth.ExpiredTokenRefused | shared/src/middleware/auth.rs:49-68 | a token that decodes but has expired gets 401 |
| Auth.NoBearerRefused | shared/src/middleware/auth.rs:42-68 | a missing header, an unreadable header, or another scheme gets 401 |
| Auth.PassImpliesValidToken | shared/src/middleware/auth.rs:44-58 | whenever the inner service is called outside the excluded paths, a bearer token was shown, decoded and was valid |
| UserService.GetById | services/user_service/src/services/user_service.rs:34-38 | an unparsable id is 400 "Invalid UUID" and the repository is not called; otherwise one lookup, whose result is passed through |
| UserService.RemapCreateError | services/user_service/src/services/user_service.rs:57-64 | an error containing "duplicate key" becomes 400 "Email already exists"; any other error is unchanged |
| UserService.DuplicateKeyAnywhere | services/user_service/src/services/user_service.rs:59-60 | "duplicate key" anywhere in the database message triggers the remapping |
| UserService.SignupGuard | services/user_service/src/services/user_service.rs:42-48 | no guard fails exactly when validation passed, the username is non-empty, the email has `@` and the password has at least 8 bytes; every failure is a 400 |
| UserService.Signup | services/user_service/src/services/user_service.rs:40-65 | at most one repository call; no call means an error; the call stores the username and email unchanged; a success is the repository's own answer; guards and storage by `UserService.SignupGuardOrder`, `UserService.SignupGuardsFirst` and `UserService.SignupStoresHash` |
| UserService.SignupGuardOrder | services/user_service/src/services/user_service.rs:42-48 | the guards are checked in order: validator, username, email, password, with their messages |
| UserService.SignupGuardsFirst | services/user_service/src/services/user_service.rs:42-48 | any guard failure is a 400 with no repository call |
| UserService.HashPassword | services/user_service/src/services/user_service.rs:89-95 | the hash is passed through; a hashing failure is a 500 with the "Password hashing error: " prefix |
| UserService.SignupStoresHash | services/user_service/src/services/user_service.rs:50-64 | the repository is called exactly when the guards and hashing succeed; it is called once, with username and email unchanged and the password replaced by its hash; its errors are remapped |
| UserService.VerifyPassword | services/user_service/src/services/user_service.rs:97-102 | an unparsable hash is a 500; a mismatch is always 400 "Incorrect email or password"; success exactly when both steps succeed |
| MessageService.GetAllMessagesByChatUid | services/chat_service/src/services/message_service.rs:24-38 | a malformed id is a 400 with no call; a chat-lookup error is returned as is, before messages are listed; otherwise the listing is returned |
| MessageService.Create | services/chat_service/src/services/message_service.rs:40-52 | blank content gives "cannot be empty"; otherwise over 5000 bytes gives "too long"; otherwise the DTO is stored once, unchanged; errors make no store call |
| MessageService.WhitespaceIsEmptyAtAnyLength | services/chat_service/src/services/message_service.rs:41-49 | white space of any length, even over the limit, gets the "empty" error |
| MessageService.StoredContentIsChecked | services/chat_service/src/services/message_service.rs:45-51 | stored content is never blank and holds 1 to 5000 bytes |
| ChatService.ParseUuid | services/chat_service/src/services/chat_service.rs:90-93 | ok exactly when the text parses; a failure is always a 400 "Invalid UUID: …" |
| ChatService.ParseUuidOfPrinted | services/chat_service/src/services/chat_service.rs:90-93 | every id in its printed form parses back to itself |
| ChatService.DistinctIffFullSet | services/chat_service/src/services/chat_service.rs:42-45 | the `HashSet` is smaller than the list exactly when the list has a duplicate |
| ChatService.IterationOrderLength | services/chat_service/src/services/chat_service.rs:42-47 | over distinct participants, the set's iteration visits one id per participant |
| ChatService.Lookups | services/chat_service/src/services/chat_service.rs:47-49 | one user lookup per id of the iteration, in that order |
| ChatService.FailureEntriesCount | services/chat_service/src/services/chat_service.rs:51-57 | one error entry per failed lookup; no entries exactly when every lookup succeeded |
| ChatService.Create | services/chat_service/src/services/chat_service.rs:36-63 | empty list gives a 400, then duplicates give a 400, both with no call; otherwise every lookup is made before any decision; failures give one 404 with `"; "`-separated entries; the repository is called exactly when every participant was found |
| ChatService.AllFoundIff | services/chat_service/src/services/chat_service.rs:52-62 | every participant is found exactly when every collected result is a success |
| ChatService.FailureLabelsByPosition | services/chat_service/src/services/chat_service.rs:52-55 | with participants A, B iterated as B, A, a failed lookup of B is reported under A's id |
| ChatService.GetUserChats | services/chat_service/src/services/chat_service.rs:27-30 | a malformed id is its 400 with no call; otherwise the repository's answer for the parsed id |
| ChatService.GetChatByUid | services/chat_service/src/services/chat_service.rs:31-34 | a malformed id is its 400 with no call; otherwise the repository's chat lookup |
| ChatService.AddParticipant | services/chat_service/src/services/chat_service.rs:65-73 | the user id is parsed before the chat id; a failed lookup is a 404 naming the user, before the repository; otherwise the repository's answer |
| ChatService.RemoveParticipant | services/chat_service/src/services/chat_service.rs:75-80 | the chat id is parsed before the user id; then one repository call, whose answer is passed through |
| ChatService.GetChatParticipants | services/chat_service/src/services/chat_service.rs:82-85 | a malformed id is its 400 with no call; otherwise the repository's answer |
| ChatService.MalformedIdsCallNothing | services/chat_service/src/services/chat_service.rs:65-80 | a malformed id never reaches the user service or the repository and is a 400 |
| ChatRepository.FirstUnconfirmed | services/chat_service/src/repositories/chat_repository.rs:83-93 | the first participant the user service does not confirm; everyone before it was confirmed |
| ChatRepository.FirstFailedInsert | services/chat_service/src/repositories/chat_repository.rs:95-106 | the first membership insert that fails, on a repeated key or a database error |
| ChatRepository.CreateOutcome | services/chat_service/src/repositories/chat_repository.rs:60-112 | the step-by-step outcome of `create`, the first failing step deciding; characterised by `ChatRepository.CreateSucceedsIff` and `ChatRepository.CreateStopsAtFirstUnknownUser`, and met by `ChatRepository.PgChatRepository.Create` |
| ChatRepository.PgChatRepository.constructor | services/chat_service/src/repositories/chat_repository.rs:24-28 | empty tables that satisfy the table invariant |
| ChatRepository.PgChatRepository.GetUserChats | services/chat_service/src/repositories/chat_repository.rs:32-45 | exactly the chats the user belongs to, each once; a database error is a 500 |
| ChatRepository.PgChatRepository.GetById | services/chat_service/src/repositories/chat_repository.rs:47-58 | the stored chat under that uid; an absent chat is a 404 naming the uid; a database error is a 500 |
| ChatRepository.PgChatRepository.Create | services/chat_service/src/repositories/chat_repository.rs:60-112 | the result follows the outcome rules step by step; on any error both tables are unchanged; on success one chat row with `created_at == updated_at == now`, and one membership row per participant with `joined_at == now` |
| ChatRepository.PgChatRepository.AddParticipant | services/chat_service/src/repositories/chat_repository.rs:114-155 | a failed existence query or membership query is a 500 "Database error: …"; a missing chat is a 404 and an existing pair is a 400; a failed insert is a 500 "Error adding a participant: …"; no error changes anything; success, exactly when every check passes, adds exactly that one pair |
| ChatRepository.PgChatRepository.RemoveParticipant | services/chat_service/src/repositories/chat_repository.rs:157-173 | the (chat, user) pair is deleted; no matching row is a 404 with the tables unchanged; afterwards the pair is absent unless an error was returned |
| ChatRepository.PgChatRepository.GetChatParticipants | services/chat_service/src/repositories/chat_repository.rs:175-185 | exactly the users paired with the chat, each once; a database error is a 500 |
| ChatRepository.NewRowsCount | services/chat_service/src/repositories/chat_repository.rs:95-106 | distinct participants give exactly one new row each |
| ChatRepository.InsertsSucceedIff | services/chat_service/src/repositories/chat_repository.rs:95-106 | no insert fails exactly when the participants are distinct and the database reports no error |
| ChatRepository.CreateSucceedsIff | services/chat_service/src/repositories/chat_repository.rs:60-112 | `create` succeeds exactly when every step does: begin, a fresh uid, the chat insert, every user check, distinct participants, every insert, and the commit |
| ChatRepository.CreateStopsAtFirstUnknownUser | services/chat_service/src/repositories/chat_repository.rs:83-93 | the first participant with a non-success status is the one named in the 400 "does not exist" error |
| Json.Get | services/chat_service/src/websocket/session.rs:146 | a field is found exactly when the value is an object holding that key |
| Json.AsStr | services/chat_service/src/websocket/session.rs:146 | text exactly when the value is a JSON string |
| Session.Without | services/chat_service/src/websocket/session.rs:66 | every copy of the address is removed; every other address keeps its count |
| Session.Registry.constructor | services/chat_service/src/websocket/session.rs:13-15 | the registry starts empty |
| Session.Registry.Join | services/chat_service/src/websocket/session.rs:54-58 | exactly one copy is appended to the room's list, the entry created if absent; other rooms are unchanged; no entry is ever empty |
| Session.Registry.Leave | services/chat_service/src/websocket/session.rs:63-71 | every copy leaves the room's list; the entry is deleted exactly when the list became empty; no entry means no change; other rooms are unchanged |
| Session.Registry.Recipients | services/chat_service/src/websocket/session.rs:91-98 | the addresses under the sender's chat, minus the sender, in order; none when the chat has no entry |
| Session.ApplyKeepsNoEmptyRoom | services/chat_service/src/websocket/session.rs:54-70 | one join or leave keeps every entry non-empty |
| Session.ReplayHasNoEmptyRoom | services/chat_service/src/websocket/session.rs:54-70 | from an empty registry, no sequence of joins and leaves leaves an empty entry |
| Session.ApplyMembership | services/chat_service/src/websocket/session.rs:54-71 | after one step, an address is in a room exactly when that step joined it there, or it was already there and untouched |
| Session.ReplayMembership | services/chat_service/src/websocket/session.rs:54-71 | after any sequence, an address is in a room exactly when its last join or leave there was a join |
| Session.ReplayEntryIffAttached | services/chat_service/src/websocket/session.rs:65-70 | after any sequence, a chat has an entry exactly when at least one session is attached to it |
| Session.Deliveries | services/chat_service/src/websocket/session.rs:93-97 | one delivery per recipient, in order, each with the same text |
| Session.Envelope | services/chat_service/src/websocket/session.rs:82-89 | `event` is "message"; `data` carries the chat id, user id (printed forms) and the content, recoverable as text |
| Session.ContentToBroadcast | services/chat_service/src/websocket/session.rs:137-149 | a broadcast happens exactly when the frame parsed, the event is "message" and `data.content` is a string; that string is the content |
| Session.EmptyContentIsBroadcast | services/chat_service/src/websocket/session.rs:145-147 | empty string content is broadcast |
| Session.Runtime.constructor | services/chat_service/src/websocket/session.rs:116 | nothing has been sent or submitted |
| Session.ChatSession.constructor | services/chat_service/src/websocket/session.rs:40-46 | a session for the given chat and user, with nothing written yet |
| Session.ChatSession.Started | services/chat_service/src/websocket/session.rs:52-60 | the session joins its chat's room |
| Session.ChatSession.Stopping | services/chat_service/src/websocket/session.rs:62-75 | the session leaves its chat's room |
| Session.ChatSession.SaveToMessage | services/chat_service/src/websocket/session.rs:101-131 | exactly one save, with the session's chat id, user id and content, is submitted, and nothing is sent |
| Session.ChatSession.BroadcastMessage | services/chat_service/src/websocket/session.rs:79-99 | one save is submitted, then the serialized envelope is sent to every other session of the chat and to no one else; the save's outcome plays no part |
| Session.ChatSession.ProcessWsMessage | services/chat_service/src/websocket/session.rs:134-150 | no save and no delivery unless the frame carries a "message" event with string content; then exactly the broadcast of that content |
| Session.ChatSession.Handle | services/chat_service/src/websocket/session.rs:154-168 | a text frame is processed; a close frame sends the close reason, stops the session and leaves the room; every other frame, and a protocol error, changes nothing |
| Session.ChatSession.HandleChatMessage | services/chat_service/src/websocket/session.rs:174-179 | a peer's message is written to this socket unchanged |

## Findings

| source | as written | input that shows it | evidently intended | confidence | as-written member | corrected member |
|---|---|---|---|---|---|---|
| services/chat_service/src/errors/service_error.rs:12-17 | `HttpResponse::build(self.status_code())` calls the `ResponseError::status_code` trait method, not the `status_code` field, and actix-web's default for that method is 500 | `ServiceError::bad_request("Invalid UUID: …")` is answered with status 500 | the response carries the error's own `status_code` field (400, 404 or 500) | high; not executed | ServiceErrors.ErrorResponseAsWritten (shown by ServiceErrors.ClientErrorsSentAs500) | ServiceErrors.ErrorResponse |

## Left out

- Concurrency is not modelled: the `Mutex`, actix dispatch (`Addr`, `do_send`, mailboxes), `tokio::spawn` and `join_all`. Each lock-held block is one atomic step. A spawned save is a recorded submission whose outcome is only logged. `join_all` is a list of lookup results, all collected before any is inspected.
- Postgres and sqlx are not modelled: SQL text, pools, and real rollback. The tables are abstract sets, and a transaction works on a copy that replaces them only at commit. Each database round trip may fail, with an error text given as a parameter.
- Network calls are parameters: the gRPC user client, and the hard-coded reqwest GET inside the repository's `create` (sent or failed, then a status).
- Foreign libraries are parameters: argon2 (hash, parse, verify) and its random salt, jsonwebtoken `encode` and `decode`, the `validator` crate's derived checks, serde_json `from_str` and `to_string`, and `Uuid::new_v4` (the fresh chat uid).
- The clock (`Utc::now`) is a parameter wherever it is read.
- Uuids.Describe: the uuid crate's exact error wording is not modelled; each kind of parse error has a fixed short text.
- UserTokens.New: chrono's `i64` timestamps, and overflow when adding one week, are not modelled; times are unbounded integers.
- UserService.SignupGuard: the `validation` result is a free parameter. The derived `validate()` of `UserDTO` (services/user_service/src/models/user.rs:21-28) already requires a username of 3 to 20 characters, an e-mail the validator accepts and a password of at least 8 characters. So after a passing validation the next three guards never fire in the source, but the model keeps them reachable.
- `UserService::get_all` and `UserService::login` are not modelled. `get_all` only delegates. `login` calls `UserToken::new` with a second argument that `new` does not take.
- Logging and `DropLogger` are not modelled; they have no effect on results.
- `user_repository.rs` and `message_repository.rs` are not part of this model; they are SQL with no decision logic. Their results are parameters of the services.
- Controllers, configuration, startup, routing, the websocket upgrade handler (`handler.rs`) and the gRPC server are not part of this model; they are plumbing with no decision logic.
