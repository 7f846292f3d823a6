# NhanZ chat, modelled in Dafny

NhanZ is a small real-time chat application. Its web client keeps two stores:
- an auth store: the signed-in user, the token and the presence status, mirrored in the browser's storage
- a chat store: the conversation list, the active conversation and who is typing in each conversation

The server answers REST requests from a relational store. This project models:
- the shared validation schemas
- the `auth`, `conversation`, `message` and `user` request handlers of the server
- the two client stores
- the derivations and handlers of four client components: the new-chat dialog's search, the change-password handler of the security dialog, the sidebar's row labels and the basic chat page

Modules, one file each:

- `Common`: `Option`, JavaScript truthiness of an optional string, and the sequence operations the code uses:
  - `filter` and `find`
  - a stable sort
  - ASCII lower- and upper-case
  - `includes` on strings
  - `trim`
- `Schemas`: `UserSchema`, `RegisterSchema` and `LoginSchema` as lists of issues, one per failed check, carrying the library's default messages or the schema's own. The library's email, uuid and url recognisers are parameters (`LibraryChecks`).
- `AuthController`: `register` and `login`. Both are pure functions of the request body.
- `Store`: the four tables (users, conversations, memberships, messages) and a `Database` object whose invariant `Valid` holds the schema's constraints: unique user ids, unique conversation ids, unique usernames, and memberships and messages that refer to existing users and conversations. The handler response is `Ok(body)` or `Failure(status, error)`.
- `ConversationController`, `MessageController`, `UserController`:
  - read handlers are functions over the tables
  - handlers that write are methods that modify the `Database`, with the write spelled out and the invariant kept
  - a failing store is a `storeFails` parameter
  - a constraint the store would refuse ends in the handler's 500 with the store unchanged
- `ChatStore`: the chat store as a class. Its `updateConversationLastMessage` sorts an array in place.
- `AuthStore`: the auth store as a class with a `storage` map standing for the browser's storage.
- `NewChatModal`, `SecurityModal`, `Sidebar`, `ChatPage`: the component logic. The two handlers with state are classes whose fields are the component's state, plus sequences that record the notifications shown and the requests or socket events sent.

Headers and body fields that may be absent are `Option<string>`; the code's `!x` tests are `!Truthy(x)`, so both an absent value and `""` count as missing. Times are integers. The current time, new ids, the socket and request outcomes are parameters.

Notes on the code:
- `register` and `login` only validate the body and return fixed mock answers ("mock-id", "mock-jwt-token"). No account is stored, no duplicate is refused and no credential is checked (`AuthController.NoAccountState`).
- A validation failure is a 400 whose body is the list of issues.
- The chat store's user has no email, and the user list the server sends has none either. In the running client the new-chat search therefore matches usernames only (`NewChatModal.WithoutEmailOnlyUsername`).

## Model

| member | source | states |
|---|---|---|
| `Schemas.MatchesLowerAlnumIff` | packages/shared/src/schemas.ts:5 | the left-to-right matcher of `^[a-z0-9]+$` accepts exactly the non-empty strings whose every character is in a-z or 0-9 |
| `Schemas.UsernameValidIff` | packages/shared/src/schemas.ts:5 | a username is valid iff it has 3 to 16 characters, all in a-z or 0-9 |
| `Schemas.UsernameRejectsOtherCharacter` | packages/shared/src/schemas.ts:14 | one character outside a-z, 0-9 anywhere rejects a username, whatever its length |
| `Schemas.UsernameIssues` | packages/shared/src/schemas.ts:14 | no issue iff the username is present and valid; every issue is on the `username` path |
| `Schemas.RegisterNameIssues` | packages/shared/src/schemas.ts:15 | no issue iff the name is present with 1 to 50 characters |
| `Schemas.EmailIssues` | packages/shared/src/schemas.ts:16 | no issue iff the email is present and the library accepts it |
| `Schemas.PasswordIssues` | packages/shared/src/schemas.ts:17 | no issue iff the password is present with at least 6 characters |
| `Schemas.UserIssues` | packages/shared/src/schemas.ts:3-11 | no issue iff the id is a uuid, the username is valid, the email is an email, the avatar (when set) a url, the status (when set) at most 100 and the name (when set) at most 50 characters |
| `Schemas.RegisterIssues` | packages/shared/src/schemas.ts:13-18 | no issue iff all four register fields are present and valid |
| `Schemas.LoginIssues` | packages/shared/src/schemas.ts:20-23 | no issue iff email and password are present and valid |
| `Schemas.LoginNeedsOnlyCredentials` | packages/shared/src/schemas.ts:13-23 | the credentials of a valid registration make a valid login; a valid login with no username is not a valid registration |
| `Schemas.PasswordRuleShared` | packages/shared/src/schemas.ts:17-22 | with a valid email, both schemas accept a password iff it has at least 6 characters |
| `AuthController.Register` | apps/server/src/controllers/auth.controller.ts:4-13 | 400 with a non-empty issue list iff the body is invalid; otherwise "Registration successful" with the body's email and the id "mock-id" |
| `AuthController.Login` | apps/server/src/controllers/auth.controller.ts:15-24 | 400 with a non-empty issue list iff the body is invalid; otherwise "Login successful" with the token "mock-jwt-token" |
| `AuthController.NoAccountState` | apps/server/src/controllers/auth.controller.ts:4-24 | two valid registrations with the same email both succeed with the same answer; any two valid logins get the same token |
| `AuthController.ShortPasswordRejected` | apps/server/src/controllers/auth.controller.ts:4-24 | a password shorter than 6 characters is rejected by both handlers, with the password issue among the errors |
| `ConversationController.Latest` | apps/server/src/controllers/conversation.controller.ts:37-42 | the latest message is absent iff there are none, and otherwise is one of them with the greatest creation time |
| `ConversationController.Memberships` | apps/server/src/controllers/conversation.controller.ts:25-36 | exactly the membership rows whose conversation is the given one |
| `ConversationController.MembersOf` | apps/server/src/controllers/conversation.controller.ts:25-36 | one entry per membership row of the conversation, in table order, so every member is listed and nothing else; each entry carries the user's record selected to its public fields |
| `ConversationController.ViewOf` | apps/server/src/controllers/conversation.controller.ts:24-43 | a conversation with its members and at most one message: none iff the conversation has no messages, else its latest |
| `ConversationController.GetMyConversations` | apps/server/src/controllers/conversation.controller.ts:5-54 | 401 without a caller, 500 when the store fails; otherwise exactly the caller's conversations, each once (same multiset), most recently updated first, each with its members and latest message |
| `ConversationController.CreatedDirectIsFound` | apps/server/src/controllers/conversation.controller.ts:67-79 | after the new direct conversation and its two memberships are added, the lookup for the pair finds it |
| `ConversationController.CreateOrGetConversation` | apps/server/src/controllers/conversation.controller.ts:57-99 | 400 when either id is missing, 500 on store failure or a refused write; an existing direct conversation of the pair is returned unchanged; otherwise exactly one conversation and two memberships are added, and the store invariant is kept |
| `ConversationController.CreateOrGetTwice` | apps/server/src/controllers/conversation.controller.ts:57-99 | two sequential requests for the same pair: when the first succeeds, the second returns the same conversation, and together they add at most one conversation and two memberships |
| `MessageController.GetMessages` | apps/server/src/controllers/message.controller.ts:5-29 | 500 when the store fails; otherwise exactly the conversation's messages, each once, in ascending creation time, each with its sender's id, username and avatar |
| `MessageController.CreatedGeneralIsFound` | apps/server/src/controllers/message.controller.ts:34-45 | once "Community Chat" has been created, the lookup by name finds it |
| `MessageController.GetGeneralConversation` | apps/server/src/controllers/message.controller.ts:32-51 | returns the first conversation named "Community Chat" unchanged, or adds one such group conversation; 500 on store failure; afterwards the lookup finds the returned conversation |
| `MessageController.GetGeneralTwice` | apps/server/src/controllers/message.controller.ts:32-51 | repeated requests return the first one's conversation and add at most one conversation |
| `UserController.GetAllUsers` | apps/server/src/controllers/user.controller.ts:4-26 | 500 when the store fails; otherwise the public fields of every user but the caller, one entry per kept row in table order, never the caller, and everybody when no caller is given |
| `UserController.Patched` | apps/server/src/controllers/user.controller.ts:39-42 | name and username are replaced only by truthy values; every other field is kept |
| `UserController.UpdatedUsers` | apps/server/src/controllers/user.controller.ts:37-42 | only the caller's row changes, and it is patched |
| `UserController.UpdatedUsersConsistent` | apps/server/src/controllers/user.controller.ts:37-51 | the patch keeps the store's constraints when the new username is not another user's |
| `UserController.UpdateProfile` | apps/server/src/controllers/user.controller.ts:28-58 | 401 without a caller; 500 when the store fails, the user does not exist or the username is taken; otherwise the caller's row is patched, nothing else changes, and the answer is the patched profile without password or status |
| `ChatStore.TypingStartOnce` | apps/web/src/stores/useChatStore.ts:131-132 | starting to type leaves the name in the list exactly once, keeps the list free of duplicates, and a repeated start changes nothing |
| `ChatStore.TypingStopRemoves` | apps/web/src/stores/useChatStore.ts:133-135 | stopping removes the name and keeps the other names in order, each as often as before |
| `ChatStore.TypingStartThenStop` | apps/web/src/stores/useChatStore.ts:131-135 | start then stop restores the list when the name was not typing before |
| `ChatStore.WithLastMessage` | apps/web/src/stores/useChatStore.ts:107-116 | only the conversation with the id changes: its preview becomes the message and its update time now; ids and order are kept |
| `ChatStore.SortByRecency` | apps/web/src/stores/useChatStore.ts:119-121 | the array ends up most recent first and is a permutation of its old contents; an array already in that order is left unchanged, so the second sort does nothing |
| `ChatStore.MessagedConversationFirst` | apps/web/src/stores/useChatStore.ts:106-124 | after the update and the sort, a conversation that just got a message newer than every listed update is first, carrying the message |
| `ChatStore.ChatStore.constructor` | apps/web/src/stores/useChatStore.ts:38-42 | empty list, no active conversation, nobody typing |
| `ChatStore.ChatStore.StartConversation` | apps/web/src/stores/useChatStore.ts:82-94 | the returned conversation becomes active and is prepended when its id is not listed yet; distinct ids stay distinct; nothing changes when there is no answer |
| `ChatStore.ChatStore.SetActiveConversation` | apps/web/src/stores/useChatStore.ts:104 | only the active id changes |
| `ChatStore.ChatStore.UpdateConversationLastMessage` | apps/web/src/stores/useChatStore.ts:106-124 | the list becomes a recency-ordered permutation of the updated list |
| `ChatStore.ChatStore.SetTyping` | apps/web/src/stores/useChatStore.ts:127-143 | only the conversation's typing list changes: the name is then in it exactly once, or not at all; no list ever holds a name twice |
| `AuthStore.StatusFrom` | apps/web/src/stores/useAuthStore.ts:48 | the stored status when truthy, else "active"; never empty |
| `AuthStore.AuthStore.constructor` | apps/web/src/stores/useAuthStore.ts:16-18 | user and token are read from storage, authenticated iff the stored token is truthy |
| `AuthStore.AuthStore.Login` | apps/web/src/stores/useAuthStore.ts:20-24 | from any state, token and user are written to storage and to the fields, which then mirror storage, and the store is authenticated |
| `AuthStore.AuthStore.Logout` | apps/web/src/stores/useAuthStore.ts:26-30 | from any state, token and user are removed from storage and cleared, so the fields mirror storage; the status is kept |
| `AuthStore.AuthStore.CheckAuth` | apps/web/src/stores/useAuthStore.ts:32-46 | changes nothing |
| `AuthStore.AuthStore.SetStatus` | apps/web/src/stores/useAuthStore.ts:49-52 | from any state, the status is stored and set; the session fields are untouched, so fields that mirrored storage still do |
| `AuthStore.StatusSurvivesReload` | apps/web/src/stores/useAuthStore.ts:48-52 | a reload reads back a non-empty status as set, an empty one as "active" |
| `AuthStore.SessionSurvivesReload` | apps/web/src/stores/useAuthStore.ts:16-30 | after login a reload restores the user and token; after logout it is signed out |
| `NewChatModal.FilteredUsers` | apps/web/src/components/NewChatModal.tsx:24-27 | the result keeps order and holds exactly the users whose username, or truthy email, contains the query in lower case, each as often as in the input |
| `NewChatModal.EmptyQueryKeepsAll` | apps/web/src/components/NewChatModal.tsx:24-27 | the empty query lists every user |
| `NewChatModal.CaseInsensitive` | apps/web/src/components/NewChatModal.tsx:24-27 | a query and its lower-case form give the same result |
| `NewChatModal.WithoutEmailOnlyUsername` | apps/web/src/components/NewChatModal.tsx:24-27 | without emails the search filters by username alone |
| `NewChatModal.FoundByUsernamePiece` | apps/web/src/components/NewChatModal.tsx:25 | a query equal, ignoring case, to a piece of a username finds that user |
| `NewChatModal.PieceIffContains` | apps/web/src/components/NewChatModal.tsx:25-26 | `toLowerCase().includes` holds iff some piece of the text equals the query, ignoring case |
| `NewChatModal.FoundIffPiece` | apps/web/src/components/NewChatModal.tsx:24-27 | a user is listed iff the query occurs, ignoring case, in the username or in a truthy email |
| `SecurityModal.PreCheck` | apps/web/src/components/SecurityModal.tsx:26-34 | the mismatch message when the passwords differ, else the length message when shorter than 6; no message iff they match and have at least 6 characters |
| `SecurityModal.MismatchReportedFirst` | apps/web/src/components/SecurityModal.tsx:26-34 | a short mismatched password reports the mismatch, not the length |
| `SecurityModal.SecurityForm.constructor` | apps/web/src/components/SecurityModal.tsx:18-23 | empty fields, not loading |
| `SecurityModal.SecurityForm.HandleChangePassword` | apps/web/src/components/SecurityModal.tsx:25-67 | a failed check shows its message and sends nothing; otherwise one request with the user id (or ""), loading set then cleared, and success clears the fields and closes the dialog, while failure shows the server's error, "Failed to update password" or "An error occurred" |
| `Sidebar.Title` | apps/web/src/pages/chat/Sidebar.tsx:133-134 | a group shows its name; a direct conversation shows the username of the first member whose username is not the user's, and "Unknown" exactly when there is no such member or that username is empty |
| `Sidebar.Preview` | apps/web/src/pages/chat/Sidebar.tsx:156 | the first message's content when it is not empty; "Start a conversation" when there is no message or its content is empty; never empty |
| `Sidebar.UpdatedRowShowsMessage` | apps/web/src/pages/chat/Sidebar.tsx:149-156 | after a last-message update the row shows a time iff the message has a creation time, and previews the message's text, or "Start a conversation" when it is empty |
| `Sidebar.AtMostOneActive` | apps/web/src/pages/chat/Sidebar.tsx:135 | with distinct ids no two rows are highlighted |
| `Sidebar.StartedRowActive` | apps/web/src/pages/chat/Sidebar.tsx:135 | after `startConversation` answers, the list (old, or with the conversation prepended when new) has exactly one highlighted row, the one with the started id |
| `Sidebar.AvatarFallback` | apps/web/src/pages/chat/Sidebar.tsx:64-68 | the avatar image exactly when the user has a truthy avatar, else one character: the upper-cased first letter of the username, or "U" when there is no user or the username is empty |
| `Sidebar.InitialOfValidUsername` | apps/web/src/pages/chat/Sidebar.tsx:67 | for a username the schema accepts, the fallback is a capital letter or a digit |
| `ChatPage.SenderIdOf` | apps/web/src/pages/chat/ChatPage.tsx:38 | the socket id when it is truthy, "anonymous" otherwise; never empty |
| `ChatPage.BlankInputNotSent` | apps/web/src/pages/chat/ChatPage.tsx:34 | a message may be sent iff there is a socket and the input has a character that is not white space |
| `ChatPage.SenderLabel` | apps/web/src/pages/chat/ChatPage.tsx:72 | "You" for one's own message, else the first six characters of the sender id |
| `ChatPage.AnonymousNeverOwn` | apps/web/src/pages/chat/ChatPage.tsx:38-72 | a message sent as "anonymous" is not drawn as one's own and is labelled "anonym" |
| `ChatPage.ChatPage.constructor` | apps/web/src/pages/chat/ChatPage.tsx:16-17 | no messages and an empty input |
| `ChatPage.ChatPage.ReceiveMessage` | apps/web/src/pages/chat/ChatPage.tsx:22-25 | the message is appended; nothing else changes |
| `ChatPage.ChatPage.SendMessage` | apps/web/src/pages/chat/ChatPage.tsx:32-44 | with blank input or no socket nothing changes; otherwise one event with the input text, the sender id and the time is emitted and the input is cleared |

## Left out

- The realtime hub, the routers, the server entry point and the avatar upload are not part of this model.
- Persisting a message is not part of this model: no handler modelled here writes messages.
- The network requests of the client (`fetchUsers`, `fetchConversations`, the request inside `startConversation` and its refetch) are left out. Their answers are parameters or are not modelled; the sidebar's avatar upload handler is left out for the same reason.
- The validation library's email, uuid and url recognisers are parameters, not definitions. Issue order and message text follow the library's defaults.
- Dates are integer timestamps; time formatting for display (`toLocaleTimeString`) is left out.
- String lengths and `substring` count characters (Unicode scalar values), not UTF-16 code units as JavaScript's `length` does. The lengths agree for every string inside the Basic Multilingual Plane; a character outside it (an emoji, say) counts once here and twice in JavaScript, so the schema length rules, the password length check of the security dialog and the six-character sender label measure such strings differently.
- Lower- and upper-case are ASCII only; JavaScript's full Unicode case mapping is left out, so the new-chat search is case-insensitive for ASCII letters only.
- JSON encoding of stored users and responses is left out: a stored user is the value itself.
- Concurrency is left out. Requests run one at a time, so the race between two simultaneous `createOrGetConversation` calls is not modelled.
- Store failures are a single `storeFails` flag, and the store's own errors beyond the constraints in `Store.Database.Valid` are not modelled.
- `AuthStore.AuthStore.CheckAuth`: its catch branch can never run, because the try block is empty, so it is not modelled.
- `ChatStore.ChatStore.StartConversation`: takes the request's outcome as a parameter; the refetch of conversations that follows it is not modelled.
- Component rendering (markup, styles, dialogs opening and closing beyond the `open` flag) is not modelled.
