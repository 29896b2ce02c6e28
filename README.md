# learning-demo-app in Dafny

A model of the logic of learning-demo-app. The app is a blog-and-chat demo: an Express back end over
Postgres and Redis with a socket.io chat server, and a Next.js front end. The model covers these parts:

- **Chat server** (`ChatServer`, `websocket.dfy`). The class `Hub` holds:
  - the live connections;
  - the socket.io rooms;
  - the Redis set `online_users`;
  - the per-user hashes `user:<id>`;
  - the `chat:history` list.

  There is one method per event: handshake with connect, `message`, `typing`, `join_room`, `leave_room`
  and `disconnect`. There is also one method per exported helper: `getIO`, `emitToUser` and `emitToAll`.
  Each event that sends something returns a `Delivery`: the event name, the message, and a multiset
  saying how many copies each connection receives. `typing` returns an optional `Delivery`, because it
  sends nothing without `to` or `room`. A socket's arrival returns a `Result`: the handshake error, or the
  `Delivery` of the connection handler. The delivery rules are:
  - `io.to(r)` reaches every member of `r`;
  - `socket.to(r)` reaches every member of `r` except the sender;
  - `io.emit` reaches every connection.

  Three behaviours are kept as written:
  - a private message is echoed back to its sender;
  - a room message reaches the sender only if the sender has joined the room;
  - a disconnect removes the user from the online set even while another tab of that user is still
    connected. `TwoTabsScenario` walks through that case.
- **Post routes** (`PostRoutes`, `posts.ts`). The class `PostService` holds the `posts` table, newest
  first, and the Redis cache in front of it. The model covers:
  - pagination defaults and arithmetic;
  - the cache keys;
  - the 404-before-403 ownership gate;
  - lookups by uuid value: `WHERE id = $1` on the `uuid` column finds a post under any spelling of its
    uuid, while the cache key `post:<id>` keeps the spelling of the request. `OtherSpellingStaysCached`
    shows that an update or delete through one spelling leaves a post cached under another spelling;
  - the `COALESCE` update and `content || ''` on create;
  - invalidation. Invalidation deletes the literal key `posts:*`, so cached listing pages survive
    every write. `ListInvalidationKeepsPages` states this.
- **Authentication**:
  - the bearer-token middlewares (`AuthMiddleware`);
  - the register and login outcome chains (`AuthRoutes`);
  - the passport JWT lookup and the Google find-or-create / account-linking rule (`Passport`);
  - all of these over the `users` table (`Users.UserTable`).
- **Validation** (`Validation`). The zod schemas of the auth and post routes are written as data, with a
  declarative meaning (`Conforms`) and the issue list zod reports. `validate` answers 400 with one
  detail per issue, whose `field` is the issue path joined with `.`.
- **Redis helpers** (`Redis`): the reconnect back-off, `cacheGet` / `cacheSet` / `cacheDelete` /
  `cacheDeletePattern` over a key map, `KEYS` glob matching, and `LPUSH` / `LTRIM`.
- **Client state**:
  - the posts list component (`PostsListClient.PostsListView`);
  - the chat page (`ChatClient.ChatView`). `ReplayMirrorsServer` shows that replaying the server's
    presence broadcasts keeps the client's online list free of duplicates and equal, as a set, to the
    server's online set.

Some things are not modelled as code. They appear as parameters:
- password hashing and comparison (bcrypt);
- token signing and verification (jsonwebtoken);
- the email and UUID format checks (zod);
- clocks (`now`);
- ids generated by the database (`newId`);
- whether an analytics insert or a query succeeds.

A token is represented by the claims `{ userId, email }` it was signed over.

`Strings` and `Lists` write out the JavaScript primitives the code relies on:
- `split`, `join`, `startsWith`, `trim` and decimal `parseInt`;
- number-to-string conversion of integers;
- `filter`, `map`-by-id and `[...new Set(xs)]`.

## Model

| member | source | states |
|---|---|---|
| Redis.RetryStrategy | backend/src/database/redis.ts:8-11 | the reconnect delay never exceeds 2000 ms, is 50·t for the first 40 attempts and 2000 from the 40th on |
| Redis.RetryStrategyMonotone | backend/src/database/redis.ts:8-11 | a later attempt never waits less than an earlier one |
| Redis.Read | backend/src/database/redis.ts:23-27 | `cacheGet` yields null exactly when the key is missing or holds the empty string, and otherwise the stored value |
| Redis.ReadAfterWrite | backend/src/database/redis.ts:23-35 | a value written by `cacheSet` is read back unchanged by `cacheGet` on the same key |
| Redis.Cache.Get | backend/src/database/redis.ts:23-27 | the helper returns what `Read` describes and changes nothing |
| Redis.Cache.Set | backend/src/database/redis.ts:29-35 | only that key changes; it now holds the value with the given TTL, 3600 seconds when none is given |
| Redis.Cache.Delete | backend/src/database/redis.ts:37-39 | exactly the literal key is removed, with no pattern reading, and every other key is kept |
| Redis.Cache.DeletePattern | backend/src/database/redis.ts:41-46 | every key matching the pattern is removed and no other; the delete is issued iff some key matches |
| Redis.MatchingKeys | backend/src/database/redis.ts:42 | `KEYS` returns every stored key the pattern matches, and no other |
| Redis.Matches | backend/src/database/redis.ts:42 | glob matching as `KEYS` applies it; a pattern without glob characters matches exactly the key equal to it |
| Redis.LPush | backend/src/websocket/index.ts:87 | `LPUSH` puts the value at the head and shifts every older element one place back |
| Redis.LTrim | backend/src/websocket/index.ts:88 | `LTRIM` keeps exactly the elements from `start` to `stop` inclusive, cut at the end of the list, in order |
| Redis.MatchesPrefixStar | backend/src/database/redis.ts:42 | `prefix*` matches every key that starts with the prefix |
| Strings.Split | backend/src/middleware/auth.ts:20 | `split` yields at least one piece and no piece holds the separator |
| Strings.JoinSplit | backend/src/middleware/validation.ts:19 | joining the pieces of a split gives back the string |
| Strings.SplitJoin | backend/src/middleware/validation.ts:19 | splitting a join of separator-free pieces gives back the pieces |
| Strings.ParseInt | backend/src/routes/posts.ts:16-17 | `parseInt` gives NaN for blank text and for text starting with a character that is neither white space, a sign nor a digit; text starting with a digit gives a non-negative number |
| Strings.ParseIntOfIntToString | backend/src/routes/posts.ts:16-17 | `parseInt` reads back every integer written in decimal |
| Strings.IntToStringInjective | backend/src/routes/posts.ts:20 | different integers are written as different strings |
| Strings.TrimEmptyIffBlank | frontend/src/app/chat/page.tsx:75 | `trim()` is empty exactly when the input is all white space |
| Lists.Filter | frontend/src/components/PostsList.tsx:94 | the result holds every passing element as many times as the input does, and no other element |
| Lists.FilterIsSubseq | frontend/src/components/PostsList.tsx:94 | `filter` keeps the surviving elements in their original order |
| Lists.ReplaceWhere | frontend/src/components/PostsList.tsx:72 | replacing by id keeps the length and every position that does not match |
| Lists.First | backend/src/config/passport.ts:52 | the first row satisfying the query condition, or none exactly when no row satisfies it |
| Lists.Dedup | frontend/src/app/chat/page.tsx:55 | `[...new Set(xs)]` has no duplicates, the same elements as `xs`, and orders them by their first occurrence in `xs` |
| Lists.AppendUnique | frontend/src/app/chat/page.tsx:55 | on a duplicate-free list, adding `x` through a Set appends it only when it is absent |
| Users.WithoutPassword | backend/src/routes/auth.ts:115 | the user sent to the client keeps every column of the row except the password |
| Users.SessionColumns | backend/src/middleware/auth.ts:22-25 | `req.user` holds the row's id, email, name and avatar, and no Google id |
| Users.ByIdFindsRow | backend/src/middleware/auth.ts:23-26 | in a table with unique keys, the lookup by id finds the one row with that id |
| Users.ByEmailFindsRow | backend/src/routes/auth.ts:79-89 | in a table with unique keys, the lookup by email finds the one row with that email |
| Users.LinkRows | backend/src/config/passport.ts:56-59 | the linking UPDATE sets google_id and avatar on the row with that id and leaves every other row alone |
| Users.UserTable.Insert | backend/src/routes/auth.ts:37-42 | the INSERT succeeds iff it breaks no key constraint (id, email, google_id); it then appends the row and otherwise changes nothing; the keys stay unique |
| Users.UserTable.Link | backend/src/config/passport.ts:56-59 | the linking UPDATE succeeds iff no other row holds that google_id; the keys stay unique |
| Validation.IssuesEmptyIffConforms | backend/src/middleware/validation.ts:7-12 | zod reports no issue exactly when the request satisfies every field of every part of the schema |
| Validation.IssuePaths | backend/src/middleware/validation.ts:18-21 | every issue path has two segments: the request part and the field |
| Validation.Details | backend/src/middleware/validation.ts:18-21 | one detail per issue, in order, whose field is the path joined by '.' and whose message is the issue's |
| Validation.Validate | backend/src/middleware/validation.ts:4-28 | a non-zod error goes to `next(error)`; otherwise `next()` happens iff the request conforms, and a failure gives 400 'Validation failed' with a non-empty list of details |
| Validation.DetailFieldRoundTrip | backend/src/middleware/validation.ts:19 | a detail's field splits back on '.' into the issue's path |
| Validation.RegisterRule | backend/src/middleware/validation.ts:32-38 | registration is accepted iff the email has email format, the password has at least 8 characters and the name at least 2 |
| Validation.LoginRule | backend/src/middleware/validation.ts:39-44 | login is accepted iff the email has email format and the password is non-empty |
| Validation.CreatePostRule | backend/src/middleware/validation.ts:48-53 | creating is accepted iff the title has 1 to 255 characters and content, if present, is a string |
| Validation.UpdatePostRule | backend/src/middleware/validation.ts:54-62 | updating is accepted iff the id is a UUID, a title, if present, has 1 to 255 characters, and content, if present, is a string |
| Validation.GetPostRule | backend/src/middleware/validation.ts:63-67 | fetching one post is accepted iff the id is a UUID |
| Validation.RegisterOnlyEmailRejected | backend/src/middleware/validation.ts:32-38 | a registration body holding only `email: 'invalid-email'` is answered 400 |
| AuthMiddleware.BearerToken | backend/src/middleware/auth.ts:13-20 | there is a token iff the header is present, non-empty and starts with exactly 'Bearer ' |
| AuthMiddleware.BearerTokenOf | backend/src/middleware/auth.ts:20 | the token is the text after 'Bearer ' up to the next space, so "Bearer a b" yields "a" |
| AuthMiddleware.NoBearerNoToken | backend/src/middleware/auth.ts:15-18 | an absent header, an empty one, 'Bearer' alone, a lower-case 'bearer' or another scheme carries no token |
| AuthMiddleware.DoubleSpaceEmptyToken | backend/src/middleware/auth.ts:20 | with two spaces after 'Bearer', `split(' ')[1]` is the empty string, so the token read is empty whatever follows, as in `Bearer  abc` |
| AuthMiddleware.Authenticate | backend/src/middleware/auth.ts:7-42 | no token gives 401 'No token provided'; a JWT error gives 401 'Invalid token'; any other verification error or a failed query gives 500 'Authentication error'; no row gives 401 'User not found'; admission happens iff the token verifies, the query succeeds and the user exists, and the admitted user is that row's session columns |
| AuthMiddleware.IssuedTokenAdmits | backend/src/middleware/auth.ts:21-34 | a token signed for a row of the table admits exactly that row |
| AuthMiddleware.DeletedUserRefused | backend/src/middleware/auth.ts:28-31 | a valid token whose user has no row gives 401 'User not found' |
| AuthMiddleware.AuthenticateJWT | backend/src/middleware/auth.ts:7-42 | admission sets `req.user` and calls `next()` once; a refusal sends its status and error and does not call `next` |
| AuthMiddleware.OptionalAuth | backend/src/middleware/auth.ts:44-73 | always calls `next()` exactly once and sends no response; `req.user` is set iff authentication would admit |
| AuthRoutes.NewAccount | backend/src/routes/auth.ts:34-42 | the inserted row stores the hash of the password, never the password, and has no Google id or avatar |
| AuthRoutes.Register | backend/src/routes/auth.ts:15-69 | an existing email gives 400 'Email already registered' and no insert; a failed insert gives 500; otherwise the row is appended and the reply is 201 with the user without password and the claims {id, email}, or 500 if analytics fails |
| AuthRoutes.Login | backend/src/routes/auth.ts:72-126 | an unknown email or a wrong password gives 401 'Invalid credentials'; an account without a password gives 401 'Please use Google login'; a correct password with a failed analytics insert gives 500 'Login failed'; success happens iff the account has a password, it compares equal and analytics succeeds, and returns the user without password and the claims {id, email} |
| AuthRoutes.GoogleOnlyAccount | backend/src/routes/auth.ts:91-94 | an account without a password gets 401 'Please use Google login', whatever the comparison would say |
| AuthRoutes.WrongPasswordLooksUnknown | backend/src/routes/auth.ts:84-101 | a wrong password is answered exactly like an unknown email |
| AuthRoutes.RegisterThenLogin | backend/src/routes/auth.ts:34-120 | after a registration, logging in with the same password returns the registered user and token payload |
| AuthRoutes.LoginTokenAuthenticates | backend/src/routes/auth.ts:103-107 | the token a login issues opens `authenticateJWT` for the same account |
| Passport.JwtLookup | backend/src/config/passport.ts:15-30 | a query error gives `done(error, false)`; no row gives `done(null, false)`; otherwise `done(null, user)` with that row's columns |
| Passport.JwtLookupAgreesWithMiddleware | backend/src/config/passport.ts:15-30 | for the same token text after `Bearer `, with no space in it, the strategy's lookup admits exactly the user the middleware admits: the one whose id the token carries, with the same id, email, name and avatar |
| Passport.GoogleEnabled | backend/src/config/passport.ts:35 | the Google strategy is registered only when both the client id and the secret are set and non-empty |
| Passport.GoogleAccount | backend/src/config/passport.ts:66-76 | a new Google account has the profile's email, name, id and photo, and no password |
| Passport.GoogleVerify | backend/src/config/passport.ts:43-81 | a match by google_id or email inserts nothing; it links google_id and avatar only when google_id is unset, and returns the row as read before linking; with no match a profile without email fails and one with email inserts the new account |
| Passport.LinkKeepsIdentity | backend/src/config/passport.ts:55-60 | linking leaves every row's token payload and password as they were, and other rows untouched |
| Passport.LinkedAccountIsFoundAgain | backend/src/config/passport.ts:46-60 | after linking, the next sign-in with that profile finds the same account, which now has a google_id and is not linked again |
| PostRoutes.QueryNumber | backend/src/routes/posts.ts:16-17 | an absent, non-numeric or zero value gives the default, and the result is never zero |
| PostRoutes.QueryNumberOfText | backend/src/routes/posts.ts:16-17 | a non-zero integer in the query is used as given |
| PostRoutes.Offset | backend/src/routes/posts.ts:18 | the offset is 0 on page 1, never negative for a page of at least 1 and a non-negative limit, and negative for a page below 1 with a positive limit |
| PostRoutes.PageKey | backend/src/routes/posts.ts:20 | the listing key starts with `posts:page:` followed by the page, `:limit:` and the limit |
| PostRoutes.PostKey | backend/src/routes/posts.ts:80 | the post key is `post:` followed by exactly the id |
| PostRoutes.TotalPages | backend/src/routes/posts.ts:31 | the page count is the ceiling of total / limit |
| PostRoutes.Window | backend/src/routes/posts.ts:38-45 | `LIMIT/OFFSET` yields at most `limit` consecutive rows starting at the offset, and a full page when enough rows follow |
| PostRoutes.EveryPostOnItsPage | backend/src/routes/posts.ts:18-60 | every post appears on page ⌊i/limit⌋+1 at position i mod limit, and that page is within the reported page count |
| PostRoutes.PageKeyFields | backend/src/routes/posts.ts:20 | the listing key splits on ':' into `posts`, `page`, the page, `limit` and the limit |
| PostRoutes.PageKeyInjective | backend/src/routes/posts.ts:20 | different page/limit pairs never share a listing key |
| PostRoutes.PostKeyNotPageKey | backend/src/routes/posts.ts:80 | a post key is never a listing key |
| PostRoutes.ListInvalidationKeepsPages | backend/src/routes/posts.ts:129 | deleting `posts:*` leaves every cached listing page readable, although each listing key matches `posts:*` as a pattern |
| PostRoutes.OwnerGate | backend/src/routes/posts.ts:151-164 | 404 'Post not found' iff no post holds the uuid the id names; otherwise 403 'Not authorized' iff its author is another user; otherwise the gate passes |
| PostRoutes.FindPostUnique | backend/src/routes/posts.ts:151-154 | with unique uuids, every spelling of a stored post's uuid finds that very post, and no other row matches it |
| PostRoutes.Coalesced | backend/src/routes/posts.ts:166-174 | the update takes each supplied field and keeps each missing one; id and author never change |
| PostRoutes.CreateContent | backend/src/routes/posts.ts:125 | content that is absent or empty is stored as '' |
| PostRoutes.UpdateTouchesOnlyThatPost | backend/src/routes/posts.ts:166-174 | the update replaces only the post with that uuid, keeping the length, the order and unique uuids |
| PostRoutes.DeleteRemovesExactly | backend/src/routes/posts.ts:212 | the delete removes every post with that uuid and keeps all others in order |
| PostRoutes.PostService.List | backend/src/routes/posts.ts:11-70 | a cached page answers from the cache without touching the table; a negative offset or limit gives 500; otherwise the window and total are answered and cached under the page key for 300 seconds |
| PostRoutes.PostService.GetById | backend/src/routes/posts.ts:73-109 | a post cached under `post:<id>`, as the request spells the id, answers from the cache; otherwise an id that is not a uuid gives 500, no post with that uuid gives 404 and caches nothing, and a found post is cached under `post:<id>` for 600 seconds |
| PostRoutes.PostService.Create | backend/src/routes/posts.ts:112-137 | a generated id that is not a fresh uuid gives 500 and changes nothing; otherwise the new post, with the caller as author and `content` or '', goes before all earlier posts, 201, and only the key `posts:*` is deleted |
| PostRoutes.PostService.Update | backend/src/routes/posts.ts:140-186 | an id that is not a uuid gives 500; 404 or 403 change nothing; otherwise the post with that uuid gets the merged fields and the keys `post:<id>`, as the request spells it, and `posts:*` are deleted |
| PostRoutes.PostService.Delete | backend/src/routes/posts.ts:189-224 | an id Postgres cannot read as a uuid gives 500 'Failed to delete post' and changes nothing, since the route validates nothing; 404 or 403 change nothing; otherwise exactly the posts with that uuid are removed and the keys `post:<id>`, as the request spells it, and `posts:*` are deleted |
| PostRoutes.OtherSpellingStaysCached | backend/src/routes/posts.ts:177-178 | invalidating `post:<id>` for one spelling of a uuid leaves the entry cached under any other spelling readable |
| PostsListClient.ControlsMatchOwnerGate | frontend/src/components/PostsList.tsx:200 | the edit and delete controls appear exactly for posts the server's ownership gate lets through |
| PostsListClient.PostsListView.HandleCreate | frontend/src/components/PostsList.tsx:27-54 | without a token nothing happens; on an ok response the post is prepended and the form is cleared and closed; a failure keeps the list; loading ends false |
| PostsListClient.PostsListView.HandleUpdate | frontend/src/components/PostsList.tsx:56-82 | without a token nothing happens; on an ok response only the posts with that id are replaced and the editor closes with an empty form; loading ends false |
| PostsListClient.PostsListView.HandleDelete | frontend/src/components/PostsList.tsx:84-99 | without a token or confirmation nothing happens; on an ok response every post with that id is removed |
| PostsListClient.PostsListView.StartEdit | frontend/src/components/PostsList.tsx:101-105 | the editor opens on the post with its title and content |
| ChatServer.Handshake | backend/src/websocket/index.ts:25-40 | the token comes from `auth.token`, else from the query; with neither the reply is 'Authentication required'; a failed verification is 'Invalid token'; otherwise the result is the decoded userId and email |
| ChatServer.Joined | backend/src/websocket/index.ts:109 | joining adds the socket to that room only |
| ChatServer.Left | backend/src/websocket/index.ts:119 | leaving removes the socket from that room only |
| ChatServer.LeftAll | backend/src/websocket/index.ts:128 | a disconnected socket is in no room |
| ChatServer.ToRoom | backend/src/websocket/index.ts:76 | `io.to(r)` reaches each member of `r` once |
| ChatServer.ToOthers | backend/src/websocket/index.ts:103 | `socket.to(r)` reaches each member of `r` except the sender once |
| ChatServer.ToAll | backend/src/websocket/index.ts:83 | `io.emit` reaches every connection once |
| ChatServer.ChatRecipients | backend/src/websocket/index.ts:74-84 | `to` wins: that user's room plus one echo to the sender; otherwise `room` gives the room's members, the sender included if joined; otherwise every connection |
| ChatServer.TypingRecipients | backend/src/websocket/index.ts:100-104 | `to` gives that user's room; otherwise `room` gives the room's members except the sender; with neither nothing is sent |
| ChatServer.ApplyPresence | backend/src/websocket/index.ts:46-48 | a presence broadcast for a user id changes only that user's membership: in after 'online', out after any other status; no user id or another event changes nothing |
| ChatServer.RecordMessage | backend/src/websocket/index.ts:87-88 | the history becomes the new message followed by the older ones, cut to 100 |
| ChatServer.NewestIsReversedPrefix | backend/src/websocket/index.ts:87-88 | after any run of messages the history is the newest 100 messages, newest first |
| ChatServer.ConnectConsistent | backend/src/websocket/index.ts:46-52 | connecting keeps rooms made of live connections and every online user backed by a live connection and a record |
| ChatServer.DisconnectConsistent | backend/src/websocket/index.ts:131-134 | disconnecting keeps the same invariant |
| ChatServer.Hub.Init | backend/src/websocket/index.ts:15-22 | the server becomes available and the Redis state is kept |
| ChatServer.Hub.GetIO | backend/src/websocket/index.ts:147-152 | throws 'Socket.io not initialized' exactly before initialisation |
| ChatServer.Hub.EmitToUser | backend/src/websocket/index.ts:154-156 | reaches the members of `user:<id>` |
| ChatServer.Hub.EmitToAll | backend/src/websocket/index.ts:158-160 | reaches every connection |
| ChatServer.Hub.Connect | backend/src/websocket/index.ts:42-59 | the user is online; the record holds this socket and time; the socket is in `user:<id>`; every connection, the new one included, gets one presence 'online' |
| ChatServer.Hub.Attach | backend/src/websocket/index.ts:25-59 | a refused handshake changes nothing and returns the error; an accepted one connects the socket with exactly the decoded userId and email, joins it to its own room and `user:<id>`, updates the online set and record as `Connect` does, keeps the history, and returns the 'online' presence sent to every connection |
| ChatServer.Hub.Message | backend/src/websocket/index.ts:62-89 | the message goes to the recipients `ChatRecipients` gives; the history becomes `RecordMessage` of it; nothing else changes |
| ChatServer.Hub.Typing | backend/src/websocket/index.ts:92-105 | the indicator is sent per `TypingRecipients` and never to the sender of a room indicator; no state changes |
| ChatServer.Hub.JoinRoom | backend/src/websocket/index.ts:108-115 | only this socket's membership of the room changes; the notice reaches the other members and never the sender |
| ChatServer.Hub.LeaveRoom | backend/src/websocket/index.ts:118-125 | only this socket's membership of the room changes; the notice reaches the other members and never the sender |
| ChatServer.Hub.Disconnect | backend/src/websocket/index.ts:128-141 | the socket leaves every room; its user leaves the online set; `lastSeen` is updated and the record kept; presence 'offline' goes to the remaining connections |
| ChatServer.TwoTabsScenario | backend/src/websocket/index.ts:131-132 | closing one of two tabs of a user lists that user offline while the other tab is still connected |
| ChatServer.PersonalRoomIsOpen | backend/src/websocket/index.ts:108-109 | a socket that joins another user's `user:<id>` room receives that user's private messages |
| ChatClient.OnPresenceList | frontend/src/app/chat/page.tsx:52-60 | the list stays duplicate-free and, as a set, changes as the server's online set does |
| ChatClient.OnlineAppendsOnce | frontend/src/app/chat/page.tsx:54-55 | 'online' appends the user only if absent, and keeps the order |
| ChatClient.OfflineRemovesAll | frontend/src/app/chat/page.tsx:56-57 | any other status removes every occurrence of the user and keeps the others in order |
| ChatClient.ReplayMirrorsServer | frontend/src/app/chat/page.tsx:52-60 | replaying the same presence broadcasts keeps the client list duplicate-free and equal, as a set, to the server's online set |
| ChatClient.ChatView.Mount | frontend/src/app/chat/page.tsx:30-36 | no socket is created without a token |
| ChatClient.ChatView.OnConnect | frontend/src/app/chat/page.tsx:38-41 | `isConnected` becomes true and nothing else changes |
| ChatClient.ChatView.OnDisconnect | frontend/src/app/chat/page.tsx:43-46 | `isConnected` becomes false and nothing else changes |
| ChatClient.ChatView.OnMessage | frontend/src/app/chat/page.tsx:48-50 | the message is appended after all earlier ones, which are unchanged |
| ChatClient.ChatView.OnPresence | frontend/src/app/chat/page.tsx:52-60 | the list becomes `OnPresenceList` of the event and stays duplicate-free |
| ChatClient.ChatView.SendMessage | frontend/src/app/chat/page.tsx:73-79 | without a socket, or with a blank input, nothing happens; otherwise exactly the input is emitted and the input is cleared |

## Left out

- Password hashing and comparison, token signing, verification and expiry, the zod email and UUID
  formats, and Postgres's reading of text as a `uuid` value are parameters. So are the database's generated ids and the clock.
- The MySQL analytics inserts are modelled only as a flag saying whether they succeed. Console logging is
  not modelled.
- Query failures are modelled only where they decide an outcome the source distinguishes:
  - the user lookup in `authenticateJWT` and the JWT strategy;
  - insert conflicts;
  - a negative `OFFSET` or `LIMIT`;
  - a post id that is not a uuid, or a generated id that collides.

  Any other failed Postgres query, which would give each route's 500 reply, is not modelled.
- Redis.Cache: Redis commands never fail in the model. With ioredis a command rejects when the
  connection is down, and the model does not capture what follows:
  - in `PostRoutes.PostService.List` and `GetById` a failed cache read gives the route's 500;
  - in `Create`, `Update` and `Delete` a failed cache delete gives 500 after the Postgres write has
    committed;
  - in `ChatServer.Hub.Connect` and `Attach` a failed `SADD` or `HSET` ends the connection handler
    before the `user:<id>` join and the 'online' broadcast;
  - in `ChatServer.Hub.Message` and `Disconnect` a failed `LPUSH`, `LTRIM`, `SREM` or `HSET` ends the
    handler part-way.
- Passport.FindProfile: takes the first matching row in table order. The query `google_id = $1 OR
  email = $2` has no `ORDER BY`, so when the Google id matches one account and the email another,
  Postgres may return either. `Passport.GoogleVerify` therefore promises one fixed outcome where the app
  may return the Google-id account, return the email account, or fail the linking update on the unique
  `google_id`.
- Redis TTLs are recorded but never expire. Listing pages therefore stay stale until replaced in the
  model, where in the app they expire after 300 seconds.
- JSON serialisation in the cache and over the socket is the identity. Dates, which come back from JSON
  as strings, are plain integers.
- Passport.JwtLookupAgreesWithMiddleware: passport-jwt's own header extraction
  (`ExtractJwt.fromAuthHeaderAsBearerToken`) is not modelled, so the agreement is stated for a token
  text, not for a header. That extractor compares the scheme without regard to case and splits on any
  run of white space. So it reads the token `abc` from `bearer abc`, `Bearer\tabc` and `Bearer  abc`,
  where `authenticateJWT` refuses the first two (`AuthMiddleware.NoBearerNoToken`) and reads an empty
  token from the third (`AuthMiddleware.DoubleSpaceEmptyToken`). No route authenticates with the `jwt`
  strategy; only `google` is used.
- Users.SessionColumns: user rows have no `created_at`/`updated_at`. `authenticateJWT` selects both
  timestamps into `req.user`, and the JWT strategy selects neither, so the two users differ in those
  columns in the app, where the model gives both the same four columns.
- Post rows lack `created_at`/`updated_at` and the joined `author_name`/`author_avatar`. `ORDER BY
  created_at DESC` is modelled by keeping the table newest first.
- Strings.ParseInt: hexadecimal prefixes and array-valued query parameters are not modelled.
- Strings.ParseInt: integers are unbounded, where JavaScript numbers are doubles. Above 2^53 the page
  and limit `parseInt` yields are rounded in the app, and so are `PostRoutes.Offset`, `PostRoutes.PageKey`
  and the page count computed from them.
- Strings.IntToString: the exponent form JavaScript uses for integers of 10^21 and above is not
  modelled.
- Redis.Matches: bracket classes `[...]` in `KEYS` patterns are read as literal characters.
- ChatServer.Hub.Init: modelled for a single call at start-up over an empty Redis. Redis content
  left by an earlier process, and a second `initWebSocket`, are not modelled.
- ChatServer.Hub.GetIO: returns a flag in place of the server object.
- The socket.io transport, CORS and the handshake plumbing are not modelled. Each event handler runs as
  one atomic step, so interleavings of the awaited Redis calls are not modelled. The same holds for the
  React state updates in the client components.
- `GET /auth/me`, `POST /auth/logout` and the Google callback's redirect URL are not modelled.
- Validation.CheckPasses: string lengths are counted in characters (Unicode scalar values), where zod's
  `.min` and `.max` count UTF-16 code units. A character outside the Basic Multilingual Plane, such as
  an emoji, counts once here and twice in the app. So a password of four emoji meets `.min(8)` in the app
  but not in `Validation.RegisterRule`, and the same shift applies to the bounds in `LoginRule`,
  `CreatePostRule` and `UpdatePostRule`.
- Validation: zod's stripping of unknown keys is not modelled, and neither is a request part that is
  not an object. The type name in 'Expected string, received …' is given with the value.
- All rendering is out: JSX, icons, date formatting, scrolling and the Cancel button.
