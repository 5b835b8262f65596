# MQTT dashboard core, modelled in Dafny

The system is a web dashboard for MQTT brokers. Its server keeps one live broker client per
stored connection record, replays the stored topic subscriptions whenever a client connects,
stores every received message and fans it out to observers, and pushes those messages to
browsers over WebSocket sockets that are kept alive by a ping/pong heartbeat. HTTP routes
gate all of this behind a session (`requireAuth`) or an administrator check
(`requireAdmin`), and the account routes keep ids and usernames distinct. The role and
delete routes never let the last administrator go; the profile route can (see Findings). On the client, a provider tracks who is signed in and shows a welcome
dialog at most once per session; the administrator page computes statistics and filtered
lists.

The project is organised as follows:

- `wrappers.dfy` holds `Option`.
- `seqs.dfy` holds `Filter` (JavaScript's `Array.prototype.filter`) and "keeps the order" (`IsSubsequence`), with their lemmas.
- `text.dfy` holds `trim` (ECMAScript white space and line terminators), ASCII `toLowerCase`, `includes` and `startsWith`.
- `store.dfy` holds the persistence port: connection, topic and message records; the subscribe route's upsert; the unsubscribe acknowledgement's update.
- `mqtt_service.dfy` holds the `MqttService` class:
  - its fields are the registry `clients`, the running library clients, the observer set, a log of broker requests and a log of observer calls;
  - library events and broker acknowledgements are methods;
  - a broker refusal or a throwing store call is a parameter.
- `mqtt_routes.dfy` holds the connect, disconnect, subscribe, unsubscribe and publish routes, including the connect route's re-subscribe loop.
- `user_rules.dfy` holds `requireAuth`, `requireAdmin` and the register, create, delete, role and profile rules over an accounts table. It also holds a lemma over any sequence of account requests.
- `gateway.dfy` holds the WebSocket handler:
  - the active set, with registration of a message handler per socket;
  - cleanup, the heartbeat, and shutdown.
- `auth_context.dfy` holds the client's session state: a transition function, runs of transitions, and the provider class proved against them.
- `admin_dashboard.dfy` holds the administrator page's statistics, filters, upload checks, save payload and delete-button guard.

How the source's promises are modelled:

- A promise that resolves is `Settled(value)`.
- A promise that rejects is `Threw(error)`.
- A promise whose callback throws before resolving is `NeverSettles`. The matching HTTP request then gets no reply (`NoReply`).

## Model

| member | source | states |
|---|---|---|
| Text.Trim | server/routes.ts:616-618 | `trim()` removes white space, and only white space, from both ends: the result is the slice between a white-space prefix and a white-space suffix, it has no white space at either end, and it is empty exactly when the input is blank |
| Text.Contains | client/src/pages/AdminDashboard.tsx:104-106 | `includes` holds exactly when the term occurs at some position |
| Seqs.Filter | client/src/pages/AdminDashboard.tsx:89-97 | the result keeps order, every kept element passes, and every passing element is kept |
| Seqs.FilterComplement | client/src/pages/AdminDashboard.tsx:92-93 | a predicate and its negation split a list: the two counts add up to its length |
| Seqs.FilterDisjoint | client/src/pages/AdminDashboard.tsx:89-90 | two predicates that never hold together count at most the length |
| Seqs.FilterInjective | server/routes.ts:355 | removing rows keeps ids (or any other key) distinct |
| Store.SetConnected | server/services/mqtt.ts:51 | `updateConnection(id, {isConnected})` changes only that record's flag; a missing id changes nothing |
| Store.TopicsOf | server/services/mqtt.ts:55 | `getTopicsByConnection` returns exactly the records of that connection, in store order |
| Store.FindTopic | server/services/mqtt.ts:215-216 | `find(t => t.topic === topic)` gives the first record of the connection with exactly that topic, and none when no record matches |
| Store.Upsert | server/routes.ts:627-640 | an existing record of the topic is updated in place, with the new qos and marked subscribed; otherwise exactly one record is appended; all other records stay |
| Store.UpsertIdempotent | server/routes.ts:627-640 | upserting the same topic twice leaves the same table as upserting it once |
| Store.UpsertCount | server/routes.ts:627-640 | the upsert never duplicates: the count of matching records stays the same, or goes from 0 to 1 |
| Store.MarkFirstUnsubscribed | server/services/mqtt.ts:215-219 | only the first matching record is flagged unsubscribed; it is kept, not deleted |
| Store.MarkFirstUnsubscribedIdempotent | server/services/mqtt.ts:215-219 | unsubscribing twice leaves the same table as unsubscribing once |
| MqttService.ReplayRequests | server/services/mqtt.ts:55-58 | the connect handler sends one subscribe request per stored subscribed record of the connection |
| MqttService.ReplayRequestsComplete | server/services/mqtt.ts:55-58 | every stored subscribed record of the connection is subscribed again, at its stored qos |
| MqttService.ReplayRequestsSound | server/services/mqtt.ts:55-58 | every replayed request names a stored subscribed record of that connection and its qos |
| MqttService.SubscribeEach | server/services/mqtt.ts:56-58 | the loop sends exactly the requests for the given records, in order |
| MqttService.NotifyAll | server/services/mqtt.ts:268-276 | every registered observer is called exactly once with the message; a throwing observer does not stop the others |
| MqttService.Service.GetConnectionStatus | server/services/mqtt.ts:255-258 | true exactly when a client is registered and the library reports it connected |
| MqttService.Service.OnMessage | server/services/mqtt.ts:260-262 | set insertion; nothing else changes |
| MqttService.Service.OffMessage | server/services/mqtt.ts:264-266 | set removal; nothing else changes |
| MqttService.Service.Disconnect | server/services/mqtt.ts:138-161 | the id is unregistered. A registered id resolves true once its flag is written; if that write throws, it never settles. An unregistered id resolves true after one write; if that write throws, the retry in the catch block writes the flag and resolves false, or rejects when it throws too. The new state is `Disconnected` of the old one |
| MqttService.Disconnected | server/services/mqtt.ts:142-158 | the state after a disconnect: the id is out of the registry, the connection records keep their ids, the flag is false when a write went through, and nothing else changes |
| MqttService.Service.HandleConnectEvent | server/services/mqtt.ts:47-65 | the flag is set and the client registered, then the stored subscriptions are replayed; a failing write or topic read stops at that point |
| MqttService.Service.HandleErrorEvent | server/services/mqtt.ts:67-76 | the flag is written false; the registry is unchanged |
| MqttService.Service.HandleCloseEvent | server/services/mqtt.ts:78-86 | the flag is written false and the id unregistered, even when the write throws |
| MqttService.Service.HandleOfflineEvent | server/services/mqtt.ts:88-95 | the flag is written false and the client stays registered |
| MqttService.Service.HandleMessageEvent | server/services/mqtt.ts:101-130 | the message is stored, then one round calls every observer once; a failing store write drops the message |
| MqttService.Service.Connect | server/services/mqtt.ts:15-136 | a missing record gives false and changes nothing. Otherwise any client is disconnected first and the new state is `Connected` of that; the status reads true exactly when a connect ack arrived and its flag write went through; a connect ack resolves true; an error event rejects |
| MqttService.Connected | server/services/mqtt.ts:47-76 | the state after the first library event: a session exists, it is connected exactly on a connect ack, the id is registered (with its flag true) exactly when that ack's flag write went through, and topics, messages and observers are unchanged |
| MqttService.Service.Subscribe | server/services/mqtt.ts:163-200 | refuses, in this order: no client, a disconnected client, a blank topic; each refusal changes nothing. An acknowledged subscribe appends a record |
| MqttService.Service.Unsubscribe | server/services/mqtt.ts:202-224 | needs a registered client; on acknowledgement the first exact match is marked unsubscribed |
| MqttService.Service.Publish | server/services/mqtt.ts:226-253 | needs a registered client; on acknowledgement exactly one message is stored and no observer is called |
| MqttRoutes.Sent | server/routes.ts:571-577 | how many re-subscribe calls reach the broker: none without a live client; every call before the last is acknowledged with a non-blank topic; the loop stops at a blank topic or after a refused call; a refusal of the first call means at most one call; with every call acknowledged, all records up to the first blank topic |
| MqttRoutes.FirstThrow | server/routes.ts:574-576 | the index of the first call that throws (a blank topic or a refused subscribe); every earlier record has a non-blank topic and is acknowledged |
| MqttRoutes.Stored | server/services/mqtt.ts:184-195 | the records written by the first n calls: only acknowledged calls whose write went through, in order, each one of those records |
| MqttRoutes.Resubscribe | server/routes.ts:571-577 | the route's loop subscribes through the service in store order, each call with its own broker answer and store outcome; it completes exactly when every call resolves, and the service ends as `AfterResubscribe` of the calls sent |
| MqttRoutes.ResubscribeLoop | server/routes.ts:571-577 | over records of one connection: completes exactly when no call throws, and the service has exactly the requests of the calls that were sent and the records of the acknowledged calls whose write went through |
| MqttRoutes.ResubscribeStep | server/routes.ts:574-576 | one awaited `subscribe`: a call that settles moves the service one record further; a throwing call leaves it exactly where the loop stops (`Sent`), and the loop cannot complete |
| MqttRoutes.ConnectRoute | server/routes.ts:555-588 | 401 and 400 guards. Then `ConnectRouted`: a registered id whose disconnect write throws gets no reply; an unregistered one whose retry throws too gets 500; a missing record gives false after the disconnect; a rejected connect or a failing topic read gives 500; otherwise the reply is true exactly when the loop completes. The whole new service state is given for each case |
| MqttRoutes.DisconnectConnectResubscribe | server/routes.ts:566-580 | the route body after its guards: disconnect, connect, read the topics, re-subscribe, with the reply and state of `ConnectRouted` |
| MqttRoutes.ConnectRouteSuccess | server/routes.ts:566-580 | a true reply means the connect was acknowledged, the topics were read, the session is connected and the registry agrees with the stored flag |
| MqttRoutes.ConnectRouteAppendsCopies | server/routes.ts:566-580 | the connect route only appends topic records, each a copy of one of the connection's subscribed records, and never touches messages or observers |
| MqttRoutes.DisconnectRoute | server/routes.ts:590-605 | 401 and 400 guards. The reply is true when the first write goes through, none when a registered id's write throws, 500 when an unregistered id's retry throws, and false when only the first write throws. The new state is `Disconnected` of the old one |
| MqttRoutes.SubscribeRoute | server/routes.ts:607-652 | 400 for a blank topic before the lookup; 500 when the lookup throws; then 404. The trimmed topic is upserted; a throwing upsert gives 500 and changes nothing; the service then appends its own record under the raw topic |
| MqttRoutes.UpsertAndSubscribe | server/routes.ts:625-644 | a throwing upsert gives 500 and changes nothing. Otherwise the trimmed topic is upserted into the store, then the raw topic goes to the service; the reply is success exactly when the client is live and the broker acknowledges; the store and broker log are stated for every outcome |
| MqttRoutes.UnsubscribeRoute | server/routes.ts:654-685 | 400 for a blank topic; 500 with nothing changed when reading or updating the record throws. Otherwise the trimmed topic is marked even without a client; the service then marks the raw topic |
| MqttRoutes.PublishRoute | server/routes.ts:687-713 | 400 for a blank topic or a missing payload; an acknowledged publish stores exactly one message |
| UserRules.FindUser | server/routes.ts:340-343 | `getUser` finds a member with that id, or reports that none exists |
| UserRules.FindByName | server/routes.ts:177-181 | `getUserByUsername` finds a member with that name, or reports that none exists |
| UserRules.RequireAuth | server/routes.ts:34-40 | passes exactly when the session holds a truthy user id; otherwise 401 |
| UserRules.RequireAdmin | server/routes.ts:43-58 | 401 without a session, 500 when the lookup fails, 403 unless the stored user is an administrator. It passes exactly when such an administrator row exists |
| UserRules.Register | server/routes.ts:173-203 | 400 for a taken username; otherwise a user with role "user" and a fresh id; distinct ids and names are preserved |
| UserRules.AdminCreate | server/routes.ts:301-328 | 400 for a taken username. The role is taken as given, with "user" as the default; distinctness is preserved |
| UserRules.AdminCountRemove | server/routes.ts:346-352 | removing a user lowers the administrator count by one exactly when that user was an administrator |
| UserRules.RemoveKeepsValid | server/routes.ts:355-356 | removing a present user keeps the table valid, drops exactly one row and at most that user's administrator role |
| UserRules.DeleteUser | server/routes.ts:330-365 | refuses self-deletion (400), an unknown id (404) and the last administrator (400). Otherwise exactly that user goes, the rest keep their order, and an administrator remains |
| UserRules.AdminCountSetRole | server/routes.ts:381-392 | the exact change of the administrator count under a role update |
| UserRules.ChangeRole | server/routes.ts:367-404 | refuses roles outside user/admin, self-demotion and demoting the last administrator; otherwise only the target's role changes |
| UserRules.UpdateProfile | server/routes.ts:406-446 | as written: 400 for an invalid id, 404 for an unknown user, a refusal for a name held by another user, 500 when the store fails. Otherwise only the target row changes: it takes a truthy new username and any role in the body, unchecked, and the administrator count moves accordingly |
| UserRules.UpdateFound | server/routes.ts:421-442 | once the row is found: a name held by another row is refused with 400, a failing store gives 500, otherwise the table is `ProfileWrite` of the row |
| UserRules.ProfileWrite | server/routes.ts:430 | the write of `updateUserProfile`: only the target row changes, to the new name and (when given) role; a free name keeps the table valid, and the administrator count changes exactly as for a role update |
| UserRules.ProfileDemotesLastAdmin | server/routes.ts:406-446 | for a table whose only administrator is user 1, the role route refuses to demote it, while the profile route does so and leaves no administrator |
| UserRules.GuardedUpdateProfile | server/routes.ts:371-446 | the profile route with the role route's checks on a role in the body: roles outside user/admin, self-demotion and demoting the only administrator are refused; otherwise the same as `UpdateProfile`; an administrator always remains |
| UserRules.AccountsStayAdministered | server/routes.ts:173-446 | over any sequence of account requests and store answers, with the profile route checked as in `GuardedUpdateProfile`, ids and names stay distinct and an administrator always remains |
| SocketGateway.Cleaned | server/routes.ts:99-105 | cleanup stops the heartbeat, unregisters the handler and deactivates the socket |
| SocketGateway.CleanedIdempotent | server/routes.ts:141-155 | a second cleanup (a close after an error, say) changes nothing more |
| SocketGateway.ShutDown | server/routes.ts:161-165 | an open socket is closed with 1000 and "Server shutting down"; any other socket is untouched |
| SocketGateway.CloseEach | server/routes.ts:161-165 | every socket stays known; each active one becomes `ShutDown` of itself, every other socket is unchanged |
| SocketGateway.Gateway.Cleanup | server/routes.ts:99-105 | the socket state becomes `Cleaned` of the old one; the invariant "active exactly when its handler is registered" holds |
| SocketGateway.Gateway.OnConnection | server/routes.ts:72-139 | the socket is active and registered; an open socket gets `connection_status` first. If that send throws, the socket is cleaned up and no heartbeat or listener is attached |
| SocketGateway.Gateway.MessageHandler | server/routes.ts:79-97 | only an open socket gets an `mqtt_message` frame; a throwing send cleans it up |
| SocketGateway.Gateway.HeartbeatTick | server/routes.ts:124-135 | with no pong since the last tick the socket is terminated; otherwise the flag is cleared and an open socket is pinged |
| SocketGateway.Gateway.HandlePong | server/routes.ts:137-139 | only the pong flag is set |
| SocketGateway.Gateway.HandleClose | server/routes.ts:141-144 | the socket is closed and cleaned up |
| SocketGateway.Gateway.HandleError | server/routes.ts:146-155 | cleanup, for both `error` and `unexpected-response` |
| SocketGateway.Gateway.GracefulShutdown | server/routes.ts:159-167 | exactly the active open sockets are closed; the server stops accepting connections |
| AuthContext.IsAuthenticated | client/src/contexts/AuthContext.tsx:90 | true exactly when a user is set |
| AuthContext.Next | client/src/contexts/AuthContext.tsx:33-83 | login sets the user and the first-time flag, and opens the welcome only if it was not shown yet. Logout clears four fields. Dismiss clears only the dialog. Every session check ends loading |
| AuthContext.WelcomeShownStays | client/src/contexts/AuthContext.tsx:53-56 | without a logout, a welcome once marked shown is never offered again |
| AuthContext.WelcomeAtMostOnce | client/src/contexts/AuthContext.tsx:49-57 | between logouts the welcome opens at most once |
| AuthContext.SecondLoginNoWelcome | client/src/contexts/AuthContext.tsx:53-56 | a second login without a logout in between does not re-show the welcome |
| AuthContext.CheckedSessionNoWelcome | client/src/contexts/AuthContext.tsx:36-41 | after a successful session check, a later login shows no welcome |
| AuthContext.AuthProvider.IsSignedIn | client/src/contexts/AuthContext.tsx:90 | `isAuthenticated` over the provider's fields |
| AuthContext.AuthProvider.Login | client/src/contexts/AuthContext.tsx:49-57 | the fields become `Next` of the login |
| AuthContext.AuthProvider.Logout | client/src/contexts/AuthContext.tsx:63-83 | the four fields are cleared whether or not the request fails |
| AuthContext.AuthProvider.DismissWelcome | client/src/contexts/AuthContext.tsx:59-61 | only `showWelcome` changes |
| AuthContext.AuthProvider.CheckAuthStatus | client/src/contexts/AuthContext.tsx:33-47 | on success the user is set and the welcome marked shown; loading ends on every path |
| AdminDashboard.ComputeStats | client/src/pages/AdminDashboard.tsx:87-99 | active plus inactive equals the total; administrators plus regular users at most the total; last-24h at most the total; health 95 exactly when a connection is up, else 70 |
| AdminDashboard.FilteredUsers | client/src/pages/AdminDashboard.tsx:102-108 | an order-keeping selection of exactly the rows matching role and search; with no filter set, all rows |
| AdminDashboard.VisibleConnections | client/src/pages/AdminDashboard.tsx:110-112 | all connections, or exactly the connected ones in order |
| AdminDashboard.FilteredMessages | client/src/pages/AdminDashboard.tsx:114-121 | at most 100 messages, in order; for 'all' the first min(100, n); otherwise exactly the first min(100, k) of the k matching messages in their order (`Filter`), so only matching messages, all of them when fewer than 100 match |
| AdminDashboard.ImageUpload | client/src/pages/AdminDashboard.tsx:257-284 | over 2·1024·1024 bytes is refused first, then a non-`image/` type; only other files are read |
| AdminDashboard.SaveUserProfile | client/src/pages/AdminDashboard.tsx:295-312 | nothing is sent without an edited user; the image is included exactly when it changed |
| AdminDashboard.SaveRoundTrip | client/src/pages/AdminDashboard.tsx:306-309 | applying the saved payload leaves the user with exactly the edited image |
| AdminDashboard.DeleteEnabledKeepsAdmin | client/src/pages/AdminDashboard.tsx:787 | deleting any row whose delete button is enabled leaves an administrator |

## Left out

- I/O and timing are not modelled:
  - the MQTT wire protocol, the `mqtt` library's options, keepalive and automatic reconnect;
  - the 15-second connect timeout (mqtt.ts:42-45), the 30-second heartbeat period, and the clock;
  - JSON encoding, ISO dates and payload decoding in `message` events (mqtt.ts:104-118).
- Library events arrive as explicit method calls in an order the caller chooses; concurrency between them is not modelled.
- The `reconnect` event (mqtt.ts:97-99) only logs, and is not modelled.
- Events of a library client that was replaced without being ended are not modelled. Such replacements are recorded in `orphans`.
- MqttService.Service.Connect: a failing connection lookup, and a failing write inside its internal disconnect, are not modelled; that disconnect is taken to succeed. The route's own disconnect before it, with both of its writes failing or not, is modelled.
- Storage is abstract:
  - row ids and timestamps are not kept;
  - a topic record is addressed by its position;
  - user rows keep only id, username and role;
  - `updateUserProfile` fields other than the username and the role are not modelled;
  - password hashing, the session store and schema validation are not modelled.
- `UserRules.User` usernames compare exactly. The store's collation, which may treat names that differ only in case as equal, is not modelled.
- UserRules.AdminCreate: any non-empty role in the body is stored as given; the store's rejection of a role outside its role values is not modelled apart from `createFails`, which covers any failing insert.
- UserRules.UpdateProfile: the 500 "Failed to retrieve updated user" after a successful write (routes.ts:431-436) is not modelled, since the row just written is always found again; nor is a role outside the store's role values rejected by the store.
- The second `DELETE /api/admin/users/:id` handler (routes.ts:448-477) is never reached, because the first registered handler always responds.
- These routes are outside this model: login, logout, me, and the administrator list routes (routes.ts:205-299); connection CRUD and message queries (routes.ts:479-810); and the AI analysis route.
- A non-numeric `:id` on the delete and role routes passes `NaN` to the store. The model takes ids as integers.
- `Text.Lower` maps only A-Z. Full Unicode lower-casing is not modelled.
- AdminDashboard.FilteredMessages: timestamps are integers in milliseconds. An unparsable timestamp, which JavaScript compares as false, is not modelled.
- AuthContext.Next: login reads `welcomeShown` as of the last render. Two logins inside one render are not modelled. Transitions apply one after another.
- AuthContext.AuthProvider.CheckAuthStatus: a response whose JSON body fails to parse is treated like a failed request. The effect is the same: only loading ends.
- The floating-point percentages and progress bars on the dashboard, rendering, export, `FileReader` and date formatting are not modelled.
- `client/src/main.tsx`, `Login.tsx`, `App.tsx` and the UI components hold no logic this model covers. `database.ts` is not part of this model.
- The gateway's handler always catches its send errors, so it never throws into the service's notification round. The link between an `Invocation` and `Gateway.MessageHandler` is stated in prose only.

## Findings

| source | as written | input that shows it | evidently intended | confidence | as-written member | corrected member |
|---|---|---|---|---|---|---|
| server/routes.ts:406-446 | the profile route passes the whole request body, role included, to `updateUserProfile` without any of the role route's checks (client/src/pages/AdminDashboard.tsx:303 sends the role this way) | a table whose only administrator is user 1, and `PATCH /api/admin/users/1` from user 1 with body `{ "role": "user" }` | a role in the profile body is checked as in `PATCH /api/admin/users/:id/role` (routes.ts:371-390): user or admin only, no self-demotion, never the last administrator | medium, not executed; `updateUserProfile` is taken to write the role it is given | UserRules.UpdateProfile, UserRules.ProfileDemotesLastAdmin | UserRules.GuardedUpdateProfile, UserRules.AccountsStayAdministered |
