# Meme Coin Velocity Dashboard relay, modelled in Dafny

The backend of the dashboard (`api/index.js`) is a relay. Browser dashboards
connect over a WebSocket and send `SUBSCRIBE` with a token address and a pair
address. The relay then opens a GraphQL-over-WebSocket session to the GoldRush
streaming API, subscribes to the wallet activity of the token, picks the ERC-20
`Transfer` logs emitted by the token out of each streamed transaction, decodes
them, tags each as a whale movement or not, and broadcasts `NEW_TRANSFER` to every
OPEN dashboard. Two REST lookups run beside the stream: the token's balances
entry, which gives the decimals used for scaling and a `TOKEN_INFO` message, and
the top 50 holders, which become the whale set and are refreshed every five
minutes.

The model is one class, `Relay.RelayServer`. Its fields are the module-level
state of the script: token and pair address, decimals, whale set, subscription
counter, the upstream socket (none, or a socket in one of the four WebSocket ready
states), and the dashboard connections with their ready states. Ghost fields
record what the relay does to the outside world:

- `outbox`: every broadcast message, in order;
- `deliveries`: every send to a dashboard;
- `scheduled`: timer intents and lookups (reconnect after 5000 ms, whale refresh
  after 300000 ms, token-details lookup, holder lookup with page size 50);
- `sent`: frames sent upstream (`connection_init`, `subscribe`, close);
- `socketsOpened`: how many upstream sockets were created.

Each handler is a method whose postcondition gives the whole new state. The log
pipeline and the REST branching are also given as functions (`Pipeline`,
`Lookups`, `Hub`). Lemmas prove what those functions promise: which logs reach
the decoder, how transfers are tagged, what a JavaScript exception cuts short,
which fallback a lookup takes, and who receives a broadcast. The loops over
transactions, logs and dashboards are proved against these functions.

Files:

- `wrappers.dfy`: `Option`.
- `strings.dfy`: ASCII lower-casing, and the subscription id as a decimal string
  together with its parser.
- `wire.dfy`: constants and the already-parsed frames, records, responses and
  messages.
- `hub.dfy`: the broadcast fan-out.
- `pipeline.dfy`: log screening, decoding, tagging and exception propagation.
- `lookups.dfy`: the branching of the two REST lookups.
- `relay.dfy`: the relay state and its handlers.
- `scenarios.dfy`: short runs assembled from the handler contracts.

### JavaScript behaviour made explicit

- A truthy field that is not a string has no `toLowerCase`, so the call throws
  (`Field.NonStr`). This matters in three places:
  - In a `SUBSCRIBE`, a bad pair address throws only after the token address has
    been stored, so the token address changes and nothing else does.
  - In the balances `find`, a bad `contract_address` makes the callback throw, and
    the lookup falls back to the ERROR info.
  - In the holder `map`, a holder without an address throws, and the whale set is
    emptied.
- A null transaction, a null log, or a log with topics but no emitter throws inside
  `forEach`. The exception is caught only around the whole `next` frame, so the
  rest of the frame is not processed (`Then`, `LogsRunStopsAtThrow`,
  `FrameRunStopsAtThrow`).
- A decode failure is caught inside `processTransferFromLog` and only drops that
  log.
- Values are `Amount(raw, decimals)`, which stands for raw / 10^decimals.

### Behaviour of the code worth noting

- `startGoldRushStream` returns early only when the socket is OPEN, although the
  comment at api/index.js:78 reads "Already connected". A socket that is still
  CONNECTING is replaced by a new one
  (`Scenarios.StartWhileConnectingOpensAnother`).
- `stopGoldRushStream` does not prevent a reconnect. The close event of the socket
  it closed still schedules `startGoldRushStream` after 5000 ms
  (`Scenarios.StopDoesNotSuppressReconnect`).
- Any dashboard that disconnects stops the stream, even when other dashboards are
  still connected.
- Each `SUBSCRIBE` starts another holder lookup without cancelling the pending
  five-minute refresh, so refresh loops accumulate.
- A non-ok holder response returns before the refresh is scheduled, so it ends the
  loop that the comment at api/index.js:346 describes as "every 5 minutes".

## Model

| member | source | states |
|---|---|---|
| Relay.IsSubscribeRequest | api/index.js:53 | A message passes the guard only if it parsed, has type `SUBSCRIBE`, and has both addresses present, each non-empty when it is a string. |
| Relay.RelayServer.constructor | api/index.js:40-45 | The initial state is no token, no pair, 18 decimals, no whales, counter 0, no socket, no dashboards and nothing sent or scheduled; an API key is required. |
| Relay.RelayServer.ViewerConnected | api/index.js:48 | A new connection, under an id no current connection has, joins the end of the client list as OPEN. |
| Relay.RelayServer.ViewerStateChanged | api/index.js:352-353 | A connection changes ready state, so later broadcasts skip it unless it is OPEN. |
| Relay.RelayServer.OnViewerMessage | api/index.js:50-68 | A message that is not a `SUBSCRIBE` with both addresses truthy changes nothing, and neither does one whose token address is not a string. A non-string pair address changes only the token address. A valid message stores both addresses lower-cased, empties the whale set, schedules the details and holder lookups, and starts the stream. The lower-case invariant is kept. |
| Relay.RelayServer.SwitchPair | api/index.js:56-63 | Stores the lower-cased pair address, empties the whale set, schedules the details lookup and then the holder lookup for the stored token, and opens a socket unless one is OPEN. |
| Relay.RelayServer.OnViewerClose | api/index.js:69-72 | The client list becomes `Without` of the old list, so exactly the entries with that id go and the others keep their order. The stream is stopped whatever other dashboards remain. |
| Relay.RelayServer.StartStream | api/index.js:76-84 | No change when the socket is OPEN. Otherwise a new CONNECTING socket replaces the old one, including one still connecting, and the socket count goes up by one. |
| Relay.RelayServer.StopStream | api/index.js:141-147 | Afterwards there is no socket. A close is sent exactly when there was a socket. |
| Relay.RelayServer.OnUpstreamOpen | api/index.js:86-96 | The connecting socket becomes OPEN and `connection_init` carrying the API key is sent. |
| Relay.RelayServer.OnUpstreamClose | api/index.js:134-138 | Every close schedules exactly one reconnect after 5000 ms, including the close of a socket already dropped by stop. Only the current socket's state changes. |
| Relay.RelayServer.SubscribeToWalletActivity | api/index.js:149-182 | The counter goes up by exactly one. The one frame sent subscribes, for chain ETH_MAINNET and the current token, under an id that parses back to the new counter. |
| Relay.RelayServer.OnUpstreamMessage | api/index.js:98-128 | `connection_ack` subscribes. A `next` frame with a transaction list broadcasts exactly the transfers of `FrameRun` and sends them to the OPEN dashboards. `error`, `complete`, other types and unparsable frames change nothing. |
| Relay.RelayServer.ProcessFrame | api/index.js:109-115 | The loop over a frame's transactions broadcasts the transfers of `FrameRun` in order and stops at the first transaction that throws. |
| Relay.RelayServer.ProcessWalletTransaction | api/index.js:185-203 | Returns whether the transaction threw (a null transaction throws). It broadcasts exactly the transfers of `TxRun`, and nothing when `logs` is missing. |
| Relay.RelayServer.ProcessLogs | api/index.js:192-202 | The loop over the logs broadcasts the transfers of `LogsRun` and reports whether a log threw. |
| Relay.RelayServer.ProcessLog | api/index.js:193-201 | One log: it throws exactly when `LogOutcome` throws, and it broadcasts that outcome's transfers. |
| Relay.RelayServer.ProcessTransferFromLog | api/index.js:205-227 | An accepted log that decodes gives exactly one `NEW_TRANSFER`, broadcast to the OPEN dashboards. A log that fails to decode gives nothing. |
| Relay.RelayServer.FetchTokenDetails | api/index.js:231-237 | Schedules one balances lookup for the current token. |
| Relay.RelayServer.OnTokenDetails | api/index.js:239-312 | The decimals become those chosen by `TokenDetails`, which are never 0. Exactly one `TOKEN_INFO` with the chosen info is broadcast. |
| Relay.RelayServer.FetchWhales | api/index.js:315-321 | Schedules one holder lookup for the current token with page size 50. |
| Relay.RelayServer.OnHolders | api/index.js:323-347 | The whale set becomes `RefreshWhales` of the response and stays lower-case. The 300000 ms refresh is scheduled unless the status was not ok. |
| Relay.RelayServer.Broadcast | api/index.js:351-357 | The message is appended to the outbox once. The sends are `Fanout` over the current connections. |
| Hub.Fanout | api/index.js:352-356 | A broadcast sends at most one message per connection, and every send carries the broadcast message. |
| Hub.FanoutFollowsOpenIds | api/index.js:352-356 | The k-th send of a broadcast goes to the k-th OPEN connection in iteration order, and there is one send per OPEN connection. |
| Hub.FanoutReachesExactlyOpen | api/index.js:353 | A connection receives a broadcast if and only if it is OPEN. |
| Hub.FanoutAllAppend | api/index.js:352-356 | Broadcasting a list of messages and then another is the same as broadcasting both lists in one go. |
| Hub.Without | api/index.js:69 | The client list after a close is no longer than before, and no remaining entry has the closed id. |
| Hub.WithoutMembership | api/index.js:69 | A connection remains after a close exactly when it was there and has another id. |
| Hub.WithoutRemovesOne | api/index.js:69 | With distinct ids, closing the connection at position k removes exactly that entry and keeps all others in their order. |
| Hub.WithoutAbsent | api/index.js:69 | Closing an id no connection has leaves the client list unchanged. |
| Hub.OpenIdsWithout | api/index.js:69-72 | After a close, with distinct ids, broadcasts go to the OPEN connections before and after the closed one, in the same order as before. |
| Hub.OpenIdsSplit | api/index.js:352-356 | The OPEN connections of a list are those before position k, then the one at k if it is OPEN, then those after it. Together with OpenIdsWithout, a close takes exactly the closed id out of the broadcast order. |
| Strings.ToLower | api/index.js:55-56 | Lower-casing keeps the length, lower-cases each letter and changes nothing else. The result is lower-case, and a lower-case string is left unchanged. |
| Strings.DecimalString | api/index.js:153 | `toString()` of the counter is a nonempty string of digits with no leading zero. |
| Strings.DecimalRoundTrip | api/index.js:150-153 | The subscribe id parses back to the counter value. |
| Strings.DecimalStringInjective | api/index.js:150-153 | Different counter values give different subscribe ids. |
| Pipeline.Screen | api/index.js:193-198 | A log that reaches the decoder has a non-empty topic list. |
| Pipeline.ScreenCases | api/index.js:193-198 | A log reaches the decoder if and only if its topic list is non-empty, its first topic is the Transfer topic and its emitter lower-cases to the tracked token. It throws if and only if it is null, or has a non-empty topic list but no emitter. Every other log is skipped. |
| Pipeline.IsWhale | api/index.js:219 | An empty whale set flags no transfer. |
| Pipeline.IsWhaleIgnoresCase | api/index.js:219 | The whale test gives the same answer when the sender and the receiver are lower-cased first. |
| Pipeline.DecodeTransfer | api/index.js:207-220 | A payload is built if and only if the decoder succeeds. |
| Pipeline.DecodeTransferPayload | api/index.js:207-220 | The payload has the enclosing transaction's hash and the decoded sender and receiver. Its value is the decoded raw amount with the decimals current at decode time. It is a whale movement if and only if the lower-cased sender or receiver is in the whale set at that time. |
| Pipeline.LogOutcome | api/index.js:193-201 | One log yields at most one transfer, and none when it throws. |
| Pipeline.LogOutcomeCases | api/index.js:193-201 | One log throws if and only if the screen throws. It yields a transfer if and only if it is accepted and decodes, and that transfer is the decoded payload. |
| Pipeline.LogsRun | api/index.js:192-202 | Each log gives at most one transfer. Every transfer has the hash of its transaction and is tagged against the snapshot: it carries the snapshot's decimals, and it is a whale movement if and only if its lower-cased sender or receiver is a whale. |
| Pipeline.LogsRunStopsAtThrow | api/index.js:192-202 | Once a log has thrown, the logs after it change nothing. |
| Pipeline.FirstThrow | api/index.js:193-195 | The index of the first log that throws: all logs before it screen without throwing, and the log at that index throws. |
| Pipeline.LogsRunIsEmittedUpToFirstThrow | api/index.js:192-202 | The log loop equals a front-to-back reference. It yields the transfers of the logs before the first throwing log, and it throws exactly when such a log exists. |
| Pipeline.EmittedMembership | api/index.js:193-199 | A transfer is in the reference output if and only if some log passes the screen and decodes to it. |
| Pipeline.LogsRunTransfers | api/index.js:193-219 | A transfer is broadcast for a transaction if and only if a log before the first throwing one has a nonempty topic list, `topics[0]` equal to the Transfer topic and an emitter that lower-cases to the token, and decodes to that transfer. |
| Pipeline.TxRun | api/index.js:185-190 | A null transaction throws. A transaction without a logs array yields nothing. Every transfer carries the transaction's hash and is tagged against the snapshot. |
| Pipeline.FrameRun | api/index.js:110-114 | Every transfer of a frame is tagged against the snapshot and carries the hash of one of the frame's transactions. |
| Pipeline.FrameRunStopsAtThrow | api/index.js:111-127 | Once a transaction has thrown, the transactions after it change nothing. |
| Pipeline.NoWhaleWithoutWhales | api/index.js:219 | With an empty whale set no transfer is a whale movement. |
| Pipeline.Announce | api/index.js:221 | There is one `NEW_TRANSFER` message per transfer. |
| Lookups.CheckItem | api/index.js:247-249 | The `find` callback accepts an item if and only if its `contract_address` is a non-empty string that lower-cases to the token. It throws if and only if that field is truthy but not a string. |
| Lookups.ErrorInfo | api/index.js:302-310 | The ERROR payload names the tracked token, carries 18 decimals and no logo. |
| Lookups.UnknownInfo | api/index.js:269-277 | The UNKNOWN payload names the tracked token, carries 18 decimals and no logo, and differs from the ERROR payload. |
| Lookups.ItemInfo | api/index.js:255-261 | The payload from a matching item repeats its address, name, symbol and logo, and its decimals as reported, not the ones the relay keeps. |
| Lookups.Find | api/index.js:247-249 | The result is the first item whose truthy `contract_address` lower-cases to the token, unless the callback throws on an earlier item. The search is not found if and only if no item matches and none throws. |
| Lookups.EffectiveDecimals | api/index.js:251 | `contract_decimals` or 18 is never 0, and it keeps any reported value other than 0. |
| Lookups.TokenDetails | api/index.js:239-312 | The decimals chosen are never 0. |
| Lookups.TokenDetailsCases | api/index.js:239-311 | A failure or exception gives 18 and the ERROR info. A missing, empty or unmatched list gives 18 and the UNKNOWN info. A throwing callback gives the ERROR info. A match gives that item's info, whose address lower-cases to the token. The decimals are 18 exactly when the reported value is null, 0 or 18, and otherwise equal the reported value. |
| Lookups.ZeroDecimalsKeptInInfoNotInState | api/index.js:251-259 | A reported 0 gives decimals 18 in the state, while `TOKEN_INFO` carries 0. |
| Lookups.HolderAddresses | api/index.js:333 | The address map succeeds if and only if every holder has an address. The result is then the lower-cased addresses in order. |
| Lookups.RefreshWhales | api/index.js:323-347 | The refresh is rescheduled if and only if the status was not "not ok". Every whale is lower-case. |
| Lookups.RefreshWhalesMembership | api/index.js:323-344 | An address is a whale if and only if the response had a holder list, every holder had an address, and some holder's address lower-cases to it. Otherwise the set is empty. |
| Scenarios.SubscribeOnce | api/index.js:48-84 | From start-up, one dashboard's `SUBSCRIBE` stores the token, schedules the two lookups and opens one socket. |
| Scenarios.StopDoesNotSuppressReconnect | api/index.js:69-72 | Disconnecting the only dashboard empties the client list and closes the stream, yet its close event schedules a reconnect that opens a second socket. |
| Scenarios.StartWhileConnectingOpensAnother | api/index.js:77-84 | Two starts in a row, before the first socket opens, create two sockets. |
| Scenarios.SixDecimalsScenario | api/index.js:207-251 | After a lookup reporting 6 decimals, a transfer of 5000000 raw units is broadcast as an amount of 5. |

## Left out

- The Express static server, the `/` route and `server.listen`: HTTP plumbing.
- Real WebSocket and HTTP transports, `fetch`, `JSON.parse` and `JSON.stringify`.
  Inbound frames, dashboard messages and REST answers arrive as already-parsed
  datatypes (`ServerFrame`, `ClientMsg`, `DetailsResponse`, `HoldersResponse`), and
  an unparsable input is its own constructor. Outbound messages are datatypes, not
  JSON text.
- The subscription's GraphQL query text: only its parameters are kept (chain
  ETH_MAINNET and the token address).
- `ethers`: `parseLog` is the `decode` function given to the constructor, and every
  property holds for any decoder. The Transfer topic hash is a string constant.
- `BalanceItem.decimals` and `Tx.txHash` are narrower than the JSON they stand
  for. `contract_decimals` is a natural number or null, so a string, negative or
  fractional value is not modelled. The relay would store such a value unchanged,
  `formatUnits` would then throw for every transfer, and the catch would drop it,
  so no `NEW_TRANSFER` would be sent. `tx_hash` is always a string, so a missing
  hash (sent as absent in the payload) is not modelled.
- `formatUnits` and `parseFloat`: these are floating point. A value is carried as
  `Amount(raw, decimals)`, so float rounding, and `formatUnits` throwing on
  unusually large decimals, are not modelled.
- Timers and asynchronous continuations: `setTimeout` and pending requests are
  recorded in `scheduled`. A timer firing, or a request being answered, is the
  caller invoking `StartStream`, `FetchWhales`, `OnTokenDetails` or `OnHolders`.
  Interleavings are not modelled.
- The start-up check on the API key and `process.exit`: the constructor only
  requires a nonempty key. All `console` logging and the `onerror` handler, which
  only logs, are left out.
- Events of an upstream socket that has been replaced: only its close event is
  modelled (`OnUpstreamClose` with `ofCurrentSocket` false). Its open and message
  events are left out.
- Relay.RelayServer.OnUpstreamMessage: requires the current socket to be OPEN,
  because a frame can only arrive on an open socket.
- Strings.ToLower: covers ASCII letters only. Unicode case mapping is not
  modelled, since the addresses are hex strings.
- Relay.RelayServer.SubscribeToWalletActivity: the counter is unbounded, so
  JavaScript number precision beyond 2^53 is not modelled.
- The truthiness of non-array `topics`, `logs` and `items` values, and balance
  items that are `null`, are not modelled. Those fields are either absent or lists.
- Relay.RelayServer.ViewerConnected: requires an id no current connection has,
  because each connection is its own socket object in the ws library's set.
- The ws library's own handling of the client set: it is modelled only through
  `ViewerConnected`, `ViewerStateChanged` and the removal in `OnViewerClose`.
