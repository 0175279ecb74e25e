/** The relay's data, already parsed from JSON: what the dashboard sends, what the
    streaming endpoint sends, what the two REST lookups answer, and what the relay
    sends in return. A JavaScript value the handlers may trip over (absent, null,
    not a string) is kept as its own case, because the handlers treat it differently. */
module Wire {
  import opened Wrappers

  /** `erc20Iface.getEvent("Transfer").topicHash`: the keccak-256 hash of
      "Transfer(address,address,uint256)". Nothing below depends on its value. */
  const TransferTopic: string := "0xddf252ad1be2c89b69c2b068fc378daa952ba7f163c4a11628f55a4df523b3ef"

  const DefaultDecimals: nat := 18
  const ReconnectDelayMs: nat := 5000
  const WhaleRefreshMs: nat := 300000
  const HolderPageSize: nat := 50
  const ChainName: string := "ETH_MAINNET"

  /** A JSON field read by a handler: absent, a string, or some other value
      (number, object, boolean, null) with its JavaScript truthiness. */
  datatype Field = Missing | Str(s: string) | NonStr(truthy: bool)

  predicate Truthy(f: Field) {
    match f
    case Missing => false
    case Str(s) => s != ""
    case NonStr(t) => t
  }

  /** The `readyState` of a WebSocket, upstream or downstream. */
  datatype ReadyState = Connecting | Open | Closing | Closed

  /** A dashboard connection in `wss.clients`. */
  datatype Viewer = Viewer(id: nat, state: ReadyState)

  /** A control message from the dashboard; `Unparsable` is a frame on which
      `JSON.parse` (or reading `.type` of `null`) throws. */
  datatype ClientMsg =
    | Unparsable
    | ClientMsg(kind: Field, tokenAddress: Field, pairAddress: Field)

  /** One entry of `tx.logs`. `emitter` is None when `emitter_address` is absent or
      not a string; `topics` is None when absent or falsy. */
  datatype LogEntry =
    | NullLog
    | Log(emitter: Option<string>, topics: Option<seq<string>>, data: string)

  /** One entry of `walletTxs`; `logs` is None when absent or not an array. */
  datatype TxRecord =
    | NullTx
    | Tx(txHash: string, logs: Option<seq<LogEntry>>)

  /** A frame from the streaming endpoint, by its `type`. `Next` carries
      `payload.data.walletTxs`, None when any step of that path is falsy or it is
      not an array. */
  datatype ServerFrame =
    | Garbled
    | ConnectionAck
    | Next(walletTxs: Option<seq<TxRecord>>)
    | ErrorFrame
    | Complete
    | OtherFrame(kind: Field)

  /** The arguments `parseLog` returns for a Transfer event. */
  datatype Decoded = Decoded(from: string, to: string, raw: nat)

  /** A token amount as the integer the event carries and the decimals that scale it:
      the amount is raw / 10^decimals. */
  datatype Amount = Amount(raw: nat, decimals: nat)

  /** The payload of NEW_TRANSFER. */
  datatype Transfer = Transfer(txHash: string, from: string, to: string, value: Amount, isWhale: bool)

  /** The payload of TOKEN_INFO; `decimals` is None when the lookup gave null. */
  datatype TokenInfo = TokenInfo(
    address: string,
    name: Option<string>,
    symbol: Option<string>,
    decimals: Option<nat>,
    logoUrl: Option<string>)

  /** A message broadcast to the dashboards. */
  datatype OutMsg = TokenInfoMsg(info: TokenInfo) | NewTransfer(transfer: Transfer)

  /** One `client.send` of a broadcast. */
  datatype Delivery = Delivery(viewer: nat, msg: OutMsg)

  /** The parameters of the `walletTxs` subscription query. */
  datatype WalletTxsQuery = WalletTxsQuery(chain: string, wallets: seq<string>)

  /** What the relay does on the upstream socket. */
  datatype UpstreamAction =
    | ConnectionInit(apiKey: string)
    | Subscribe(id: string, query: WalletTxsQuery)
    | CloseSocket

  /** The module-level `goldRushSocket`: null, or a socket in some ready state. */
  datatype Upstream = NoSocket | Socket(state: ReadyState)

  /** Work scheduled for later: a timer callback or a REST request in flight. */
  datatype Task =
    | Reconnect(delayMs: nat)
    | WhaleRefresh(delayMs: nat)
    | TokenDetailsLookup(address: string)
    | HolderLookup(address: string, pageSize: nat)

  /** An entry of the balances lookup's `data.items`. */
  datatype BalanceItem = BalanceItem(
    contractAddress: Field,
    name: Option<string>,
    symbol: Option<string>,
    decimals: Option<nat>,
    logoUrl: Option<string>)

  /** How the balances lookup ended: `fetch` or `response.json()` threw, the status
      was not ok, or a body whose `data.items` is given (None when absent). */
  datatype DetailsResponse =
    | DetailsThrew
    | DetailsNotOk(status: int)
    | DetailsBody(items: Option<seq<BalanceItem>>)

  /** An entry of the holders lookup's `data.items`; `address` is None when it is
      absent or not a string. */
  datatype Holder = Holder(address: Option<string>)

  /** How the holders lookup ended; `items` is None when absent or not an array. */
  datatype HoldersResponse =
    | HoldersThrew
    | HoldersNotOk(status: int)
    | HoldersBody(items: Option<seq<Holder>>)
}
