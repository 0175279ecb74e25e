/** The relay's module-level state and its handlers: the dashboard's SUBSCRIBE and
    close handlers, the upstream streaming session (start, stop, open, message,
    close, subscribe), the log loops of a `next` frame, the continuations of the
    two REST lookups, and `broadcast`.

    The ghost fields record what the relay does to the outside world: every
    broadcast (`outbox`), every `client.send` (`deliveries`), every timer it
    schedules and request it issues (`scheduled`), every action on the upstream
    socket (`sent`), and how many upstream sockets it has created. */
module Relay {
  import opened Wrappers
  import opened Strings
  import opened Wire
  import opened Hub
  import opened Pipeline
  import opened Lookups

  /** The condition the dashboard's message handler checks: a parsed message of
      type SUBSCRIBE with truthy `tokenAddress` and `pairAddress`. */
  predicate IsSubscribeRequest(msg: ClientMsg)
    ensures IsSubscribeRequest(msg) ==>
              msg.ClientMsg? && msg.kind == Str("SUBSCRIBE") &&
              !msg.tokenAddress.Missing? && !msg.pairAddress.Missing? &&
              (msg.tokenAddress.Str? ==> msg.tokenAddress.s != "") &&
              (msg.pairAddress.Str? ==> msg.pairAddress.s != "")
  {
    msg.ClientMsg? && msg.kind == Str("SUBSCRIBE") && Truthy(msg.tokenAddress) && Truthy(msg.pairAddress)
  }

  /** Broadcasting `a` and then `b` is broadcasting `a + b`. */
  lemma OutputsAppend(vs: seq<Viewer>, a: seq<Transfer>, b: seq<Transfer>)
    ensures Announce(a + b) == Announce(a) + Announce(b)
    ensures FanoutAll(vs, Announce(a + b)) == FanoutAll(vs, Announce(a)) + FanoutAll(vs, Announce(b))
  {
    AnnounceAppend(a, b);
    FanoutAllAppend(vs, Announce(a), Announce(b));
  }

  /** Outputs already made for `done`, followed by those for `added`, are the
      outputs for `done + added`. */
  lemma OutputsExtend(out: seq<OutMsg>, dels: seq<Delivery>, vs: seq<Viewer>, done: seq<Transfer>, added: seq<Transfer>)
    ensures (out + Announce(done)) + Announce(added) == out + Announce(done + added)
    ensures (dels + FanoutAll(vs, Announce(done))) + FanoutAll(vs, Announce(added)) == dels + FanoutAll(vs, Announce(done + added))
  {
    OutputsAppend(vs, done, added);
  }

  class RelayServer {
    /** COVALENT_API_KEY, sent in `connection_init`. */
    const apiKey: string
    /** `erc20Iface.parseLog`. */
    const decode: Decoder

    var tokenAddress: string
    var pairAddress: string
    var tokenDecimals: nat
    var whaleWallets: set<string>
    var subscriptionId: nat
    /** `goldRushSocket`. */
    var upstream: Upstream
    /** `wss.clients`, in iteration order; the ws library adds and removes entries. */
    var viewers: seq<Viewer>

    ghost var outbox: seq<OutMsg>
    ghost var deliveries: seq<Delivery>
    ghost var scheduled: seq<Task>
    ghost var sent: seq<UpstreamAction>
    ghost var socketsOpened: nat

    /** What every handler keeps: the tracked addresses and every whale address are
        in lower case, and the decimals used for scaling are never 0. */
    ghost predicate Valid()
      reads this`tokenAddress, this`pairAddress, this`tokenDecimals, this`whaleWallets
    {
      |apiKey| > 0 &&
      IsLower(tokenAddress) && IsLower(pairAddress) && tokenDecimals > 0 &&
      forall w :: w in whaleWallets ==> IsLower(w)
    }

    /** The state a log is decoded against. */
    function Snap(): Snapshot
      reads this`tokenAddress, this`tokenDecimals, this`whaleWallets
    {
      Snapshot(tokenAddress, tokenDecimals, whaleWallets)
    }

    /** Start-up: the process refuses to run without an API key; the state starts
        with no token, 18 decimals, no whales, counter 0 and no upstream socket. */
    constructor (apiKey: string, decode: Decoder)
      requires |apiKey| > 0
      ensures Valid()
      ensures this.apiKey == apiKey && this.decode == decode
      ensures tokenAddress == "" && pairAddress == "" && tokenDecimals == 18
      ensures whaleWallets == {} && subscriptionId == 0 && upstream == NoSocket && viewers == []
      ensures outbox == [] && deliveries == [] && scheduled == [] && sent == [] && socketsOpened == 0
    {
      this.apiKey := apiKey;
      this.decode := decode;
      tokenAddress := "";
      pairAddress := "";
      tokenDecimals := DefaultDecimals;
      whaleWallets := {};
      subscriptionId := 0;
      upstream := NoSocket;
      viewers := [];
      outbox := [];
      deliveries := [];
      scheduled := [];
      sent := [];
      socketsOpened := 0;
    }

    // --- Dashboard connections (ws library bookkeeping) ---

    /** A dashboard connects: the ws library adds an OPEN client, under an id no
        current client has. */
    method ViewerConnected(id: nat)
      requires forall v :: v in viewers ==> v.id != id
      modifies this`viewers
      ensures viewers == old(viewers) + [Viewer(id, Open)]
    {
      viewers := viewers + [Viewer(id, Open)];
    }

    /** The transport moves a dashboard connection to another ready state. */
    method ViewerStateChanged(i: nat, state: ReadyState)
      requires i < |viewers|
      modifies this`viewers
      ensures viewers == old(viewers)[i := Viewer(old(viewers)[i].id, state)]
    {
      viewers := viewers[i := Viewer(viewers[i].id, state)];
    }

    /** A dashboard disconnects: the ws library drops it from the clients, then the
        handler stops the upstream stream, whatever other dashboards remain. */
    method OnViewerClose(id: nat)
      modifies this`viewers, this`upstream, this`sent
      ensures viewers == Without(old(viewers), id)
      ensures forall v :: v in viewers <==> v in old(viewers) && v.id != id
      ensures upstream == NoSocket
      ensures sent == old(sent) + (if old(upstream).Socket? then [CloseSocket] else [])
    {
      WithoutMembership(viewers, id);
      viewers := Without(viewers, id);
      StopStream();
    }

    /** A message from a dashboard. A SUBSCRIBE with both addresses lower-cases and
        stores them, empties the whale set, issues the two lookups and starts the
        stream. Anything else changes nothing. A truthy address that is not a string
        makes `toLowerCase` throw: nothing changes when it is the token address, and
        only the token address changes when it is the pair address. */
    method OnViewerMessage(msg: ClientMsg)
      requires Valid()
      modifies this`tokenAddress, this`pairAddress, this`whaleWallets, this`scheduled, this`upstream, this`socketsOpened
      ensures Valid()
      ensures !IsSubscribeRequest(msg) || !msg.tokenAddress.Str? ==>
                tokenAddress == old(tokenAddress) && pairAddress == old(pairAddress) &&
                whaleWallets == old(whaleWallets) && scheduled == old(scheduled) &&
                upstream == old(upstream) && socketsOpened == old(socketsOpened)
      ensures IsSubscribeRequest(msg) && msg.tokenAddress.Str? && !msg.pairAddress.Str? ==>
                tokenAddress == ToLower(msg.tokenAddress.s) && pairAddress == old(pairAddress) &&
                whaleWallets == old(whaleWallets) && scheduled == old(scheduled) &&
                upstream == old(upstream) && socketsOpened == old(socketsOpened)
      ensures IsSubscribeRequest(msg) && msg.tokenAddress.Str? && msg.pairAddress.Str? ==>
                tokenAddress == ToLower(msg.tokenAddress.s) && pairAddress == ToLower(msg.pairAddress.s) &&
                whaleWallets == {} &&
                scheduled == old(scheduled) + [TokenDetailsLookup(tokenAddress), HolderLookup(tokenAddress, HolderPageSize)] &&
                (old(upstream) == Socket(Open) ==> upstream == old(upstream) && socketsOpened == old(socketsOpened)) &&
                (old(upstream) != Socket(Open) ==> upstream == Socket(Connecting) && socketsOpened == old(socketsOpened) + 1)
    {
      if IsSubscribeRequest(msg) && msg.tokenAddress.Str? {
        tokenAddress := ToLower(msg.tokenAddress.s);
        if msg.pairAddress.Str? {
          SwitchPair(ToLower(msg.pairAddress.s));
        }
      }
    }

    /** The rest of a SUBSCRIBE once the token address is stored: the lower-cased
        pair address is stored, the whale set emptied, the two lookups issued and
        the stream started. */
    method SwitchPair(pair: string)
      requires Valid() && IsLower(pair)
      modifies this`pairAddress, this`whaleWallets, this`scheduled, this`upstream, this`socketsOpened
      ensures Valid()
      ensures pairAddress == pair && whaleWallets == {}
      ensures scheduled == old(scheduled) + [TokenDetailsLookup(tokenAddress), HolderLookup(tokenAddress, HolderPageSize)]
      ensures old(upstream) == Socket(Open) ==> upstream == old(upstream) && socketsOpened == old(socketsOpened)
      ensures old(upstream) != Socket(Open) ==> upstream == Socket(Connecting) && socketsOpened == old(socketsOpened) + 1
    {
      pairAddress := pair;
      whaleWallets := {};
      FetchTokenDetails();
      FetchWhales();
      StartStream();
    }

    // --- Upstream session ---

    /** `startGoldRushStream`: nothing when the current socket is OPEN; otherwise a
        new socket replaces it (even one still CONNECTING). */
    method StartStream()
      modifies this`upstream, this`socketsOpened
      ensures old(upstream) == Socket(Open) ==> upstream == old(upstream) && socketsOpened == old(socketsOpened)
      ensures old(upstream) != Socket(Open) ==> upstream == Socket(Connecting) && socketsOpened == old(socketsOpened) + 1
    {
      if upstream == Socket(Open) {
        return;
      }
      upstream := Socket(Connecting);
      socketsOpened := socketsOpened + 1;
    }

    /** `stopGoldRushStream`: closes the socket, if any, and forgets it. The close
        event of that socket still arrives later (OnUpstreamClose with
        `ofCurrentSocket` false). */
    method StopStream()
      modifies this`upstream, this`sent
      ensures upstream == NoSocket
      ensures sent == old(sent) + (if old(upstream).Socket? then [CloseSocket] else [])
    {
      if upstream.Socket? {
        sent := sent + [CloseSocket];
        upstream := NoSocket;
      }
    }

    /** The current socket opens: `connection_init` is sent with the API key. */
    method OnUpstreamOpen()
      requires upstream == Socket(Connecting)
      modifies this`upstream, this`sent
      ensures upstream == Socket(Open)
      ensures sent == old(sent) + [ConnectionInit(apiKey)]
    {
      upstream := Socket(Open);
      sent := sent + [ConnectionInit(apiKey)];
    }

    /** A socket closes, the current one or one already dropped by StopStream: a
        reconnect in 5 s is scheduled every time. */
    method OnUpstreamClose(ofCurrentSocket: bool)
      requires ofCurrentSocket ==> upstream.Socket?
      modifies this`upstream, this`scheduled
      ensures upstream == if ofCurrentSocket then Socket(Closed) else old(upstream)
      ensures scheduled == old(scheduled) + [Reconnect(ReconnectDelayMs)]
    {
      if ofCurrentSocket {
        upstream := Socket(Closed);
      }
      scheduled := scheduled + [Reconnect(ReconnectDelayMs)];
    }

    /** `subscribeToWalletActivity`: the counter goes up by one and the subscribe
        frame carries it as a decimal string that reads back as the counter, with
        a query for the tracked token. */
    method SubscribeToWalletActivity()
      modifies this`subscriptionId, this`sent
      ensures subscriptionId == old(subscriptionId) + 1
      ensures sent == old(sent) + [Subscribe(DecimalString(subscriptionId), WalletTxsQuery(ChainName, [tokenAddress]))]
      ensures ParseDecimal(sent[|sent| - 1].id) == Some(subscriptionId)
    {
      subscriptionId := subscriptionId + 1;
      sent := sent + [Subscribe(DecimalString(subscriptionId), WalletTxsQuery(ChainName, [tokenAddress]))];
      DecimalRoundTrip(subscriptionId);
    }

    /** A frame on the current, OPEN socket. `connection_ack` subscribes; `next`
        with a transaction list processes it; `error`, `complete`, unknown types and
        unparsable frames change nothing. */
    method OnUpstreamMessage(frame: ServerFrame)
      requires Valid() && upstream == Socket(Open)
      modifies this`subscriptionId, this`sent, this`outbox, this`deliveries
      ensures frame.ConnectionAck? ==>
                subscriptionId == old(subscriptionId) + 1 &&
                sent == old(sent) + [Subscribe(DecimalString(subscriptionId), WalletTxsQuery(ChainName, [tokenAddress]))] &&
                outbox == old(outbox) && deliveries == old(deliveries)
      ensures frame.Next? && frame.walletTxs.Some? ==>
                subscriptionId == old(subscriptionId) && sent == old(sent) &&
                outbox == old(outbox) + Announce(FrameRun(frame.walletTxs.value, Snap(), decode).transfers) &&
                deliveries == old(deliveries) + FanoutAll(viewers, Announce(FrameRun(frame.walletTxs.value, Snap(), decode).transfers))
      ensures !frame.ConnectionAck? && !(frame.Next? && frame.walletTxs.Some?) ==>
                subscriptionId == old(subscriptionId) && sent == old(sent) &&
                outbox == old(outbox) && deliveries == old(deliveries)
    {
      match frame
      case ConnectionAck =>
        SubscribeToWalletActivity();
      case Next(walletTxs) =>
        if walletTxs.Some? {
          ProcessFrame(walletTxs.value);
        }
      case _ =>
    }

    // --- Log pipeline ---

    /** `walletTxs.forEach(processWalletTransaction)`; an exception leaves the rest
        of the frame unprocessed. */
    method ProcessFrame(txs: seq<TxRecord>)
      requires Valid()
      modifies this`outbox, this`deliveries
      ensures outbox == old(outbox) + Announce(FrameRun(txs, Snap(), decode).transfers)
      ensures deliveries == old(deliveries) + FanoutAll(viewers, Announce(FrameRun(txs, Snap(), decode).transfers))
    {
      ghost var snap, vs := Snap(), viewers;
      ghost var done: seq<Transfer> := [];
      var i := 0;
      while i < |txs|
        invariant 0 <= i <= |txs|
        invariant Snap() == snap && viewers == vs
        invariant FrameRun(txs[..i], snap, decode) == Run(done, false)
        invariant outbox == old(outbox) + Announce(done)
        invariant deliveries == old(deliveries) + FanoutAll(vs, Announce(done))
      {
        ghost var o1, d1 := outbox, deliveries;
        var threw := ProcessWalletTransaction(txs[i]);
        ghost var added := TxRun(txs[i], snap, decode).transfers;
        FrameRunStep(txs, i, snap, decode);
        OutputsExtend(old(outbox), old(deliveries), vs, done, added);
        done := done + added;
        if threw {
          FrameRunStopsAtThrow(txs, i + 1, snap, decode);
          return;
        }
        i := i + 1;
      }
      assert txs[..i] == txs;
    }

    /** `processWalletTransaction(tx)`: returns whether it threw. */
    method ProcessWalletTransaction(tx: TxRecord) returns (threw: bool)
      requires Valid()
      modifies this`outbox, this`deliveries
      ensures threw == TxRun(tx, Snap(), decode).threw
      ensures outbox == old(outbox) + Announce(TxRun(tx, Snap(), decode).transfers)
      ensures deliveries == old(deliveries) + FanoutAll(viewers, Announce(TxRun(tx, Snap(), decode).transfers))
    {
      if tx.NullTx? || tx.logs.None? {
        assert TxRun(tx, Snap(), decode).transfers == [];
        assert Announce([]) == [];
        assert FanoutAll(viewers, []) == [];
        return tx.NullTx?;
      }
      threw := ProcessLogs(tx.logs.value, tx.txHash);
    }

    /** The `for` loop over a transaction's logs: returns whether a log threw,
        which ends the loop. */
    method ProcessLogs(logs: seq<LogEntry>, txHash: string) returns (threw: bool)
      requires Valid()
      modifies this`outbox, this`deliveries
      ensures threw == LogsRun(logs, txHash, Snap(), decode).threw
      ensures outbox == old(outbox) + Announce(LogsRun(logs, txHash, Snap(), decode).transfers)
      ensures deliveries == old(deliveries) + FanoutAll(viewers, Announce(LogsRun(logs, txHash, Snap(), decode).transfers))
    {
      ghost var snap, vs := Snap(), viewers;
      ghost var done: seq<Transfer> := [];
      var i := 0;
      while i < |logs|
        invariant 0 <= i <= |logs|
        invariant Snap() == snap && viewers == vs
        invariant LogsRun(logs[..i], txHash, snap, decode) == Run(done, false)
        invariant outbox == old(outbox) + Announce(done)
        invariant deliveries == old(deliveries) + FanoutAll(vs, Announce(done))
      {
        LogsRunStep(logs, i, txHash, snap, decode);
        var logThrew := ProcessLog(logs[i], txHash);
        ghost var added := LogOutcome(logs[i], txHash, snap, decode).transfers;
        if logThrew {
          assert added == [] && done + [] == done;
          LogsRunStopsAtThrow(logs, i + 1, txHash, snap, decode);
          assert LogsRun(logs, txHash, snap, decode) == Run(done, true);
          return true;
        }
        OutputsExtend(old(outbox), old(deliveries), vs, done, added);
        done := done + added;
        i := i + 1;
      }
      assert logs[..i] == logs;
      assert LogsRun(logs, txHash, snap, decode) == Run(done, false);
      return false;
    }

    /** The callback run for each log: a log without topics is skipped, a null log
        or one without an emitter throws, and a Transfer log emitted by the tracked
        token goes on to `processTransferFromLog`. Returns whether it threw. */
    method ProcessLog(log: LogEntry, txHash: string) returns (threw: bool)
      requires Valid()
      modifies this`outbox, this`deliveries
      ensures threw == LogOutcome(log, txHash, Snap(), decode).threw
      ensures outbox == old(outbox) + Announce(LogOutcome(log, txHash, Snap(), decode).transfers)
      ensures deliveries == old(deliveries) + FanoutAll(viewers, Announce(LogOutcome(log, txHash, Snap(), decode).transfers))
    {
      var screening := Screen(log, tokenAddress);
      if screening == Accepted {
        ProcessTransferFromLog(log, txHash);
      } else {
        assert LogOutcome(log, txHash, Snap(), decode).transfers == [];
        assert Announce([]) == [];
        assert FanoutAll(viewers, []) == [];
      }
      return screening == Throws;
    }

    /** `processTransferFromLog`: decodes an accepted log and broadcasts the
        transfer, tagged as a whale movement when its lower-cased sender or
        receiver is a whale; a decoding failure is swallowed. */
    method ProcessTransferFromLog(log: LogEntry, txHash: string)
      requires Valid() && Screen(log, tokenAddress) == Accepted
      modifies this`outbox, this`deliveries
      ensures outbox == old(outbox) + Announce(LogOutcome(log, txHash, Snap(), decode).transfers)
      ensures deliveries == old(deliveries) + FanoutAll(viewers, Announce(LogOutcome(log, txHash, Snap(), decode).transfers))
    {
      ghost var snap := Snap();
      var decoded := decode(log.topics.value, log.data);
      if decoded.Some? {
        var d := decoded.value;
        var isWhale := IsWhale(d, whaleWallets);
        var payload := Transfer(txHash, d.from, d.to, Amount(d.raw, tokenDecimals), isWhale);
        assert LogOutcome(log, txHash, snap, decode) == Run([payload], false);
        assert Announce([payload]) == [NewTransfer(payload)];
        assert FanoutAll(viewers, [NewTransfer(payload)]) == Fanout(viewers, NewTransfer(payload)) by {
          assert [NewTransfer(payload)][..0] == [];
        }
        Broadcast(NewTransfer(payload));
      } else {
        assert LogOutcome(log, txHash, snap, decode) == Run([], false);
        assert Announce([]) == [];
      }
    }

    // --- REST lookups ---

    /** `fetchTokenDetails` up to its request: the balances lookup for the token. */
    method FetchTokenDetails()
      modifies this`scheduled
      ensures scheduled == old(scheduled) + [TokenDetailsLookup(tokenAddress)]
    {
      scheduled := scheduled + [TokenDetailsLookup(tokenAddress)];
    }

    /** The rest of `fetchTokenDetails`: the decimals are set and TOKEN_INFO is
        broadcast, read against the token tracked when the answer arrives. */
    method OnTokenDetails(resp: DetailsResponse)
      requires Valid()
      modifies this`tokenDecimals, this`outbox, this`deliveries
      ensures Valid()
      ensures tokenDecimals == TokenDetails(resp, tokenAddress).decimals
      ensures outbox == old(outbox) + [TokenInfoMsg(TokenDetails(resp, tokenAddress).info)]
      ensures deliveries == old(deliveries) + Fanout(viewers, TokenInfoMsg(TokenDetails(resp, tokenAddress).info))
    {
      var outcome := TokenDetails(resp, tokenAddress);
      tokenDecimals := outcome.decimals;
      Broadcast(TokenInfoMsg(outcome.info));
    }

    /** `fetchWhales` up to its request: the holders lookup for the token, 50 per page. */
    method FetchWhales()
      modifies this`scheduled
      ensures scheduled == old(scheduled) + [HolderLookup(tokenAddress, HolderPageSize)]
    {
      scheduled := scheduled + [HolderLookup(tokenAddress, HolderPageSize)];
    }

    /** The rest of `fetchWhales`: the whale set is replaced, and the refresh in five
        minutes is scheduled unless the status was not ok. */
    method OnHolders(resp: HoldersResponse)
      requires Valid()
      modifies this`whaleWallets, this`scheduled
      ensures Valid()
      ensures whaleWallets == RefreshWhales(resp).whales
      ensures scheduled == old(scheduled) + (if resp.HoldersNotOk? then [] else [WhaleRefresh(WhaleRefreshMs)])
    {
      var outcome := RefreshWhales(resp);
      whaleWallets := outcome.whales;
      if outcome.reschedule {
        scheduled := scheduled + [WhaleRefresh(WhaleRefreshMs)];
      }
    }

    // --- Broadcast ---

    /** `broadcast(data)`: one send to each OPEN dashboard, in order. */
    method Broadcast(m: OutMsg)
      modifies this`outbox, this`deliveries
      ensures outbox == old(outbox) + [m]
      ensures deliveries == old(deliveries) + Fanout(viewers, m)
    {
      var i := 0;
      while i < |viewers|
        invariant 0 <= i <= |viewers|
        invariant outbox == old(outbox)
        invariant deliveries == old(deliveries) + Fanout(viewers[..i], m)
      {
        assert viewers[..i + 1][..i] == viewers[..i];
        if viewers[i].state == Open {
          deliveries := deliveries + [Delivery(viewers[i].id, m)];
        }
        i := i + 1;
      }
      assert viewers[..i] == viewers;
      outbox := outbox + [m];
    }
  }
}
