/** Short runs of the relay, each built only from the handlers' contracts, that
    show behaviour of the code as written. */
module Scenarios {
  import opened Wrappers
  import opened Strings
  import opened Wire
  import opened Pipeline
  import opened Lookups
  import opened Relay

  /** A freshly started relay with one dashboard that subscribes to token 0xabc: the token
      details and holder lookups are scheduled and one upstream socket is connecting. */
  method SubscribeOnce(decode: Decoder) returns (s: RelayServer)
    ensures fresh(s) && s.Valid()
    ensures s.tokenAddress == "0xabc" && s.viewers == [Viewer(1, Open)]
    ensures s.scheduled == [TokenDetailsLookup("0xabc"), HolderLookup("0xabc", 50)]
    ensures s.upstream == Socket(Connecting) && s.socketsOpened == 1
  {
    LowerAbc();
    s := new RelayServer("key", decode);
    s.ViewerConnected(1);
    var msg := ClientMsg(Str("SUBSCRIBE"), Str("0xabc"), Str("0xDeF"));
    assert IsSubscribeRequest(msg);
    s.OnViewerMessage(msg);
  }

  /** The dashboard of SubscribeOnce disconnects once the stream is up. The
      upstream socket is closed and forgotten, but its close event still schedules
      a reconnect, and when that timer fires a new upstream socket is created:
      stopping does not end the stream for good. */
  method StopDoesNotSuppressReconnect(decode: Decoder) returns (s: RelayServer)
    ensures fresh(s) && s.Valid() && s.viewers == []
    ensures s.scheduled == [TokenDetailsLookup("0xabc"), HolderLookup("0xabc", 50), Reconnect(5000)]
    ensures s.upstream == Socket(Connecting) && s.socketsOpened == 2
  {
    s := SubscribeOnce(decode);
    s.OnUpstreamOpen();
    s.OnViewerClose(1);
    s.OnUpstreamClose(false);
    s.StartStream();
  }

  lemma LowerAbc()
    ensures ToLower("0xabc") == "0xabc"
  {
    assert IsLower("0xabc");
  }

  lemma LowerAaa()
    ensures ToLower("0xaaa") == "0xaaa"
  {
    assert IsLower("0xaaa");
  }

  /** Two starts in a row while the first socket is still connecting create two
      sockets: the guard only checks for an OPEN socket. */
  method StartWhileConnectingOpensAnother(decode: Decoder) returns (s: RelayServer)
    ensures fresh(s)
    ensures s.upstream == Socket(Connecting) && s.socketsOpened == 2
  {
    s := new RelayServer("key", decode);
    s.StartStream();
    s.StartStream();
  }

  /** The value of an Amount, raw / 10^decimals, exactly. */
  function Pow10(n: nat): (r: nat)
    ensures r > 0
  {
    if n == 0 then 1 else 10 * Pow10(n - 1)
  }

  /** A balance item for the token that reports 6 decimals sets the decimals to 6. */
  lemma SixDecimalsDetails()
    ensures TokenDetails(DetailsBody(Some([BalanceItem(Str("0xaaa"), Some("A"), Some("A"), Some(6), None)])), "0xaaa").decimals == 6
  {
    LowerAaa();
    var item := BalanceItem(Str("0xaaa"), Some("A"), Some("A"), Some(6), None);
    assert CheckItem(item, "0xaaa") == Matches;
    assert [item][0] == item;
    assert Find([item], "0xaaa") == Found(0);
    assert EffectiveDecimals(Some(6)) == 6;
  }

  /** A single Transfer log emitted by the token is turned into one transfer whose
      amount carries the decimals of the snapshot taken when it is decoded. */
  lemma SingleTransferScaled(logs: seq<LogEntry>, snap: Snapshot, decode: Decoder)
    requires snap.tokenAddress == "0xaaa" && snap.decimals == 6
    requires |logs| == 1 && logs[0].Log? && logs[0].topics == Some([TransferTopic, "f", "t"])
    requires logs[0].emitter == Some("0xaaa")
    requires decode([TransferTopic, "f", "t"], logs[0].data) == Some(Decoded("0xF", "0xT", 5000000))
    ensures var r := LogsRun(logs, "0xh", snap, decode);
            |r.transfers| == 1 && !r.threw && r.transfers[0].value == Amount(5000000, 6)
  {
    LowerAaa();
    assert Screen(logs[0], "0xaaa") == Accepted;
    assert logs[..0] == [];
    assert LogsRun(logs[..0], "0xh", snap, decode) == Run([], false);
  }

  /** A token reported with 6 decimals makes a later transfer of 5000000 raw units
      carry the amount 5: the scaling uses the decimals read at decode time. */
  lemma SixDecimalsScenario(logs: seq<LogEntry>, whales: set<string>, decode: Decoder)
    requires |logs| == 1 && logs[0].Log? && logs[0].topics == Some([TransferTopic, "f", "t"])
    requires logs[0].emitter == Some("0xaaa")
    requires decode([TransferTopic, "f", "t"], logs[0].data) == Some(Decoded("0xF", "0xT", 5000000))
    ensures var item := BalanceItem(Str("0xaaa"), Some("A"), Some("A"), Some(6), None);
            var d := TokenDetails(DetailsBody(Some([item])), "0xaaa").decimals;
            var r := LogsRun(logs, "0xh", Snapshot("0xaaa", d, whales), decode);
            d == 6 && |r.transfers| == 1 && !r.threw &&
            r.transfers[0].value == Amount(5000000, 6) &&
            r.transfers[0].value.raw == 5 * Pow10(r.transfers[0].value.decimals)
  {
    SixDecimalsDetails();
    SingleTransferScaled(logs, Snapshot("0xaaa", 6, whales), decode);
    assert Pow10(6) == 1000000 by {
      assert Pow10(1) == 10;
      assert Pow10(2) == 100;
      assert Pow10(3) == 1000;
      assert Pow10(4) == 10000;
      assert Pow10(5) == 100000;
    }
  }
}
