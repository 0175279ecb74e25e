/** The log pipeline of the relay: which logs of a streamed transaction reach the
    Transfer decoder, how a decoded Transfer is tagged as a whale movement, and
    what one `next` frame yields, including the JavaScript exceptions that stop the
    processing of the rest of the frame. Everything is read against one Snapshot
    of the relay's state, since a frame is handled in one synchronous callback. */
module Pipeline {
  import opened Wrappers
  import opened Strings
  import opened Wire

  /** `erc20Iface.parseLog({topics, data})` followed by reading `from`, `to` and
      `value`: None when ethers throws or finds no matching event. It belongs to a
      foreign library, so every property below holds for every decoder. */
  type Decoder = (seq<string>, string) -> Option<Decoded>

  /** The state a handler reads while it runs: the tracked token, its decimals and
      the whale set. */
  datatype Snapshot = Snapshot(tokenAddress: string, decimals: nat, whales: set<string>)

  datatype Screening = Skipped | Accepted | Throws

  /** The test a log passes before decoding: a non-empty topic list whose first
      topic is the Transfer topic, emitted by the tracked token (compared after
      lower-casing the emitter). Reading a field of a null log, or lower-casing a
      missing emitter once the topic list is non-empty, throws. */
  function Screen(log: LogEntry, tokenAddress: string): (r: Screening)
    ensures r == Accepted ==> log.Log? && log.topics.Some? && |log.topics.value| > 0
  {
    match log
    case NullLog => Throws
    case Log(emitter, topics, _) =>
      if topics.None? || |topics.value| == 0 then Skipped
      else if emitter.None? then Throws
      else if topics.value[0] == TransferTopic && ToLower(emitter.value) == tokenAddress then Accepted
      else Skipped
  }

  /** A log reaches the decoder exactly when it has a non-empty topic list whose
      first topic is the Transfer topic and an emitter that lower-cases to the
      tracked token; it throws exactly when it is null, or has a non-empty topic
      list but no emitter; every other log is skipped. */
  lemma ScreenCases(log: LogEntry, tokenAddress: string)
    ensures Screen(log, tokenAddress) == Accepted <==>
              log.Log? && log.topics.Some? && |log.topics.value| > 0 && log.topics.value[0] == TransferTopic &&
              log.emitter.Some? && ToLower(log.emitter.value) == tokenAddress
    ensures Screen(log, tokenAddress) == Throws <==>
              log.NullLog? || (log.topics.Some? && |log.topics.value| > 0 && log.emitter.None?)
  {
  }

  /** Whether a decoded Transfer touches the whale set, compared in lower case.
      An empty set flags nothing. */
  predicate IsWhale(d: Decoded, whales: set<string>)
    ensures IsWhale(d, whales) ==> whales != {}
  {
    ToLower(d.from) in whales || ToLower(d.to) in whales
  }

  /** The whale test ignores the case of the sender and the receiver. */
  lemma IsWhaleIgnoresCase(d: Decoded, whales: set<string>)
    ensures IsWhale(Decoded(ToLower(d.from), ToLower(d.to), d.raw), whales) == IsWhale(d, whales)
  {
  }

  /** The NEW_TRANSFER payload built from an accepted log, or None when decoding
      fails (the failure is caught and goes no further). */
  function DecodeTransfer(log: LogEntry, txHash: string, snap: Snapshot, decode: Decoder): (r: Option<Transfer>)
    requires log.Log? && log.topics.Some?
    ensures r.Some? <==> decode(log.topics.value, log.data).Some?
  {
    match decode(log.topics.value, log.data)
    case None => None
    case Some(d) => Some(Transfer(txHash, d.from, d.to, Amount(d.raw, snap.decimals), IsWhale(d, snap.whales)))
  }

  /** A decoded log becomes a payload with the enclosing transaction's hash, the
      decoded sender, receiver and raw value, scaled by the snapshot's decimals and
      tagged against the snapshot's whale set. */
  lemma DecodeTransferPayload(log: LogEntry, txHash: string, snap: Snapshot, decode: Decoder)
    requires log.Log? && log.topics.Some? && decode(log.topics.value, log.data).Some?
    ensures var d := decode(log.topics.value, log.data).value;
            var t := DecodeTransfer(log, txHash, snap, decode).value;
            t.txHash == txHash && t.from == d.from && t.to == d.to &&
            t.value == Amount(d.raw, snap.decimals) && Classified(t, snap)
  {
  }

  /** What a stretch of processing produced: the transfers broadcast, and whether it
      ended in an exception. */
  datatype Run = Run(transfers: seq<Transfer>, threw: bool)

  /** Running `q` after `p`: nothing after an exception runs. */
  function Then(p: Run, q: Run): Run {
    if p.threw then p else Run(p.transfers + q.transfers, q.threw)
  }

  /** What one log yields. */
  function LogOutcome(log: LogEntry, txHash: string, snap: Snapshot, decode: Decoder): (r: Run)
    ensures |r.transfers| <= 1 && (r.threw ==> r.transfers == [])
  {
    match Screen(log, snap.tokenAddress)
    case Throws => Run([], true)
    case Skipped => Run([], false)
    case Accepted =>
      match DecodeTransfer(log, txHash, snap, decode)
      case None => Run([], false)
      case Some(t) => Run([t], false)
  }

  /** The callback for one log throws exactly when the screen throws, and yields
      one transfer exactly when the log is accepted and decodes, namely the
      decoded payload. */
  lemma LogOutcomeCases(log: LogEntry, txHash: string, snap: Snapshot, decode: Decoder)
    ensures LogOutcome(log, txHash, snap, decode).threw <==> Screen(log, snap.tokenAddress) == Throws
    ensures |LogOutcome(log, txHash, snap, decode).transfers| == 1 <==>
              Screen(log, snap.tokenAddress) == Accepted && DecodeTransfer(log, txHash, snap, decode).Some?
    ensures |LogOutcome(log, txHash, snap, decode).transfers| == 1 ==>
              Some(LogOutcome(log, txHash, snap, decode).transfers[0]) == DecodeTransfer(log, txHash, snap, decode)
  {
  }

  /** A transfer carries the decimals and the whale set read at decode time:
      it is a whale movement exactly when its lower-cased sender or receiver is in
      the set. */
  predicate Classified(t: Transfer, snap: Snapshot) {
    t.value.decimals == snap.decimals &&
    (t.isWhale <==> ToLower(t.from) in snap.whales || ToLower(t.to) in snap.whales)
  }

  /** `tx.logs.forEach(...)` over `logs`: each transfer comes from the enclosing
      transaction and is classified against the snapshot, and a log yields at
      most one transfer. */
  function LogsRun(logs: seq<LogEntry>, txHash: string, snap: Snapshot, decode: Decoder): (r: Run)
    ensures |r.transfers| <= |logs|
    ensures forall k :: 0 <= k < |r.transfers| ==>
              r.transfers[k].txHash == txHash && Classified(r.transfers[k], snap)
    decreases |logs|
  {
    if logs == [] then Run([], false)
    else Then(LogsRun(logs[..|logs| - 1], txHash, snap, decode),
              LogOutcome(logs[|logs| - 1], txHash, snap, decode))
  }

  /** Once a prefix of the logs has thrown, the remaining logs change nothing. */
  lemma {:induction false} LogsRunStopsAtThrow(logs: seq<LogEntry>, n: nat, txHash: string, snap: Snapshot, decode: Decoder)
    requires n <= |logs|
    requires LogsRun(logs[..n], txHash, snap, decode).threw
    ensures LogsRun(logs, txHash, snap, decode) == LogsRun(logs[..n], txHash, snap, decode)
    decreases |logs|
  {
    if n < |logs| {
      assert logs[..|logs| - 1][..n] == logs[..n];
      LogsRunStopsAtThrow(logs[..|logs| - 1], n, txHash, snap, decode);
    } else {
      assert logs[..n] == logs;
    }
  }

  /** Reference definition, read front to back: the transfers of the accepted,
      decodable logs, in order. */
  function Emitted(logs: seq<LogEntry>, txHash: string, snap: Snapshot, decode: Decoder): seq<Transfer> {
    if logs == [] then []
    else LogOutcome(logs[0], txHash, snap, decode).transfers + Emitted(logs[1..], txHash, snap, decode)
  }

  /** The index of the first log that throws, or the number of logs. */
  function FirstThrow(logs: seq<LogEntry>, tokenAddress: string): (r: nat)
    ensures r <= |logs|
    ensures forall j :: 0 <= j < r ==> Screen(logs[j], tokenAddress) != Throws
    ensures r < |logs| ==> Screen(logs[r], tokenAddress) == Throws
  {
    if logs == [] then 0
    else if Screen(logs[0], tokenAddress) == Throws then 0
    else 1 + FirstThrow(logs[1..], tokenAddress)
  }

  lemma FirstThrowUnique(logs: seq<LogEntry>, tokenAddress: string, k: nat)
    requires k <= |logs|
    requires forall j :: 0 <= j < k ==> Screen(logs[j], tokenAddress) != Throws
    requires k < |logs| ==> Screen(logs[k], tokenAddress) == Throws
    ensures FirstThrow(logs, tokenAddress) == k
  {
  }

  lemma {:induction false} EmittedSnoc(logs: seq<LogEntry>, log: LogEntry, txHash: string, snap: Snapshot, decode: Decoder)
    ensures Emitted(logs + [log], txHash, snap, decode) ==
            Emitted(logs, txHash, snap, decode) + LogOutcome(log, txHash, snap, decode).transfers
  {
    if logs != [] {
      assert (logs + [log])[1..] == logs[1..] + [log];
      EmittedSnoc(logs[1..], log, txHash, snap, decode);
    }
  }

  /** The frame loop equals the reference: it broadcasts the transfers of the
      accepted, decodable logs that come before the first log that throws, and it
      throws exactly when such a log exists. */
  lemma {:induction false} LogsRunIsEmittedUpToFirstThrow(logs: seq<LogEntry>, txHash: string, snap: Snapshot, decode: Decoder)
    ensures var f := FirstThrow(logs, snap.tokenAddress);
            LogsRun(logs, txHash, snap, decode) == Run(Emitted(logs[..f], txHash, snap, decode), f < |logs|)
    decreases |logs|
  {
    var tok := snap.tokenAddress;
    if logs != [] {
      var ps, l := logs[..|logs| - 1], logs[|logs| - 1];
      assert logs == ps + [l];
      assert LogsRun(logs, txHash, snap, decode) == Then(LogsRun(ps, txHash, snap, decode), LogOutcome(l, txHash, snap, decode));
      LogsRunIsEmittedUpToFirstThrow(ps, txHash, snap, decode);
      var f := FirstThrow(ps, tok);
      if f < |ps| {
        FirstThrowUnique(logs, tok, f);
        assert logs[..f] == ps[..f];
      } else if Screen(l, tok) == Throws {
        FirstThrowUnique(logs, tok, |ps|);
        assert logs[..|ps|] == ps[..f];
        assert LogOutcome(l, txHash, snap, decode) == Run([], true);
      } else {
        FirstThrowUnique(logs, tok, |logs|);
        assert ps[..f] == ps;
        assert logs[..|logs|] == ps + [l];
        EmittedSnoc(ps, l, txHash, snap, decode);
      }
    }
  }

  /** A log yields `t`: it passes the screen and decodes to `t`. */
  predicate Yields(log: LogEntry, txHash: string, snap: Snapshot, decode: Decoder, t: Transfer) {
    Screen(log, snap.tokenAddress) == Accepted && DecodeTransfer(log, txHash, snap, decode) == Some(t)
  }

  lemma OutcomeYields(log: LogEntry, txHash: string, snap: Snapshot, decode: Decoder, t: Transfer)
    ensures t in LogOutcome(log, txHash, snap, decode).transfers <==> Yields(log, txHash, snap, decode, t)
  {
  }

  /** A transfer is in the reference output exactly when some log yields it. */
  lemma {:induction false} EmittedMembership(logs: seq<LogEntry>, txHash: string, snap: Snapshot, decode: Decoder, t: Transfer)
    ensures t in Emitted(logs, txHash, snap, decode) <==>
            exists i :: 0 <= i < |logs| && Yields(logs[i], txHash, snap, decode, t)
  {
    if logs != [] {
      EmittedMembership(logs[1..], txHash, snap, decode, t);
      OutcomeYields(logs[0], txHash, snap, decode, t);
      if exists i :: 0 <= i < |logs[1..]| && Yields(logs[1..][i], txHash, snap, decode, t) {
        var i :| 0 <= i < |logs[1..]| && Yields(logs[1..][i], txHash, snap, decode, t);
        assert logs[i + 1] == logs[1..][i];
      }
      if exists i :: 0 <= i < |logs| && Yields(logs[i], txHash, snap, decode, t) {
        var i :| 0 <= i < |logs| && Yields(logs[i], txHash, snap, decode, t);
        if i > 0 {
          assert logs[1..][i - 1] == logs[i];
        }
      }
    }
  }

  /** Only logs with a non-empty topic list whose first topic is the Transfer topic
      and whose emitter is the tracked token reach the decoder, only those that
      decode are broadcast, and nothing after a log that throws: a transfer is
      broadcast for a transaction exactly when some log before the first throwing
      one (FirstThrow) yields it. */
  lemma LogsRunTransfers(logs: seq<LogEntry>, txHash: string, snap: Snapshot, decode: Decoder, t: Transfer)
    ensures t in LogsRun(logs, txHash, snap, decode).transfers <==>
            exists i :: 0 <= i < FirstThrow(logs, snap.tokenAddress) && Yields(logs[i], txHash, snap, decode, t)
  {
    var f := FirstThrow(logs, snap.tokenAddress);
    LogsRunIsEmittedUpToFirstThrow(logs, txHash, snap, decode);
    EmittedMembership(logs[..f], txHash, snap, decode, t);
    if exists i :: 0 <= i < f && Yields(logs[i], txHash, snap, decode, t) {
      var i :| 0 <= i < f && Yields(logs[i], txHash, snap, decode, t);
      assert logs[..f][i] == logs[i];
    }
    if exists i :: 0 <= i < |logs[..f]| && Yields(logs[..f][i], txHash, snap, decode, t) {
      var i :| 0 <= i < |logs[..f]| && Yields(logs[..f][i], txHash, snap, decode, t);
      assert logs[..f][i] == logs[i];
    }
  }

  /** `processWalletTransaction(tx)`: a null transaction throws on `tx.logs`, one
      without a logs array yields nothing. */
  function TxRun(tx: TxRecord, snap: Snapshot, decode: Decoder): (r: Run)
    ensures tx.NullTx? ==> r == Run([], true)
    ensures tx.Tx? && tx.logs.None? ==> r == Run([], false)
    ensures forall k :: 0 <= k < |r.transfers| ==>
              tx.Tx? && r.transfers[k].txHash == tx.txHash && Classified(r.transfers[k], snap)
  {
    match tx
    case NullTx => Run([], true)
    case Tx(h, logs) => if logs.None? then Run([], false) else LogsRun(logs.value, h, snap, decode)
  }

  /** `walletTxs.forEach(processWalletTransaction)`: an exception in one transaction
      is caught only around the whole frame, so it ends the frame. Every transfer
      carries the hash of a transaction of the frame and is classified against the
      snapshot. */
  function FrameRun(txs: seq<TxRecord>, snap: Snapshot, decode: Decoder): (r: Run)
    ensures forall k :: 0 <= k < |r.transfers| ==> Classified(r.transfers[k], snap)
    ensures forall k :: 0 <= k < |r.transfers| ==>
              exists i :: 0 <= i < |txs| && txs[i].Tx? && txs[i].txHash == r.transfers[k].txHash
    decreases |txs|
  {
    if txs == [] then Run([], false)
    else
      var p := FrameRun(txs[..|txs| - 1], snap, decode);
      var q := TxRun(txs[|txs| - 1], snap, decode);
      var r := Then(p, q);
      assert forall k :: 0 <= k < |r.transfers| ==>
        exists i :: 0 <= i < |txs| && txs[i].Tx? && txs[i].txHash == r.transfers[k].txHash by {
        forall k | 0 <= k < |r.transfers|
          ensures exists i :: 0 <= i < |txs| && txs[i].Tx? && txs[i].txHash == r.transfers[k].txHash
        {
          if k < |p.transfers| {
            var i :| 0 <= i < |txs| - 1 && txs[..|txs| - 1][i].Tx? && txs[..|txs| - 1][i].txHash == p.transfers[k].txHash;
            assert txs[i] == txs[..|txs| - 1][i];
          } else {
            assert txs[|txs| - 1].Tx? && txs[|txs| - 1].txHash == r.transfers[k].txHash;
          }
        }
      }
      r
  }

  lemma {:induction false} FrameRunStopsAtThrow(txs: seq<TxRecord>, n: nat, snap: Snapshot, decode: Decoder)
    requires n <= |txs|
    requires FrameRun(txs[..n], snap, decode).threw
    ensures FrameRun(txs, snap, decode) == FrameRun(txs[..n], snap, decode)
    decreases |txs|
  {
    if n < |txs| {
      assert txs[..|txs| - 1][..n] == txs[..n];
      FrameRunStopsAtThrow(txs[..|txs| - 1], n, snap, decode);
    } else {
      assert txs[..n] == txs;
    }
  }

  /** With an empty whale set (before the first refresh, or after a failed one)
      no transfer of a frame is flagged as a whale movement. */
  lemma NoWhaleWithoutWhales(txs: seq<TxRecord>, snap: Snapshot, decode: Decoder)
    requires snap.whales == {}
    ensures forall k :: 0 <= k < |FrameRun(txs, snap, decode).transfers| ==>
              !FrameRun(txs, snap, decode).transfers[k].isWhale
  {
  }

  /** The NEW_TRANSFER messages broadcast for `ts`, in order. */
  function Announce(ts: seq<Transfer>): (r: seq<OutMsg>)
    ensures |r| == |ts|
  {
    seq(|ts|, k requires 0 <= k < |ts| => NewTransfer(ts[k]))
  }

  lemma AnnounceAppend(a: seq<Transfer>, b: seq<Transfer>)
    ensures Announce(a + b) == Announce(a) + Announce(b)
  {
    assert forall k :: 0 <= k < |a| + |b| ==> Announce(a + b)[k] == (Announce(a) + Announce(b))[k];
  }

  lemma LogsRunStep(logs: seq<LogEntry>, i: nat, txHash: string, snap: Snapshot, decode: Decoder)
    requires i < |logs| && !LogsRun(logs[..i], txHash, snap, decode).threw
    ensures LogsRun(logs[..i + 1], txHash, snap, decode) ==
            Run(LogsRun(logs[..i], txHash, snap, decode).transfers + LogOutcome(logs[i], txHash, snap, decode).transfers,
                LogOutcome(logs[i], txHash, snap, decode).threw)
  {
    assert logs[..i + 1][..i] == logs[..i];
  }

  lemma FrameRunStep(txs: seq<TxRecord>, i: nat, snap: Snapshot, decode: Decoder)
    requires i < |txs| && !FrameRun(txs[..i], snap, decode).threw
    ensures FrameRun(txs[..i + 1], snap, decode) ==
            Run(FrameRun(txs[..i], snap, decode).transfers + TxRun(txs[i], snap, decode).transfers,
                TxRun(txs[i], snap, decode).threw)
  {
    assert txs[..i + 1][..i] == txs[..i];
  }
}
