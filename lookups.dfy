/** What the relay does with the answers of its two REST lookups: the token's
    balances entry, which gives the decimals and the TOKEN_INFO payload, and the
    top holders, which become the whale set. Each answer may be a thrown
    exception, a non-ok status or a body, and each handler degrades to defaults
    instead of failing. */
module Lookups {
  import opened Wrappers
  import opened Strings
  import opened Wire

  datatype ItemCheck = Matches | NoMatch | CheckThrows

  /** The `find` callback: `item.contract_address && item.contract_address.toLowerCase() === tokenAddress`.
      A truthy value that is not a string has no `toLowerCase` and throws. */
  function CheckItem(item: BalanceItem, tokenAddress: string): (r: ItemCheck)
    ensures r == Matches <==>
              item.contractAddress.Str? && item.contractAddress.s != "" && ToLower(item.contractAddress.s) == tokenAddress
    ensures r == CheckThrows <==> item.contractAddress.NonStr? && item.contractAddress.truthy
  {
    match item.contractAddress
    case Missing => NoMatch
    case NonStr(truthy) => if truthy then CheckThrows else NoMatch
    case Str(s) => if s != "" && ToLower(s) == tokenAddress then Matches else NoMatch
  }

  datatype Search = Found(index: nat) | NotFound | SearchThrew(index: nat)

  /** `items.find(...)`: the first item the callback accepts, unless the callback
      throws on an earlier one. */
  function Find(items: seq<BalanceItem>, tokenAddress: string): (r: Search)
    ensures r.Found? ==> r.index < |items| && CheckItem(items[r.index], tokenAddress) == Matches
    ensures r.SearchThrew? ==> r.index < |items| && CheckItem(items[r.index], tokenAddress) == CheckThrows
    ensures !r.NotFound? ==> forall j :: 0 <= j < r.index ==> CheckItem(items[j], tokenAddress) == NoMatch
    ensures r.NotFound? <==> forall j :: 0 <= j < |items| ==> CheckItem(items[j], tokenAddress) == NoMatch
    decreases |items|
  {
    if items == [] then NotFound
    else
      match CheckItem(items[0], tokenAddress)
      case Matches => Found(0)
      case CheckThrows => SearchThrew(0)
      case NoMatch =>
        match Find(items[1..], tokenAddress)
        case Found(i) => Found(i + 1)
        case SearchThrew(i) => SearchThrew(i + 1)
        case NotFound => NotFound
  }

  /** `tokenData.contract_decimals || 18`: a missing (null) or zero value falls
      back to 18. */
  function EffectiveDecimals(d: Option<nat>): (r: nat)
    ensures r > 0
    ensures d.Some? && d.value > 0 ==> r == d.value
  {
    if d.Some? && d.value != 0 then d.value else DefaultDecimals
  }

  /** The placeholder TOKEN_INFO sent when the lookup threw. */
  function ErrorInfo(tokenAddress: string): (r: TokenInfo)
    ensures r.address == tokenAddress && r.decimals == Some(18) && r.logoUrl.None?
    ensures r.symbol == Some("ERROR")
  {
    TokenInfo(tokenAddress, Some("Error Loading Token"), Some("ERROR"), Some(DefaultDecimals), None)
  }

  /** The placeholder TOKEN_INFO sent when the lookup has no entry for the token. */
  function UnknownInfo(tokenAddress: string): (r: TokenInfo)
    ensures r.address == tokenAddress && r.decimals == Some(18) && r.logoUrl.None?
    ensures r.symbol == Some("UNKNOWN") && r != ErrorInfo(tokenAddress)
  {
    TokenInfo(tokenAddress, Some("Unknown Token"), Some("UNKNOWN"), Some(DefaultDecimals), None)
  }

  /** The TOKEN_INFO built from the matching entry, decimals as reported. */
  function ItemInfo(item: BalanceItem): (r: TokenInfo)
    requires item.contractAddress.Str?
    ensures r.address == item.contractAddress.s && r.decimals == item.decimals
    ensures r.name == item.name && r.symbol == item.symbol && r.logoUrl == item.logoUrl
  {
    TokenInfo(item.contractAddress.s, item.name, item.symbol, item.decimals, item.logoUrl)
  }

  datatype DetailsOutcome = DetailsOutcome(decimals: nat, info: TokenInfo)

  /** The branching of `fetchTokenDetails` once the request is answered: the new
      `tokenDecimals` and the TOKEN_INFO payload to broadcast. */
  function TokenDetails(resp: DetailsResponse, tokenAddress: string): (r: DetailsOutcome)
    ensures r.decimals > 0
  {
    match resp
    case DetailsThrew => DetailsOutcome(DefaultDecimals, ErrorInfo(tokenAddress))
    case DetailsNotOk(_) => DetailsOutcome(DefaultDecimals, ErrorInfo(tokenAddress))
    case DetailsBody(items) =>
      if items.None? || |items.value| == 0 then DetailsOutcome(DefaultDecimals, UnknownInfo(tokenAddress))
      else
        match Find(items.value, tokenAddress)
        case SearchThrew(_) => DetailsOutcome(DefaultDecimals, ErrorInfo(tokenAddress))
        case NotFound => DetailsOutcome(DefaultDecimals, UnknownInfo(tokenAddress))
        case Found(i) =>
          var item := items.value[i];
          DetailsOutcome(EffectiveDecimals(item.decimals), ItemInfo(item))
  }

  /** The token-details fallbacks. A failed request (thrown or non-ok) gives 18 and
      the ERROR info; no entry for the tracked token gives 18 and the UNKNOWN info,
      and so does an entry list that is missing or empty; a callback that throws
      gives the ERROR info; otherwise the info is the first entry whose lower-cased
      contract address is the tracked token, with its decimals as reported, while
      `tokenDecimals` is 18 exactly when that value is missing or 0. */
  lemma TokenDetailsCases(resp: DetailsResponse, tokenAddress: string)
    ensures (resp.DetailsThrew? || resp.DetailsNotOk?) ==>
              TokenDetails(resp, tokenAddress) == DetailsOutcome(18, ErrorInfo(tokenAddress))
    ensures resp.DetailsBody? && (resp.items.None? || Find(resp.items.value, tokenAddress).NotFound?) ==>
              TokenDetails(resp, tokenAddress) == DetailsOutcome(18, UnknownInfo(tokenAddress))
    ensures resp.DetailsBody? && resp.items.Some? && Find(resp.items.value, tokenAddress).SearchThrew? ==>
              TokenDetails(resp, tokenAddress) == DetailsOutcome(18, ErrorInfo(tokenAddress))
    ensures resp.DetailsBody? && resp.items.Some? && Find(resp.items.value, tokenAddress).Found? ==>
              var i := Find(resp.items.value, tokenAddress).index;
              var r := TokenDetails(resp, tokenAddress);
              r.info == ItemInfo(resp.items.value[i]) &&
              ToLower(r.info.address) == tokenAddress &&
              (r.decimals == 18 <==> r.info.decimals == None || r.info.decimals == Some(0) || r.info.decimals == Some(18)) &&
              (r.decimals != 18 ==> Some(r.decimals) == r.info.decimals)
  {
  }

  /** A reported decimals of 0 is sent as 0 in TOKEN_INFO while the relay keeps
      scaling by 18. */
  lemma ZeroDecimalsKeptInInfoNotInState(items: seq<BalanceItem>, tokenAddress: string, i: nat)
    requires i < |items|
    requires Find(items, tokenAddress) == Found(i)
    requires items[i].decimals == Some(0)
    ensures TokenDetails(DetailsBody(Some(items)), tokenAddress).decimals == 18
    ensures TokenDetails(DetailsBody(Some(items)), tokenAddress).info.decimals == Some(0)
  {
  }

  /** `items.map(h => h.address.toLowerCase())`: None when some holder has no string
      address, since the map then throws. */
  function HolderAddresses(hs: seq<Holder>): (r: Option<seq<string>>)
    ensures r.Some? <==> forall i :: 0 <= i < |hs| ==> hs[i].address.Some?
    ensures r.Some? ==> (|r.value| == |hs| &&
              forall i :: 0 <= i < |hs| ==> r.value[i] == ToLower(hs[i].address.value))
    decreases |hs|
  {
    if hs == [] then Some([])
    else if hs[0].address.None? then None
    else
      match HolderAddresses(hs[1..])
      case None => None
      case Some(rest) => Some([ToLower(hs[0].address.value)] + rest)
  }

  datatype HoldersOutcome = HoldersOutcome(whales: set<string>, reschedule: bool)

  /** The branching of `fetchWhales` once the request is answered: the new whale set
      and whether the five-minute refresh is scheduled again. */
  function RefreshWhales(resp: HoldersResponse): (r: HoldersOutcome)
    ensures r.reschedule <==> !resp.HoldersNotOk?
    ensures forall w :: w in r.whales ==> IsLower(w)
  {
    match resp
    case HoldersNotOk(_) => HoldersOutcome({}, false)
    case HoldersThrew => HoldersOutcome({}, true)
    case HoldersBody(items) =>
      if items.None? then HoldersOutcome({}, true)
      else
        match HolderAddresses(items.value)
        case None => HoldersOutcome({}, true)
        case Some(addrs) => HoldersOutcome(set a | a in addrs, true)
  }

  /** The whale set after a refresh: an address is in it exactly when the lookup
      answered with a holder list in which every holder has a string address and
      some holder's address lower-cases to it. A non-ok answer, an exception, a
      missing list or a holder without an address all give the empty set. */
  lemma {:induction false} RefreshWhalesMembership(resp: HoldersResponse, w: string)
    ensures w in RefreshWhales(resp).whales <==>
            resp.HoldersBody? && resp.items.Some? &&
            (forall i :: 0 <= i < |resp.items.value| ==> resp.items.value[i].address.Some?) &&
            exists i :: 0 <= i < |resp.items.value| && ToLower(resp.items.value[i].address.value) == w
  {
    if resp.HoldersBody? && resp.items.Some? {
      var hs := resp.items.value;
      match HolderAddresses(hs)
      case None =>
      case Some(addrs) =>
        if w in addrs {
          var k :| 0 <= k < |addrs| && addrs[k] == w;
          assert ToLower(hs[k].address.value) == w;
        }
        if exists i :: 0 <= i < |hs| && ToLower(hs[i].address.value) == w {
          var i :| 0 <= i < |hs| && ToLower(hs[i].address.value) == w;
          assert addrs[i] == w;
        }
    }
  }
}
