/**
 * The token table of the recommendation panel and its two lookups:
 * `getTokenAddress` (the first token with a symbol, its address on the
 * current network, or `''`) and `availableTokens` (the tokens with an
 * address on the current network, in table order).
 */
module Tokens {
  import opened Wrappers

  /** A token: its symbol, display name, and address per network. */
  datatype Token = Token(symbol: string, name: string, addresses: map<string, string>)

  /** `token.addresses[network]`, with a missing entry read as `''` (both are falsy). */
  function AddressOn(t: Token, network: string): string {
    if network in t.addresses then t.addresses[network] else ""
  }

  /** `token.addresses[network]` is truthy. */
  predicate OnNetwork(t: Token, network: string) {
    AddressOn(t, network) != ""
  }

  /** `tokens.find(t => t.symbol === symbol)`: the index of the first match. */
  function FindSymbol(tokens: seq<Token>, symbol: string): (r: Option<nat>)
    ensures r.Some? ==> r.value < |tokens| && tokens[r.value].symbol == symbol
    ensures r.Some? ==> forall j :: 0 <= j < r.value ==> tokens[j].symbol != symbol
    ensures r.None? <==> forall j :: 0 <= j < |tokens| ==> tokens[j].symbol != symbol
  {
    if tokens == [] then None
    else if tokens[0].symbol == symbol then Some(0)
    else match FindSymbol(tokens[1..], symbol)
      case None => None
      case Some(i) => Some(i + 1)
  }

  /** `getTokenAddress(symbol)` on `network`. */
  function TokenAddress(tokens: seq<Token>, symbol: string, network: string): (a: string)
    ensures a != "" ==> exists i :: 0 <= i < |tokens| && tokens[i].symbol == symbol && OnNetwork(tokens[i], network)
  {
    match FindSymbol(tokens, symbol)
    case None => ""
    case Some(i) => AddressOn(tokens[i], network)
  }

  /** The address lookup sees only the first token with the symbol. */
  lemma TokenAddressIsFirstMatch(tokens: seq<Token>, symbol: string, network: string, i: nat)
    requires i < |tokens| && tokens[i].symbol == symbol
    requires forall j :: 0 <= j < i ==> tokens[j].symbol != symbol
    ensures TokenAddress(tokens, symbol, network) == AddressOn(tokens[i], network)
  {
    assert FindSymbol(tokens, symbol).Some?;
  }

  /** No token with the symbol: the empty address. */
  lemma UnknownSymbolHasNoAddress(tokens: seq<Token>, symbol: string, network: string)
    requires forall j :: 0 <= j < |tokens| ==> tokens[j].symbol != symbol
    ensures TokenAddress(tokens, symbol, network) == ""
  {
  }

  /** `tokens.filter(token => token.addresses[network])`. */
  function AvailableTokens(tokens: seq<Token>, network: string): (r: seq<Token>)
    ensures |r| <= |tokens|
    ensures forall t :: t in r <==> t in tokens && OnNetwork(t, network)
  {
    if tokens == [] then []
    else
      var rest := AvailableTokens(tokens[1..], network);
      assert forall t :: t in tokens <==> t == tokens[0] || t in tokens[1..];
      if OnNetwork(tokens[0], network) then [tokens[0]] + rest else rest
  }

  /**
   * The filter distributes over concatenation: filtering a table in two
   * parts and joining the results is filtering the whole table, so the
   * kept tokens stay in table order.
   */
  lemma {:induction false} AvailableAppend(a: seq<Token>, b: seq<Token>, network: string)
    ensures AvailableTokens(a + b, network) == AvailableTokens(a, network) + AvailableTokens(b, network)
    decreases |a|
  {
    if a == [] {
      assert a + b == b;
    } else {
      assert (a + b)[0] == a[0];
      assert (a + b)[1..] == a[1..] + b;
      AvailableAppend(a[1..], b, network);
    }
  }

  lemma AvailableSingle(t: Token, network: string)
    ensures AvailableTokens([t], network) == if OnNetwork(t, network) then [t] else []
  {
    assert [t][1..] == [];
  }

  /**
   * With distinct symbols, every token the menu offers resolves to a
   * non-empty address on that network.
   */
  lemma AvailableOnNetworkHaveAddress(tokens: seq<Token>, network: string, symbol: string)
    requires forall i, j :: 0 <= i < j < |tokens| ==> tokens[i].symbol != tokens[j].symbol
    requires exists t :: t in AvailableTokens(tokens, network) && t.symbol == symbol
    ensures TokenAddress(tokens, symbol, network) != ""
  {
    var t :| t in AvailableTokens(tokens, network) && t.symbol == symbol;
    var i :| 0 <= i < |tokens| && tokens[i] == t;
    TokenAddressIsFirstMatch(tokens, symbol, network, i);
  }

  // ---------------------------------------------------------------------
  // The table
  // ---------------------------------------------------------------------

  const Weth: Token := Token("WETH", "Wrapped Ethereum", map[
    "ethereum" := "0xC02aaA39b223FE8D0A0e5C4F27eAD9083C756Cc2",
    "arbitrum" := "0x82aF49447D8a07e3BD95BD0d56f35241523fBab1",
    "optimism" := "0x4200000000000000000000000000000000000006",
    "base" := "0x4200000000000000000000000000000000000006",
    "polygon" := "0x7ceB23fD6bC0adD59E62ac25578270cFf1b9f619"])

  const Usdc: Token := Token("USDC", "USD Coin", map[
    "ethereum" := "0xA0b86991c6218b36c1d19D4a2e9Eb0cE3606eB48",
    "arbitrum" := "0xAf88d065e77c8cC2239327C5EDb3A432268e5831",
    "optimism" := "0x7F5c764cBc14f9669B88837ca1490cCa17c31607",
    "base" := "0x833589fCD6eDb6E08f4c7C32D4f71b54bdA02913",
    "polygon" := "0x2791Bca1f2de4661ED88A30C99A7a9449Aa84174"])

  const Usdt: Token := Token("USDT", "Tether USD", map[
    "ethereum" := "0xdAC17F958D2ee523a2206206994597C13D831ec7",
    "arbitrum" := "0xFd086bC7CD5C481DCC9C85ebE478A1C0b69FCbb9",
    "optimism" := "0x94b008aA00579c1307B0EF2c499aD98a8ce58e58",
    "base" := "0xfde4C96c8593536E31F229EA8f37b2ADa2699bb2",
    "polygon" := "0xc2132D05D31c914a87C6611C10748AEb04B58e8F"])

  const Wbtc: Token := Token("WBTC", "Wrapped Bitcoin", map[
    "ethereum" := "0x2260FAC5E5542a773Aa44fBCfeDf7C193bc2C599",
    "arbitrum" := "0x2f2a2543B76A4166549F7aaB2e75Bef0aefC5B0f",
    "optimism" := "0x68f180fcCe6836688e9084f035309E29Bf0A2095",
    "base" := "0x50c5725949A6F0c72E6C4a641F24049A917DB0Cb",
    "polygon" := "0x1BFD67037B42Cf73acF2047067bd4F2C47D9BfD6"])

  const Dai: Token := Token("DAI", "Dai Stablecoin", map[
    "ethereum" := "0x6B175474E89094C44Da98b954EedeAC495271d0F",
    "arbitrum" := "0xDA10009cBd5D07dd0CeCc66161FC93D7c9000da1",
    "optimism" := "0xDA10009cBd5D07dd0CeCc66161FC93D7c9000da1",
    "base" := "0x50c5725949A6F0c72E6C4a641F24049A917DB0Cb",
    "polygon" := "0x8f3Cf7ad23Cd3CaDbD9735AFf958023239c6A063"])

  const Arb: Token := Token("ARB", "Arbitrum", map["arbitrum" := "0x912CE59144191C1204E64559FE8253a0e49E6548"])

  const Op: Token := Token("OP", "Optimism", map["optimism" := "0x4200000000000000000000000000000000000042"])

  const Matic: Token := Token("MATIC", "Polygon", map["polygon" := "0x0000000000000000000000000000000000001010"])

  /** The table, in declaration order. */
  const TOKENS: seq<Token> := [Weth, Usdc, Usdt, Wbtc, Dai, Arb, Op, Matic]

  /** The selectable networks, in menu order. */
  const BLOCKCHAINS: seq<string> := ["arbitrum", "ethereum", "polygon", "optimism", "base"]

  /** The selectable exchanges, in menu order. */
  const EXCHANGES: seq<string> := ["uniswapv3", "uniswapv2", "pancakeswap", "sushiswap"]

  lemma MajorsOnArbitrum()
    ensures forall t :: t in [Weth, Usdc, Usdt, Wbtc, Dai, Arb] ==> OnNetwork(t, "arbitrum")
  {
  }

  lemma OthersOffArbitrum()
    ensures AvailableTokens([Op, Matic], "arbitrum") == []
  {
    assert "arbitrum" !in Op.addresses && "arbitrum" !in Matic.addresses;
  }

  /** On Arbitrum the menu offers the five majors and ARB, in table order. */
  lemma ArbitrumMenu()
    ensures AvailableTokens(TOKENS, "arbitrum") == [Weth, Usdc, Usdt, Wbtc, Dai, Arb]
  {
    var majors := [Weth, Usdc, Usdt, Wbtc, Dai, Arb];
    assert TOKENS == majors + [Op, Matic];
    AvailableAppend(majors, [Op, Matic], "arbitrum");
    OthersOffArbitrum();
    MajorsOnArbitrum();
    AllKept(majors, "arbitrum");
  }

  /** A table whose every token is on the network is kept whole. */
  lemma {:induction false} AllKept(ts: seq<Token>, network: string)
    requires forall t :: t in ts ==> OnNetwork(t, network)
    ensures AvailableTokens(ts, network) == ts
    decreases |ts|
  {
    if ts != [] {
      assert ts[0] in ts;
      assert forall t :: t in ts[1..] ==> t in ts;
      AllKept(ts[1..], network);
    }
  }

  /** The default pair resolves to its Arbitrum addresses. */
  lemma DefaultPairAddresses()
    ensures TokenAddress(TOKENS, "WETH", "arbitrum") == "0x82aF49447D8a07e3BD95BD0d56f35241523fBab1"
    ensures TokenAddress(TOKENS, "USDC", "arbitrum") == "0xAf88d065e77c8cC2239327C5EDb3A432268e5831"
  {
    WethOnArbitrum();
    UsdcOnArbitrum();
  }

  lemma WethOnArbitrum()
    ensures TokenAddress(TOKENS, "WETH", "arbitrum") == "0x82aF49447D8a07e3BD95BD0d56f35241523fBab1"
  {
    TokenAddressIsFirstMatch(TOKENS, "WETH", "arbitrum", 0);
  }

  lemma UsdcOnArbitrum()
    ensures TokenAddress(TOKENS, "USDC", "arbitrum") == "0xAf88d065e77c8cC2239327C5EDb3A432268e5831"
  {
    assert TOKENS[0].symbol != "USDC";
    TokenAddressIsFirstMatch(TOKENS, "USDC", "arbitrum", 1);
  }

  /** A token missing from a network's address list resolves to `''` there. */
  lemma ArbOffEthereum()
    ensures TokenAddress(TOKENS, "ARB", "ethereum") == ""
  {
    assert forall j :: 0 <= j < 5 ==> TOKENS[j].symbol != "ARB";
    TokenAddressIsFirstMatch(TOKENS, "ARB", "ethereum", 5);
  }

  /**
   * On Base the table gives WBTC and DAI the same address, so the pair
   * WBTC/DAI passes the distinct-symbols check yet asks for one token twice.
   */
  lemma BaseWbtcDaiCollide()
    ensures TokenAddress(TOKENS, "WBTC", "base") == TokenAddress(TOKENS, "DAI", "base") != ""
  {
    assert forall j :: 0 <= j < 3 ==> TOKENS[j].symbol != "WBTC";
    TokenAddressIsFirstMatch(TOKENS, "WBTC", "base", 3);
    assert forall j :: 0 <= j < 4 ==> TOKENS[j].symbol != "DAI";
    TokenAddressIsFirstMatch(TOKENS, "DAI", "base", 4);
  }
}
