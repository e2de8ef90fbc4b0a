/**
 * The on-chain readers of the exchange front end (src/api/ethereum.ts).
 *
 * Each reader builds an ordered plan of read-only contract calls, sends the
 * whole plan to a multicall aggregator in one round trip, and decodes the
 * flat list of answers by the fixed stride at which the calls were appended:
 * two calls per token for the account state, three per token for the token
 * metadata.
 *
 * The aggregator, the configuration, the native-currency sentinel, the logo
 * link helper and the big-number formatter are not part of this model; they
 * enter as parameters.
 */
module Ethereum {

  type Address = string

  /** The key under which the account's ether balance is stored. */
  const Ether: Address := "ether"

  datatype Option<+T> = None | Some(value: T)

  /** The contract addresses read from the application's configuration. */
  datatype Config = Config(exchangeProxy: Address, dsProxyRegistry: Address)

  /** One read-only call of an aggregated batch. */
  datatype Call =
    | BalanceOf(token: Address, owner: Address)
    | Allowance(token: Address, owner: Address, spender: Address)
    | EthBalance(owner: Address)
    | Proxies(registry: Address, owner: Address)
    | Name(token: Address)
    | Symbol(token: Address)
    | Decimals(token: Address)

  /** Allowances are keyed by spender, then by token; balances by token and Ether. */
  datatype AccountState<V> = AccountState(
    allowances: map<Address, map<Address, string>>,
    balances: map<Address, string>,
    proxy: V)

  datatype TokenMetadata<V> = TokenMetadata(
    address: Address,
    name: V,
    symbol: V,
    decimals: V,
    logoUrl: string)

  /** The aggregator, when it answers, answers every call of the batch, in order. */
  ghost predicate AnswersEveryCall<V>(all: seq<Call> -> Option<seq<V>>)
  {
    forall calls :: all(calls).Some? ==> |all(calls).value| == |calls|
  }

  /** Position i holds the last occurrence of its element in s. */
  ghost predicate LastOccurrence<T>(s: seq<T>, i: int)
  {
    0 <= i < |s| && s[i] !in s[i + 1..]
  }

  /** The slot indices 0, 1, ..., n-1 of a result list of length n, in increasing order. */
  ghost function Slots(n: nat): (r: seq<int>)
    ensures |r| == n && forall k :: 0 <= k < n ==> r[k] == k
  {
    if n == 0 then [] else Slots(n - 1) + [n - 1]
  }

  lemma SlotsPlusTwo(n: nat)
    ensures Slots(n + 2) == Slots(n) + [n, n + 1]
  {
    assert Slots(n + 2) == Slots(n + 1) + [n + 1];
  }

  lemma SlotsPlusThree(n: nat)
    ensures Slots(n + 3) == Slots(n) + [n, n + 1, n + 2]
  {
    SlotsPlusTwo(n);
    assert Slots(n + 3) == Slots(n + 2) + [n + 2];
  }

  // ---------------------------------------------------------------------
  // Filtering out the native currency
  // ---------------------------------------------------------------------

  /** The asset list with every occurrence of the native-currency sentinel removed. */
  function WithoutNative(assets: seq<Address>, ethKey: Address): (r: seq<Address>)
    ensures |r| <= |assets|
    ensures forall a :: a in r <==> a in assets && a != ethKey
  {
    if assets == [] then []
    else (if assets[0] == ethKey then [] else [assets[0]]) + WithoutNative(assets[1..], ethKey)
  }

  /** Filtering commutes with concatenation, so the kept assets keep their relative order. */
  lemma {:induction false} WithoutNativeAppend(a: seq<Address>, b: seq<Address>, ethKey: Address)
    ensures WithoutNative(a + b, ethKey) == WithoutNative(a, ethKey) + WithoutNative(b, ethKey)
  {
    if a != [] {
      assert (a + b)[0] == a[0];
      assert (a + b)[1..] == a[1..] + b;
      WithoutNativeAppend(a[1..], b, ethKey);
    } else {
      assert a + b == b;
    }
  }

  /** Every asset other than the sentinel is kept as many times as it occurs. */
  lemma {:induction false} WithoutNativeCounts(assets: seq<Address>, ethKey: Address)
    ensures multiset(WithoutNative(assets, ethKey)) == multiset(assets)[ethKey := 0]
  {
    if assets != [] {
      var rest := assets[1..];
      WithoutNativeCounts(rest, ethKey);
      assert assets == [assets[0]] + rest;
      assert multiset(assets) == multiset{assets[0]} + multiset(rest);
      if assets[0] == ethKey {
        assert WithoutNative(assets, ethKey) == WithoutNative(rest, ethKey);
      } else {
        assert WithoutNative(assets, ethKey) == [assets[0]] + WithoutNative(rest, ethKey);
      }
    }
  }

  /** A list without the sentinel is passed through unchanged. */
  lemma {:induction false} WithoutNativeIdentity(assets: seq<Address>, ethKey: Address)
    requires ethKey !in assets
    ensures WithoutNative(assets, ethKey) == assets
  {
    if assets != [] {
      WithoutNativeIdentity(assets[1..], ethKey);
    }
  }

  // ---------------------------------------------------------------------
  // Writing entries into a map in order
  // ---------------------------------------------------------------------

  /** The map obtained by writing vals[i] under keys[i] for i = 0, 1, ... in turn. */
  function Tabulate<W>(keys: seq<Address>, vals: seq<W>): (m: map<Address, W>)
    requires |keys| == |vals|
    ensures forall k :: k in m <==> k in keys
    decreases |keys|
  {
    if keys == [] then map[]
    else
      var n := |keys| - 1;
      assert keys == keys[..n] + [keys[n]];
      Tabulate(keys[..n], vals[..n])[keys[n] := vals[n]]
  }

  /** Writing one more entry at the end of the lists. */
  lemma TabulateSnoc<W>(keys: seq<Address>, vals: seq<W>, k: Address, v: W)
    requires |keys| == |vals|
    ensures Tabulate(keys + [k], vals + [v]) == Tabulate(keys, vals)[k := v]
  {
    assert (keys + [k])[..|keys|] == keys;
    assert (vals + [v])[..|vals|] == vals;
  }

  /** The entry under a key is the value written at that key's last occurrence. */
  lemma {:induction false} TabulateLastWins<W>(keys: seq<Address>, vals: seq<W>, i: int)
    requires |keys| == |vals|
    requires LastOccurrence(keys, i)
    ensures keys[i] in Tabulate(keys, vals) && Tabulate(keys, vals)[keys[i]] == vals[i]
    decreases |keys|
  {
    var n := |keys| - 1;
    if i < n {
      assert keys[n] in keys[i + 1..];
      assert keys[..n][i + 1..] == keys[i + 1..n];
      assert keys[i] !in keys[..n][i + 1..];
      TabulateLastWins(keys[..n], vals[..n], i);
    }
  }

  /** TabulateLastWins for every position at once. */
  lemma TabulateLastWinsAll<W>(keys: seq<Address>, vals: seq<W>)
    requires |keys| == |vals|
    ensures forall i :: LastOccurrence(keys, i) ==> Tabulate(keys, vals)[keys[i]] == vals[i]
  {
    forall i | LastOccurrence(keys, i)
      ensures Tabulate(keys, vals)[keys[i]] == vals[i]
    {
      TabulateLastWins(keys, vals, i);
    }
  }

  /** Every entry of the map is a value written under its key. */
  lemma {:induction false} TabulateWritten<W>(keys: seq<Address>, vals: seq<W>, k: Address)
    requires |keys| == |vals|
    requires k in Tabulate(keys, vals)
    ensures exists i :: 0 <= i < |keys| && keys[i] == k && Tabulate(keys, vals)[k] == vals[i]
    decreases |keys|
  {
    var n := |keys| - 1;
    if keys[n] != k {
      TabulateWritten(keys[..n], vals[..n], k);
      var i :| 0 <= i < n && keys[..n][i] == k && Tabulate(keys[..n], vals[..n])[k] == vals[..n][i];
      assert keys[i] == k;
    }
  }

  /** TabulateWritten for every key at once. */
  lemma TabulateWrittenAll<W>(keys: seq<Address>, vals: seq<W>)
    requires |keys| == |vals|
    ensures forall k :: k in Tabulate(keys, vals) ==>
      exists i :: 0 <= i < |keys| && keys[i] == k && Tabulate(keys, vals)[k] == vals[i]
  {
    forall k | k in Tabulate(keys, vals)
      ensures exists i :: 0 <= i < |keys| && keys[i] == k && Tabulate(keys, vals)[k] == vals[i]
    {
      TabulateWritten(keys, vals, k);
    }
  }

  // ---------------------------------------------------------------------
  // Account state: balances, allowances, ether balance, proxy
  // ---------------------------------------------------------------------

  /** The balanceOf / allowance pair for each token, in token order. */
  function TokenCalls(owner: Address, tokens: seq<Address>, spender: Address): (r: seq<Call>)
    ensures |r| == 2 * |tokens|
    decreases |tokens|
  {
    if tokens == [] then []
    else
      var n := |tokens| - 1;
      TokenCalls(owner, tokens[..n], spender) + [BalanceOf(tokens[n], owner), Allowance(tokens[n], owner, spender)]
  }

  /** Slot 2i asks for token i's balance of the owner, slot 2i + 1 for its allowance to the spender. */
  lemma {:induction false} TokenCallsLayout(owner: Address, tokens: seq<Address>, spender: Address)
    ensures var r := TokenCalls(owner, tokens, spender);
      forall i :: 0 <= i < |tokens| ==>
        r[2 * i] == BalanceOf(tokens[i], owner) && r[2 * i + 1] == Allowance(tokens[i], owner, spender)
    decreases |tokens|
  {
    if tokens != [] {
      var n := |tokens| - 1;
      var prev := tokens[..n];
      TokenCallsLayout(owner, prev, spender);
      var r := TokenCalls(owner, tokens, spender);
      assert r == TokenCalls(owner, prev, spender) + [BalanceOf(tokens[n], owner), Allowance(tokens[n], owner, spender)];
      forall i | 0 <= i < |tokens|
        ensures r[2 * i] == BalanceOf(tokens[i], owner) && r[2 * i + 1] == Allowance(tokens[i], owner, spender)
      {
        if i < n {
          assert prev[i] == tokens[i];
        }
      }
    }
  }

  /** The complete account-state plan: 2N token calls, the ether balance, the proxy lookup. */
  function AccountCalls(owner: Address, tokens: seq<Address>, spender: Address, registry: Address): (r: seq<Call>)
    ensures |r| == 2 * |tokens| + 2
    ensures r[2 * |tokens|] == EthBalance(owner)
    ensures r[2 * |tokens| + 1] == Proxies(registry, owner)
  {
    TokenCalls(owner, tokens, spender) + [EthBalance(owner), Proxies(registry, owner)]
  }

  /** The token pairs of the account plan keep their layout ahead of the two final calls. */
  lemma AccountCallsLayout(owner: Address, tokens: seq<Address>, spender: Address, registry: Address)
    ensures var r := AccountCalls(owner, tokens, spender, registry);
      forall i :: 0 <= i < |tokens| ==>
        r[2 * i] == BalanceOf(tokens[i], owner) && r[2 * i + 1] == Allowance(tokens[i], owner, spender)
  {
    TokenCallsLayout(owner, tokens, spender);
  }

  /** The balance strings found at the even slots 0, 2, ..., 2(n-1). */
  function BalanceResults<V>(n: nat, data: seq<V>, toStr: V -> string): seq<string>
    requires 2 * n <= |data|
  {
    seq(n, i requires 0 <= i < n => toStr(data[2 * i]))
  }

  /** The allowance strings found at the odd slots 1, 3, ..., 2n-1. */
  function AllowanceResults<V>(n: nat, data: seq<V>, toStr: V -> string): seq<string>
    requires 2 * n <= |data|
  {
    seq(n, i requires 0 <= i < n => toStr(data[2 * i + 1]))
  }

  /** Element access into BalanceResults and AllowanceResults, for the solver. */
  lemma TokenResultsAt<V>(n: nat, data: seq<V>, toStr: V -> string)
    requires 2 * n <= |data|
    ensures |BalanceResults(n, data, toStr)| == n && |AllowanceResults(n, data, toStr)| == n
    ensures forall i :: 0 <= i < n ==> BalanceResults(n, data, toStr)[i] == toStr(data[2 * i])
    ensures forall i :: 0 <= i < n ==> AllowanceResults(n, data, toStr)[i] == toStr(data[2 * i + 1])
  {
  }

  /** The account state decoded from the answers to AccountCalls. */
  function DecodeAccount<V>(tokens: seq<Address>, spender: Address, data: seq<V>, toStr: V -> string)
    : AccountState<V>
    requires |data| == 2 * |tokens| + 2
  {
    var n := |tokens|;
    AccountState(
      map[spender := Tabulate(tokens, AllowanceResults(n, data, toStr))],
      Tabulate(tokens, BalanceResults(n, data, toStr))[Ether := toStr(data[2 * n])],
      data[2 * n + 1])
  }

  /**
   * The shape of a decoded account state: one spender, the filtered tokens as
   * allowance keys, the tokens and Ether as balance keys; each entry read from
   * the slot of the token's last occurrence; the Ether entry, written last,
   * read from slot 2N and the proxy from slot 2N+1.
   */
  lemma DecodeAccountShape<V>(tokens: seq<Address>, spender: Address, data: seq<V>, toStr: V -> string)
    requires |data| == 2 * |tokens| + 2
    ensures var st := DecodeAccount(tokens, spender, data, toStr);
      && st.allowances.Keys == {spender}
      && (forall t :: t in st.allowances[spender] <==> t in tokens)
      && (forall t :: t in st.balances <==> t in tokens || t == Ether)
      && (forall i :: LastOccurrence(tokens, i) ==> st.allowances[spender][tokens[i]] == toStr(data[2 * i + 1]))
      && (forall i :: LastOccurrence(tokens, i) && tokens[i] != Ether ==> st.balances[tokens[i]] == toStr(data[2 * i]))
      && st.balances[Ether] == toStr(data[2 * |tokens|])
      && st.proxy == data[2 * |tokens| + 1]
  {
    var n := |tokens|;
    TokenResultsAt(n, data, toStr);
    TabulateLastWinsAll(tokens, AllowanceResults(n, data, toStr));
    TabulateLastWinsAll(tokens, BalanceResults(n, data, toStr));
  }

  /** Decoding one more token extends both maps by the entry for that token. */
  lemma AccountDecodeStep<V>(tokens: seq<Address>, data: seq<V>, toStr: V -> string, i: nat)
    requires i < |tokens| && 2 * |tokens| <= |data|
    ensures Tabulate(tokens[..i + 1], BalanceResults(i + 1, data, toStr))
      == Tabulate(tokens[..i], BalanceResults(i, data, toStr))[tokens[i] := toStr(data[2 * i])]
    ensures Tabulate(tokens[..i + 1], AllowanceResults(i + 1, data, toStr))
      == Tabulate(tokens[..i], AllowanceResults(i, data, toStr))[tokens[i] := toStr(data[2 * i + 1])]
  {
    assert tokens[..i + 1] == tokens[..i] + [tokens[i]];
    assert BalanceResults(i + 1, data, toStr) == BalanceResults(i, data, toStr) + [toStr(data[2 * i])];
    assert AllowanceResults(i + 1, data, toStr) == AllowanceResults(i, data, toStr) + [toStr(data[2 * i + 1])];
    TabulateSnoc(tokens[..i], BalanceResults(i, data, toStr), tokens[i], toStr(data[2 * i]));
    TabulateSnoc(tokens[..i], AllowanceResults(i, data, toStr), tokens[i], toStr(data[2 * i + 1]));
  }

  /**
   * The state of the decode loop after i tokens: both maps are those of the
   * first i tokens, and the slots 0 .. 2i-1 have been read, in order.
   */
  ghost predicate AccountPrefix<V>(
    tokens: seq<Address>, spender: Address, data: seq<V>, toStr: V -> string, i: nat,
    balances: map<Address, string>, allowances: map<Address, map<Address, string>>, read: seq<int>)
  {
    && i <= |tokens| && 2 * |tokens| <= |data|
    && balances == Tabulate(tokens[..i], BalanceResults(i, data, toStr))
    && allowances == map[spender := Tabulate(tokens[..i], AllowanceResults(i, data, toStr))]
    && read == Slots(2 * i)
  }

  /** Before the first token both maps are empty apart from the spender's entry, and nothing is read. */
  lemma AccountPrefixStart<V>(tokens: seq<Address>, spender: Address, data: seq<V>, toStr: V -> string)
    requires 2 * |tokens| <= |data|
    ensures AccountPrefix(tokens, spender, data, toStr, 0, map[], map[spender := map[]], [])
  {
    assert tokens[..0] == [];
  }

  /** One turn of the decode loop keeps AccountPrefix. */
  lemma AccountPrefixStep<V>(
    tokens: seq<Address>, spender: Address, data: seq<V>, toStr: V -> string, i: nat,
    balances: map<Address, string>, allowances: map<Address, map<Address, string>>, read: seq<int>)
    requires AccountPrefix(tokens, spender, data, toStr, i, balances, allowances, read)
    requires i < |tokens|
    ensures AccountPrefix(tokens, spender, data, toStr, i + 1,
      balances[tokens[i] := toStr(data[2 * i])],
      allowances[spender := allowances[spender][tokens[i] := toStr(data[2 * i + 1])]],
      read + [2 * i, 2 * i + 1])
  {
    AccountDecodeStep(tokens, data, toStr, i);
    SlotsPlusTwo(2 * i);
  }

  /**
   * After the last token, writing the ether balance and reading the proxy
   * gives DecodeAccount, and the two reads complete the slot list.
   */
  lemma AccountPrefixDone<V>(
    tokens: seq<Address>, spender: Address, data: seq<V>, toStr: V -> string,
    balances: map<Address, string>, allowances: map<Address, map<Address, string>>, read: seq<int>)
    requires |data| == 2 * |tokens| + 2
    requires AccountPrefix(tokens, spender, data, toStr, |tokens|, balances, allowances, read)
    ensures DecodeAccount(tokens, spender, data, toStr)
      == AccountState(allowances, balances[Ether := toStr(data[2 * |tokens|])], data[2 * |tokens| + 1])
    ensures read + [2 * |tokens|, 2 * |tokens| + 1] == Slots(|data|)
  {
    assert tokens[..|tokens|] == tokens;
    SlotsPlusTwo(2 * |tokens|);
  }

  /** The plan for one more token appends that token's balanceOf and allowance calls. */
  lemma TokenCallsStep(owner: Address, tokens: seq<Address>, spender: Address, i: nat)
    requires i < |tokens|
    ensures TokenCalls(owner, tokens[..i + 1], spender)
      == TokenCalls(owner, tokens[..i], spender) + [BalanceOf(tokens[i], owner), Allowance(tokens[i], owner, spender)]
  {
    assert tokens[..i + 1][..i] == tokens[..i];
  }

  /** Appends, for each token in order, its balanceOf call and then its allowance call. */
  method BuildAccountCalls(owner: Address, tokens: seq<Address>, spender: Address, registry: Address)
    returns (calls: seq<Call>)
    ensures calls == AccountCalls(owner, tokens, spender, registry)
  {
    calls := [];
    for i := 0 to |tokens|
      invariant calls == TokenCalls(owner, tokens[..i], spender)
    {
      var token := tokens[i];
      TokenCallsStep(owner, tokens, spender, i);
      calls := calls + [BalanceOf(token, owner)];
      calls := calls + [Allowance(token, owner, spender)];
    }
    assert tokens[..|tokens|] == tokens;
    calls := calls + [EthBalance(owner)];
    calls := calls + [Proxies(registry, owner)];
  }

  /**
   * Reads the answers at stride 2 into the balance and allowance maps, then
   * the ether balance and the proxy from the two slots after them. The ghost
   * list `read` logs, next to each read, the slot it reads: every slot once,
   * in increasing order.
   */
  method DecodeAccountState<V>(tokens: seq<Address>, spender: Address, data: seq<V>, toStr: V -> string)
    returns (st: AccountState<V>, ghost read: seq<int>)
    requires |data| == 2 * |tokens| + 2
    ensures st == DecodeAccount(tokens, spender, data, toStr)
    ensures read == Slots(|data|)
  {
    var tokenCount := |tokens|;
    var allowances: map<Address, map<Address, string>> := map[];
    allowances := allowances[spender := map[]];
    var balances: map<Address, string> := map[];
    read := [];
    var i := 0;
    AccountPrefixStart(tokens, spender, data, toStr);
    while i < tokenCount
      invariant AccountPrefix(tokens, spender, data, toStr, i, balances, allowances, read)
    {
      var token := tokens[i];
      AccountPrefixStep(tokens, spender, data, toStr, i, balances, allowances, read);
      balances := balances[token := toStr(data[2 * i])];
      allowances := allowances[spender := allowances[spender][token := toStr(data[2 * i + 1])]];
      read := read + [2 * i, 2 * i + 1];
      i := i + 1;
    }
    AccountPrefixDone(tokens, spender, data, toStr, balances, allowances, read);
    balances := balances[Ether := toStr(data[2 * tokenCount])];
    var proxy := data[2 * tokenCount + 1];
    read := read + [2 * tokenCount, 2 * tokenCount + 1];
    st := AccountState(allowances, balances, proxy);
  }

  /**
   * fetchAccountState: drop the sentinel, build the plan, send it in one
   * batch, decode. A batch the aggregator rejects yields no state at all.
   */
  method FetchAccountState<V>(
    address: Address, assets: seq<Address>, config: Config, ethKey: Address,
    toStr: V -> string, all: seq<Call> -> Option<seq<V>>)
    returns (r: Option<AccountState<V>>)
    requires AnswersEveryCall(all)
    ensures var tokens := WithoutNative(assets, ethKey);
            var calls := AccountCalls(address, tokens, config.exchangeProxy, config.dsProxyRegistry);
            match all(calls)
            case None => r == None
            case Some(data) => r == Some(DecodeAccount(tokens, config.exchangeProxy, data, toStr))
  {
    var tokens := WithoutNative(assets, ethKey);
    var calls := BuildAccountCalls(address, tokens, config.exchangeProxy, config.dsProxyRegistry);
    var answer := all(calls);
    if answer.None? {
      return None;
    }
    var st, _ := DecodeAccountState(tokens, config.exchangeProxy, answer.value, toStr);
    r := Some(st);
  }

  /**
   * Every slot of the answers is decoded as the answer to the call at the same
   * slot of the plan; a later identical call takes precedence. The plan holds
   * no metadata calls.
   */
  lemma AccountSlotsMatchCalls<V>(
    owner: Address, tokens: seq<Address>, spender: Address, registry: Address,
    data: seq<V>, toStr: V -> string, k: nat)
    requires |data| == 2 * |tokens| + 2
    requires k < |data|
    ensures var calls := AccountCalls(owner, tokens, spender, registry);
            var st := DecodeAccount(tokens, spender, data, toStr);
            match calls[k]
            case BalanceOf(t, o) =>
              o == owner && t in st.balances &&
              (LastOccurrence(calls, k) && t != Ether ==> st.balances[t] == toStr(data[k]))
            case Allowance(t, o, s) =>
              o == owner && s == spender && t in st.allowances[s] &&
              (LastOccurrence(calls, k) ==> st.allowances[s][t] == toStr(data[k]))
            case EthBalance(o) => o == owner && st.balances[Ether] == toStr(data[k])
            case Proxies(reg, o) => o == owner && reg == registry && st.proxy == data[k]
            case _ => false
  {
    var calls := AccountCalls(owner, tokens, spender, registry);
    var n := |tokens|;
    if k < 2 * n {
      var i := k / 2;
      AccountCallsLayout(owner, tokens, spender, registry);
      TokenSlotsMatchCalls(owner, tokens, spender, registry, data, toStr, i);
      if k == 2 * i {
        assert calls[k] == BalanceOf(tokens[i], owner);
      } else {
        assert k == 2 * i + 1;
        assert calls[k] == Allowance(tokens[i], owner, spender);
      }
    } else if k == 2 * n {
      assert calls[k] == EthBalance(owner);
    } else {
      assert calls[k] == Proxies(registry, owner);
    }
  }

  /** The two slots of token i are decoded into its balance and its allowance. */
  lemma TokenSlotsMatchCalls<V>(
    owner: Address, tokens: seq<Address>, spender: Address, registry: Address,
    data: seq<V>, toStr: V -> string, i: nat)
    requires |data| == 2 * |tokens| + 2
    requires i < |tokens|
    ensures var calls := AccountCalls(owner, tokens, spender, registry);
            var st := DecodeAccount(tokens, spender, data, toStr);
            && tokens[i] in st.balances && tokens[i] in st.allowances[spender]
            && (LastOccurrence(calls, 2 * i) && tokens[i] != Ether ==> st.balances[tokens[i]] == toStr(data[2 * i]))
            && (LastOccurrence(calls, 2 * i + 1) ==> st.allowances[spender][tokens[i]] == toStr(data[2 * i + 1]))
  {
    var calls := AccountCalls(owner, tokens, spender, registry);
    var n := |tokens|;
    TokenResultsAt(n, data, toStr);
    assert tokens[i] in tokens;
    if LastOccurrence(calls, 2 * i) {
      AccountLastCallIsLastToken(owner, tokens, spender, registry, i, 0);
      TabulateLastWins(tokens, BalanceResults(n, data, toStr), i);
    }
    if LastOccurrence(calls, 2 * i + 1) {
      AccountLastCallIsLastToken(owner, tokens, spender, registry, i, 1);
      TabulateLastWins(tokens, AllowanceResults(n, data, toStr), i);
    }
  }

  /**
   * A token call that no later call repeats belongs to the token's last
   * occurrence: slot 2i + r is the balance (r = 0) or allowance (r = 1) call of token i.
   */
  lemma AccountLastCallIsLastToken(
    owner: Address, tokens: seq<Address>, spender: Address, registry: Address, i: nat, r: nat)
    requires i < |tokens| && r < 2
    requires LastOccurrence(AccountCalls(owner, tokens, spender, registry), 2 * i + r)
    ensures LastOccurrence(tokens, i)
  {
    var calls := AccountCalls(owner, tokens, spender, registry);
    var k := 2 * i + r;
    AccountCallsLayout(owner, tokens, spender, registry);
    forall j | i < j < |tokens|
      ensures tokens[j] != tokens[i]
    {
      var later := 2 * j + r;
      if r == 0 {
        assert calls[k] == BalanceOf(tokens[i], owner) && calls[later] == BalanceOf(tokens[j], owner);
      } else {
        assert calls[k] == Allowance(tokens[i], owner, spender) && calls[later] == Allowance(tokens[j], owner, spender);
      }
      assert calls[k + 1..][later - k - 1] == calls[later];
    }
  }

  /**
   * With no tokens the plan is the ether balance and the proxy lookup alone,
   * and the state holds an empty allowance map and the Ether balance only.
   */
  lemma EmptyAccountPlan<V>(owner: Address, spender: Address, registry: Address, data: seq<V>, toStr: V -> string)
    requires |data| == 2
    ensures AccountCalls(owner, [], spender, registry) == [EthBalance(owner), Proxies(registry, owner)]
    ensures DecodeAccount([], spender, data, toStr)
      == AccountState(map[spender := map[]], map[Ether := toStr(data[0])], data[1])
  {
  }

  /**
   * Account 0xA1 asks about token 0xT1 and the sentinel "ether" with exchange
   * proxy 0xEP: four calls, one token entry per map, the Ether balance and the proxy.
   */
  lemma OneTokenAndEtherExample<V>(registry: Address, b1: V, a1: V, bEth: V, p: V, toStr: V -> string)
    ensures WithoutNative(["0xT1", "ether"], "ether") == ["0xT1"]
    ensures AccountCalls("0xA1", ["0xT1"], "0xEP", registry)
      == [BalanceOf("0xT1", "0xA1"), Allowance("0xT1", "0xA1", "0xEP"), EthBalance("0xA1"), Proxies(registry, "0xA1")]
    ensures DecodeAccount(["0xT1"], "0xEP", [b1, a1, bEth, p], toStr)
      == AccountState(map["0xEP" := map["0xT1" := toStr(a1)]], map["0xT1" := toStr(b1), Ether := toStr(bEth)], p)
  {
    var one: seq<Address> := ["0xT1"];
    assert one[..0] == [];
    assert ["0xT1", "ether"][1..] == ["ether"];
  }

  // ---------------------------------------------------------------------
  // Token metadata: name, symbol, decimals
  // ---------------------------------------------------------------------

  /** Slots 3i, 3i+1 and 3i+2 of calls ask token i for its name, symbol and decimals. */
  ghost predicate MetadataLayout(tokens: seq<Address>, calls: seq<Call>)
  {
    && |calls| == 3 * |tokens|
    && forall i :: 0 <= i < |tokens| ==>
         calls[3 * i] == Name(tokens[i]) && calls[3 * i + 1] == Symbol(tokens[i]) && calls[3 * i + 2] == Decimals(tokens[i])
  }

  /** The metadata plan: name, symbol and decimals for each token, in token order. */
  function MetadataCalls(tokens: seq<Address>): (r: seq<Call>)
    ensures |r| == 3 * |tokens|
    decreases |tokens|
  {
    if tokens == [] then []
    else
      var n := |tokens| - 1;
      MetadataCalls(tokens[..n]) + [Name(tokens[n]), Symbol(tokens[n]), Decimals(tokens[n])]
  }

  /** The metadata plan has the metadata layout. */
  lemma {:induction false} MetadataCallsLayout(tokens: seq<Address>)
    ensures MetadataLayout(tokens, MetadataCalls(tokens))
    decreases |tokens|
  {
    if tokens != [] {
      var n := |tokens| - 1;
      var prev := tokens[..n];
      MetadataCallsLayout(prev);
      var r := MetadataCalls(tokens);
      assert r == MetadataCalls(prev) + [Name(tokens[n]), Symbol(tokens[n]), Decimals(tokens[n])];
      forall i | 0 <= i < |tokens|
        ensures r[3 * i] == Name(tokens[i]) && r[3 * i + 1] == Symbol(tokens[i]) && r[3 * i + 2] == Decimals(tokens[i])
      {
        if i < n {
          assert prev[i] == tokens[i];
        }
      }
    }
  }

  /** The metadata records built from the first n triples of answers. */
  function MetadataResults<V>(tokens: seq<Address>, n: nat, data: seq<V>, link: Address -> string)
    : seq<TokenMetadata<V>>
    requires n <= |tokens| && 3 * n <= |data|
  {
    seq(n, i requires 0 <= i < n =>
      TokenMetadata(tokens[i], data[3 * i], data[3 * i + 1], data[3 * i + 2], link(tokens[i])))
  }

  /** Element access into MetadataResults, for the solver. */
  lemma MetadataResultsAt<V>(tokens: seq<Address>, n: nat, data: seq<V>, link: Address -> string)
    requires n <= |tokens| && 3 * n <= |data|
    ensures |MetadataResults(tokens, n, data, link)| == n
    ensures forall i :: 0 <= i < n ==>
      MetadataResults(tokens, n, data, link)[i]
        == TokenMetadata(tokens[i], data[3 * i], data[3 * i + 1], data[3 * i + 2], link(tokens[i]))
  {
  }

  /** The metadata map decoded from the answers to MetadataCalls. */
  function DecodeMetadata<V>(tokens: seq<Address>, data: seq<V>, link: Address -> string)
    : map<Address, TokenMetadata<V>>
    requires |data| == 3 * |tokens|
  {
    Tabulate(tokens, MetadataResults(tokens, |tokens|, data, link))
  }

  /**
   * The shape of decoded metadata: the tokens are the keys; every record
   * carries its own key as address and that key's logo link; each record holds
   * the three answers at the slots of the token's last occurrence.
   */
  lemma DecodeMetadataShape<V>(tokens: seq<Address>, data: seq<V>, link: Address -> string)
    requires |data| == 3 * |tokens|
    ensures var md := DecodeMetadata(tokens, data, link);
      && (forall t :: t in md <==> t in tokens)
      && (forall t :: t in md ==> md[t].address == t && md[t].logoUrl == link(t))
      && (forall i :: LastOccurrence(tokens, i) ==>
            md[tokens[i]] == TokenMetadata(tokens[i], data[3 * i], data[3 * i + 1], data[3 * i + 2], link(tokens[i])))
  {
    var vals := MetadataResults(tokens, |tokens|, data, link);
    MetadataResultsAt(tokens, |tokens|, data, link);
    TabulateLastWinsAll(tokens, vals);
    TabulateWrittenAll(tokens, vals);
  }

  /** Decoding one more token extends the map by the record for that token. */
  lemma MetadataDecodeStep<V>(tokens: seq<Address>, data: seq<V>, link: Address -> string, i: nat)
    requires i < |tokens| && 3 * |tokens| <= |data|
    ensures Tabulate(tokens[..i + 1], MetadataResults(tokens, i + 1, data, link))
      == Tabulate(tokens[..i], MetadataResults(tokens, i, data, link))[tokens[i] :=
           TokenMetadata(tokens[i], data[3 * i], data[3 * i + 1], data[3 * i + 2], link(tokens[i]))]
  {
    var entry := TokenMetadata(tokens[i], data[3 * i], data[3 * i + 1], data[3 * i + 2], link(tokens[i]));
    assert tokens[..i + 1] == tokens[..i] + [tokens[i]];
    assert MetadataResults(tokens, i + 1, data, link) == MetadataResults(tokens, i, data, link) + [entry];
    TabulateSnoc(tokens[..i], MetadataResults(tokens, i, data, link), tokens[i], entry);
  }

  /** The plan for one more token appends that token's three calls. */
  lemma MetadataCallsStep(tokens: seq<Address>, i: nat)
    requires i < |tokens|
    ensures MetadataCalls(tokens[..i + 1])
      == MetadataCalls(tokens[..i]) + [Name(tokens[i]), Symbol(tokens[i]), Decimals(tokens[i])]
  {
    assert tokens[..i + 1][..i] == tokens[..i];
  }

  /** Appends, for each token in order, its name, symbol and decimals calls. */
  method BuildMetadataCalls(tokens: seq<Address>) returns (calls: seq<Call>)
    ensures calls == MetadataCalls(tokens)
  {
    calls := [];
    for i := 0 to |tokens|
      invariant calls == MetadataCalls(tokens[..i])
    {
      var token := tokens[i];
      MetadataCallsStep(tokens, i);
      calls := calls + [Name(token)];
      calls := calls + [Symbol(token)];
      calls := calls + [Decimals(token)];
    }
    assert tokens[..|tokens|] == tokens;
  }

  /**
   * Reads the answers at stride 3 into the metadata map. The ghost list
   * `read` logs, next to each read, the slot it reads: every slot once, in
   * increasing order.
   */
  method DecodeTokenMetadata<V>(tokens: seq<Address>, data: seq<V>, link: Address -> string)
    returns (md: map<Address, TokenMetadata<V>>, ghost read: seq<int>)
    requires |data| == 3 * |tokens|
    ensures md == DecodeMetadata(tokens, data, link)
    ensures read == Slots(|data|)
  {
    md := map[];
    read := [];
    for i := 0 to |tokens|
      invariant md == Tabulate(tokens[..i], MetadataResults(tokens, i, data, link))
      invariant read == Slots(3 * i)
    {
      var tokenAddress := tokens[i];
      var name := data[3 * i];
      var symbol := data[3 * i + 1];
      var decimals := data[3 * i + 2];
      MetadataDecodeStep(tokens, data, link, i);
      SlotsPlusThree(3 * i);
      md := md[tokenAddress := TokenMetadata(tokenAddress, name, symbol, decimals, link(tokenAddress))];
      read := read + [3 * i, 3 * i + 1, 3 * i + 2];
    }
    assert tokens[..|tokens|] == tokens;
  }

  /**
   * fetchTokenMetadata: build the plan, send it in one batch, decode. A batch
   * the aggregator rejects yields no metadata at all.
   */
  method FetchTokenMetadata<V>(assets: seq<Address>, link: Address -> string, all: seq<Call> -> Option<seq<V>>)
    returns (r: Option<map<Address, TokenMetadata<V>>>)
    requires AnswersEveryCall(all)
    ensures match all(MetadataCalls(assets))
            case None => r == None
            case Some(data) => r == Some(DecodeMetadata(assets, data, link))
  {
    var calls := BuildMetadataCalls(assets);
    var answer := all(calls);
    if answer.None? {
      return None;
    }
    var md, _ := DecodeTokenMetadata(assets, answer.value, link);
    r := Some(md);
  }

  /**
   * Every slot of the metadata answers is decoded into the field that the call
   * at the same slot asks for; a later identical call takes precedence. This
   * holds for every plan with the metadata layout, MetadataCalls(tokens) among them.
   */
  lemma MetadataSlotsMatchCalls<V>(
    tokens: seq<Address>, calls: seq<Call>, data: seq<V>, link: Address -> string, k: nat)
    requires MetadataLayout(tokens, calls)
    requires |data| == |calls|
    requires k < |data|
    ensures var md := DecodeMetadata(tokens, data, link);
            match calls[k]
            case Name(t) => t in md && (LastOccurrence(calls, k) ==> md[t].name == data[k])
            case Symbol(t) => t in md && (LastOccurrence(calls, k) ==> md[t].symbol == data[k])
            case Decimals(t) => t in md && (LastOccurrence(calls, k) ==> md[t].decimals == data[k])
            case _ => false
  {
    var i := k / 3;
    var r := k - 3 * i;
    assert 0 <= r < 3 && i < |tokens|;
    MetadataTokenSlotMatchesCall(tokens, calls, data, link, i, r);
  }

  /** Slot 3i + r is decoded into the field of token i that its call asks for. */
  lemma MetadataTokenSlotMatchesCall<V>(
    tokens: seq<Address>, calls: seq<Call>, data: seq<V>, link: Address -> string, i: nat, r: nat)
    requires MetadataLayout(tokens, calls)
    requires |data| == |calls|
    requires i < |tokens| && r < 3
    ensures var md := DecodeMetadata(tokens, data, link);
            var k := 3 * i + r;
            match calls[k]
            case Name(t) => t in md && (LastOccurrence(calls, k) ==> md[t].name == data[k])
            case Symbol(t) => t in md && (LastOccurrence(calls, k) ==> md[t].symbol == data[k])
            case Decimals(t) => t in md && (LastOccurrence(calls, k) ==> md[t].decimals == data[k])
            case _ => false
  {
    var md := DecodeMetadata(tokens, data, link);
    var t := tokens[i];
    var k := 3 * i + r;
    assert t in tokens;
    var last := LastOccurrence(calls, k);
    if last {
      MetadataLastCallIsLastToken(tokens, calls, i, r);
      MetadataRecordOfLastToken(tokens, data, link, i);
    }
    if r == 0 {
      assert calls[k] == Name(t);
      assert last ==> md[t].name == data[k];
    } else if r == 1 {
      assert calls[k] == Symbol(t);
      assert last ==> md[t].symbol == data[k];
    } else {
      assert calls[k] == Decimals(t);
      assert last ==> md[t].decimals == data[k];
    }
  }

  /** The record of a token's last occurrence holds its three answers. */
  lemma MetadataRecordOfLastToken<V>(tokens: seq<Address>, data: seq<V>, link: Address -> string, i: nat)
    requires |data| == 3 * |tokens|
    requires LastOccurrence(tokens, i)
    ensures var md := DecodeMetadata(tokens, data, link);
            tokens[i] in md
            && md[tokens[i]] == TokenMetadata(tokens[i], data[3 * i], data[3 * i + 1], data[3 * i + 2], link(tokens[i]))
  {
    MetadataResultsAt(tokens, |tokens|, data, link);
    TabulateLastWins(tokens, MetadataResults(tokens, |tokens|, data, link), i);
  }

  /**
   * A metadata call that no later call repeats belongs to the token's last
   * occurrence: slot 3i + r is the name (r = 0), symbol (r = 1) or decimals
   * (r = 2) call of token i.
   */
  lemma MetadataLastCallIsLastToken(tokens: seq<Address>, calls: seq<Call>, i: nat, r: nat)
    requires MetadataLayout(tokens, calls)
    requires i < |tokens| && r < 3
    requires LastOccurrence(calls, 3 * i + r)
    ensures LastOccurrence(tokens, i)
  {
    var k := 3 * i + r;
    forall j | i < j < |tokens|
      ensures tokens[j] != tokens[i]
    {
      var later := 3 * j + r;
      if r == 0 {
        assert calls[k] == Name(tokens[i]) && calls[later] == Name(tokens[j]);
      } else if r == 1 {
        assert calls[k] == Symbol(tokens[i]) && calls[later] == Symbol(tokens[j]);
      } else {
        assert calls[k] == Decimals(tokens[i]) && calls[later] == Decimals(tokens[j]);
      }
      assert calls[k + 1..][later - k - 1] == calls[later];
    }
  }

  /** With no tokens the metadata plan is empty and so is the decoded map. */
  lemma EmptyMetadataPlan<V>(data: seq<V>, link: Address -> string)
    requires data == []
    ensures MetadataCalls([]) == []
    ensures DecodeMetadata([], data, link) == map[]
  {
  }
}
