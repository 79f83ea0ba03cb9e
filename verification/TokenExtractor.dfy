/** The tokens a user is exposed to (tokenExtractor.ts) and the index after a refresh (ActiveRiskSet.ts). */
module TokenExtractor {
  import opened Ordered
  import opened LiquidationPlanner
  import U = UserIndex

  const WETH_ADDRESS: Address := "0x4200000000000000000000000000000000000006"

  /** Liquid staking tokens priced off ETH: weETH, wstETH, cbETH. */
  predicate HasEthAnchor(token: Address) {
    || token == "0x04c0599ae5a44757c0af6f9ec3b93da8976c150a"
    || token == "0xc1cba3fcea344f92d9239c08c0568f6f2f0ee452"
    || token == "0x2ae3f1ec7f1f5012cfeab0185bfc7aa3cf0dec22"
  }

  predicate Exposed(r: UserReserveData) {
    r.currentATokenBalance > 0 || r.currentStableDebt > 0 || r.currentVariableDebt > 0
  }

  predicate HasAnyExposure(reserves: seq<UserReserveData>) {
    exists i :: 0 <= i < |reserves| && Exposed(reserves[i])
  }

  /** The reserve is of the token itself, or the token is WETH and the reserve is anchored to it; and not empty. */
  predicate ExposesTo(r: UserReserveData, token: Address) {
    Exposed(r) && (r.underlyingAsset == token || (token == WETH_ADDRESS && HasEthAnchor(r.underlyingAsset)))
  }

  /** The user holds or owes the token itself, or it is WETH and they hold or owe a token anchored to it. */
  ghost predicate ExposedTo(reserves: seq<UserReserveData>, token: Address) {
    exists i :: 0 <= i < |reserves| && ExposesTo(reserves[i], token)
  }

  method ExtractUserTokens(reserves: seq<UserReserveData>) returns (tokens: seq<Address>)
    ensures Distinct(tokens)
    ensures forall t :: t in tokens <==> ExposedTo(reserves, t)
    ensures tokens != [] <==> HasAnyExposure(reserves)
  {
    tokens := [];
    for i := 0 to |reserves|
      invariant Distinct(tokens)
      invariant forall t :: t in tokens <==> ExposedTo(reserves[..i], t)
      invariant tokens != [] <==> HasAnyExposure(reserves[..i])
    {
      OneMoreReserve(reserves, i);
      tokens := AddTokensOf(tokens, reserves[i]);
    }
    assert reserves[..|reserves|] == reserves;
  }

  /** One turn of the loop. */
  method AddTokensOf(tokens: seq<Address>, reserve: UserReserveData) returns (more: seq<Address>)
    requires Distinct(tokens)
    ensures Distinct(more)
    ensures forall t :: t in more <==> t in tokens || ExposesTo(reserve, t)
    ensures more != [] <==> tokens != [] || Exposed(reserve)
  {
    more := tokens;
    var hasCollateral := reserve.currentATokenBalance > 0;
    var hasDebt := reserve.currentStableDebt > 0 || reserve.currentVariableDebt > 0;
    if hasCollateral || hasDebt {
      InsertKeepsDistinct(more, reserve.underlyingAsset);
      more := Insert(more, reserve.underlyingAsset);
      if HasEthAnchor(reserve.underlyingAsset) {
        InsertKeepsDistinct(more, WETH_ADDRESS);
        more := Insert(more, WETH_ADDRESS);
      }
      assert reserve.underlyingAsset in more;
    }
  }

  lemma OneMoreReserve(reserves: seq<UserReserveData>, i: nat)
    requires i < |reserves|
    ensures forall t :: ExposedTo(reserves[..i + 1], t) <==> ExposedTo(reserves[..i], t) || ExposesTo(reserves[i], t)
    ensures HasAnyExposure(reserves[..i + 1]) <==> HasAnyExposure(reserves[..i]) || Exposed(reserves[i])
  {
    var a, b := reserves[..i + 1], reserves[..i];
    assert a == b + [reserves[i]];
    forall t ensures ExposedTo(a, t) <==> ExposedTo(b, t) || ExposesTo(reserves[i], t) {
      if ExposedTo(b, t) {
        var k :| 0 <= k < |b| && ExposesTo(b[k], t);
        assert a[k] == b[k];
      }
      assert a[i] == reserves[i];
    }
    if HasAnyExposure(b) {
      var k :| 0 <= k < |b| && Exposed(b[k]);
      assert a[k] == b[k];
    }
    if HasAnyExposure(a) {
      var k :| 0 <= k < |a| && Exposed(a[k]);
      assert k < i ==> a[k] == b[k];
    }
    assert a[i] == reserves[i];
  }

  /**
   `updateUserIndexForUser`: fetches the reserves, extracts and re-indexes; a failed fetch (`None`)
   leaves the index alone. Afterwards the user is listed under a token exactly when exposed to it.
   */
  method UpdateUserIndexForUser(index: U.UserIndex, user: string, reserves: Option<seq<UserReserveData>>)
    requires U.Consistent(index.Value())
    modifies index
    ensures U.Consistent(index.Value())
    ensures reserves == None ==> index.Value() == old(index.Value())
    ensures reserves.Some? ==> forall t :: user in U.UsersOf(index.tokenToUsers, t) <==> ExposedTo(reserves.value, t)
    ensures forall other, t :: other != user ==>
      (other in U.UsersOf(index.tokenToUsers, t) <==> other in U.UsersOf(old(index.tokenToUsers), t))
  {
    if reserves == None {
      return;
    }
    var tokenAddresses := ExtractUserTokens(reserves.value);
    ghost var before := index.Value();
    U.SetKeepsConsistent(before, user, tokenAddresses);
    forall t
      ensures var users := U.UsersOf(U.WithTokens(before, user, tokenAddresses).tokenToUsers, t);
        && (user in users <==> t in tokenAddresses)
        && forall other :: other != user ==> (other in users <==> other in U.UsersOf(before.tokenToUsers, t))
    {
      U.ReindexMovesToTheEnd(before, user, tokenAddresses, t);
    }
    index.SetUserTokens(user, tokenAddresses);
  }
}
