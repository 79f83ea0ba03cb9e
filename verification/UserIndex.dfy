/**
 The token-to-users index (UserIndex.ts): two maps of ordered sets kept as exact inverses. Keys are
 already canonical.
 */
module UserIndex {
  import opened Ordered

  datatype Index = Index(tokenToUsers: map<string, seq<string>>, userToTokens: map<string, seq<string>>)

  function UsersOf(tokenToUsers: map<string, seq<string>>, token: string): seq<string> {
    if token in tokenToUsers then tokenToUsers[token] else []
  }

  /** Removes the user from one token's set and the set itself once it is empty. */
  function UnlinkOne(tokenToUsers: map<string, seq<string>>, user: string, token: string): map<string, seq<string>> {
    if token !in tokenToUsers then tokenToUsers
    else if Without(tokenToUsers[token], user) == [] then tokenToUsers - {token}
    else tokenToUsers[token := Without(tokenToUsers[token], user)]
  }

  ghost function Unlink(tokenToUsers: map<string, seq<string>>, user: string,
                        tokens: seq<string>): map<string, seq<string>>
  {
    if tokens == [] then tokenToUsers
    else UnlinkOne(Unlink(tokenToUsers, user, tokens[..|tokens| - 1]), user, tokens[|tokens| - 1])
  }

  ghost function Link(tokenToUsers: map<string, seq<string>>, user: string,
                      tokens: seq<string>): map<string, seq<string>>
  {
    if tokens == [] then tokenToUsers
    else
      var m := Link(tokenToUsers, user, tokens[..|tokens| - 1]);
      var token := tokens[|tokens| - 1];
      m[token := Insert(UsersOf(m, token), user)]
  }

  ghost function PreviousTokens(idx: Index, user: string): seq<string> {
    if user in idx.userToTokens then idx.userToTokens[user] else []
  }

  ghost function WithTokens(idx: Index, user: string, tokens: seq<string>): Index {
    Index(Link(Unlink(idx.tokenToUsers, user, PreviousTokens(idx, user)), user, tokens),
          idx.userToTokens[user := InsertAll([], tokens)])
  }

  ghost function WithoutUser(idx: Index, user: string): Index {
    Index(Unlink(idx.tokenToUsers, user, PreviousTokens(idx, user)), idx.userToTokens - {user})
  }

  class UserIndex {
    var tokenToUsers: map<string, seq<string>>
    var userToTokens: map<string, seq<string>>

    constructor ()
      ensures Value() == Index(map[], map[])
    {
      tokenToUsers, userToTokens := map[], map[];
    }

    ghost function Value(): Index
      reads this
    {
      Index(tokenToUsers, userToTokens)
    }

    method SetUserTokens(user: string, tokenAddresses: seq<string>)
      modifies this
      ensures Value() == WithTokens(old(Value()), user, tokenAddresses)
    {
      UnlinkPrevious(user);
      userToTokens := userToTokens[user := InsertAll([], tokenAddresses)];
      LinkAll(user, tokenAddresses);
    }

    /** The loop that adds the user to each token's set, creating missing ones. */
    method LinkAll(user: string, tokenAddresses: seq<string>)
      modifies this`tokenToUsers
      ensures tokenToUsers == Link(old(tokenToUsers), user, tokenAddresses)
    {
      for i := 0 to |tokenAddresses|
        invariant tokenToUsers == Link(old(tokenToUsers), user, tokenAddresses[..i])
      {
        var token := tokenAddresses[i];
        assert tokenAddresses[..i + 1][..i] == tokenAddresses[..i];
        if token !in tokenToUsers {
          tokenToUsers := tokenToUsers[token := []];
        }
        tokenToUsers := tokenToUsers[token := Insert(tokenToUsers[token], user)];
      }
      assert tokenAddresses[..|tokenAddresses|] == tokenAddresses;
    }

    method RemoveUser(user: string)
      modifies this
      ensures Value() == WithoutUser(old(Value()), user)
    {
      UnlinkPrevious(user);
      userToTokens := userToTokens - {user};
    }

    /** The loop both operations start with: takes the user out of every set it is in. */
    method UnlinkPrevious(user: string)
      modifies this`tokenToUsers
      ensures tokenToUsers == old(Unlink(tokenToUsers, user, PreviousTokens(Value(), user)))
    {
      if user in userToTokens {
        var previousTokens := userToTokens[user];
        for i := 0 to |previousTokens|
          invariant tokenToUsers == Unlink(old(tokenToUsers), user, previousTokens[..i])
        {
          var token := previousTokens[i];
          assert previousTokens[..i + 1][..i] == previousTokens[..i];
          if token in tokenToUsers {
            var users := Without(tokenToUsers[token], user);
            tokenToUsers := if |users| == 0 then tokenToUsers - {token} else tokenToUsers[token := users];
          }
        }
        assert previousTokens[..|previousTokens|] == previousTokens;
      }
    }

    method GetUsersForToken(token: string) returns (users: seq<string>)
      ensures users == UsersOf(tokenToUsers, token)
    {
      users := UsersOf(tokenToUsers, token);
    }

    method Clear()
      modifies this
      ensures Value() == Index(map[], map[])
    {
      tokenToUsers, userToTokens := map[], map[];
    }
  }

  // ----- What one operation does to one token -----

  ghost predicate NoEmptySets(m: map<string, seq<string>>) {
    forall t :: t in m ==> m[t] != []
  }

  lemma UnlinkOneAt(m: map<string, seq<string>>, user: string, last: string, token: string)
    requires NoEmptySets(m)
    ensures NoEmptySets(UnlinkOne(m, user, last))
    ensures UsersOf(UnlinkOne(m, user, last), token)
         == if token == last then Without(UsersOf(m, token), user) else UsersOf(m, token)
  {
  }

  lemma {:induction false} UnlinkAt(m: map<string, seq<string>>, user: string, tokens: seq<string>, token: string)
    requires NoEmptySets(m)
    ensures NoEmptySets(Unlink(m, user, tokens))
    ensures UsersOf(Unlink(m, user, tokens), token)
         == if token in tokens then Without(UsersOf(m, token), user) else UsersOf(m, token)
  {
    if tokens == [] {
    } else {
      var init, last := tokens[..|tokens| - 1], tokens[|tokens| - 1];
      assert tokens == init + [last];
      UnlinkAt(m, user, init, token);
      UnlinkOneAt(Unlink(m, user, init), user, last, token);
      assert user !in Without(UsersOf(m, token), user);
    }
  }

  lemma LinkOneAt(m: map<string, seq<string>>, user: string, last: string, token: string)
    requires NoEmptySets(m)
    ensures NoEmptySets(m[last := Insert(UsersOf(m, last), user)])
    ensures UsersOf(m[last := Insert(UsersOf(m, last), user)], token)
         == if token == last then Insert(UsersOf(m, token), user) else UsersOf(m, token)
  {
  }

  lemma {:induction false} LinkAt(m: map<string, seq<string>>, user: string, tokens: seq<string>, token: string)
    requires NoEmptySets(m)
    ensures NoEmptySets(Link(m, user, tokens))
    ensures UsersOf(Link(m, user, tokens), token)
         == if token in tokens then Insert(UsersOf(m, token), user) else UsersOf(m, token)
  {
    if tokens == [] {
    } else {
      var init, last := tokens[..|tokens| - 1], tokens[|tokens| - 1];
      assert tokens == init + [last];
      LinkAt(m, user, init, token);
      LinkOneAt(Link(m, user, init), user, last, token);
    }
  }

  /** The two maps are exact inverses, every set is free of repetitions and none is empty. */
  ghost predicate Consistent(idx: Index) {
    && NoEmptySets(idx.tokenToUsers)
    && (forall t :: t in idx.tokenToUsers ==> Distinct(idx.tokenToUsers[t]))
    && (forall u :: u in idx.userToTokens ==> Distinct(idx.userToTokens[u]))
    && (forall u, t :: u in UsersOf(idx.tokenToUsers, t) <==> u in idx.userToTokens && t in idx.userToTokens[u])
  }

  /**
   Re-indexing a user takes it out of a token's set and appends it at the end when the new list names
   the token: a set being iterated meanwhile sees the user again.
   */
  lemma ReindexMovesToTheEnd(idx: Index, user: string, tokens: seq<string>, token: string)
    requires Consistent(idx)
    ensures var others := Without(UsersOf(idx.tokenToUsers, token), user);
      UsersOf(WithTokens(idx, user, tokens).tokenToUsers, token)
      == if token in tokens then others + [user] else others
  {
    var prev := PreviousTokens(idx, user);
    UnlinkAt(idx.tokenToUsers, user, prev, token);
    LinkAt(Unlink(idx.tokenToUsers, user, prev), user, tokens, token);
    assert token !in prev ==> user !in UsersOf(idx.tokenToUsers, token);
  }

  lemma RemovalTakesTheUserOut(idx: Index, user: string, token: string)
    requires Consistent(idx)
    ensures UsersOf(WithoutUser(idx, user).tokenToUsers, token) == Without(UsersOf(idx.tokenToUsers, token), user)
  {
    var prev := PreviousTokens(idx, user);
    UnlinkAt(idx.tokenToUsers, user, prev, token);
    assert token !in prev ==> user !in UsersOf(idx.tokenToUsers, token);
  }

  lemma SetKeepsInverse(idx: Index, user: string, tokens: seq<string>, u: string, t: string)
    requires Consistent(idx)
    ensures var next := WithTokens(idx, user, tokens);
      u in UsersOf(next.tokenToUsers, t) <==> u in next.userToTokens && t in next.userToTokens[u]
  {
    ReindexMovesToTheEnd(idx, user, tokens, t);
    assert u in UsersOf(idx.tokenToUsers, t) <==> u in idx.userToTokens && t in idx.userToTokens[u];
  }

  lemma SetKeepsDistinct(idx: Index, user: string, tokens: seq<string>, t: string)
    requires Consistent(idx)
    ensures Distinct(UsersOf(WithTokens(idx, user, tokens).tokenToUsers, t))
  {
    ReindexMovesToTheEnd(idx, user, tokens, t);
    assert Distinct(UsersOf(idx.tokenToUsers, t));
    WithoutKeepsDistinct(UsersOf(idx.tokenToUsers, t), user);
  }

  lemma SetKeepsConsistent(idx: Index, user: string, tokens: seq<string>)
    requires Consistent(idx)
    ensures Consistent(WithTokens(idx, user, tokens))
  {
    var prev := PreviousTokens(idx, user);
    var next := WithTokens(idx, user, tokens);
    assert NoEmptySets(next.tokenToUsers) by {
      UnlinkAt(idx.tokenToUsers, user, prev, "");
      LinkAt(Unlink(idx.tokenToUsers, user, prev), user, tokens, "");
    }
    InsertAllKeepsDistinct([], tokens);
    forall t | t in next.tokenToUsers ensures Distinct(next.tokenToUsers[t]) {
      SetKeepsDistinct(idx, user, tokens, t);
    }
    forall u, t
      ensures u in UsersOf(next.tokenToUsers, t) <==> u in next.userToTokens && t in next.userToTokens[u]
    {
      SetKeepsInverse(idx, user, tokens, u, t);
    }
  }

  lemma RemoveKeepsConsistent(idx: Index, user: string)
    requires Consistent(idx)
    ensures Consistent(WithoutUser(idx, user))
  {
    var next := WithoutUser(idx, user);
    UnlinkAt(idx.tokenToUsers, user, PreviousTokens(idx, user), "");
    forall t | t in next.tokenToUsers ensures Distinct(next.tokenToUsers[t]) {
      RemovalTakesTheUserOut(idx, user, t);
      assert Distinct(UsersOf(idx.tokenToUsers, t));
      WithoutKeepsDistinct(UsersOf(idx.tokenToUsers, t), user);
    }
    forall u, t
      ensures u in UsersOf(next.tokenToUsers, t) <==> u in next.userToTokens && t in next.userToTokens[u]
    {
      RemovalTakesTheUserOut(idx, user, t);
      assert u in UsersOf(idx.tokenToUsers, t) <==> u in idx.userToTokens && t in idx.userToTokens[u];
    }
  }

  // ----- Whole runs -----

  datatype Op = OpSet(user: string, tokens: seq<string>) | OpRemove(user: string) | OpClear

  ghost function Run(ops: seq<Op>): Index {
    if ops == [] then Index(map[], map[])
    else
      var idx := Run(ops[..|ops| - 1]);
      match ops[|ops| - 1]
      case OpSet(user, tokens) => WithTokens(idx, user, tokens)
      case OpRemove(user) => WithoutUser(idx, user)
      case OpClear => Index(map[], map[])
  }

  /** The plain reference: the latest token list of each user. */
  ghost function Latest(ops: seq<Op>): map<string, seq<string>> {
    if ops == [] then map[]
    else
      var m := Latest(ops[..|ops| - 1]);
      match ops[|ops| - 1]
      case OpSet(user, tokens) => m[user := tokens]
      case OpRemove(user) => m - {user}
      case OpClear => map[]
  }

  lemma {:induction false} RunsAreConsistent(ops: seq<Op>)
    ensures Consistent(Run(ops))
    ensures Run(ops).userToTokens.Keys == Latest(ops).Keys
    ensures forall u, t :: u in Latest(ops) ==> (t in Run(ops).userToTokens[u] <==> t in Latest(ops)[u])
  {
    if ops != [] {
      var init := ops[..|ops| - 1];
      RunsAreConsistent(init);
      match ops[|ops| - 1]
      case OpSet(user, tokens) => SetKeepsConsistent(Run(init), user, tokens);
      case OpRemove(user) => RemoveKeepsConsistent(Run(init), user);
      case OpClear =>
    }
  }

  /**
   After any sequence of operations the users of a token are exactly those whose latest list contains it,
   each once, and no empty set is kept.
   */
  lemma IndexIsThePlainMap(ops: seq<Op>, token: string)
    ensures forall u :: u in UsersOf(Run(ops).tokenToUsers, token) <==> u in Latest(ops) && token in Latest(ops)[u]
    ensures Distinct(UsersOf(Run(ops).tokenToUsers, token))
    ensures token in Run(ops).tokenToUsers <==> exists u :: u in Latest(ops) && token in Latest(ops)[u]
  {
    RunsAreConsistent(ops);
    var users := UsersOf(Run(ops).tokenToUsers, token);
    if token in Run(ops).tokenToUsers {
      assert users[0] in users;
    }
  }
}
