/**
 Concurrent price ticks over live sets (PredictiveLoop.ts, the loop of handlePriceUpdate). Between two
 awaits a tick runs alone, so `Visit` is one step of the iteration up to the next await. A JavaScript set
 under iteration is its list of slots: deletion empties a slot, insertion appends one, and an iterator
 is a cursor into the list.
 */
module RescoreTicks {
  import opened Ordered
  import U = UserIndex

  type Slots = seq<Option<string>>

  /**
   One running tick: the set it iterates, the time it captured, its cursor and the users it rescored. A
   rescore entitles it to one re-indexing of that user (`credits`). The rest only counts: visited
   users, users present at the start, and additions to the set by anyone else since.
   */
  datatype Tick = Tick(
    set_: nat,
    now: nat,
    cursor: nat,
    rescored: seq<string>,
    credits: nat,
    visited: nat,
    present: nat,
    outsideAdds: nat)

  datatype Stamp = Stamp(user: string, at: nat, tick: nat)

  /** `lastRescore` is the map shared by all ticks, `stamps` everything ever written to it, in order. */
  datatype World = World(
    sets: map<nat, Slots>,
    ticks: map<nat, Tick>,
    lastRescore: map<string, nat>,
    stamps: seq<Stamp>)

  datatype Event =
    | StartTick(id: nat, set_: nat, now: nat)
    | Visit(id: nat)
    | OwnReindex(id: nat, user: string, stays: bool)
    | Reindex(set_: nat, user: string, stays: bool)
    | NewSet(set_: nat)

  /** The rate limit; an absent or zero stamp does not hold anyone back. */
  predicate MayRescore(lastRescore: map<string, nat>, user: string, now: nat, limit: nat) {
    !(user in lastRescore && lastRescore[user] != 0 && now - lastRescore[user] < limit)
  }

  function Clear(slots: Slots, user: string): (r: Slots)
    ensures |r| == |slots|
    ensures forall i :: 0 <= i < |r| ==> r[i] == if slots[i] == Some(user) then None else slots[i]
  {
    seq(|slots|, i requires 0 <= i < |slots| => if slots[i] == Some(user) then None else slots[i])
  }

  /** `setUserTokens` on one token's set: out, and back in at the end if the token is still held. */
  function MoveToEnd(slots: Slots, user: string, stays: bool): Slots {
    Clear(slots, user) + if stays then [Some(user)] else []
  }

  /** The set itself: the users in the slots, in order. */
  function Users(slots: Slots): seq<string> {
    if slots == [] then []
    else
      var last := slots[|slots| - 1];
      if last.Some? then Users(slots[..|slots| - 1]) + [last.value] else Users(slots[..|slots| - 1])
  }

  lemma UsersOfAppended(slots: Slots, slot: Option<string>)
    ensures Users(slots + [slot]) == if slot.Some? then Users(slots) + [slot.value] else Users(slots)
  {
    assert (slots + [slot])[..|slots|] == slots;
  }

  lemma {:induction false} ClearTakesTheUserOut(slots: Slots, user: string)
    ensures Users(Clear(slots, user)) == Without(Users(slots), user)
  {
    if slots == [] {
    } else {
      var init, last := slots[..|slots| - 1], slots[|slots| - 1];
      ClearTakesTheUserOut(init, user);
      assert Clear(slots, user) == Clear(init, user) + [if last == Some(user) then None else last];
      UsersOfAppended(Clear(init, user), if last == Some(user) then None else last);
      assert slots == init + [last];
      UsersOfAppended(init, last);
      if last.Some? {
        WithoutOfAppended(Users(init), last.value, user);
      }
    }
  }

  /**
   Re-indexing on slots is re-indexing in the index: if the slots hold a token's users, then afterwards they
   hold the users the index has for the token.
   */
  lemma MoveIsReindexing(slots: Slots, idx: U.Index, user: string, tokens: seq<string>, token: string)
    requires U.Consistent(idx) && Users(slots) == U.UsersOf(idx.tokenToUsers, token)
    ensures Users(MoveToEnd(slots, user, token in tokens))
         == U.UsersOf(U.WithTokens(idx, user, tokens).tokenToUsers, token)
  {
    U.ReindexMovesToTheEnd(idx, user, tokens, token);
    ClearTakesTheUserOut(slots, user);
    var cleared := Clear(slots, user);
    if token in tokens {
      UsersOfAppended(cleared, Some(user));
    } else {
      assert cleared + [] == cleared;
    }
  }

  /** The set's size. */
  function Present(slots: Slots): nat {
    |Users(slots)|
  }

  predicate Legal(w: World, e: Event) {
    match e
    case StartTick(id, s, now) => id !in w.ticks && s in w.sets && now > 0
    case Visit(id) => id in w.ticks && w.ticks[id].set_ in w.sets && w.ticks[id].cursor < |w.sets[w.ticks[id].set_]|
    case OwnReindex(id, user, _) =>
      id in w.ticks && w.ticks[id].set_ in w.sets && w.ticks[id].credits > 0 && user in w.ticks[id].rescored
    case Reindex(s, _, _) => s in w.sets
    case NewSet(s) => s !in w.sets
  }

  /** The user under the cursor, stamped with the tick's time and on its way to be rescored. */
  function Stamped(w: World, id: nat, user: string): World
    requires id in w.ticks
  {
    var t := w.ticks[id];
    w.(ticks := w.ticks[id := t.(cursor := t.cursor + 1, visited := t.visited + 1,
                                 rescored := t.rescored + [user], credits := t.credits + 1)],
       lastRescore := w.lastRescore[user := t.now],
       stamps := w.stamps + [Stamp(user, t.now, id)])
  }

  /** The slot under the cursor: skip it, or stamp its user and rescore. */
  function VisitSlot(limit: nat, w: World, id: nat): World
    requires Legal(w, Visit(id))
  {
    var t := w.ticks[id];
    match w.sets[t.set_][t.cursor]
    case None => w.(ticks := w.ticks[id := t.(cursor := t.cursor + 1)])
    case Some(user) =>
      if MayRescore(w.lastRescore, user, t.now, limit) then Stamped(w, id, user)
      else
        w.(ticks := w.ticks[id := t.(cursor := t.cursor + 1, visited := t.visited + 1)])
  }

  /** Every other tick on the set sees one more addition. */
  function CountAddition(ticks: map<nat, Tick>, s: nat, except: Option<nat>): map<nat, Tick> {
    map i | i in ticks ::
      if ticks[i].set_ == s && except != Some(i) then ticks[i].(outsideAdds := ticks[i].outsideAdds + 1) else ticks[i]
  }

  function Step(limit: nat, w: World, e: Event): World
    requires Legal(w, e)
  {
    match e
    case StartTick(id, s, now) =>
      w.(ticks := w.ticks[id := Tick(s, now, 0, [], 0, 0, Present(w.sets[s]), 0)])
    case Visit(id) => VisitSlot(limit, w, id)
    case OwnReindex(id, user, stays) =>
      var s := w.ticks[id].set_;
      var ticks := w.ticks[id := w.ticks[id].(credits := w.ticks[id].credits - 1)];
      w.(sets := w.sets[s := MoveToEnd(w.sets[s], user, stays)],
         ticks := if stays then CountAddition(ticks, s, Some(id)) else ticks)
    case Reindex(s, user, stays) =>
      w.(sets := w.sets[s := MoveToEnd(w.sets[s], user, stays)],
         ticks := if stays then CountAddition(w.ticks, s, None) else w.ticks)
    case NewSet(s) => w.(sets := w.sets[s := []])
  }

  datatype Trace = Empty | Then(prefix: Trace, event: Event)

  ghost predicate LegalRun(limit: nat, w: World, es: Trace)
    decreases es, 0
  {
    es.Empty? || (LegalRun(limit, w, es.prefix) && Legal(After(limit, w, es.prefix), es.event))
  }

  ghost function After(limit: nat, w: World, es: Trace): World
    requires LegalRun(limit, w, es)
    decreases es, 1
  {
    if es.Empty? then w else Step(limit, After(limit, w, es.prefix), es.event)
  }

  const FRESH := World(map[], map[], map[], [])

  // ----- What is left of an iteration -----

  /** A user ahead of the cursor costs one visit, and one more if it may still be rescored and come back. */
  function Weight(slot: Option<string>, rescored: seq<string>): nat {
    match slot
    case None => 0
    case Some(user) => if user in rescored then 1 else 2
  }

  function Ahead(slots: Slots, cursor: nat, rescored: seq<string>): nat {
    if |slots| <= cursor then 0
    else Ahead(slots[..|slots| - 1], cursor, rescored) + Weight(slots[|slots| - 1], rescored)
  }

  lemma {:induction false} AheadOfNext(slots: Slots, cursor: nat, rescored: seq<string>)
    requires cursor < |slots|
    ensures Ahead(slots, cursor, rescored) == Weight(slots[cursor], rescored) + Ahead(slots, cursor + 1, rescored)
  {
    if cursor < |slots| - 1 {
      AheadOfNext(slots[..|slots| - 1], cursor, rescored);
    } else {
      assert Ahead(slots[..|slots| - 1], cursor, rescored) == 0;
    }
  }

  lemma {:induction false} AheadShrinks(slots: Slots, cursor: nat, rescored: seq<string>, user: string)
    ensures Ahead(slots, cursor, rescored + [user]) <= Ahead(slots, cursor, rescored)
    ensures Ahead(Clear(slots, user), cursor, rescored) <= Ahead(slots, cursor, rescored)
  {
    if |slots| > cursor {
      var init := slots[..|slots| - 1];
      AheadShrinks(init, cursor, rescored, user);
      assert Clear(slots, user)[..|slots| - 1] == Clear(init, user);
    }
  }

  lemma AheadAfterMove(slots: Slots, cursor: nat, rescored: seq<string>, user: string, stays: bool)
    requires cursor <= |slots|
    ensures Ahead(MoveToEnd(slots, user, stays), cursor, rescored)
         <= Ahead(slots, cursor, rescored) + if stays then Weight(Some(user), rescored) else 0
  {
    AheadShrinks(slots, cursor, rescored, user);
    var cleared := Clear(slots, user);
    if stays {
      assert (cleared + [Some(user)])[..|cleared|] == cleared;
    } else {
      assert cleared + [] == cleared;
    }
  }

  lemma {:induction false} AheadAtStart(slots: Slots)
    ensures Ahead(slots, 0, []) == 2 * Present(slots)
  {
    if slots != [] { AheadAtStart(slots[..|slots| - 1]); }
  }

  // ----- What every interleaving keeps -----

  /** The user's last rescore is less than the limit before `now`, or after it. */
  ghost predicate FreshFor(limit: nat, now: nat, user: string, lastRescore: map<string, nat>) {
    user in lastRescore && now < lastRescore[user] + limit
  }

  /** Visits done and visits to come never exceed twice the users present or added by others. */
  ghost predicate TickInvariant(limit: nat, t: Tick, slots: Slots, lastRescore: map<string, nat>) {
    && (forall i :: 0 <= i < t.cursor && i < |slots| && slots[i].Some? ==>
          FreshFor(limit, t.now, slots[i].value, lastRescore))
    && t.now > 0 && t.cursor <= |slots|
    && Distinct(t.rescored)
    && (forall u :: u in t.rescored ==> u in lastRescore && t.now <= lastRescore[u])
    && t.visited + Ahead(slots, t.cursor, t.rescored) + t.credits <= 2 * (t.present + t.outsideAdds)
  }

  ghost predicate StampInvariant(limit: nat, w: World) {
    && (forall u :: u in w.lastRescore ==> w.lastRescore[u] > 0)
    && (forall i :: 0 <= i < |w.stamps| ==>
          && w.stamps[i].user in w.lastRescore && w.stamps[i].at <= w.lastRescore[w.stamps[i].user]
          && w.stamps[i].tick in w.ticks && w.stamps[i].at == w.ticks[w.stamps[i].tick].now)
    && (forall i, j :: 0 <= i < j < |w.stamps| && w.stamps[i].user == w.stamps[j].user ==>
          w.stamps[i].at + limit <= w.stamps[j].at)
  }

  ghost predicate Invariant(limit: nat, w: World) {
    && StampInvariant(limit, w)
    && forall id :: id in w.ticks ==>
         w.ticks[id].set_ in w.sets && TickInvariant(limit, w.ticks[id], w.sets[w.ticks[id].set_], w.lastRescore)
  }

  /** A new stamp is at least the limit after all earlier ones of its user. */
  lemma StampsStayApart(limit: nat, w: World, id: nat, user: string)
    requires limit > 0 && Invariant(limit, w) && id in w.ticks
    requires MayRescore(w.lastRescore, user, w.ticks[id].now, limit)
    ensures forall i :: 0 <= i < |w.stamps| && w.stamps[i].user == user ==> w.stamps[i].at + limit <= w.ticks[id].now
    ensures user in w.lastRescore ==> w.lastRescore[user] <= w.ticks[id].now
  {
  }

  lemma StampKeepsStamps(limit: nat, w: World, id: nat, user: string)
    requires limit > 0 && Invariant(limit, w) && id in w.ticks
    requires MayRescore(w.lastRescore, user, w.ticks[id].now, limit)
    ensures StampInvariant(limit, Stamped(w, id, user))
    ensures forall u :: u in w.lastRescore ==>
      u in Stamped(w, id, user).lastRescore && w.lastRescore[u] <= Stamped(w, id, user).lastRescore[u]
  {
    assert TickInvariant(limit, w.ticks[id], w.sets[w.ticks[id].set_], w.lastRescore);
    StampsStayApart(limit, w, id, user);
  }

  lemma VisitKeepsStamps(limit: nat, w: World, id: nat)
    requires limit > 0 && Invariant(limit, w) && Legal(w, Visit(id))
    ensures StampInvariant(limit, VisitSlot(limit, w, id))
    ensures forall u :: u in w.lastRescore ==>
      u in VisitSlot(limit, w, id).lastRescore && w.lastRescore[u] <= VisitSlot(limit, w, id).lastRescore[u]
  {
    match w.sets[w.ticks[id].set_][w.ticks[id].cursor]
    case None =>
    case Some(user) =>
      if MayRescore(w.lastRescore, user, w.ticks[id].now, limit) {
        StampKeepsStamps(limit, w, id, user);
      }
  }

  lemma SkipKeepsTick(limit: nat, t: Tick, slots: Slots, lastRescore: map<string, nat>)
    requires TickInvariant(limit, t, slots, lastRescore) && t.cursor < |slots| && slots[t.cursor] == None
    ensures TickInvariant(limit, t.(cursor := t.cursor + 1), slots, lastRescore)
  {
    AheadOfNext(slots, t.cursor, t.rescored);
  }

  lemma PassKeepsTick(limit: nat, t: Tick, slots: Slots, lastRescore: map<string, nat>, user: string)
    requires TickInvariant(limit, t, slots, lastRescore) && t.cursor < |slots| && slots[t.cursor] == Some(user)
    requires FreshFor(limit, t.now, user, lastRescore)
    ensures TickInvariant(limit, t.(cursor := t.cursor + 1, visited := t.visited + 1), slots, lastRescore)
  {
    AheadOfNext(slots, t.cursor, t.rescored);
  }

  lemma StampKeepsTick(limit: nat, t: Tick, slots: Slots, lastRescore: map<string, nat>, user: string)
    requires limit > 0 && TickInvariant(limit, t, slots, lastRescore)
    requires t.cursor < |slots| && slots[t.cursor] == Some(user) && MayRescore(lastRescore, user, t.now, limit)
    ensures TickInvariant(limit, t.(cursor := t.cursor + 1, visited := t.visited + 1, rescored := t.rescored + [user],
                                    credits := t.credits + 1), slots, lastRescore[user := t.now])
  {
    assert user !in t.rescored;
    AheadOfNext(slots, t.cursor, t.rescored);
    AheadShrinks(slots, t.cursor + 1, t.rescored, user);
  }

  lemma VisitKeepsOwnTick(limit: nat, w: World, id: nat)
    requires limit > 0 && Invariant(limit, w) && Legal(w, Visit(id))
    ensures var v := VisitSlot(limit, w, id); TickInvariant(limit, v.ticks[id], v.sets[v.ticks[id].set_], v.lastRescore)
  {
    var t := w.ticks[id];
    var slots := w.sets[t.set_];
    match slots[t.cursor]
    case None => SkipKeepsTick(limit, t, slots, w.lastRescore);
    case Some(user) =>
      if MayRescore(w.lastRescore, user, t.now, limit) {
        StampKeepsTick(limit, t, slots, w.lastRescore, user);
      } else {
        PassKeepsTick(limit, t, slots, w.lastRescore, user);
      }
  }

  lemma VisitKeepsInvariant(limit: nat, w: World, id: nat)
    requires limit > 0 && Invariant(limit, w) && Legal(w, Visit(id))
    ensures Invariant(limit, VisitSlot(limit, w, id))
  {
    VisitKeepsStamps(limit, w, id);
    VisitKeepsOwnTick(limit, w, id);
    var v := VisitSlot(limit, w, id);
    forall other | other in v.ticks && other != id
      ensures TickInvariant(limit, v.ticks[other], v.sets[v.ticks[other].set_], v.lastRescore)
    {
      assert TickInvariant(limit, w.ticks[other], w.sets[w.ticks[other].set_], w.lastRescore);
    }
  }

  lemma MoveKeepsTick(limit: nat, t: Tick, slots: Slots, lastRescore: map<string, nat>, user: string, stays: bool)
    requires TickInvariant(limit, t, slots, lastRescore)
    ensures TickInvariant(limit, if stays then t.(outsideAdds := t.outsideAdds + 1) else t,
                          MoveToEnd(slots, user, stays), lastRescore)
  {
    AheadAfterMove(slots, t.cursor, t.rescored, user, stays);
  }

  lemma OwnMoveKeepsTick(limit: nat, t: Tick, slots: Slots, lastRescore: map<string, nat>, user: string, stays: bool)
    requires TickInvariant(limit, t, slots, lastRescore) && t.credits > 0 && user in t.rescored
    ensures TickInvariant(limit, t.(credits := t.credits - 1), MoveToEnd(slots, user, stays), lastRescore)
  {
    AheadAfterMove(slots, t.cursor, t.rescored, user, stays);
  }

  lemma ReindexKeepsInvariant(limit: nat, w: World, s: nat, user: string, stays: bool)
    requires Invariant(limit, w) && Legal(w, Reindex(s, user, stays))
    ensures Invariant(limit, Step(limit, w, Reindex(s, user, stays)))
  {
    var v := Step(limit, w, Reindex(s, user, stays));
    forall id | id in v.ticks
      ensures v.ticks[id].set_ in v.sets && TickInvariant(limit, v.ticks[id], v.sets[v.ticks[id].set_], v.lastRescore)
    {
      MoveKeepsTick(limit, w.ticks[id], w.sets[w.ticks[id].set_], w.lastRescore, user, stays);
    }
  }

  lemma OwnReindexKeepsOthers(limit: nat, w: World, own: nat, user: string, stays: bool, id: nat)
    requires Invariant(limit, w) && Legal(w, OwnReindex(own, user, stays)) && id in w.ticks && id != own
    ensures var v := Step(limit, w, OwnReindex(own, user, stays));
      id in v.ticks && v.ticks[id].set_ in v.sets
      && TickInvariant(limit, v.ticks[id], v.sets[v.ticks[id].set_], v.lastRescore)
  {
    var t := w.ticks[id];
    if t.set_ == w.ticks[own].set_ {
      MoveKeepsTick(limit, t, w.sets[t.set_], w.lastRescore, user, stays);
    }
  }

  lemma OwnReindexKeepsStamps(limit: nat, w: World, own: nat, user: string, stays: bool)
    requires Invariant(limit, w) && Legal(w, OwnReindex(own, user, stays))
    ensures StampInvariant(limit, Step(limit, w, OwnReindex(own, user, stays)))
  {
  }

  lemma OwnReindexKeepsInvariant(limit: nat, w: World, own: nat, user: string, stays: bool)
    requires Invariant(limit, w) && Legal(w, OwnReindex(own, user, stays))
    ensures Invariant(limit, Step(limit, w, OwnReindex(own, user, stays)))
  {
    var v := Step(limit, w, OwnReindex(own, user, stays));
    OwnReindexKeepsStamps(limit, w, own, user, stays);
    OwnMoveKeepsTick(limit, w.ticks[own], w.sets[w.ticks[own].set_], w.lastRescore, user, stays);
    forall id | id in v.ticks
      ensures v.ticks[id].set_ in v.sets && TickInvariant(limit, v.ticks[id], v.sets[v.ticks[id].set_], v.lastRescore)
    {
      if id != own {
        OwnReindexKeepsOthers(limit, w, own, user, stays, id);
      }
    }
  }

  lemma StepKeepsInvariant(limit: nat, w: World, e: Event)
    requires limit > 0 && Invariant(limit, w) && Legal(w, e)
    ensures Invariant(limit, Step(limit, w, e))
  {
    match e
    case StartTick(_, s, _) => AheadAtStart(w.sets[s]);
    case Visit(id) => VisitKeepsInvariant(limit, w, id);
    case OwnReindex(id, user, stays) => OwnReindexKeepsInvariant(limit, w, id, user, stays);
    case Reindex(s, user, stays) => ReindexKeepsInvariant(limit, w, s, user, stays);
    case NewSet(_) =>
  }

  lemma {:induction false} RunKeepsInvariant(limit: nat, w: World, es: Trace)
    requires limit > 0 && Invariant(limit, w) && LegalRun(limit, w, es)
    ensures Invariant(limit, After(limit, w, es))
  {
    if es.Then? {
      RunKeepsInvariant(limit, w, es.prefix);
      StepKeepsInvariant(limit, After(limit, w, es.prefix), es.event);
    }
  }

  /**
   Under every interleaving the stamps recorded for a user strictly increase and are at least the rate
   limit apart, whatever order the ticks captured their times in.
   */
  lemma StampsAreRateLimited(limit: nat, es: Trace, i: nat, j: nat)
    requires limit > 0 && LegalRun(limit, FRESH, es)
    requires i < j < |After(limit, FRESH, es).stamps|
    requires After(limit, FRESH, es).stamps[i].user == After(limit, FRESH, es).stamps[j].user
    ensures After(limit, FRESH, es).stamps[i].at + limit <= After(limit, FRESH, es).stamps[j].at
  {
    RunKeepsInvariant(limit, FRESH, es);
  }

  /** One tick rescores each user at most once, although re-indexed users come round again. */
  lemma OneTickRescoresOnce(limit: nat, es: Trace, i: nat, j: nat)
    requires limit > 0 && LegalRun(limit, FRESH, es)
    requires i < j < |After(limit, FRESH, es).stamps|
    requires After(limit, FRESH, es).stamps[i].tick == After(limit, FRESH, es).stamps[j].tick
    ensures After(limit, FRESH, es).stamps[i].user != After(limit, FRESH, es).stamps[j].user
  {
    RunKeepsInvariant(limit, FRESH, es);
  }

  /** A tick visits at most twice as many users as were there when it began or were added by others since. */
  lemma TicksTerminate(limit: nat, es: Trace, id: nat)
    requires limit > 0 && LegalRun(limit, FRESH, es) && id in After(limit, FRESH, es).ticks
    ensures var t := After(limit, FRESH, es).ticks[id]; t.visited <= 2 * (t.present + t.outsideAdds)
  {
    RunKeepsInvariant(limit, FRESH, es);
  }

  /**
   When a tick is through its set, nobody in the set is stale: every user was last rescored less than
   the rate limit before the tick's time, or after it.
   */
  lemma FinishedTicksLeaveNobodyStale(limit: nat, es: Trace, id: nat, user: string)
    requires limit > 0 && LegalRun(limit, FRESH, es) && id in After(limit, FRESH, es).ticks
    requires var w := After(limit, FRESH, es); var t := w.ticks[id];
      t.set_ in w.sets && t.cursor == |w.sets[t.set_]| && Some(user) in w.sets[t.set_]
    ensures FreshFor(limit, After(limit, FRESH, es).ticks[id].now, user, After(limit, FRESH, es).lastRescore)
  {
    RunKeepsInvariant(limit, FRESH, es);
    var w := After(limit, FRESH, es);
    assert TickInvariant(limit, w.ticks[id], w.sets[w.ticks[id].set_], w.lastRescore);
  }
}
