/** The JavaScript economy bot (economybot/main.js): a wallet-only ledger with coinflip,
    bal, baltop, rob and a message-triggered lootbox. Records hold only `balance`; times
    are `Date.now()` milliseconds, passed in as `now`. */
module EconomyJs {
  import opened Common
  import opened EconomyRules

  const JsCoinflipCooldownMs := 30 * 1000
  const JsRobCooldownMs := 60 * 1000
  /** `users[targetId] || { balance: 100 }` and the `bal` fallback. */
  const DefaultBalance := 100
  const CollectorTimeMs := 20000

  function Lookup(users: map<UserId, int>, uid: UserId): Option<int> {
    if uid in users then Some(users[uid]) else None
  }

  /** `cooldowns[id] && cooldowns[id] > Date.now()`: a missing or zero entry is falsy. */
  predicate JsOnCooldown(cooldowns: map<UserId, int>, uid: UserId, now: int) {
    uid in cooldowns && cooldowns[uid] != 0 && cooldowns[uid] > now
  }

  /** `coinflip`: a missing record or a wallet below `amount`, then the cooldown; `win` is
      `Math.random() < 0.5`. The amount itself is never checked. Returns the new wallet. */
  function JsCoinflipRule(balance: Option<int>, amount: int, onCooldown: bool, win: bool): (r: Result<int, Error>)
    ensures balance.None? ==> r == Err(MissingRecord)
    ensures r.Ok? <==> balance.Some? && balance.value >= amount && !onCooldown
    ensures r.Ok? && win ==> r.value - balance.value == amount
    ensures r.Ok? && !win ==> balance.value - r.value == amount
  {
    if balance.None? || balance.value < amount then
      Err(if balance.None? then MissingRecord else InsufficientWallet)
    else if onCooldown then Err(CooldownActive)
    else Ok(if win then balance.value + amount else balance.value - amount)
  }

  /** With no positive-amount check, a negative bet turns the coin around: winning
      lowers the wallet, and a wallet of 0 ends below zero. */
  lemma NegativeBetInvertsCoinflip(b: int, amount: int)
    requires b >= 0 && amount < 0
    ensures JsCoinflipRule(Some(b), amount, false, true) == Ok(b + amount)
    ensures JsCoinflipRule(Some(b), amount, false, true).value < b
    ensures JsCoinflipRule(Some(b), amount, false, false).value > b
    ensures JsCoinflipRule(Some(0), -50, false, true) == Ok(-50)
  {
  }

  /** `Math.floor(b * 0.10)` over exact arithmetic: the floored tenth. */
  function FloorTenth(b: int): (r: int)
    ensures 10 * r <= b < 10 * r + 10
    ensures b >= 0 ==> 0 <= r <= b
  {
    b / 10
  }

  /** `rob`: the self check, a missing or non-positive actor wallet, then the cooldown.
      `success` is `Math.random() <= 0.1` and `steal` the amount draw. Returns the new actor
      wallet and, when the robbery writes one, the new target wallet. */
  function JsRobRule(actor: Option<int>, target: Option<int>, toSelf: bool, onCooldown: bool, success: bool, steal: int)
    : (r: Result<(int, Option<int>), Error>)
    ensures toSelf ==> r == Err(SelfRob)
    ensures !toSelf && actor.None? ==> r == Err(MissingRecord)
    ensures r.Ok? <==> !toSelf && actor.Some? && actor.value > 0 && !onCooldown
    ensures r.Ok? && success ==>
      var before := if target.Some? then target.value else DefaultBalance;
      && r.value.1 == Some(before - steal)
      && r.value.0 == actor.value + steal
      && r.value.0 + r.value.1.value == actor.value + before
    ensures r.Ok? && !success ==> r.value.1 == None && r.value.0 == actor.value - FloorTenth(actor.value)
  {
    if toSelf then Err(SelfRob)
    else if actor.None? then Err(MissingRecord)
    else if actor.value <= 0 then Err(NothingToRob)
    else if onCooldown then Err(CooldownActive)
    else if success then
      var before := if target.Some? then target.value else DefaultBalance;
      Ok((actor.value + steal, Some(before - steal)))
    else
      Ok((actor.value - FloorTenth(actor.value), None))
  }

  /** Nothing caps the steal at the target's wallet: a target holding 20 robbed of 30
      is left at -10. */
  lemma RobCanOverdrawTarget()
    ensures JsRobRule(Some(10), Some(20), false, false, true, 30) == Ok((40, Some(-10)))
  {
  }

  /** The lootbox credit: an existing wallet gains `amount`, a missing record is created
      holding exactly `amount`. */
  function LootboxCredit(users: map<UserId, int>, uid: UserId, amount: int): (m: map<UserId, int>)
    ensures m.Keys == users.Keys + {uid}
    ensures m[uid] == (if uid in users then users[uid] else 0) + amount
    ensures forall u :: u in users && u != uid ==> m[u] == users[u]
  {
    if uid in users then users[uid := users[uid] + amount] else users[uid := amount]
  }

  /** `baltop`'s sort key. */
  function EntryBalance(e: (UserId, int)): int {
    e.1
  }

  const TopCount := 5

  class JsLedger {
    var users: map<UserId, int>
    /** `Object.entries` order: Discord ids are too large to be array indices, so the
        entries come in insertion order. */
    var order: seq<UserId>
    var robCooldowns: map<UserId, int>
    var coinflipCooldowns: map<UserId, int>

    ghost predicate Valid()
      reads this
    {
      KeysInOrder(users, order)
    }

    constructor ()
      ensures Valid() && users == map[] && order == [] && robCooldowns == map[] && coinflipCooldowns == map[]
    {
      users := map[];
      order := [];
      robCooldowns := map[];
      coinflipCooldowns := map[];
    }

    /** `bal`: the stored wallet, or 100 for an unknown id; no record is created. */
    function Bal(uid: UserId): (b: int)
      reads this
      ensures uid in users ==> b == users[uid]
      ensures uid !in users ==> b == DefaultBalance
    {
      if uid in users then users[uid] else DefaultBalance
    }

    method Coinflip(uid: UserId, amount: int, now: int, win: bool) returns (r: Outcome<Error>)
      requires Valid()
      modifies this
      ensures Valid()
      ensures var res := JsCoinflipRule(Lookup(old(users), uid), amount, JsOnCooldown(old(coinflipCooldowns), uid, now), win);
        && r == (if res.Ok? then Pass else Fail(res.error))
        && users == (if res.Ok? then old(users)[uid := res.value] else old(users))
        && coinflipCooldowns == if res.Ok? then old(coinflipCooldowns)[uid := now + JsCoinflipCooldownMs] else old(coinflipCooldowns)
      ensures order == old(order) && robCooldowns == old(robCooldowns)
    {
      if uid !in users || users[uid] < amount {
        return Fail(if uid !in users then MissingRecord else InsufficientWallet);
      }
      if uid in coinflipCooldowns && coinflipCooldowns[uid] != 0 && coinflipCooldowns[uid] > now {
        return Fail(CooldownActive);
      }
      if win {
        KeysInOrderStore(users, order, uid, users[uid] + amount);
        users := users[uid := users[uid] + amount];
      } else {
        KeysInOrderStore(users, order, uid, users[uid] - amount);
        users := users[uid := users[uid] - amount];
      }
      coinflipCooldowns := coinflipCooldowns[uid := now + JsCoinflipCooldownMs];
      r := Pass;
    }

    /** `baltop`: the five largest wallets, greatest first, ties in entry order. */
    method Baltop() returns (top: seq<(UserId, int)>)
      requires Valid()
      ensures top == TopN(Entries(users, order), TopCount, EntryBalance)
      ensures |top| == if TopCount < |order| then TopCount else |order|
      ensures SortedDesc(top, EntryBalance)
      ensures multiset(top) <= multiset(Entries(users, order))
      ensures forall x, y :: x in multiset(Entries(users, order)) - multiset(top) && y in top ==> EntryBalance(x) <= EntryBalance(y)
    {
      top := TopN(Entries(users, order), TopCount, EntryBalance);
      TopNIsTop(Entries(users, order), TopCount, EntryBalance);
    }

    /** A successful robbery: an unknown target first gets the default record, then
        `steal` moves from the target's wallet to the actor's. */
    method Steal(uid: UserId, target: UserId, steal: int)
      requires Valid() && uid in users && uid != target
      modifies this
      ensures Valid()
      ensures var before := if target in old(users) then old(users)[target] else DefaultBalance;
        users == old(users)[target := before - steal][uid := old(users)[uid] + steal]
      ensures order == if target in old(users) then old(order) else old(order) + [target]
      ensures robCooldowns == old(robCooldowns) && coinflipCooldowns == old(coinflipCooldowns)
    {
      // `users[targetId] || { balance: 100 }`
      var before := if target in users then users[target] else DefaultBalance;
      var newOrder := if target in users then order else order + [target];
      if target in users {
        KeysInOrderStore(users, order, target, before - steal);
      } else {
        KeysInOrderAdd(users, order, target, before - steal);
      }
      KeysInOrderStore(users[target := before - steal], newOrder, uid, users[uid] + steal);
      var robbed := users[target := before - steal][uid := users[uid] + steal];
      users := robbed;
      order := newOrder;
    }

    /** A failed robbery costs the actor the floored tenth of the wallet. */
    method LoseTenth(uid: UserId)
      requires Valid() && uid in users
      modifies this
      ensures Valid()
      ensures users == old(users)[uid := old(users)[uid] - FloorTenth(old(users)[uid])]
      ensures order == old(order) && robCooldowns == old(robCooldowns) && coinflipCooldowns == old(coinflipCooldowns)
    {
      var loss := FloorTenth(users[uid]);
      KeysInOrderStore(users, order, uid, users[uid] - loss);
      users := users[uid := users[uid] - loss];
    }

    /** The lootbox credit: an existing wallet grows by `amount`, an unknown id gets a
        record holding `amount`, added at the end of the order. */
    method Credit(uid: UserId, amount: int)
      requires Valid()
      modifies this
      ensures Valid()
      ensures users == LootboxCredit(old(users), uid, amount)
      ensures order == if uid in old(users) then old(order) else old(order) + [uid]
      ensures robCooldowns == old(robCooldowns) && coinflipCooldowns == old(coinflipCooldowns)
    {
      if uid in users {
        KeysInOrderStore(users, order, uid, users[uid] + amount);
        users := users[uid := users[uid] + amount];
      } else {
        KeysInOrderAdd(users, order, uid, amount);
        users := users[uid := amount];
        order := order + [uid];
      }
    }

    /** `rob` with the draws `success` and `steal` (an integer in 30..100). */
    method Rob(uid: UserId, target: UserId, now: int, success: bool, steal: int) returns (r: Outcome<Error>)
      requires Valid()
      requires 30 <= steal <= 100
      modifies this
      ensures Valid()
      ensures var res := JsRobRule(Lookup(old(users), uid), Lookup(old(users), target), uid == target,
                                   JsOnCooldown(old(robCooldowns), uid, now), success, steal);
        && r == (if res.Ok? then Pass else Fail(res.error))
        && users == (if res.Ok? then
                       (if res.value.1.Some? then old(users)[target := res.value.1.value] else old(users))[uid := res.value.0]
                     else old(users))
        && order == (if res.Ok? && res.value.1.Some? && target !in old(users) then old(order) + [target] else old(order))
        && robCooldowns == if res.Ok? then old(robCooldowns)[uid := now + JsRobCooldownMs] else old(robCooldowns)
      ensures coinflipCooldowns == old(coinflipCooldowns)
    {
      if uid == target {
        return Fail(SelfRob);
      }
      if uid !in users || users[uid] <= 0 {
        return Fail(if uid !in users then MissingRecord else NothingToRob);
      }
      if uid in robCooldowns && robCooldowns[uid] != 0 && robCooldowns[uid] > now {
        return Fail(CooldownActive);
      }
      ghost var res := JsRobRule(Lookup(users, uid), Lookup(users, target), false, false, success, steal);
      if success {
        assert res == Ok((users[uid] + steal, Some(if target in users then users[target] - steal else DefaultBalance - steal)));
        Steal(uid, target, steal);
      } else {
        assert res == Ok((users[uid] - FloorTenth(users[uid]), None));
        LoseTenth(uid);
      }
      robCooldowns := robCooldowns[uid := now + JsRobCooldownMs];
      r := Pass;
    }
  }

  /** One lootbox message with its 20 s component collector. */
  class JsLootbox {
    const amount: int
    /** When the collector's `time` runs out. */
    const deadline: int
    var winners: set<UserId>
    var buttonDisabled: bool
    /** Set by `collector.stop()`. */
    var stopped: bool

    ghost predicate Valid()
      reads this
    {
      && 30 <= amount <= 100
      && |winners| <= MaxWinners
      && (buttonDisabled <==> |winners| == MaxWinners)
      && (|winners| == MaxWinners ==> stopped)
    }

    constructor (amount: int, start: int)
      requires 30 <= amount <= 100
      ensures Valid() && this.amount == amount && deadline == start + CollectorTimeMs
      ensures winners == {} && !buttonDisabled && !stopped
    {
      this.amount := amount;
      deadline := start + CollectorTimeMs;
      winners := {};
      buttonDisabled := false;
      stopped := false;
    }

    /** The `collect` handler for a press by `uid` at `now`, with the credit the handler
        evidently means to make (see CollectAsWritten for the code as written). */
    method Collect(ledger: JsLedger, uid: UserId, now: int) returns (r: Outcome<Error>)
      requires Valid() && ledger.Valid()
      modifies this, ledger
      ensures Valid() && ledger.Valid()
      ensures old(stopped) || now >= deadline ==>
        r == Fail(CollectorEnded) && unchanged(this) && unchanged(ledger)
      ensures !old(stopped) && now < deadline ==>
        && r == AdmitClaim(old(winners), uid)
        && winners == (if r.Pass? then old(winners) + {uid} else old(winners))
        && ledger.users == (if r.Pass? then LootboxCredit(old(ledger.users), uid, amount) else old(ledger.users))
        && ledger.order == (if r.Pass? && uid !in old(ledger.users) then old(ledger.order) + [uid] else old(ledger.order))
        && stopped == (|winners| == MaxWinners)
        && ledger.robCooldowns == old(ledger.robCooldowns) && ledger.coinflipCooldowns == old(ledger.coinflipCooldowns)
    {
      if stopped || now >= deadline {
        return Fail(CollectorEnded);
      }
      if uid in winners {
        return Fail(AlreadyClaimed);
      }
      if |winners| >= MaxWinners {
        return Fail(LootboxExhausted);
      }
      winners := winners + {uid};
      if |winners| >= MaxWinners {
        buttonDisabled := true;
        stopped := true;
      }
      // The credit touches only the ledger, so it commutes with the lootbox's own updates.
      ledger.Credit(uid, amount);
      r := Pass;
    }
  }

  // ---------------------------------------------------------------------------
  // The collect handler as written

  /** The handler as written: after its two guards it runs `users = loadUsers()`, which
      stores the `undefined` loadUsers returns, so reading `users[userId]` throws before
      any credit or `winners.add`. `None` stands for the undefined `users`. */
  function CollectAsWritten(users: Option<map<UserId, int>>, winners: set<UserId>, uid: UserId)
    : (r: (Outcome<Error>, Option<map<UserId, int>>))
    ensures AdmitClaim(winners, uid).Fail? ==> r == (AdmitClaim(winners, uid), users)
    ensures AdmitClaim(winners, uid).Pass? ==> r == (Fail(UsersUndefined), None)
  {
    if uid in winners then (Fail(AlreadyClaimed), users)
    else if |winners| >= MaxWinners then (Fail(LootboxExhausted), users)
    else (Fail(UsersUndefined), None)
  }

  /** Presses in arrival order against the as-written handler. Since it never adds a
      winner, `winners` is the set the lootbox started with throughout. */
  function CollectAllAsWritten(users: Option<map<UserId, int>>, winners: set<UserId>, claims: seq<UserId>)
    : Option<map<UserId, int>>
    decreases |claims|
  {
    if claims == [] then users
    else CollectAllAsWritten(CollectAsWritten(users, winners, claims[0]).1, winners, claims[1..])
  }

  /** On a fresh lootbox every press is admitted and then throws: nobody is ever
      credited, and the first press leaves the bot's `users` undefined. */
  lemma {:induction false} AsWrittenNobodyIsCredited(users: Option<map<UserId, int>>, claims: seq<UserId>)
    decreases |claims|
    ensures forall i :: 0 <= i < |claims| ==> CollectAsWritten(users, {}, claims[i]).0 == Fail(UsersUndefined)
    ensures claims != [] ==> CollectAllAsWritten(users, {}, claims) == None
    ensures claims == [] ==> CollectAllAsWritten(users, {}, claims) == users
  {
    if claims != [] {
      AsWrittenNobodyIsCredited(None, claims[1..]);
    }
  }
}
