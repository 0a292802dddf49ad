/** The mutable state of the Python economy bot (economybot/main.py): the `users` map with
    its four cooldown maps, the Blackjack session a `blackjack` command opens, and the
    lootbox a spawn posts. Each handler is a method whose new state is stated through the
    rules of module EconomyRules; randomness and the event-loop clock are parameters. */
module Economy {
  import opened Common
  import opened EconomyRules
  import opened Blackjack

  /** `initialize_user` on the map alone: an unknown id gets the default record. */
  function WithUser(users: map<UserId, Account>, uid: UserId): (m: map<UserId, Account>)
    ensures uid in m
  {
    if uid in users then users else users[uid := NewAccount]
  }

  /** The dict's insertion order after `initialize_user`. */
  function Registered(order: seq<UserId>, users: map<UserId, Account>, uid: UserId): seq<UserId> {
    if uid in users then order else order + [uid]
  }

  /** The map a single-record rule leaves behind: the new record on success, else no change. */
  function Applied(users: map<UserId, Account>, uid: UserId, r: Result<Account, Error>): map<UserId, Account> {
    if r.Ok? then users[uid := r.value] else users
  }

  function OutcomeOf<R>(r: Result<R, Error>): Outcome<Error> {
    if r.Ok? then Pass else Fail(r.error)
  }

  /** The map a two-record rule leaves behind. */
  function AppliedPair(users: map<UserId, Account>, first: UserId, second: UserId, r: Result<(Account, Account), Error>)
    : map<UserId, Account>
  {
    if r.Ok? then users[first := r.value.0][second := r.value.1] else users
  }

  /** `baltop`'s sort key: wallet plus bank. */
  function EntryWealth(e: (UserId, Account)): int {
    Wealth(e.1)
  }

  const TopCount := 5

  /** The bank invariant `deposit` keeps for every record. */
  predicate BanksWithinSpace(users: map<UserId, Account>) {
    forall u :: u in users ==> BankWithinSpace(users[u])
  }

  class Ledger {
    var users: map<UserId, Account>
    /** The ids in the order the dict received them; `sorted` keeps it among equal totals. */
    var order: seq<UserId>
    var robCooldowns: map<UserId, int>
    var coinflipCooldowns: map<UserId, int>
    var jobCooldowns: map<UserId, int>
    /** Shared by slots and blackjack. */
    var bankCooldowns: map<UserId, int>

    ghost predicate Valid()
      reads this
    {
      KeysInOrder(users, order) && BanksWithinSpace(users)
    }

    /** Storing a record whose bank balance fits its space under an existing id keeps `Valid`. */
    static lemma StoreKeepsValid(users: map<UserId, Account>, order: seq<UserId>, uid: UserId, a: Account)
      requires KeysInOrder(users, order) && BanksWithinSpace(users) && uid in users && BankWithinSpace(a)
      ensures KeysInOrder(users[uid := a], order) && BanksWithinSpace(users[uid := a])
    {
      KeysInOrderStore(users, order, uid, a);
    }

    constructor ()
      ensures Valid()
      ensures users == map[] && order == []
      ensures robCooldowns == map[] && coinflipCooldowns == map[] && jobCooldowns == map[] && bankCooldowns == map[]
    {
      users := map[];
      order := [];
      robCooldowns := map[];
      coinflipCooldowns := map[];
      jobCooldowns := map[];
      bankCooldowns := map[];
    }

    method InitializeUser(uid: UserId)
      requires Valid()
      modifies this
      ensures Valid()
      ensures users == WithUser(old(users), uid)
      ensures order == Registered(old(order), old(users), uid)
      ensures robCooldowns == old(robCooldowns) && coinflipCooldowns == old(coinflipCooldowns)
      ensures jobCooldowns == old(jobCooldowns) && bankCooldowns == old(bankCooldowns)
    {
      if uid !in users {
        KeysInOrderAdd(users, order, uid, NewAccount);
        users := users[uid := NewAccount];
        order := order + [uid];
      }
    }

    method Deposit(uid: UserId, amount: int) returns (r: Outcome<Error>)
      requires Valid()
      modifies this
      ensures Valid()
      ensures var before := WithUser(old(users), uid);
        var res := DepositRule(before[uid], amount);
        r == OutcomeOf(res) && users == Applied(before, uid, res)
      ensures order == Registered(old(order), old(users), uid)
      ensures robCooldowns == old(robCooldowns) && coinflipCooldowns == old(coinflipCooldowns)
      ensures jobCooldowns == old(jobCooldowns) && bankCooldowns == old(bankCooldowns)
    {
      InitializeUser(uid);
      var a := users[uid];
      if amount <= 0 {
        return Fail(NonPositiveAmount);
      }
      if amount > a.balance {
        return Fail(InsufficientWallet);
      }
      if a.bankBalance + amount > a.bankSpace {
        return Fail(BankCapacityExceeded);
      }
      var a2 := a.(balance := a.balance - amount, bankBalance := a.bankBalance + amount);
      Ledger.StoreKeepsValid(users, order, uid, a2);
      users := users[uid := a2];
      r := Pass;
    }

    method Withdraw(uid: UserId, amount: int) returns (r: Outcome<Error>)
      requires Valid()
      modifies this
      ensures Valid()
      ensures var before := WithUser(old(users), uid);
        var res := WithdrawRule(before[uid], amount);
        r == OutcomeOf(res) && users == Applied(before, uid, res)
      ensures order == Registered(old(order), old(users), uid)
      ensures robCooldowns == old(robCooldowns) && coinflipCooldowns == old(coinflipCooldowns)
      ensures jobCooldowns == old(jobCooldowns) && bankCooldowns == old(bankCooldowns)
    {
      InitializeUser(uid);
      var a := users[uid];
      if amount <= 0 {
        return Fail(NonPositiveAmount);
      }
      if amount > a.bankBalance {
        return Fail(InsufficientBank);
      }
      var a2 := a.(balance := a.balance + amount, bankBalance := a.bankBalance - amount);
      Ledger.StoreKeepsValid(users, order, uid, a2);
      users := users[uid := a2];
      r := Pass;
    }

    /** `slots` with reels `s0`, `s1`, `s2`; a spin starts the shared 30 s cooldown. */
    method Slots(uid: UserId, bet: int, now: int, s0: Symbol, s1: Symbol, s2: Symbol) returns (r: Outcome<Error>)
      requires Valid()
      modifies this
      ensures Valid()
      ensures var before := WithUser(old(users), uid);
        var res := SlotsRule(before[uid], bet, OnCooldown(old(bankCooldowns), uid, now), s0, s1, s2);
        && r == OutcomeOf(res)
        && users == Applied(before, uid, res)
        && bankCooldowns == if res.Ok? then old(bankCooldowns)[uid := now + BankCooldown] else old(bankCooldowns)
      ensures order == Registered(old(order), old(users), uid)
      ensures robCooldowns == old(robCooldowns) && coinflipCooldowns == old(coinflipCooldowns)
      ensures jobCooldowns == old(jobCooldowns)
    {
      InitializeUser(uid);
      var a := users[uid];
      if uid in bankCooldowns && bankCooldowns[uid] > now {
        return Fail(CooldownActive);
      }
      if bet <= 0 {
        return Fail(NonPositiveAmount);
      }
      if bet > a.balance {
        return Fail(InsufficientWallet);
      }
      SlotsPayout(bet, s0, s1, s2);
      var a2 := a.(balance := a.balance + SlotsWinnings(bet, s0, s1, s2));
      Ledger.StoreKeepsValid(users, order, uid, a2);
      users := users[uid := a2];
      bankCooldowns := bankCooldowns[uid := now + BankCooldown];
      r := Pass;
    }

    /** `blackjack`: checks the shared cooldown, the bet and the wallet, then deals
        `p1`, `p2` to the player and `d1`, `d2` to the dealer. Nothing is charged yet. */
    method StartBlackjack(uid: UserId, bet: int, now: int, p1: Card, p2: Card, d1: Card, d2: Card)
      returns (r: Outcome<Error>, view: BlackjackView?)
      requires Valid()
      requires ValidCard(p1) && ValidCard(p2) && ValidCard(d1) && ValidCard(d2)
      modifies this
      ensures Valid()
      ensures users == WithUser(old(users), uid)
      ensures order == Registered(old(order), old(users), uid)
      ensures robCooldowns == old(robCooldowns) && coinflipCooldowns == old(coinflipCooldowns)
      ensures jobCooldowns == old(jobCooldowns) && bankCooldowns == old(bankCooldowns)
      ensures r == DealRule(users[uid], bet, OnCooldown(bankCooldowns, uid, now))
      ensures r.Fail? ==> view == null
      ensures r.Pass? ==>
        && view != null && fresh(view) && view.Valid()
        && view.ledger == this && view.userId == uid && view.bet == bet
        && view.playerHand == [p1, p2] && view.dealerHand == [d1, d2]
        && !view.gameOver
    {
      InitializeUser(uid);
      view := null;
      var a := users[uid];
      if uid in bankCooldowns && bankCooldowns[uid] > now {
        return Fail(CooldownActive), null;
      }
      if bet <= 0 {
        return Fail(NonPositiveAmount), null;
      }
      if bet > a.balance {
        return Fail(InsufficientWallet), null;
      }
      view := new BlackjackView(this, uid, bet, [p1, p2], [d1, d2]);
      r := Pass;
    }

    method Work(uid: UserId, now: int) returns (r: Outcome<Error>)
      requires Valid()
      modifies this
      ensures Valid()
      ensures var before := WithUser(old(users), uid);
        var res := WorkRule(before[uid], OnCooldown(old(jobCooldowns), uid, now));
        && r == OutcomeOf(res)
        && users == Applied(before, uid, res)
        && jobCooldowns == if res.Ok? then old(jobCooldowns)[uid := now + JobCooldown] else old(jobCooldowns)
      ensures order == Registered(old(order), old(users), uid)
      ensures robCooldowns == old(robCooldowns) && coinflipCooldowns == old(coinflipCooldowns)
      ensures bankCooldowns == old(bankCooldowns)
    {
      InitializeUser(uid);
      var a := users[uid];
      if a.job.None? {
        return Fail(NoJob);
      }
      if uid in jobCooldowns && jobCooldowns[uid] > now {
        return Fail(CooldownActive);
      }
      var a2 := a.(balance := a.balance + Salary(a.job.value), xp := a.xp + WorkXp);
      Ledger.StoreKeepsValid(users, order, uid, a2);
      users := users[uid := a2];
      jobCooldowns := jobCooldowns[uid := now + JobCooldown];
      r := Pass;
    }

    method SetJob(uid: UserId, name: string) returns (r: Outcome<Error>)
      requires Valid()
      modifies this
      ensures Valid()
      ensures var before := WithUser(old(users), uid);
        var res := SetJobRule(before[uid], name);
        r == OutcomeOf(res) && users == Applied(before, uid, res)
      ensures order == Registered(old(order), old(users), uid)
      ensures robCooldowns == old(robCooldowns) && coinflipCooldowns == old(coinflipCooldowns)
      ensures jobCooldowns == old(jobCooldowns) && bankCooldowns == old(bankCooldowns)
    {
      InitializeUser(uid);
      var a := users[uid];
      var job := ParseJob(Capitalize(name));
      if job.None? {
        return Fail(UnknownJob);
      }
      if a.xp < XpRequired(job.value) {
        return Fail(InsufficientXp);
      }
      var a2 := a.(job := job);
      Ledger.StoreKeepsValid(users, order, uid, a2);
      users := users[uid := a2];
      r := Pass;
    }

    /** `transfer`: both ids are initialized before any guard runs. */
    method Transfer(sender: UserId, recipient: UserId, amount: int) returns (r: Outcome<Error>)
      requires Valid()
      modifies this
      ensures Valid()
      ensures var before := WithUser(WithUser(old(users), sender), recipient);
        var res := TransferRule(before[sender], before[recipient], sender == recipient, amount);
        r == OutcomeOf(res) && users == AppliedPair(before, sender, recipient, res)
      ensures order == Registered(Registered(old(order), old(users), sender), WithUser(old(users), sender), recipient)
      ensures robCooldowns == old(robCooldowns) && coinflipCooldowns == old(coinflipCooldowns)
      ensures jobCooldowns == old(jobCooldowns) && bankCooldowns == old(bankCooldowns)
    {
      InitializeUser(sender);
      InitializeUser(recipient);
      ghost var before := users;
      assert before == WithUser(WithUser(old(users), sender), recipient);
      if sender == recipient {
        return Fail(SelfTransfer);
      }
      if amount <= 0 {
        return Fail(NonPositiveAmount);
      }
      var s := users[sender];
      if amount > s.balance {
        return Fail(InsufficientWallet);
      }
      var s2 := s.(balance := s.balance - amount);
      Ledger.StoreKeepsValid(users, order, sender, s2);
      users := users[sender := s2];
      var t := users[recipient];
      var t2 := t.(balance := t.balance + amount);
      assert TransferRule(before[sender], before[recipient], false, amount) == Ok((s2, t2));
      Ledger.StoreKeepsValid(users, order, recipient, t2);
      users := users[recipient := t2];
      r := Pass;
    }

    /** `baltop`: the five largest totals, greatest first, ties in insertion order. */
    method Baltop() returns (top: seq<(UserId, Account)>)
      requires Valid()
      ensures top == TopN(Entries(users, order), TopCount, EntryWealth)
      ensures |top| == if TopCount < |users| then TopCount else |users|
      ensures SortedDesc(top, EntryWealth)
      ensures multiset(top) <= multiset(Entries(users, order))
      ensures forall x, y :: x in multiset(Entries(users, order)) - multiset(top) && y in top ==> EntryWealth(x) <= EntryWealth(y)
    {
      UsersMatchOrder();
      top := TopN(Entries(users, order), TopCount, EntryWealth);
      TopNIsTop(Entries(users, order), TopCount, EntryWealth);
    }

    /** The order lists every id once, so it is as long as the map. */
    lemma UsersMatchOrder()
      requires Valid()
      ensures |users| == |order|
    {
      var keys := users.Keys;
      var elems := set i | 0 <= i < |order| :: order[i];
      assert keys == elems;
      DistinctElems(order);
    }

    static lemma {:induction false} DistinctElems(s: seq<UserId>)
      requires NoDuplicates(s)
      ensures |set i | 0 <= i < |s| :: s[i]| == |s|
    {
      if s != [] {
        var init := s[..|s| - 1];
        DistinctElems(init);
        var last := s[|s| - 1];
        assert (set i | 0 <= i < |s| :: s[i]) == (set i | 0 <= i < |init| :: init[i]) + {last};
        assert last !in (set i | 0 <= i < |init| :: init[i]);
      }
    }

    method Coinflip(uid: UserId, amount: int, now: int, heads: bool) returns (r: Outcome<Error>)
      requires Valid()
      modifies this
      ensures Valid()
      ensures var before := WithUser(old(users), uid);
        var res := CoinflipRule(before[uid], amount, OnCooldown(old(coinflipCooldowns), uid, now), heads);
        && r == OutcomeOf(res)
        && users == Applied(before, uid, res)
        && coinflipCooldowns == if res.Ok? then old(coinflipCooldowns)[uid := now + CoinflipCooldown] else old(coinflipCooldowns)
      ensures order == Registered(old(order), old(users), uid)
      ensures robCooldowns == old(robCooldowns) && jobCooldowns == old(jobCooldowns) && bankCooldowns == old(bankCooldowns)
    {
      InitializeUser(uid);
      var a := users[uid];
      if amount <= 0 {
        return Fail(NonPositiveAmount);
      }
      if a.balance < amount {
        return Fail(InsufficientWallet);
      }
      if uid in coinflipCooldowns && coinflipCooldowns[uid] > now {
        return Fail(CooldownActive);
      }
      if heads {
        var a2 := a.(balance := a.balance + amount);
        Ledger.StoreKeepsValid(users, order, uid, a2);
        users := users[uid := a2];
      } else {
        var a2 := a.(balance := a.balance - amount);
        Ledger.StoreKeepsValid(users, order, uid, a2);
        users := users[uid := a2];
      }
      coinflipCooldowns := coinflipCooldowns[uid := now + CoinflipCooldown];
      r := Pass;
    }

    /** `rob`: the self check comes before either id is initialized; `roll` is the
        success draw and `steal` the amount draw. */
    method Rob(uid: UserId, target: UserId, now: int, roll: int, steal: int) returns (r: Outcome<Error>)
      requires Valid()
      modifies this
      ensures Valid()
      ensures uid == target ==> r == Fail(SelfRob) && users == old(users) && order == old(order) && robCooldowns == old(robCooldowns)
      ensures uid != target ==>
        var before := WithUser(WithUser(old(users), uid), target);
        var res := RobRule(before[uid], before[target], false, OnCooldown(old(robCooldowns), uid, now), roll, steal);
        && r == OutcomeOf(res)
        && users == AppliedPair(before, uid, target, res)
        && order == Registered(Registered(old(order), old(users), uid), WithUser(old(users), uid), target)
        && robCooldowns == if res.Ok? then old(robCooldowns)[uid := now + RobCooldown] else old(robCooldowns)
      ensures coinflipCooldowns == old(coinflipCooldowns) && jobCooldowns == old(jobCooldowns) && bankCooldowns == old(bankCooldowns)
    {
      if uid == target {
        return Fail(SelfRob);
      }
      InitializeUser(uid);
      InitializeUser(target);
      r := RobInitialized(uid, target, now, roll, steal);
    }

    /** The rest of `rob`, once both records exist. */
    method RobInitialized(uid: UserId, target: UserId, now: int, roll: int, steal: int) returns (r: Outcome<Error>)
      requires Valid() && uid != target && uid in users && target in users
      modifies this
      ensures Valid()
      ensures var res := RobRule(old(users[uid]), old(users[target]), false, OnCooldown(old(robCooldowns), uid, now), roll, steal);
        && r == OutcomeOf(res)
        && users == AppliedPair(old(users), uid, target, res)
        && robCooldowns == if res.Ok? then old(robCooldowns)[uid := now + RobCooldown] else old(robCooldowns)
      ensures order == old(order)
      ensures coinflipCooldowns == old(coinflipCooldowns) && jobCooldowns == old(jobCooldowns) && bankCooldowns == old(bankCooldowns)
    {
      if uid in robCooldowns && robCooldowns[uid] > now {
        return Fail(CooldownActive);
      }
      var a := users[uid];
      var t := users[target];
      if roll <= 10 {
        var stolen := if steal < t.balance then steal else t.balance;
        var t2 := t.(balance := t.balance - stolen);
        var a2 := a.(balance := a.balance + stolen);
        assert RobRule(a, t, false, false, roll, steal) == Ok((a2, t2));
        Ledger.StoreKeepsValid(users, order, uid, a2);
        Ledger.StoreKeepsValid(users[uid := a2], order, target, t2);
        users := users[uid := a2][target := t2];
      } else {
        var loss := TruncTenth(a.balance);
        var a2 := a.(balance := a.balance - loss);
        assert RobRule(a, t, false, false, roll, steal) == Ok((a2, t));
        assert users[uid := a2][target := t] == users[uid := a2];
        Ledger.StoreKeepsValid(users, order, uid, a2);
        users := users[uid := a2];
      }
      robCooldowns := robCooldowns[uid := now + RobCooldown];
      r := Pass;
    }
  }

  /** The view a `blackjack` command posts: the two hands and the game-over flag, with
      Hit and Stand buttons that only the player who started it may press. */
  class BlackjackView {
    const ledger: Ledger
    const userId: UserId
    const bet: int
    var playerHand: seq<Card>
    var dealerHand: seq<Card>
    var gameOver: bool
    /** The buttons' `disabled` flags, set together by end_game. */
    var buttonsDisabled: bool

    ghost predicate Valid()
      reads this
    {
      ValidHand(playerHand) && ValidHand(dealerHand) && buttonsDisabled == gameOver
    }

    constructor (ledger: Ledger, userId: UserId, bet: int, playerHand: seq<Card>, dealerHand: seq<Card>)
      requires ValidHand(playerHand) && ValidHand(dealerHand)
      ensures Valid()
      ensures this.ledger == ledger && this.userId == userId && this.bet == bet
      ensures this.playerHand == playerHand && this.dealerHand == dealerHand
      ensures !gameOver
    {
      this.ledger := ledger;
      this.userId := userId;
      this.bet := bet;
      this.playerHand := playerHand;
      this.dealerHand := dealerHand;
      gameOver := false;
      buttonsDisabled := false;
    }

    /** `end_game`: disables the view, settles the bet against the current wallet and
        starts the shared 30 s cooldown. */
    method EndGame(s: Settlement, now: int)
      requires Valid() && ledger.Valid() && userId in ledger.users
      modifies this, ledger
      ensures Valid() && ledger.Valid()
      ensures gameOver && buttonsDisabled
      ensures playerHand == old(playerHand) && dealerHand == old(dealerHand)
      ensures var a := old(ledger.users[userId]);
        ledger.users == old(ledger.users)[userId := a.(balance := a.balance + Winnings(s, bet))]
      ensures ledger.bankCooldowns == old(ledger.bankCooldowns)[userId := now + BankCooldown]
      ensures ledger.order == old(ledger.order)
      ensures ledger.robCooldowns == old(ledger.robCooldowns) && ledger.coinflipCooldowns == old(ledger.coinflipCooldowns)
      ensures ledger.jobCooldowns == old(ledger.jobCooldowns)
    {
      gameOver := true;
      buttonsDisabled := true;
      var a := ledger.users[userId];
      var a2 := a.(balance := a.balance + Winnings(s, bet));
      Ledger.StoreKeepsValid(ledger.users, ledger.order, userId, a2);
      ledger.users := ledger.users[userId := a2];
      ledger.bankCooldowns := ledger.bankCooldowns[userId := now + BankCooldown];
    }

    /** `hit_button` pressed by `presser`, who is dealt `card`. */
    method Hit(presser: UserId, card: Card, now: int) returns (r: Outcome<Error>)
      requires Valid() && ledger.Valid() && userId in ledger.users
      requires ValidCard(card)
      modifies this, ledger
      ensures Valid() && ledger.Valid()
      ensures presser != userId ==> r == Fail(NotSessionOwner) && unchanged(this) && unchanged(ledger)
      ensures presser == userId && old(gameOver) ==> r == Fail(GameAlreadyFinished) && unchanged(this) && unchanged(ledger)
      ensures presser == userId && !old(gameOver) ==>
        && r == Pass
        && playerHand == old(playerHand) + [card]
        && dealerHand == old(dealerHand)
        && gameOver == (HandValue(playerHand) > 21)
        && ledger.order == old(ledger.order)
        && ledger.robCooldowns == old(ledger.robCooldowns) && ledger.coinflipCooldowns == old(ledger.coinflipCooldowns)
        && ledger.jobCooldowns == old(ledger.jobCooldowns)
        && (if gameOver then
              var a := old(ledger.users[userId]);
              && ledger.users == old(ledger.users)[userId := a.(balance := a.balance - bet)]
              && ledger.bankCooldowns == old(ledger.bankCooldowns)[userId := now + BankCooldown]
            else
              ledger.users == old(ledger.users) && ledger.bankCooldowns == old(ledger.bankCooldowns))
    {
      if presser != userId {
        return Fail(NotSessionOwner);
      }
      if gameOver {
        return Fail(GameAlreadyFinished);
      }
      playerHand := playerHand + [card];
      var playerValue := CalculateHand(playerHand);
      if playerValue > 21 {
        EndGame(DealerWins, now);
      }
      r := Pass;
    }

    /** `stand_button` pressed by `presser`: the dealer draws `draws(0)`, `draws(1)`, ...
        while its hand is worth less than 17, then the hands are compared. */
    method Stand(presser: UserId, draws: nat -> Card, now: int) returns (r: Outcome<Error>)
      requires Valid() && ledger.Valid() && userId in ledger.users
      requires forall i: nat :: ValidCard(draws(i))
      modifies this, ledger
      ensures Valid() && ledger.Valid()
      ensures presser != userId ==> r == Fail(NotSessionOwner) && unchanged(this) && unchanged(ledger)
      ensures presser == userId && old(gameOver) ==> r == Fail(GameAlreadyFinished) && unchanged(this) && unchanged(ledger)
      ensures presser == userId && !old(gameOver) ==>
        && r == Pass
        && gameOver
        && playerHand == old(playerHand)
        && DealerDrew(old(dealerHand), dealerHand, draws)
        && HandValue(dealerHand) >= 17
        && ledger.order == old(ledger.order)
        && ledger.bankCooldowns == old(ledger.bankCooldowns)[userId := now + BankCooldown]
        && ledger.robCooldowns == old(ledger.robCooldowns) && ledger.coinflipCooldowns == old(ledger.coinflipCooldowns)
        && ledger.jobCooldowns == old(ledger.jobCooldowns)
        && var a := old(ledger.users[userId]);
           var s := StandSettlement(HandValue(playerHand), HandValue(dealerHand));
           ledger.users == old(ledger.users)[userId := a.(balance := a.balance + Winnings(s, bet))]
    {
      if presser != userId {
        return Fail(NotSessionOwner);
      }
      if gameOver {
        return Fail(GameAlreadyFinished);
      }
      var playerValue := CalculateHand(playerHand);
      var dealerValue := DealerDraws(draws);
      EndGame(StandSettlement(playerValue, dealerValue), now);
      r := Pass;
    }

    /** The dealer's `while dealer_value < 17` loop: draws `draws(0)`, `draws(1)`, ...
        and returns the final value. */
    method DealerDraws(draws: nat -> Card) returns (dealerValue: int)
      requires Valid()
      requires forall i: nat :: ValidCard(draws(i))
      modifies this
      ensures Valid()
      ensures dealerValue == HandValue(dealerHand) >= 17
      ensures playerHand == old(playerHand) && gameOver == old(gameOver) && buttonsDisabled == old(buttonsDisabled)
      ensures DealerDrew(old(dealerHand), dealerHand, draws)
    {
      var hand := dealerHand;
      dealerValue := CalculateHand(hand);
      assert hand[..|dealerHand|] == dealerHand;
      while dealerValue < 17
        modifies {}
        invariant ValidHand(hand)
        invariant dealerValue == HandValue(hand)
        invariant DealerDrew(dealerHand, hand, draws)
        decreases 17 - |hand|
      {
        ValueAtLeastLength(hand);
        DealerDrewStep(dealerHand, hand, draws);
        hand := hand + [draws(|hand| - |dealerHand|)];
        dealerValue := CalculateHand(hand);
      }
      dealerHand := hand;
    }
  }

  /** One posted lootbox: its amount, the set of winners and the Claim button. */
  class Lootbox {
    /** `random.randint(30, 100)`. */
    const amount: int
    var winners: set<UserId>
    var buttonDisabled: bool

    ghost predicate Valid()
      reads this
    {
      30 <= amount <= 100 && |winners| <= MaxWinners && (buttonDisabled <==> |winners| == MaxWinners)
    }

    constructor (amount: int)
      requires 30 <= amount <= 100
      ensures Valid() && this.amount == amount && winners == {} && !buttonDisabled
    {
      this.amount := amount;
      winners := {};
      buttonDisabled := false;
    }

    /** `claim_button_callback` for `uid`: initializes the user, then admits or rejects. */
    method Claim(ledger: Ledger, uid: UserId) returns (r: Outcome<Error>)
      requires Valid() && ledger.Valid()
      modifies this, ledger
      ensures Valid() && ledger.Valid()
      ensures r == AdmitClaim(old(winners), uid)
      ensures var before := WithUser(old(ledger.users), uid);
        ledger.users == if r.Pass? then before[uid := before[uid].(balance := before[uid].balance + amount)] else before
      ensures winners == if r.Pass? then old(winners) + {uid} else old(winners)
      ensures r.Pass? ==> uid !in old(winners) && |winners| == |old(winners)| + 1
      ensures ledger.order == Registered(old(ledger.order), old(ledger.users), uid)
      ensures ledger.robCooldowns == old(ledger.robCooldowns) && ledger.coinflipCooldowns == old(ledger.coinflipCooldowns)
      ensures ledger.jobCooldowns == old(ledger.jobCooldowns) && ledger.bankCooldowns == old(ledger.bankCooldowns)
    {
      ledger.InitializeUser(uid);
      if uid in winners {
        return Fail(AlreadyClaimed);
      }
      if |winners| >= MaxWinners {
        return Fail(LootboxExhausted);
      }
      var a := ledger.users[uid];
      var a2 := a.(balance := a.balance + amount);
      Ledger.StoreKeepsValid(ledger.users, ledger.order, uid, a2);
      ledger.users := ledger.users[uid := a2];
      winners := winners + {uid};
      if |winners| >= MaxWinners {
        buttonDisabled := true;
      }
      r := Pass;
    }
  }

  /** A session settles against whatever the wallet holds when it ends: a player who
      bets the whole wallet, gives it away and then busts ends up owing the bet. */
  method BlackjackLossAfterTransfer() returns (finalBalance: int)
    ensures finalBalance == -100
  {
    var ledger := new Ledger();
    var r, view := ledger.StartBlackjack("alice", 100, 0, Number(10), Number(9), Number(10), Number(7));
    assert r == Pass;
    var t := ledger.Transfer("alice", "bob", 100);
    assert t == Pass && ledger.users["alice"].balance == 0;
    HitOnNineteenBusts();
    var h := view.Hit("alice", King, 1);
    assert view.playerHand == [Number(10), Number(9), King];
    finalBalance := ledger.users["alice"].balance;
  }
}
