/** The integer rules of the Python economy bot (economybot/main.py): account records,
    the job catalogue and the guarded wallet/bank/wager operations, each as a function
    from the old record (and the random draws) to the new record or an error. */
module EconomyRules {
  import opened Common

  type UserId = string

  // ---------------------------------------------------------------------------
  // Job catalogue (the static JOBS table)

  datatype Job = Peasant | Merchant | Craftsman | Noble

  function JobName(j: Job): string {
    match j
    case Peasant => "Peasant"
    case Merchant => "Merchant"
    case Craftsman => "Craftsman"
    case Noble => "Noble"
  }

  function Salary(j: Job): nat {
    match j
    case Peasant => 50
    case Merchant => 100
    case Craftsman => 200
    case Noble => 500
  }

  function XpRequired(j: Job): nat {
    match j
    case Peasant => 0
    case Merchant => 50
    case Craftsman => 100
    case Noble => 250
  }

  /** `name in JOBS`: exactly the four catalogue names are jobs. */
  function ParseJob(name: string): (r: Option<Job>)
    ensures r.Some? ==> JobName(r.value) == name
    ensures forall j :: JobName(j) == name ==> r == Some(j)
  {
    if name == "Peasant" then Some(Peasant)
    else if name == "Merchant" then Some(Merchant)
    else if name == "Craftsman" then Some(Craftsman)
    else if name == "Noble" then Some(Noble)
    else None
  }

  // ---------------------------------------------------------------------------
  // str.capitalize on ASCII letters

  function UpperChar(c: char): char {
    if 'a' <= c <= 'z' then (c as int - 32) as char else c
  }

  function LowerChar(c: char): char {
    if 'A' <= c <= 'Z' then (c as int + 32) as char else c
  }

  function Lowered(s: string): string {
    seq(|s|, i requires 0 <= i < |s| => LowerChar(s[i]))
  }

  /** First character upper-cased, all others lower-cased. */
  function Capitalize(s: string): string {
    if s == [] then [] else [UpperChar(s[0])] + Lowered(s[1..])
  }

  /** Capitalizing twice is capitalizing once. */
  lemma CapitalizeIdempotent(s: string)
    ensures Capitalize(Capitalize(s)) == Capitalize(s)
  {
    if s != [] {
      assert Capitalize(s)[1..] == Lowered(s[1..]);
    }
  }

  /** Every catalogue name survives capitalization, so `setjob` accepts it verbatim. */
  lemma JobNamesAreCapitalized(j: Job)
    ensures Capitalize(JobName(j)) == JobName(j)
  {
    var n := JobName(j);
    assert Lowered(n[1..]) == n[1..];
  }

  /** Any other letter case of a catalogue name selects that job. */
  lemma SetJobIgnoresCase()
    ensures ParseJob(Capitalize("nOBLE")) == Some(Noble)
  {
    assert Lowered("OBLE") == "oble";
  }

  // ---------------------------------------------------------------------------
  // Account records

  /** One entry of the `users` map. `balance` is the wallet. */
  datatype Account = Account(balance: int, bankBalance: int, job: Option<Job>, xp: int, bankSpace: int)

  /** The record initialize_user creates for an unknown id. */
  const NewAccount := Account(100, 0, None, 0, 500)

  function Wealth(a: Account): int {
    a.balance + a.bankBalance
  }

  predicate BankWithinSpace(a: Account) {
    0 <= a.bankBalance <= a.bankSpace
  }

  datatype Error =
    | NonPositiveAmount
    | InsufficientWallet
    | BankCapacityExceeded
    | InsufficientBank
    | SelfTransfer
    | CooldownActive
    | UnknownJob
    | InsufficientXp
    | NoJob
    | SelfRob
    | AlreadyClaimed
    | LootboxExhausted
    | GameAlreadyFinished
    | NotSessionOwner
    | MissingRecord
    | NothingToRob
    | CollectorEnded
    | UsersUndefined

  /** A cooldown entry is active while its expiry lies strictly after `now`. */
  predicate OnCooldown(cooldowns: map<UserId, int>, uid: UserId, now: int) {
    uid in cooldowns && cooldowns[uid] > now
  }

  const CoinflipCooldown := 30
  const BankCooldown := 30
  const JobCooldown := 3600
  const RobCooldown := 60
  const WorkXp := 10

  // ---------------------------------------------------------------------------
  // deposit / withdraw / transfer

  /** `deposit`: checks a positive amount, then the wallet, then the bank's space. */
  function DepositRule(a: Account, amount: int): (r: Result<Account, Error>)
    ensures amount <= 0 ==> r == Err(NonPositiveAmount)
    ensures 0 < amount && amount > a.balance ==> r == Err(InsufficientWallet)
    ensures 0 < amount <= a.balance && a.bankBalance + amount > a.bankSpace ==> r == Err(BankCapacityExceeded)
    ensures r.Ok? <==> 0 < amount <= a.balance && a.bankBalance + amount <= a.bankSpace
    ensures r.Ok? ==>
      && Wealth(r.value) == Wealth(a)
      && r.value.balance == a.balance - amount >= 0
      && r.value.bankBalance <= r.value.bankSpace
      && r.value.(balance := a.balance, bankBalance := a.bankBalance) == a
  {
    if amount <= 0 then Err(NonPositiveAmount)
    else if amount > a.balance then Err(InsufficientWallet)
    else if a.bankBalance + amount > a.bankSpace then Err(BankCapacityExceeded)
    else Ok(a.(balance := a.balance - amount, bankBalance := a.bankBalance + amount))
  }

  /** `withdraw`: checks a positive amount, then the bank balance. */
  function WithdrawRule(a: Account, amount: int): (r: Result<Account, Error>)
    ensures amount <= 0 ==> r == Err(NonPositiveAmount)
    ensures 0 < amount && amount > a.bankBalance ==> r == Err(InsufficientBank)
    ensures r.Ok? <==> 0 < amount <= a.bankBalance
    ensures r.Ok? ==>
      && Wealth(r.value) == Wealth(a)
      && r.value.balance == a.balance + amount
      && 0 <= r.value.bankBalance < a.bankBalance
      && r.value.(balance := a.balance, bankBalance := a.bankBalance) == a
  {
    if amount <= 0 then Err(NonPositiveAmount)
    else if amount > a.bankBalance then Err(InsufficientBank)
    else Ok(a.(balance := a.balance + amount, bankBalance := a.bankBalance - amount))
  }

  /** `transfer`: refuses the sender itself, a non-positive amount and an amount above
      the sender's wallet; otherwise moves `amount` between the two wallets. */
  function TransferRule(sender: Account, recipient: Account, toSelf: bool, amount: int)
    : (r: Result<(Account, Account), Error>)
    ensures toSelf ==> r == Err(SelfTransfer)
    ensures !toSelf && amount <= 0 ==> r == Err(NonPositiveAmount)
    ensures r.Ok? <==> !toSelf && 0 < amount <= sender.balance
    ensures r.Ok? ==>
      && r.value.0.balance + r.value.1.balance == sender.balance + recipient.balance
      && r.value.0.balance == sender.balance - amount >= 0
      && r.value.1.balance == recipient.balance + amount
      && r.value.0.(balance := sender.balance) == sender
      && r.value.1.(balance := recipient.balance) == recipient
  {
    if toSelf then Err(SelfTransfer)
    else if amount <= 0 then Err(NonPositiveAmount)
    else if amount > sender.balance then Err(InsufficientWallet)
    else Ok((sender.(balance := sender.balance - amount), recipient.(balance := recipient.balance + amount)))
  }

  // ---------------------------------------------------------------------------
  // coinflip and slots

  /** `coinflip`: amount, then funds, then cooldown; `heads` is the coin. */
  function CoinflipRule(a: Account, amount: int, onCooldown: bool, heads: bool): (r: Result<Account, Error>)
    ensures r.Ok? <==> 0 < amount <= a.balance && !onCooldown
    ensures amount <= 0 ==> r == Err(NonPositiveAmount)
    ensures 0 < amount <= a.balance && onCooldown ==> r == Err(CooldownActive)
    ensures r.Ok? ==>
      && r.value.balance == (if heads then a.balance + amount else a.balance - amount)
      && r.value.balance >= 0
      && r.value.(balance := a.balance) == a
  {
    if amount <= 0 then Err(NonPositiveAmount)
    else if a.balance < amount then Err(InsufficientWallet)
    else if onCooldown then Err(CooldownActive)
    else Ok(a.(balance := if heads then a.balance + amount else a.balance - amount))
  }

  datatype Symbol = Cherry | Grape | Tangerine | Lemon | Diamond | Clover

  /** `len(set(spin_results))` for the three reels. */
  function DistinctSymbols(s0: Symbol, s1: Symbol, s2: Symbol): nat {
    |{s0, s1, s2}|
  }

  /** Net change of the wallet for a spin: 10x on one symbol, 2x on two, lose on three. */
  function SlotsWinnings(bet: int, s0: Symbol, s1: Symbol, s2: Symbol): int {
    var n := DistinctSymbols(s0, s1, s2);
    if n == 1 then bet * 10 else if n == 2 then bet * 2 else -bet
  }

  /** `len(set(...))` by cases: 1 when all three reels agree, 3 when all differ, else 2. */
  lemma DistinctSymbolsByCases(s0: Symbol, s1: Symbol, s2: Symbol)
    ensures DistinctSymbols(s0, s1, s2) ==
      if s0 == s1 && s1 == s2 then 1 else if s0 != s1 && s1 != s2 && s0 != s2 then 3 else 2
  {
    assert |{s0}| == 1;
    assert |{s0, s1}| == if s0 == s1 then 1 else 2;
  }

  /** The payout table in terms of the reels themselves. */
  lemma SlotsPayout(bet: int, s0: Symbol, s1: Symbol, s2: Symbol)
    ensures s0 == s1 == s2 ==> SlotsWinnings(bet, s0, s1, s2) == 10 * bet
    ensures s0 != s1 && s1 != s2 && s0 != s2 ==> SlotsWinnings(bet, s0, s1, s2) == -bet
    ensures (s0 == s1 && s1 != s2) || (s1 == s2 && s0 != s1) || (s0 == s2 && s0 != s1)
            ==> SlotsWinnings(bet, s0, s1, s2) == 2 * bet
  {
    DistinctSymbolsByCases(s0, s1, s2);
  }

  /** `slots`: cooldown, then bet, then funds; the three reels are the draws. */
  function SlotsRule(a: Account, bet: int, onCooldown: bool, s0: Symbol, s1: Symbol, s2: Symbol)
    : (r: Result<Account, Error>)
    ensures onCooldown ==> r == Err(CooldownActive)
    ensures r.Ok? <==> !onCooldown && 0 < bet <= a.balance
    ensures r.Ok? ==>
      && r.value.balance == a.balance + SlotsWinnings(bet, s0, s1, s2)
      && r.value.balance >= 0
      && r.value.(balance := a.balance) == a
  {
    if onCooldown then Err(CooldownActive)
    else if bet <= 0 then Err(NonPositiveAmount)
    else if bet > a.balance then Err(InsufficientWallet)
    else
      SlotsPayout(bet, s0, s1, s2);
      Ok(a.(balance := a.balance + SlotsWinnings(bet, s0, s1, s2)))
  }

  /** `blackjack`'s guards before the deal: cooldown, then bet, then funds. The bet is
      only checked here; it is settled later against whatever the wallet holds then. */
  function DealRule(a: Account, bet: int, onCooldown: bool): (r: Outcome<Error>)
    ensures onCooldown ==> r == Fail(CooldownActive)
    ensures !onCooldown && bet <= 0 ==> r == Fail(NonPositiveAmount)
    ensures r.Pass? <==> !onCooldown && 0 < bet <= a.balance
  {
    if onCooldown then Fail(CooldownActive)
    else if bet <= 0 then Fail(NonPositiveAmount)
    else if bet > a.balance then Fail(InsufficientWallet)
    else Pass
  }

  // ---------------------------------------------------------------------------
  // work and setjob

  /** `work`: needs a job and no active job cooldown; pays the salary and 10 xp. */
  function WorkRule(a: Account, onCooldown: bool): (r: Result<Account, Error>)
    ensures a.job.None? ==> r == Err(NoJob)
    ensures r.Ok? <==> a.job.Some? && !onCooldown
    ensures r.Ok? ==>
      && r.value.balance == a.balance + Salary(a.job.value)
      && r.value.xp == a.xp + WorkXp
      && r.value.(balance := a.balance, xp := a.xp) == a
  {
    if a.job.None? then Err(NoJob)
    else if onCooldown then Err(CooldownActive)
    else Ok(a.(balance := a.balance + Salary(a.job.value), xp := a.xp + WorkXp))
  }

  /** `setjob`: the capitalized name must be a catalogue job whose xp requirement is met. */
  function SetJobRule(a: Account, name: string): (r: Result<Account, Error>)
    ensures ParseJob(Capitalize(name)).None? ==> r == Err(UnknownJob)
    ensures r.Ok? <==> exists j :: JobName(j) == Capitalize(name) && a.xp >= XpRequired(j)
    ensures r.Ok? ==>
      && r.value.job.Some?
      && JobName(r.value.job.value) == Capitalize(name)
      && a.xp >= XpRequired(r.value.job.value)
      && r.value.(job := a.job) == a
  {
    match ParseJob(Capitalize(name))
    case None => Err(UnknownJob)
    case Some(j) => if a.xp < XpRequired(j) then Err(InsufficientXp) else Ok(a.(job := Some(j)))
  }

  // ---------------------------------------------------------------------------
  // rob

  /** Python `int(b * 0.10)`: a tenth, truncated toward zero (exact arithmetic). */
  function TruncTenth(b: int): (r: int)
    ensures b >= 0 ==> 0 <= r <= b && b - 10 < 10 * r <= b
    ensures b < 0 ==> b <= r <= 0 && b <= 10 * r < b + 10
  {
    if b >= 0 then b / 10 else -((-b) / 10)
  }

  /** `rob` after the self check: `roll` is randint(1, 100) and `steal` randint(30, 100).
      Returns the new actor and target records. */
  function RobRule(actor: Account, target: Account, toSelf: bool, onCooldown: bool, roll: int, steal: int)
    : (r: Result<(Account, Account), Error>)
    ensures toSelf ==> r == Err(SelfRob)
    ensures r.Ok? <==> !toSelf && !onCooldown
    ensures r.Ok? && roll <= 10 ==>
      && r.value.1.balance == target.balance - (if steal < target.balance then steal else target.balance)
      && r.value.1.balance >= 0
      && r.value.0.balance + r.value.1.balance == actor.balance + target.balance
    ensures r.Ok? && roll > 10 ==>
      && r.value.1 == target
      && r.value.0.balance == actor.balance - TruncTenth(actor.balance)
      && (actor.balance >= 0 ==> 0 <= r.value.0.balance <= actor.balance)
    ensures r.Ok? ==> r.value.0.(balance := actor.balance) == actor && r.value.1.(balance := target.balance) == target
  {
    if toSelf then Err(SelfRob)
    else if onCooldown then Err(CooldownActive)
    else if roll <= 10 then
      var stolen := if steal < target.balance then steal else target.balance;
      Ok((actor.(balance := actor.balance + stolen), target.(balance := target.balance - stolen)))
    else
      Ok((actor.(balance := actor.balance - TruncTenth(actor.balance)), target))
  }

  /** The scenario of a forced success: a target holding 50 against a steal roll of 80
      loses all 50 to the actor. */
  lemma RobTakesAtMostTargetWallet(actor: Account)
    ensures var r := RobRule(actor, NewAccount.(balance := 50), false, false, 1, 80);
      r.Ok? && r.value.1.balance == 0 && r.value.0.balance == actor.balance + 50
  {
  }

  // ---------------------------------------------------------------------------
  // lootbox claims

  const MaxWinners := 3

  /** `claim_button_callback`'s two guards, in order. */
  function AdmitClaim(winners: set<UserId>, uid: UserId): (r: Outcome<Error>)
    ensures uid in winners ==> r == Fail(AlreadyClaimed)
    ensures r.Pass? <==> uid !in winners && |winners| < MaxWinners
    ensures r.Pass? ==> |winners + {uid}| == |winners| + 1 <= MaxWinners
  {
    if uid in winners then Fail(AlreadyClaimed)
    else if |winners| >= MaxWinners then Fail(LootboxExhausted)
    else Pass
  }

  function Elems(s: seq<UserId>): set<UserId> {
    set u | u in s
  }

  /** Replays claims in arrival order; returns the final winners and the ids credited. */
  function ClaimAll(winners: set<UserId>, claims: seq<UserId>): (set<UserId>, seq<UserId>)
    decreases |claims|
  {
    if claims == [] then (winners, [])
    else
      var uid := claims[0];
      if AdmitClaim(winners, uid).Pass? then
        var (w, credited) := ClaimAll(winners + {uid}, claims[1..]);
        (w, [uid] + credited)
      else ClaimAll(winners, claims[1..])
  }

  /** Whatever the arrival order, the lootbox never has more than three winners and
      credits each id at most once, never one that had already won it. */
  lemma {:induction false} ClaimAllBounded(winners: set<UserId>, claims: seq<UserId>)
    requires |winners| <= MaxWinners
    decreases |claims|
    ensures var (w, credited) := ClaimAll(winners, claims);
      && |w| <= MaxWinners
      && NoDuplicates(credited)
      && w == winners + Elems(credited)
      && |w| == |winners| + |credited|
      && forall u :: u in credited ==> u !in winners
  {
    if claims != [] {
      var uid := claims[0];
      if AdmitClaim(winners, uid).Pass? {
        var next := winners + {uid};
        assert |next| == |winners| + 1;
        ClaimAllBounded(next, claims[1..]);
        var (w, rest) := ClaimAll(next, claims[1..]);
        assert ClaimAll(winners, claims) == (w, [uid] + rest);
        assert uid in next;
        assert uid !in rest;
        NoDuplicatesCons(uid, rest);
        assert Elems([uid] + rest) == {uid} + Elems(rest);
        assert |[uid] + rest| == 1 + |rest|;
      } else {
        ClaimAllBounded(winners, claims[1..]);
      }
    }
  }
}
