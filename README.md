# Discord bots: ledgers, moderation records and the queue pager

This project models the integer and record bookkeeping of three Discord bots and proves
properties of the model in Dafny:

- **Economy (Python, `economybot/main.py`).** A `users` map from user id to an account.
  Each account has a wallet balance, a bank balance, a bank space, a job and xp. There are
  four cooldown maps. The guarded handlers are `deposit`, `withdraw`, `transfer`, `work`,
  `setjob`, `coinflip`, `slots` and `rob`. `baltop` ranks accounts. A blackjack session has
  the two hands, a game-over flag, a hit/stand/end-game state machine and the soft-ace hand
  evaluator. A lootbox admits at most three winners.
  - Module `EconomyRules` holds every guard and update as a pure function from the old
    record to the new record or an error.
  - Module `Blackjack` holds the cards, the hand value and the settlement rule.
  - Module `Economy` holds the mutable state as classes: `Ledger`, `BlackjackView` and
    `Lootbox`. Each class's methods are proved against those functions.
- **Economy (JavaScript, `economybot/main.js`).** Module `EconomyJs`. It has a wallet-only
  ledger with `coinflip`, `bal`, `baltop`, `rob` and the lootbox collector. Its guards differ
  from the Python bot's:
  - it never checks that an amount is positive;
  - it never clamps a robbery at the target's wallet.
- **Moderation (Python, `moderatorbot/main.py`).** Module `Moderation`. It covers:
  - the log capture buffer capped at 100 entries;
  - per-member role lists without duplicates;
  - warnings stored as `reason | <t:ts:R>` and split back by `warns`;
  - the index-checked `delwarn`;
  - mute-length validation in whole minutes;
  - ban durations, notes and the starboard set;
  - the `serverstatus` embed.
- **Moderation (JavaScript, `moderatorbot/main.js`).** Module `ModerationJs`. It shares the
  Python pieces where the two bots agree. It differs in four places:
  - the captured log line (the message only);
  - `warns`, which cuts a warning at its first separator;
  - the status embed, which shows the last five warnings, is not truncated and has no
    error field;
  - the starboard post, which is never sent for a message with an image attachment
    (see "## Findings").
- **Music (`musicbot/main.py`).** Module `Music`. It covers the `QueueView` pager and the
  `has_allowed_role` gate. The pager shows ten songs a page with a page cursor, and its
  previous/next buttons appear only where there is a page to move to.

Module `Common` holds the shared sequence and string helpers: decimal rendering, substring
search, `Join`, `LastN`, `Filter`, and a stable descending insertion sort with its top-N
lemma.

Things outside the bookkeeping are parameters of the operations or are left out:
- Randomness: coin sides, reels, robbery rolls, dealt cards and lootbox amounts are passed
  in.
- The clock: `now` is passed in.
- Discord calls and file storage are left out.

A permission check that asks Discord (for example `guild_permissions.manage_messages`)
becomes a `permitted: bool` parameter. A button press carries the presser's id.
- Python `interaction_check` returns false for anyone but the session owner. The view then
  ignores the press, which the model writes as `Fail(NotSessionOwner)` with nothing changed.
- A rejected `QueueView` press is `NotAllowed`.

Where the code leaves a guard out, the model leaves it out too:
- There is no guard against opening a second Blackjack session.
- The Python lootbox has no claim window of its own. Its `discord.ui.View()`
  (economybot/main.py:533) has discord.py's default 180-second timeout, which falls under
  "views and their timeouts" in "## Left out". The JS collector has a 20-second limit.
- `baltop` ties keep the map's insertion order, because Python's `sorted` and JavaScript's
  `Array.prototype.sort` are both stable.

## Model

| member | source | states |
|---|---|---|
| EconomyRules.ParseJob | economybot/main.py:26-31 | `name in JOBS`: some job exactly when the name is one of the four catalogue names, and that job bears the name |
| EconomyRules.CapitalizeIdempotent | economybot/main.py:391 | the ASCII-letter model of `str.capitalize` applied twice equals applied once |
| EconomyRules.JobNamesAreCapitalized | economybot/main.py:391-392 | every catalogue name is unchanged by ASCII capitalization, so `setjob` accepts it as typed |
| EconomyRules.SetJobIgnoresCase | economybot/main.py:391-392 | a name in any ASCII letter case (`nOBLE`) selects the job |
| EconomyRules.DepositRule | economybot/main.py:98-112 | rejects amount ≤ 0, then amount above the wallet, then a deposit past the bank space; success exactly when none applies; moves `amount` wallet→bank with wealth conserved, wallet ≥ 0, bank within space, other fields unchanged |
| EconomyRules.WithdrawRule | economybot/main.py:127-136 | rejects amount ≤ 0, then amount above the bank balance; otherwise moves `amount` bank→wallet with wealth conserved and the bank staying ≥ 0 |
| EconomyRules.TransferRule | economybot/main.py:416-431 | rejects self-transfer, then amount ≤ 0, then amount above the sender's wallet; success exactly otherwise; the sender loses and the recipient gains `amount`, the two wallets' sum is conserved and the sender stays ≥ 0; other fields unchanged |
| EconomyRules.CoinflipRule | economybot/main.py:460-478 | success iff 0 < amount ≤ wallet and no cooldown; the wallet moves by ±amount and never goes below 0 |
| EconomyRules.SlotsPayout | economybot/main.py:164-175 | the payout in terms of the reels: 10·bet for three equal symbols, 2·bet for exactly two equal, −bet for three different |
| EconomyRules.SlotsRule | economybot/main.py:152-177 | cooldown checked first; success iff no cooldown and 0 < bet ≤ wallet; the wallet changes by the payout and stays ≥ 0 |
| EconomyRules.DealRule | economybot/main.py:197-210 | blackjack's guards: cooldown, then bet ≤ 0; a deal exactly when no cooldown and 0 < bet ≤ wallet |
| EconomyRules.WorkRule | economybot/main.py:333-350 | no job is rejected first, then an active cooldown; otherwise the job's salary and 10 xp are added and nothing else changes |
| EconomyRules.SetJobRule | economybot/main.py:391-400 | an unknown capitalized name is rejected; success iff some job bears the capitalized name and its xp requirement is met; only `job` changes |
| EconomyRules.TruncTenth | economybot/main.py:511 | `int(b*0.10)` over exact arithmetic: a tenth truncated toward zero, bounded by 0 and `b` |
| EconomyRules.RobRule | economybot/main.py:488-513 | rejects self-robbery and an active cooldown; a roll ≤ 10 moves `min(steal, target wallet)` to the actor, the target stays ≥ 0 and the sum is conserved; otherwise the actor loses a truncated tenth (staying within 0..wallet when non-negative) and the target is untouched |
| EconomyRules.RobTakesAtMostTargetWallet | economybot/main.py:502-507 | a target with 50 robbed for 80 is left at 0 and the actor gains 50 |
| EconomyRules.AdmitClaim | economybot/main.py:543-549 | the lootbox's guards: a repeat claimer is rejected; admitted iff new and fewer than 3 winners, so the set grows by one to at most 3 |
| EconomyRules.ClaimAllBounded | economybot/main.py:543-554 | for any sequence of presses: at most 3 winners, each credited id credited once and not already a winner, and the winners are the starting set plus those credited |
| Blackjack.ReduceBounds | economybot/main.py:221-223 | the ace loop subtracts a multiple of 10, at most 10 per ace; leaves ≤ 21 unless every ace is reduced; changes nothing without aces or at ≤ 21 |
| Blackjack.HandValueBounds | economybot/main.py:218-224 | hand value between naive sum − 10·aces and the naive sum; ≤ 21 unless every ace was reduced; the naive sum when there is no ace |
| Blackjack.ValueAtLeastLength | economybot/main.py:213-224 | every card counts at least 1, so the value is at least the number of cards (the dealer loop terminates) |
| Blackjack.CalculateHand | economybot/main.py:218-224 | the three-step loop (sum, count aces, reduce) returns the hand value |
| Blackjack.StandSettlement | economybot/main.py:267-272 | after the dealer draws: the player wins iff the dealer busts or the player is higher, loses iff the dealer is not bust and higher, and ties otherwise |
| Blackjack.Winnings | economybot/main.py:279-284 | for a positive bet the wallet change is positive iff a win, negative iff a loss, zero iff a push; always ±bet or 0 |
| Blackjack.StandOnNineteenAgainstTwenty | economybot/main.py:260-272 | 10+9 is 19, 10+K is 20, and standing on 19 against 20 loses the bet |
| Economy.Ledger.constructor | economybot/main.py:20-24 | an empty user map and empty cooldown maps |
| Economy.Ledger.InitializeUser | economybot/main.py:45-54 | an unknown id gets the record (100, 0, no job, 0 xp, 500) and is appended to the order; a known id changes nothing |
| Economy.Ledger.Deposit | economybot/main.py:93-113 | the result and new map are `DepositRule` applied to the initialized record; nothing else changes |
| Economy.Ledger.Withdraw | economybot/main.py:122-137 | the result and new map are `WithdrawRule` applied to the initialized record |
| Economy.Ledger.Slots | economybot/main.py:146-180 | `SlotsRule` against the shared bank cooldown; success starts that cooldown at now+30 |
| Economy.Ledger.StartBlackjack | economybot/main.py:192-216 | `DealRule` against the shared cooldown; on a deal, a fresh open session with the dealt hands and the bet |
| Economy.Ledger.Work | economybot/main.py:328-351 | `WorkRule` against the job cooldown; success sets it to now+3600 |
| Economy.Ledger.SetJob | economybot/main.py:386-401 | `SetJobRule` on the initialized record |
| Economy.Ledger.Transfer | economybot/main.py:410-431 | initializes both ids before any guard, then applies `TransferRule` to both records |
| Common.Entries | economybot/main.py:442 | `users.items()` (and `Object.entries(users)` in the JavaScript bot): every stored record appears exactly once with its own value, nothing else appears, and the ids follow insertion order |
| Common.SortDescSorted | economybot/main.py:442 | `sorted(..., reverse=True)` by a key: the result is ordered greatest key first and is a permutation of the input |
| Common.TopNIsTop | economybot/main.py:442 | the `[:n]` slice of that sort has min(n, length) entries, stays sorted, is drawn from the input, and no omitted entry has a greater key than a shown one |
| Economy.Ledger.Baltop | economybot/main.py:442 | the first five entries of a stable sort by wallet+bank, greatest first: sorted, drawn from the accounts, and no omitted account outranks a shown one |
| Economy.Ledger.Coinflip | economybot/main.py:457-480 | `CoinflipRule` on the initialized record; success sets the coinflip cooldown to now+30 |
| Economy.Ledger.Rob | economybot/main.py:488-496 | a self-robbery is refused before any id is initialized; otherwise both are initialized and the rest follows `RobInitialized` |
| Economy.Ledger.RobInitialized | economybot/main.py:498-515 | `RobRule` on the two records; success sets the rob cooldown to now+60 in both branches |
| Economy.BlackjackView.constructor | economybot/main.py:227-233 | a new session with its hands and bet and `game_over` false |
| Economy.BlackjackView.EndGame | economybot/main.py:274-288 | sets game over and disables the buttons, adds the settlement's winnings to the current wallet, and starts the shared cooldown at now+30 |
| Economy.BlackjackView.Hit | economybot/main.py:235-249 | a stranger's press or a press after game over changes nothing; otherwise exactly one card is appended, and a value over 21 ends the game as a loss of the bet |
| Economy.BlackjackView.Stand | economybot/main.py:255-272 | a stranger's press or a press after game over changes nothing; otherwise the dealer draws to ≥ 17 and the game settles by `StandSettlement` |
| Economy.BlackjackView.DealerDraws | economybot/main.py:263-265 | appends the draws in order until the dealer's value is ≥ 17, each earlier value being < 17, and returns that value |
| Economy.BlackjackLossAfterTransfer | economybot/main.py:208-286 | a player who bets the whole wallet of 100, transfers it away and busts ends at −100: the bet is checked at the deal only |
| Economy.Lootbox.constructor | economybot/main.py:528-537 | an amount in 30..100 and no winners yet |
| Economy.Lootbox.Claim | economybot/main.py:540-560 | initializes the claimer; admits by `AdmitClaim`, credits the amount once and adds the winner; the button is disabled exactly when 3 have won |
| EconomyJs.JsCoinflipRule | economybot/main.js:51-67 | a missing record is rejected; success iff a record with wallet ≥ amount and no cooldown; the wallet moves by ±amount |
| EconomyJs.NegativeBetInvertsCoinflip | economybot/main.js:51-67 | with no sign check, a negative amount "wins" by lowering the wallet, taking a wallet of 0 to −50 |
| EconomyJs.FloorTenth | economybot/main.js:122 | `Math.floor(b*0.10)` over exact arithmetic: `r` is the floor of b/10 for every `b`, and within 0..b when `b` is not negative |
| EconomyJs.JsRobRule | economybot/main.js:97-125 | rejects a self-robbery, a missing or non-positive actor and an active cooldown; success moves `steal` from the target (100 when absent) to the actor with the sum conserved; failure costs the floored tenth and writes no target record |
| EconomyJs.RobCanOverdrawTarget | economybot/main.js:115-119 | a target holding 20 robbed of 30 is left at −10 |
| EconomyJs.LootboxCredit | economybot/main.js:169-173 | an existing wallet gains the amount; a missing record is created holding exactly the amount; no one else changes |
| EconomyJs.JsLedger.constructor | economybot/main.js:11-14 | no users and no cooldowns |
| EconomyJs.JsLedger.Bal | economybot/main.js:73-76 | the stored wallet, or 100 for an unknown id, without creating a record |
| EconomyJs.JsLedger.Coinflip | economybot/main.js:48-71 | `JsCoinflipRule` on the stored record; success sets the cooldown to now+30000 ms |
| EconomyJs.JsLedger.Baltop | economybot/main.js:79-82 | the first five entries of a stable sort by wallet, greatest first, with no omitted entry outranking a shown one |
| EconomyJs.JsLedger.Credit | economybot/main.js:168-172 | an existing wallet grows by the amount; an unknown id gets a record holding the amount, appended to the order; the cooldowns are untouched |
| EconomyJs.JsLedger.Steal | economybot/main.js:115-120 | a successful robbery: an unknown target first gets the 100-franc record, then `steal` moves from its wallet to the actor's; the order gains the target only when it was unknown |
| EconomyJs.JsLedger.LoseTenth | economybot/main.js:121-124 | a failed robbery costs the actor the floored tenth of the wallet; nothing else changes |
| EconomyJs.JsLedger.Rob | economybot/main.js:96-129 | `JsRobRule` on the stored records; a successful robbery of an unknown target creates it; success sets the cooldown to now+60000 ms |
| EconomyJs.JsLootbox.constructor | economybot/main.js:135-152 | an amount in 30..100, no winners and a deadline 20000 ms after the post |
| EconomyJs.JsLootbox.Collect | economybot/main.js:154-185 | after the collector stops or times out nothing changes; otherwise `AdmitClaim`, then `LootboxCredit`, the winner is added, and the collector stops with the button disabled exactly at 3 winners |
| EconomyJs.CollectAsWritten | economybot/main.js:157-170 | as written: a repeat or a fourth claimer is rejected with nothing changed; an admitted claim throws at the `users[userId]` read and leaves `users` undefined |
| EconomyJs.AsWrittenNobodyIsCredited | economybot/main.js:154-176 | on a fresh lootbox every press throws before any credit, and after any press `users` is left undefined |
| Moderation.CappedAppend | moderatorbot/main.py:37-43 | the entry ends up last; a buffer of ≤ 100 stays ≤ 100 and becomes the last 100 of old + entry |
| Moderation.EmitAllKeepsNewest | moderatorbot/main.py:37-43 | after any run of emits the buffer is the newest 100 of everything seen, in order |
| Moderation.WithRole | moderatorbot/main.py:99-103 | the role is present, the members are the old ones plus the role, no duplicates are introduced and the old list is a prefix |
| Moderation.WithRoleIdempotent | moderatorbot/main.py:99-103 | adding the same role twice equals adding it once |
| Moderation.RSplitOnce | moderatorbot/main.py:182 | `rsplit(' \| ', 1)`: `None` exactly when the separator does not occur; otherwise the parts rejoin to the text around the separator, and no occurrence starts after the split |
| Moderation.WarningRoundTrip | moderatorbot/main.py:156-182 | splitting a stored warning gives back exactly its reason and `<t:ts:R>`, even when the reason holds " \| " |
| Moderation.ParseAllFormatted | moderatorbot/main.py:176-183 | splitting every stored warning of a member recovers every issued (reason, stamp) in order |
| Moderation.RemoveAt | moderatorbot/main.py:202 | `pop(i)`: one shorter, elements before `i` kept, elements after shifted down by one |
| Moderation.RemoveAtMultiset | moderatorbot/main.py:202 | `pop(i)` removes exactly the one element at `i`: the multiset minus that element |
| Moderation.DelWarnRule | moderatorbot/main.py:194-202 | an empty list is rejected first; success iff 1 ≤ index ≤ length; the result is the list without element index−1 |
| Moderation.MuteMinutes | moderatorbot/main.py:231-244 | any negative part is rejected; all-zero means 15 minutes; success iff the total is within 5 minutes..30 days (bounds included); the total otherwise as entered |
| Moderation.MuteBoundsInclusive | moderatorbot/main.py:238-244 | exactly 5 minutes and exactly 30 days are accepted, 4 minutes and 30 days + 1 minute refused |
| Moderation.BanDays | moderatorbot/main.py:121-127 | no end exactly for a permanent ban; otherwise 1, 7 or 14 days |
| Moderation.StarboardRecordsOnce | moderatorbot/main.py:366-371 | over any events each message is recorded as starred at most once, never one already starred, only after a ⭐ event with ≥ 3 stars, and the set is the old one plus those recorded |
| Moderation.Truncate | moderatorbot/main.py:437-439 | a text over 1024 becomes its first 1021 characters plus "...", exactly 1024; a shorter text is kept |
| Moderation.StatusMeaning | moderatorbot/main.py:422-429 | errors iff some entry contains ERROR; warnings iff none does and some contains WARNING; operational iff neither |
| Moderation.RecentText | moderatorbot/main.py:434-451 | the placeholder when nothing matches; otherwise at most 1024 characters |
| Moderation.Report | moderatorbot/main.py:420-451 | both text fields within 1024 characters |
| Moderation.ModData.constructor | moderatorbot/main.py:25-50 | empty log, records and starred set |
| Moderation.ModData.Emit | moderatorbot/main.py:38-46 | the log gains `LEVEL: message` through `CappedAppend`; nothing else changes |
| Moderation.ModData.RoleAdd | moderatorbot/main.py:95-106 | without permission nothing changes; otherwise the member's list becomes `WithRole` of it |
| Moderation.ModData.Ban | moderatorbot/main.py:116-135 | without permission nothing changes; a timed ban records now + days·86400 s, a permanent one records nothing |
| Moderation.ModData.Warn | moderatorbot/main.py:148-158 | without permission nothing changes; otherwise `reason \| <t:ts:R>` is appended to the member's list |
| Moderation.ModData.Warns | moderatorbot/main.py:172-183 | no warnings is reported; otherwise exactly each issued reason and stamp in order |
| Moderation.ModData.DelWarn | moderatorbot/main.py:189-203 | without permission nothing changes; otherwise `DelWarnRule` on the member's list |
| Moderation.ModData.Mute | moderatorbot/main.py:229-254 | without permission nothing changes; otherwise `MuteMinutes` decides, and success records now + minutes·60 |
| Moderation.ModData.Note | moderatorbot/main.py:260-267 | without permission nothing changes; otherwise appends `note - name#discriminator` |
| Moderation.ModData.StarReaction | moderatorbot/main.py:364-371 | the message is recorded as starred iff a ⭐ on an unstarred message with ≥ 3 stars, and then only that id is added |
| Moderation.ModData.ServerStatusOf | moderatorbot/main.py:419-451 | refused without permission; otherwise both fields within 1024, errors iff some entry has ERROR, operational iff none has ERROR or WARNING |
| ModerationJs.JsSplitWarning | moderatorbot/main.js:224 | `split(' \| ')` into `[reason, timestamp]`: `(w, None)` exactly when `w` holds no separator; otherwise the reason is the prefix before the first separator, and the timestamp runs from there to the next separator or the end |
| ModerationJs.JsSplitWithoutBar | moderatorbot/main.js:196-224 | a warning whose reason has no `\|` splits back into its reason and `<t:ts:R>` |
| ModerationJs.JsSplitTruncatesReason | moderatorbot/main.js:196-224 | for every reason holding " \| ", the JS split shows only the part before its first separator, a proper prefix, while the Python `rsplit` gives the reason back whole |
| ModerationJs.JsWarnsShowIssued | moderatorbot/main.js:223-226 | every issued warning whose reason has no `\|` is shown as its reason and stamp |
| ModerationJs.JsReport | moderatorbot/main.js:393-410 | errors iff some entry includes ERROR, operational iff none has ERROR or WARNING; the warnings field is present iff some entry has WARNING and then holds the last five of them joined by newlines |
| ModerationJs.JsModData.constructor | moderatorbot/main.js:33-47 | empty log, records and starred set |
| ModerationJs.JsModData.Log | moderatorbot/main.js:54-59 | the log gains the message only, through `CappedAppend` |
| ModerationJs.JsModData.RoleAdd | moderatorbot/main.js:125-142 | without permission nothing changes; otherwise `WithRole` |
| ModerationJs.JsModData.Ban | moderatorbot/main.js:144-172 | without permission nothing changes; a timed ban records now + days·86400000 ms, a permanent one records nothing, and any other duration text fails with nothing recorded |
| ModerationJs.ParseBanDuration | moderatorbot/main.js:147-164 | a duration text names a choice exactly when it is that choice's value ("1d", "7d", "14d", "Permanent"); any other text names none |
| ModerationJs.ParseDurationValue | moderatorbot/main.js:155-164 | each of the four choice values is read back as its own choice |
| ModerationJs.JsModData.Warn | moderatorbot/main.js:185-197 | without permission nothing changes; otherwise the formatted warning is appended |
| ModerationJs.JsModData.Warns | moderatorbot/main.js:208-228 | no warnings is reported; otherwise one entry per issued warning, each being the `split(' \| ')` of its formatted text, so a reason holding " \| " is shown cut at its first separator; a reason without `\|` is shown whole with its stamp |
| ModerationJs.JsModData.DelWarn | moderatorbot/main.js:229-249 | without permission nothing changes; otherwise `DelWarnRule` (`splice` at index−1) |
| ModerationJs.JsModData.Note | moderatorbot/main.js:306-318 | without permission nothing changes; otherwise appends `note - tag` |
| ModerationJs.JsModData.StarReaction | moderatorbot/main.js:432-438 | the message is recorded as starred iff a ⭐ on an unstarred message with ≥ 3 stars, and then only that id is added |
| ModerationJs.StarboardAsWritten | moderatorbot/main.js:432-457 | as written: the starred set evolves exactly as `StarboardAll`'s, and an embed is sent only for a newly starred message without an image attachment |
| ModerationJs.ImageStarNeverSent | moderatorbot/main.js:446-449 | as written: a message with an image attachment is never sent, whatever reactions arrive before or after it is starred |
| ModerationJs.StarboardIntended | moderatorbot/main.js:432-457 | corrected: the ids sent and the final set are exactly those recorded by `StarboardAll`, so each newly starred message is sent, with its image when it has one |
| ModerationJs.StarboardSendsEveryStarOnce | moderatorbot/main.js:432-457 | corrected: each message starred during a replay is sent exactly once, never one starred before, and the final set is the old one plus those sent |
| ModerationJs.StarredPictureIsLost | moderatorbot/main.js:446-449 | a picture reaching 3 and then 5 stars ends starred with nothing sent as written, and sent once as intended |
| ModerationJs.JsModData.ServerStatusOf | moderatorbot/main.js:391-411 | refused without permission; otherwise errors iff some entry includes ERROR, warnings iff none does and some includes WARNING, operational iff neither; the warnings field is present iff some entry has WARNING and then holds the last five of them joined by newlines |
| Music.TotalPagesIsCeiling | musicbot/main.py:29 | `ceil(n/10)` is the least page count holding `n` songs; 0 only for an empty queue |
| Music.PageSlice | musicbot/main.py:52-55 | `songs[page*10 : page*10+10]` clamped at the end: at most 10 songs, the i-th being song page·10+i |
| Music.GenerateEmbed | musicbot/main.py:50-63 | a "Currently Playing" field first on page 0 with a current song; then the page's songs numbered from page·10+1, none named "Currently Playing"; at most 10 song fields; footer `Page p+1/total` |
| Music.NowPlayingOnlyFirst | musicbot/main.py:56-60 | some field is "Currently Playing" if and only if the page is 0 and a song is current |
| Music.EverySongOnItsPage | musicbot/main.py:29-61 | song k is shown on page k/10, which the view can reach, as `#k+1` |
| Music.Buttons | musicbot/main.py:40-45 | prev present iff page > 0, next present iff page < total−1, no duplicates |
| Music.QueueView.constructor | musicbot/main.py:23-38 | page 0, total pages `ceil(n/10)` (≥ 1 for a non-empty queue), no prev button, next button iff more than 10 songs |
| Music.QueueView.UpdateButtons | musicbot/main.py:40-45 | rebuilds the items to `Buttons` of the current page |
| Music.QueueView.PrevPage | musicbot/main.py:66-73 | a stranger is refused with nothing changed; page 0 changes nothing; otherwise one page back, buttons rebuilt and that page's embed sent |
| Music.QueueView.NextPage | musicbot/main.py:75-82 | a stranger is refused with nothing changed; the last page changes nothing; otherwise one page on, buttons rebuilt and that page's embed sent |
| Music.WalkStaysInRange | musicbot/main.py:66-82 | any run of owner presses keeps the page within 0..total−1 |
| Music.ReachablePageHasSongs | musicbot/main.py:29-55 | every page below the total lists at least one song |
| Music.HasAllowedRole | musicbot/main.py:128-132 | the booster role is required for playlists, the allowed role otherwise |
| Music.PlaylistFlagIsMoot | musicbot/main.py:19-20 | with both role ids set to 1 the playlist flag makes no difference |

## Left out

- Discord I/O: messages, embeds as UI, views and their timeouts, `fetch_user`, DMs, role, ban and timeout API calls, the `check_channel` channel gate.
- Every Discord call is assumed to succeed, so the record written after it is always written. In the code an exception aborts the handler first in these places:
  - Moderation.ModData.Ban and ModerationJs.JsModData.Ban: the DM is sent before the ban with no `try` (moderatorbot/main.py:118, moderatorbot/main.js:151). For a member who refuses DMs nothing is banned or recorded; the model records the ban.
  - Moderation.ModData.Mute: Discord refuses a timeout longer than 28 days at `member.edit` (moderatorbot/main.py:249). A total between 28 and 30 days passes `MuteMinutes`, and the model records it; the program records nothing.
  - Moderation.MuteMinutes: `timedelta(...)` (moderatorbot/main.py:238) raises OverflowError once the total reaches 10^9 days; the model returns `Err(TooLong)` there.
  - Moderation.ModData.StarReaction: `message.author.avatar.url` (moderatorbot/main.py:375) raises for an author without a custom avatar, after the id was added at line 371. The message stays starred and is never posted; the model states only the starred set.
- JSON storage: `load_users`/`save_users`, `load_data`/`save_data`, `loadUsers`/`saveUsers`. The stored data is an in-memory map; plain overwrites make no persistence guarantee.
- Scheduling and concurrency: `lootbox_loop`, `schedule_unbans`/`unban_user`, the JS `setTimeout` unbans, `MusicPlayer` and its queue callbacks. Interleaved handlers are not modelled; each handler runs to completion.
- Randomness and the clock are parameters. The Python clock is the event loop's seconds; the JS clock is `Date.now()` milliseconds.
- `slots` is nested inside `withdraw` (economybot/main.py:141) and is only registered once `withdraw` has run; it is modelled as a standalone operation, and the registration order is not.
- `jobs`, `bal` (Python), `notes`, `kick`, `purge`, `whois`, `membercount`, `create_blackjack_embed` and the embed texts carry no bookkeeping and are not part of this model.
- The JS `mute` (moderatorbot/main.js:274-305) is not part of this model: its bounds compare wall-clock instants read at two different moments.
- EconomyRules.TruncTenth: `int(b * 0.10)` is floating point; the model uses the exact tenth truncated toward zero. The two agree for every wallet of magnitude below 10^15: a multiple of 10 times 0.10 rounds to its exact tenth, and for any other wallet the product's rounding error there is far below the 0.1 that separates it from an integer.
- EconomyJs.FloorTenth: `Math.floor(balance * 0.10)` is floating point; the model uses the exact floor of b/10. The two agree for every wallet of magnitude below 10^15: a multiple of 10 times 0.10 rounds to its exact tenth, and for any other wallet the product's rounding error there is far below the 0.1 that separates it from an integer.
- Music.TotalPages: `math.ceil(len(songs) / 10)` is floating point; the model uses `(n + 9) / 10`.
- ModerationJs.JsModData.Ban: luxon `plus({ days })` adds calendar days in local time; the model adds 86400000 ms per day, which differs across a daylight-saving change. The ISO rendering of the time is not modelled.
- ModerationJs.JsModData.Ban: `duration` is a free string option (main.js:34 declares no command choices). For a text other than the four values, `unbanTime.toISO()` (main.js:166) throws after the member is banned; the model returns `Fail(UnbanTimeUndefined)` with nothing recorded, and the ban itself, a Discord call, is not modelled.
- EconomyRules.Capitalize: maps ASCII letters only. Python's `str.capitalize` title-cases the first code point and lower-cases the rest over all of Unicode ("éX" becomes "Éx"), and is not idempotent there ("ŉ" becomes "ʼN", then "ʼn"). The `setjob` lookup is unaffected: no text with a non-ASCII character capitalizes to one of the four job names.
- Moderation.ModData.Ban: the unban time is stored as Unix seconds instead of the `isoformat()` text; mutes likewise.
- Moderation.Report: states only the field lengths; the status meaning is stated by Moderation.StatusMeaning and Moderation.ModData.ServerStatusOf.
- Moderation.RecentText: does not state that the text is the last five entries before truncation, only its bound and the placeholder.
- ModerationJs.JsSplitWarning: the exact timestamp piece of a formatted warning is stated only for reasons without `|` (ModerationJs.JsSplitWithoutBar); for other reasons only its position between separators is stated.
- Stored warnings that were not written by `warn` (a hand-edited file without a separator, on which Python's unpacking raises) are not modelled: the stored lists are always the formatted issued warnings.
- Economy.BlackjackView.Hit: the Discord view timeout that would end a session unfinished is not modelled, so a session stays open until a bust or a stand.
- The Python lootbox button keeps accepting presses after it is disabled only to reject them; the model's `Lootbox.Claim` rejects them by `AdmitClaim` in the same way.
- EconomyJs.JsLootbox.Collect: the wallet credit is applied after the winner set and the button are updated. The two touch disjoint state and nothing runs between them, so the final state is the handler's.

## Findings

| source | as written | input that shows it | evidently intended | confidence | as-written member | corrected member |
|---|---|---|---|---|---|---|
| economybot/main.js:167 | `users = loadUsers();` stores the `undefined` that `loadUsers` returns, so the `users[userId]` read at 169 throws before any credit or `winners.add`; `users` stays undefined, so every later `coinflip`, `bal`, `baltop` and `rob` (lines 51, 75, 80, 105) throws too until a restart | a first press of Claim on any lootbox | reload the file into `users` (call `loadUsers()` for its side effect) and credit the claimer | high, not executed | EconomyJs.AsWrittenNobodyIsCredited | EconomyJs.JsLootbox.Collect |
| moderatorbot/main.js:446-449 | a starred message with an image attachment only gets the image set on its embed; nothing is sent, yet its id is already in `starredMessages` | a message with a .png attachment reaching 3 ⭐ | send the embed with the image set, as the other two branches send theirs | high, not executed | ModerationJs.ImageStarNeverSent | ModerationJs.StarboardIntended |
