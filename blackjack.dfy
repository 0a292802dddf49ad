/** Card values, the hand evaluator and the settlement rule of the Python economy bot's
    Blackjack game (economybot/main.py, `blackjack`). */
module Blackjack {

  /** One of the thirteen ranks '2'..'10', 'J', 'Q', 'K', 'A'. */
  datatype Card = Number(n: int) | Jack | Queen | King | Ace

  predicate ValidCard(c: Card) {
    c.Number? ==> 2 <= c.n <= 10
  }

  predicate ValidHand(hand: seq<Card>) {
    forall i :: 0 <= i < |hand| ==> ValidCard(hand[i])
  }

  /** The `card_values` table: face value, 10 for a face card, 11 for an ace. */
  function CardValue(c: Card): int {
    match c
    case Number(n) => n
    case Ace => 11
    case _ => 10
  }

  /** `sum(card_values[card] for card in hand)`. */
  function NaiveSum(hand: seq<Card>): int {
    if hand == [] then 0 else NaiveSum(hand[..|hand| - 1]) + CardValue(hand[|hand| - 1])
  }

  /** `hand.count('A')`. */
  function AceCount(hand: seq<Card>): nat {
    if hand == [] then 0 else AceCount(hand[..|hand| - 1]) + (if hand[|hand| - 1] == Ace then 1 else 0)
  }

  /** Counts one ace as 1 instead of 11 while the value is over 21 and aces remain. */
  function Reduce(value: int, aces: nat): int
    decreases aces
  {
    if value > 21 && aces > 0 then Reduce(value - 10, aces - 1) else value
  }

  function HandValue(hand: seq<Card>): int {
    Reduce(NaiveSum(hand), AceCount(hand))
  }

  /** The reduction subtracts a multiple of ten, at most ten per ace; the result is at
      most 21 unless every ace has been reduced; without aces nothing changes; and it
      only ever reduces a value above 21, so a reduced value stays above 11. */
  lemma {:induction false} ReduceBounds(value: int, aces: nat)
    ensures var r := Reduce(value, aces);
      && value - 10 * aces <= r <= value
      && (value - r) % 10 == 0
      && (r <= 21 || r == value - 10 * aces)
      && (aces == 0 ==> r == value)
      && (value <= 21 ==> r == value)
      && (r < value ==> r > 11)
  {
    if value > 21 && aces > 0 {
      ReduceBounds(value - 10, aces - 1);
    }
  }

  /** The soft-ace rule as properties of a whole hand. */
  lemma HandValueBounds(hand: seq<Card>)
    ensures var v := HandValue(hand);
      && NaiveSum(hand) - 10 * AceCount(hand) <= v <= NaiveSum(hand)
      && (v <= 21 || v == NaiveSum(hand) - 10 * AceCount(hand))
      && (AceCount(hand) == 0 ==> v == NaiveSum(hand))
  {
    ReduceBounds(NaiveSum(hand), AceCount(hand));
  }

  /** Every card counts at least 1 (an ace reduced to 1, anything else 2 or more). */
  lemma {:induction false} ValueAtLeastLength(hand: seq<Card>)
    requires ValidHand(hand)
    ensures HandValue(hand) >= |hand|
    ensures NaiveSum(hand) - 10 * AceCount(hand) >= |hand|
  {
    if hand != [] {
      var init := hand[..|hand| - 1];
      assert ValidHand(init) by {
        forall i | 0 <= i < |init| ensures ValidCard(init[i]) { assert init[i] == hand[i]; }
      }
      ValueAtLeastLength(init);
      assert ValidCard(hand[|hand| - 1]);
    }
    HandValueBounds(hand);
  }

  /** `calculate_hand`: sums the card values, counts the aces, then reduces. */
  method CalculateHand(hand: seq<Card>) returns (value: int)
    ensures value == HandValue(hand)
  {
    value := 0;
    var i := 0;
    while i < |hand|
      invariant 0 <= i <= |hand|
      invariant value == NaiveSum(hand[..i])
    {
      assert hand[..i + 1][..i] == hand[..i];
      value := value + CardValue(hand[i]);
      i := i + 1;
    }
    var numAces := 0;
    i := 0;
    while i < |hand|
      invariant 0 <= i <= |hand|
      invariant numAces == AceCount(hand[..i])
    {
      assert hand[..i + 1][..i] == hand[..i];
      if hand[i] == Ace {
        numAces := numAces + 1;
      }
      i := i + 1;
    }
    assert hand[..|hand|] == hand;
    while value > 21 && numAces > 0
      invariant Reduce(value, numAces) == HandValue(hand)
    {
      value := value - 10;
      numAces := numAces - 1;
    }
  }

  // ---------------------------------------------------------------------------
  // Settlement

  /** `player_won` of end_game: True, False or None. */
  datatype Settlement = PlayerWins | DealerWins | Push

  /** The comparison after the dealer has drawn. */
  function StandSettlement(player: int, dealer: int): (s: Settlement)
    ensures s == PlayerWins <==> dealer > 21 || player > dealer
    ensures s == DealerWins <==> dealer <= 21 && player < dealer
    ensures s == Push <==> dealer <= 21 && player == dealer
  {
    if dealer > 21 || player > dealer then PlayerWins
    else if player < dealer then DealerWins
    else Push
  }

  /** `hand` is `start` followed by `draws(0)`, `draws(1)`, ..., each drawn while the
      dealer's hand was worth less than 17. */
  predicate DealerDrew(start: seq<Card>, hand: seq<Card>, draws: nat -> Card) {
    && |start| <= |hand|
    && hand[..|start|] == start
    && (forall j :: |start| <= j < |hand| ==> hand[j] == draws(j - |start|))
    && (forall j :: |start| <= j < |hand| ==> HandValue(hand[..j]) < 17)
  }

  /** One more draw under 17 keeps `DealerDrew`. */
  lemma DealerDrewStep(start: seq<Card>, hand: seq<Card>, draws: nat -> Card)
    requires DealerDrew(start, hand, draws) && HandValue(hand) < 17
    ensures DealerDrew(start, hand + [draws(|hand| - |start|)], draws)
  {
    var next := hand + [draws(|hand| - |start|)];
    assert next[..|hand|] == hand;
    assert next[..|start|] == hand[..|start|];
    forall j | |start| <= j < |next|
      ensures HandValue(next[..j]) < 17
    {
      if j < |hand| {
        assert next[..j] == hand[..j];
      }
    }
  }

  /** The wallet change end_game applies. */
  function Winnings(s: Settlement, bet: int): (w: int)
    ensures bet > 0 ==> (w > 0 <==> s == PlayerWins) && (w < 0 <==> s == DealerWins) && (w == 0 <==> s == Push)
    ensures w == bet || w == -bet || w == 0
  {
    match s
    case PlayerWins => bet
    case DealerWins => -bet
    case Push => 0
  }

  /** Drawing a king on 10 + 9 busts at 29. */
  lemma HitOnNineteenBusts()
    ensures HandValue([Number(10), Number(9), King]) == 29
  {
    assert [Number(10), Number(9), King][..2] == [Number(10), Number(9)];
    assert [Number(10), Number(9)][..1] == [Number(10)];
    assert [Number(10)][..0] == [];
  }

  /** A player standing on 10 + 9 against a dealer who reaches 10 + 10 loses the bet. */
  lemma StandOnNineteenAgainstTwenty(bet: int)
    ensures HandValue([Number(10), Number(9)]) == 19
    ensures HandValue([Number(10), King]) == 20
    ensures Winnings(StandSettlement(19, 20), bet) == -bet
  {
    assert [Number(10), Number(9)][..1] == [Number(10)];
    assert [Number(10), King][..1] == [Number(10)];
    assert [Number(10)][..0] == [];
    assert NaiveSum([Number(10)]) == 10 && AceCount([Number(10)]) == 0;
  }
}
