/** The three flip cards (Learning, Earning, Giving): clicking a card turns
    every other card face-down and flips the clicked one. */
module FlipCards {

  import opened Wrappers

  datatype Card = Card1 | Card2 | Card3

  /** The `flippedCards` record: one face-up flag per card. */
  datatype Flips = Flips(card1: bool, card2: bool, card3: bool)

  const AllClosed: Flips := Flips(false, false, false)

  function IsFlipped(f: Flips, c: Card): bool
  {
    match c
    case Card1 => f.card1
    case Card2 => f.card2
    case Card3 => f.card3
  }

  predicate AtMostOne(f: Flips)
  {
    forall c: Card, d: Card :: IsFlipped(f, c) && IsFlipped(f, d) ==> c == d
  }

  /** `toggleCard`: all three flags false, then the clicked card set to the
      negation of what it was. */
  function Toggle(f: Flips, c: Card): (r: Flips)
    ensures IsFlipped(r, c) == !IsFlipped(f, c)
    ensures forall d: Card :: d != c ==> !IsFlipped(r, d)
    ensures AtMostOne(r)
  {
    var wasFlipped := IsFlipped(f, c);
    match c
    case Card1 => Flips(!wasFlipped, false, false)
    case Card2 => Flips(false, !wasFlipped, false)
    case Card3 => Flips(false, false, !wasFlipped)
  }

  /** Clicking the same card twice from the all-closed page closes it again. */
  lemma ToggleTwiceFromClosed(c: Card)
    ensures Toggle(Toggle(AllClosed, c), c) == AllClosed
  {
  }

  /** The face-up card, if any. */
  function Selected(f: Flips): Option<Card>
  {
    if f.card1 then Some(Card1) else if f.card2 then Some(Card2) else if f.card3 then Some(Card3) else None
  }

  /** The same rule stated on a single optional "selected card": clicking the
      selected card deselects it, clicking another selects that one. */
  function Select(selected: Option<Card>, c: Card): Option<Card>
  {
    if selected == Some(c) then None else Some(c)
  }

  /** The three-flag record and the single optional selection behave alike:
      while at most one card is up, toggling a card moves the selection as
      `Select` says. */
  lemma ToggleIsSelect(f: Flips, c: Card)
    requires AtMostOne(f)
    ensures Selected(Toggle(f, c)) == Select(Selected(f), c)
  {
    var r := Toggle(f, c);
    if IsFlipped(f, c) {
      assert Selected(f) == Some(c) by {
        forall d: Card | d != c ensures !IsFlipped(f, d) {
          assert IsFlipped(f, c) && IsFlipped(f, d) ==> c == d;
        }
        assert !IsFlipped(f, Card1) || c == Card1;
        assert !IsFlipped(f, Card2) || c == Card2;
      }
    } else {
      assert Selected(f) != Some(c) by {
        if Selected(f).Some? { assert IsFlipped(f, Selected(f).value); }
      }
    }
  }
}
