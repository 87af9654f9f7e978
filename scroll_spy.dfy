/** The navbar's scroll handler: the navbar darkens once the page has scrolled
    more than 10 pixels, and the highlighted section is the first one, in
    declaration order, whose box straddles the line 100 pixels below the top
    of the viewport. */
module ScrollSpy {

  import opened Wrappers

  datatype Section = Home | Learn | Earn | Give | About | TestIq

  /** The order of the `sectionRefs` entries, which is the order searched. */
  const Order: seq<Section> := [Home, Learn, Earn, Give, About, TestIq]

  /** The key of each entry in `sectionRefs`, which becomes `activeSection`. */
  function Key(s: Section): string
  {
    match s
    case Home => "home"
    case Learn => "learn"
    case Earn => "earn"
    case Give => "give"
    case About => "about"
    case TestIq => "testIq"
  }

  /** A section's bounding box, as `getBoundingClientRect` reports it. */
  datatype Rect = Rect(top: real, bottom: real)

  const SpyLine: real := 100.0
  const ScrolledThreshold: real := 10.0

  predicate Straddles(r: Rect)
  {
    r.top <= SpyLine && r.bottom >= SpyLine
  }

  /** A section counts only when its ref is attached (it has a box). */
  predicate Hit(rects: map<Section, Rect>, s: Section)
  {
    s in rects && Straddles(rects[s])
  }

  /** The position in `order` of the first section hit, as `Array.find`
      scans it. */
  function FirstHit(order: seq<Section>, rects: map<Section, Rect>): (r: Option<nat>)
    ensures r.Some? ==> r.value < |order| && Hit(rects, order[r.value])
    ensures r.Some? ==> forall j :: 0 <= j < r.value ==> !Hit(rects, order[j])
    ensures r.None? ==> forall j :: 0 <= j < |order| ==> !Hit(rects, order[j])
  {
    if order == [] then None
    else if Hit(rects, order[0]) then Some(0)
    else
      match FirstHit(order[1..], rects)
      case None => None
      case Some(k) => Some(k + 1)
  }

  /** `activeSection` after a scroll event: the first section hit, or the
      previous value when there is none. */
  function ActiveAfterScroll(active: Section, rects: map<Section, Rect>): Section
  {
    match FirstHit(Order, rects)
    case Some(i) => Order[i]
    case None => active
  }

  /** Position of a section in `Order`. */
  function Rank(s: Section): (r: nat)
    ensures r < |Order| && Order[r] == s
  {
    match s
    case Home => 0
    case Learn => 1
    case Earn => 2
    case Give => 3
    case About => 4
    case TestIq => 5
  }

  /** When some section straddles the line, the chosen one does and every
      section declared before it does not; when none does, the highlighted
      section stays what it was. */
  lemma ActiveAfterScrollSpec(active: Section, rects: map<Section, Rect>)
    ensures (exists s :: Hit(rects, s)) ==>
              var a := ActiveAfterScroll(active, rects);
              Hit(rects, a) && forall s :: Rank(s) < Rank(a) ==> !Hit(rects, s)
    ensures (forall s :: !Hit(rects, s)) ==> ActiveAfterScroll(active, rects) == active
  {
    match FirstHit(Order, rects)
    case None =>
      forall s ensures !Hit(rects, s) {
        assert Order[Rank(s)] == s;
      }
    case Some(i) =>
      var a := Order[i];
      assert Rank(a) == i by {
        assert Order[Rank(a)] == a;
      }
      forall s | Rank(s) < Rank(a) ensures !Hit(rects, s) {
        assert Order[Rank(s)] == s;
      }
  }

  /** Both the home and the learn box cross the line (the boundary between
      them sits exactly on it): home, declared first, wins. */
  lemma EarlierSectionWins(active: Section)
    ensures ActiveAfterScroll(active, map[Home := Rect(-500.0, 100.0), Learn := Rect(100.0, 900.0)]) == Home
  {
  }

  /** Sections whose refs are not attached are skipped. */
  lemma DetachedSectionSkipped(active: Section)
    ensures ActiveAfterScroll(active, map[About := Rect(0.0, 400.0)]) == About
  {
  }
}
