/** The navbar's links: the label shown for each link, and whether a link is
    drawn highlighted for the section the scroll spy chose. */
module NavBar {

  import opened ScrollSpy

  /** `toUpperCase` on one character, for the ASCII letters the items use. */
  function Upper(c: char): char
  {
    if 'a' <= c <= 'z' then (c as int - 32) as char else c
  }

  /** `s.split(sep)`: the pieces between separators, in order; never empty
      (the empty string splits into one empty piece). */
  function Split(s: string, sep: char): (r: seq<string>)
    ensures |r| >= 1
  {
    if s == [] then [[]]
    else
      var rest := Split(s[1..], sep);
      if s[0] == sep then [[]] + rest else [[s[0]] + rest[0]] + rest[1..]
  }

  /** `parts.join(sep)`. */
  function Join(parts: seq<string>, sep: char): string
  {
    if parts == [] then []
    else if |parts| == 1 then parts[0]
    else parts[0] + [sep] + Join(parts[1..], sep)
  }

  /** `s` does not hold the character `c`. */
  predicate Lacks(s: string, c: char)
  {
    forall i :: 0 <= i < |s| ==> s[i] != c
  }

  /** No piece of a split holds the separator. */
  lemma {:induction false} SplitPiecesLackSep(s: string, sep: char)
    ensures forall k :: 0 <= k < |Split(s, sep)| ==> Lacks(Split(s, sep)[k], sep)
  {
    if s != [] {
      SplitPiecesLackSep(s[1..], sep);
      var rest := Split(s[1..], sep);
      if s[0] != sep {
        assert Lacks([s[0]] + rest[0], sep);
      }
    }
  }

  /** Splitting and joining back with the same separator gives the original
      string; with `SplitPiecesLackSep` this pins the pieces down. */
  lemma {:induction false} JoinSplit(s: string, sep: char)
    ensures Join(Split(s, sep), sep) == s
  {
    if s != [] {
      JoinSplit(s[1..], sep);
      var rest := Split(s[1..], sep);
      if s[0] != sep {
        JoinHead([s[0]], rest, sep);
      }
    }
  }

  /** Joining with a prefix on the first piece prefixes the result. */
  lemma JoinHead(prefix: string, parts: seq<string>, sep: char)
    requires |parts| >= 1
    ensures Join([prefix + parts[0]] + parts[1..], sep) == prefix + Join(parts, sep)
  {
    if |parts| > 1 {
      assert ([prefix + parts[0]] + parts[1..])[1..] == parts[1..];
    }
  }

  /** `word.charAt(0).toUpperCase() + word.slice(1)`. */
  function Capitalize(word: string): string
  {
    if word == [] then [] else [Upper(word[0])] + word[1..]
  }

  function CapitalizeAll(words: seq<string>): (r: seq<string>)
    ensures |r| == |words|
  {
    if words == [] then [] else [Capitalize(words[0])] + CapitalizeAll(words[1..])
  }

  /** The text shown for a link: split on `-`, capitalise each piece, join
      with spaces. */
  function Label(item: string): string
  {
    Join(CapitalizeAll(Split(item, '-')), ' ')
  }

  /** The same text produced character by character: a `-` becomes a space,
      a character at the start or just after a `-` is upper-cased, every other
      character is kept. `atStart` says whether the previous character ended
      a piece. */
  function Relabel(s: string, atStart: bool): (r: string)
    ensures |r| == |s|
  {
    if s == [] then []
    else if s[0] == '-' then [' '] + Relabel(s[1..], true)
    else [if atStart then Upper(s[0]) else s[0]] + Relabel(s[1..], false)
  }

  /** The label pipeline equals the character-by-character rule; `capFirst`
      says whether the first piece is capitalised too. */
  lemma {:induction false} LabelPipelineIsRelabel(s: string, capFirst: bool)
    ensures var pieces := Split(s, '-');
            Join([if capFirst then Capitalize(pieces[0]) else pieces[0]] + CapitalizeAll(pieces[1..]), ' ')
            == Relabel(s, capFirst)
  {
    if s != [] {
      var rest := Split(s[1..], '-');
      LabelPipelineIsRelabel(s[1..], s[0] == '-');
      if s[0] == '-' {
        assert Split(s, '-') == [[]] + rest;
        assert CapitalizeAll(rest) == [Capitalize(rest[0])] + CapitalizeAll(rest[1..]);
      } else {
        var c := if capFirst then Upper(s[0]) else s[0];
        var first := [s[0]] + rest[0];
        assert Split(s, '-') == [first] + rest[1..];
        assert (if capFirst then Capitalize(first) else first) == [c] + rest[0];
        JoinHead([c], [rest[0]] + CapitalizeAll(rest[1..]), ' ');
        assert ([rest[0]] + CapitalizeAll(rest[1..]))[1..] == CapitalizeAll(rest[1..]);
      }
    }
  }

  lemma LabelIsRelabel(item: string)
    ensures Label(item) == Relabel(item, true)
  {
    LabelPipelineIsRelabel(item, true);
    var pieces := Split(item, '-');
    assert CapitalizeAll(pieces) == [Capitalize(pieces[0])] + CapitalizeAll(pieces[1..]);
  }

  lemma {:induction false} RelabelAt(s: string, atStart: bool, i: nat)
    requires i < |s|
    ensures Relabel(s, atStart)[i] ==
              if s[i] == '-' then ' '
              else if (i == 0 && atStart) || (i > 0 && s[i - 1] == '-') then Upper(s[i])
              else s[i]
  {
    if i > 0 {
      RelabelAt(s[1..], s[0] == '-', i - 1);
    }
  }

  /** The label has the item's length; each `-` shows as a space, the first
      character and every character after a `-` is upper-cased, the rest is
      unchanged. */
  lemma LabelAt(item: string, i: nat)
    requires i < |item|
    ensures |Label(item)| == |item|
    ensures Label(item)[i] ==
              if item[i] == '-' then ' '
              else if i == 0 || item[i - 1] == '-' then Upper(item[i])
              else item[i]
  {
    LabelIsRelabel(item);
    RelabelAt(item, true, i);
  }

  /** The labels of the links. Only `-` separates pieces, so "contact us"
      keeps its lower-case "us". */
  lemma TestIqLabel(item: string)
    requires item == "test-iq"
    ensures Label(item) == "Test Iq"
  {
    var first, second := "test", "iq";
    assert item == first + "-" + second;
    assert Lacks(first, '-') && Lacks(second, '-');
    LabelIsRelabel(item);
    RelabelAcrossDash(first, second, true);
    RelabelPiece(first);
    RelabelPiece(second);
  }

  /** A `-` after a piece becomes a space and starts a new piece. */
  lemma {:induction false} RelabelAcrossDash(a: string, b: string, atStart: bool)
    requires Lacks(a, '-')
    ensures Relabel(a + "-" + b, atStart) == Relabel(a, atStart) + " " + Relabel(b, true)
  {
    if a != [] {
      assert (a + "-" + b)[1..] == a[1..] + "-" + b;
      RelabelAcrossDash(a[1..], b, false);
    }
  }

  /** Stated, like `TestIqLabel`, of a variable equal to the literal rather
      than of the literal itself: on a literal argument the verifier unfolds `Split`, `Join` and
      `Relabel` all the way down, which costs far more than this proof. */
  lemma ContactUsLabel(item: string)
    requires item == "contact us"
    ensures Label(item) == "Contact us"
  {
    assert Lacks(item, '-');
    LabelWithoutDash(item);
  }

  /** Inside a piece (no `-`, not at its start) nothing changes. */
  lemma {:induction false} RelabelWithoutDash(s: string)
    requires Lacks(s, '-')
    ensures Relabel(s, false) == s
  {
    if s != [] {
      RelabelWithoutDash(s[1..]);
    }
  }

  /** An item without `-` is shown capitalised: "know more" as "Know more". */
  lemma LabelWithoutDash(item: string)
    requires Lacks(item, '-')
    ensures Label(item) == Capitalize(item)
  {
    LabelIsRelabel(item);
    RelabelPiece(item);
  }

  /** A whole item without `-` is just capitalised. */
  lemma RelabelPiece(s: string)
    requires Lacks(s, '-')
    ensures Relabel(s, true) == Capitalize(s)
  {
    if s != [] {
      RelabelWithoutDash(s[1..]);
    }
  }

  /** `s.replace("-", "")`: removes the first `-` only. */
  function RemoveFirstDash(s: string): (r: string)
  {
    if s == [] then []
    else if s[0] == '-' then s[1..]
    else [s[0]] + RemoveFirstDash(s[1..])
  }

  /** The highlight test as written: the link item with its first `-` removed
      equals the key of the active section. */
  function HighlightedAsWritten(item: string, active: Section): bool
  {
    RemoveFirstDash(item) == Key(active)
  }

  /** The "Test Iq" link is never highlighted: its item becomes "testiq",
      while the section's key is "testIq". */
  lemma TestIqNeverHighlighted(active: Section)
    ensures !HighlightedAsWritten("test-iq", active)
  {
    assert RemoveFirstDash("test-iq") == "testiq";
    assert "testiq"[4] != "testIq"[4];
  }

  /** The element id each section carries, which is also its link item. */
  function ElementId(s: Section): string
  {
    match s
    case Home => "home"
    case Learn => "learn"
    case Earn => "earn"
    case Give => "give"
    case About => "about"
    case TestIq => "test-iq"
  }

  /** Highlighting as intended: a link is highlighted when it names the
      active section's element. */
  function Highlighted(item: string, active: Section): bool
  {
    item == ElementId(active)
  }

  /** Different sections have different element ids (their first letters
      already differ). */
  lemma ElementIdInjective(s: Section, t: Section)
    requires ElementId(s) == ElementId(t)
    ensures s == t
  {
    assert ElementId(s)[0] == ElementId(t)[0];
  }

  /** With the intended test every link that names a section is highlighted
      exactly while that section is active, "Test Iq" included; for the other
      linked sections it agrees with the test as written. */
  lemma HighlightedSpec(active: Section)
    ensures Highlighted("test-iq", active) <==> active == TestIq
    ensures forall s: Section :: Highlighted(ElementId(s), active) <==> s == active
    ensures Highlighted("home", active) == HighlightedAsWritten("home", active)
    ensures Highlighted("learn", active) == HighlightedAsWritten("learn", active)
    ensures Highlighted("about", active) == HighlightedAsWritten("about", active)
  {
    forall s: Section ensures Highlighted(ElementId(s), active) <==> s == active {
      if Highlighted(ElementId(s), active) {
        ElementIdInjective(s, active);
      }
    }
    assert "test-iq" == ElementId(TestIq);
    RemoveFirstDashWithout("home");
    RemoveFirstDashWithout("learn");
    RemoveFirstDashWithout("about");
  }

  /** An item without `-` is left as it is by the removal. */
  lemma {:induction false} RemoveFirstDashWithout(s: string)
    requires Lacks(s, '-')
    ensures RemoveFirstDash(s) == s
  {
    if s != [] {
      RemoveFirstDashWithout(s[1..]);
    }
  }
}
