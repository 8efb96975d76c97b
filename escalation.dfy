/** The escalation controller: everything the question card shows is a
    function of how many times the No button has dodged (`attempts`). */
module Escalation {
  import opened Option

  /** Subheading texts, highest threshold first. */
  const Subheadings: seq<(int, string)> := [
    (12, "THE BUTTON HAS SPOKEN. YES. 👑✨"),
    (10, "Resistance is futile 💫"),
    (9, "JUST. SAY. YES. 🔥"),
    (7, "Just say yes already! 💕"),
    (5, "Pretty pleeeease? 🥺"),
    (3, "I'll be really sad if you say no... 😢"),
    (1, "Come on, it'll be great! 😊"),
    (0, "I promise it'll be fun! 🥰")
  ]

  /** Labels of the No button, one per attempt, the last one repeated forever. */
  const NoTexts: seq<string> := [
    "No",
    "No 😅",
    "Are you sure?",
    "Really sure??",
    "Stop it! 😩",
    "Think again!",
    "Last chance!",
    "You can't 😤",
    "Nope! ...wait",
    "I give up 🏳️",
    "Fine... yes? 👀",
    "...",
    "💀"
  ]

  /** After this many dodges the No button gives in. */
  const SurrenderAt: nat := 10

  predicate Descending(table: seq<(int, string)>) {
    forall i, j :: 0 <= i < j < |table| ==> table[i].0 > table[j].0
  }

  /** The text of the first row, in table order, whose threshold is at most
      `attempts`; None when no row qualifies. */
  function FirstAtOrBelow(table: seq<(int, string)>, attempts: int): Option<string> {
    if table == [] then None
    else if attempts >= table[0].0 then Some(table[0].1)
    else FirstAtOrBelow(table[1..], attempts)
  }

  /** Whatever the search finds is the text of a row that qualifies. */
  lemma {:induction false} FirstAtOrBelowFromTable(table: seq<(int, string)>, attempts: int)
    ensures FirstAtOrBelow(table, attempts).Some? ==>
              exists k :: 0 <= k < |table| && table[k].0 <= attempts && FirstAtOrBelow(table, attempts).value == table[k].1
  {
    if table != [] && attempts < table[0].0 {
      FirstAtOrBelowFromTable(table[1..], attempts);
      if FirstAtOrBelow(table[1..], attempts).Some? {
        var j :| 0 <= j < |table[1..]| && table[1..][j].0 <= attempts
                 && FirstAtOrBelow(table[1..], attempts).value == table[1..][j].1;
        assert table[j + 1] == table[1..][j];
      }
    }
  }

  /** The search finds row `k` exactly when `k` is the first row that qualifies. */
  lemma {:induction false} FirstAtOrBelowFindsFirst(table: seq<(int, string)>, attempts: int, k: nat)
    requires k < |table| && table[k].0 <= attempts
    requires forall j :: 0 <= j < k ==> table[j].0 > attempts
    ensures FirstAtOrBelow(table, attempts) == Some(table[k].1)
  {
    if k > 0 {
      assert table[0].0 > attempts;
      forall j | 0 <= j < k - 1 ensures table[1..][j].0 > attempts {
        assert table[1..][j] == table[j + 1];
      }
      FirstAtOrBelowFindsFirst(table[1..], attempts, k - 1);
    }
  }

  /** The search comes up empty exactly when no row qualifies. */
  lemma {:induction false} FirstAtOrBelowNone(table: seq<(int, string)>, attempts: int)
    ensures FirstAtOrBelow(table, attempts).None? <==> forall j :: 0 <= j < |table| ==> table[j].0 > attempts
  {
    if table != [] {
      FirstAtOrBelowNone(table[1..], attempts);
      if attempts < table[0].0 {
        forall j | 0 <= j < |table[1..]| ensures table[1..][j] == table[j + 1] { }
      }
    }
  }

  /** Row `k` qualifies and no qualifying row has a higher threshold. */
  predicate HighestAtOrBelow(table: seq<(int, string)>, attempts: int, k: nat) {
    k < |table| && table[k].0 <= attempts
    && forall j :: 0 <= j < |table| && table[j].0 <= attempts ==> table[j].0 <= table[k].0
  }

  /** In a table sorted by descending threshold the first qualifying row is
      the one with the highest threshold that does not exceed `attempts`. */
  lemma HighestThresholdWins(table: seq<(int, string)>, attempts: int, k: nat)
    requires Descending(table)
    requires HighestAtOrBelow(table, attempts, k)
    ensures FirstAtOrBelow(table, attempts) == Some(table[k].1)
  {
    forall j | 0 <= j < k ensures table[j].0 > attempts {
      assert table[j].0 > table[k].0;
    }
    FirstAtOrBelowFindsFirst(table, attempts, k);
  }

  /** The subheading under the question for a given attempt count. */
  function GetSubheading(attempts: int): (r: string)
    ensures exists k :: 0 <= k < |Subheadings| && r == Subheadings[k].1
  {
    FirstAtOrBelowFromTable(Subheadings, attempts);
    match FirstAtOrBelow(Subheadings, attempts)
    case Some(text) => text
    case None => Subheadings[|Subheadings| - 1].1
  }

  /** For every attempt count the subheading is the text of the highest
      threshold not above it; a count exactly at a threshold picks that
      threshold's own text. */
  lemma SubheadingIsHighestThreshold(attempts: nat)
    ensures exists k: nat :: HighestAtOrBelow(Subheadings, attempts, k) && GetSubheading(attempts) == Subheadings[k].1
  {
    var k: nat := if attempts >= 12 then 0 else if attempts >= 10 then 1 else if attempts >= 9 then 2
      else if attempts >= 7 then 3 else if attempts >= 5 then 4 else if attempts >= 3 then 5
      else if attempts >= 1 then 6 else 7;
    assert Descending(Subheadings);
    assert HighestAtOrBelow(Subheadings, attempts, k) by {
      forall j | 0 <= j < |Subheadings| && Subheadings[j].0 <= attempts
        ensures Subheadings[j].0 <= Subheadings[k].0
      {
      }
    }
    HighestThresholdWins(Subheadings, attempts, k);
    assert GetSubheading(attempts) == Subheadings[k].1;
  }

  /** The fallback after the loop is never taken for a count that can occur,
      because the last threshold is 0. */
  lemma SubheadingFallbackUnreachable(attempts: nat)
    ensures FirstAtOrBelow(Subheadings, attempts).Some?
  {
    FirstAtOrBelowNone(Subheadings, attempts);
    assert Subheadings[7].0 <= attempts;
  }

  lemma SubheadingExamples(attempts: nat)
    ensures GetSubheading(0) == "I promise it'll be fun! 🥰"
    ensures GetSubheading(3) == "I'll be really sad if you say no... 😢"
    ensures attempts >= 12 ==> GetSubheading(attempts) == "THE BUTTON HAS SPOKEN. YES. 👑✨"
  {
    FirstAtOrBelowFindsFirst(Subheadings, 0, 7);
    assert GetSubheading(0) == Subheadings[7].1;
    FirstAtOrBelowFindsFirst(Subheadings, 3, 5);
    assert GetSubheading(3) == Subheadings[5].1;
    if attempts >= 12 {
      FirstAtOrBelowFindsFirst(Subheadings, attempts, 0);
      assert GetSubheading(attempts) == Subheadings[0].1;
    }
  }

  /** The No button's label: the entry for this attempt, clamped to the last. */
  function GetNoText(attempts: nat): (r: string)
    ensures attempts < |NoTexts| ==> r == NoTexts[attempts]
    ensures attempts >= |NoTexts| - 1 ==> r == NoTexts[|NoTexts| - 1] == "💀"
  {
    NoTexts[if attempts < |NoTexts| - 1 then attempts else |NoTexts| - 1]
  }

  // The Yes button grows without a cap.

  function YesScale(attempts: nat): (r: real)
    ensures r >= 1.0
  {
    1.0 + attempts as real * 0.18
  }

  function YesPadding(attempts: nat): (r: nat)
    ensures r >= 16
  {
    16 + attempts * 3
  }

  function YesFontSize(attempts: nat): (r: nat)
    ensures r >= 18
  {
    18 + attempts * 2
  }

  /** Each dodge adds 0.18 to the scale, 3px of padding and 2px of font, and
      no attempt count is large enough to stop the growth. */
  lemma YesGrowsWithoutCap(attempts: nat)
    ensures YesScale(attempts + 1) == YesScale(attempts) + 0.18
    ensures YesPadding(attempts + 1) == YesPadding(attempts) + 3
    ensures YesFontSize(attempts + 1) == YesFontSize(attempts) + 2
    ensures YesScale(attempts) >= 1.0 && YesPadding(attempts) >= 16 && YesFontSize(attempts) >= 18
  {
  }

  // The No button shrinks and fades, each value floor-clamped.

  function NoScale(attempts: nat): (r: real)
    ensures 0.35 <= r <= 1.0
    ensures attempts <= 9 ==> r == 1.0 - attempts as real * 0.07
    ensures attempts >= 10 ==> r == 0.35
  {
    var linear := 1.0 - attempts as real * 0.07;
    if linear > 0.35 then linear else 0.35
  }

  function NoOpacity(attempts: nat): (r: real)
    ensures 0.25 <= r <= 1.0
    ensures attempts <= 9 ==> r == 1.0 - attempts as real * 0.08
    ensures attempts >= 10 ==> r == 0.25
  {
    var linear := 1.0 - attempts as real * 0.08;
    if linear > 0.25 then linear else 0.25
  }

  function NoFontSize(attempts: nat): (r: real)
    ensures 10.0 <= r <= 18.0
    ensures attempts <= 10 ==> r == 18.0 - attempts as real * 0.8
    ensures attempts >= 10 ==> r == 10.0
  {
    var linear := 18.0 - attempts as real * 0.8;
    if linear > 10.0 then linear else 10.0
  }

  /** More dodges never make the No button bigger, more opaque or larger-lettered. */
  lemma NoButtonNeverGrows(a: nat, b: nat)
    requires a <= b
    ensures NoScale(b) <= NoScale(a) && NoOpacity(b) <= NoOpacity(a) && NoFontSize(b) <= NoFontSize(a)
  {
  }

  /** The presentation tier of the Yes button: 0 plain, 1 glow, 2 pulse,
      3 shimmer, 4 rainbow. */
  function YesTier(attempts: nat): (t: nat)
    ensures t <= 4
    ensures (attempts >= 2) == (t >= 1) && (attempts >= 4) == (t >= 2)
    ensures (attempts >= 7) == (t >= 3) && (attempts >= 10) == (t == 4)
  {
    if attempts >= 10 then 4
    else if attempts >= 7 then 3
    else if attempts >= 4 then 2
    else if attempts >= 2 then 1
    else 0
  }

  /** The Yes button's classes: the base class, and from two attempts on
      the class of its tier. */
  function YesClassName(attempts: nat): (c: string)
    ensures |c| >= 7 && c[..7] == "yes-btn"
    ensures c == "yes-btn" <==> attempts < 2
  {
    "yes-btn" + [
      "",
      " yes-btn-glow",
      " yes-btn-pulse",
      " yes-btn-shimmer",
      " yes-btn-rainbow"
    ][YesTier(attempts)]
  }

  /** The Yes button's label: louder from 4, 7 and 10 attempts on. */
  function GetYesText(attempts: nat): (t: string)
    ensures t == "Yes! 💖" <==> attempts < 4
    ensures t == "YES!!! 💖🔥💖" <==> attempts >= 10
  {
    if attempts >= 10 then "YES!!! 💖🔥💖"
    else if attempts >= 7 then "YES!! 💖✨"
    else if attempts >= 4 then "YES! 💖"
    else "Yes! 💖"
  }

  /** The Yes button's class changes from one attempt to the next exactly at
      the band edges 2, 4, 7 and 10. */
  lemma YesClassChangesOnlyAtBands(attempts: nat)
    ensures YesClassName(attempts) != YesClassName(attempts + 1)
        <==> attempts + 1 == 2 || attempts + 1 == 4 || attempts + 1 == 7 || attempts + 1 == 10
  {
    var a, b := YesClassName(attempts), YesClassName(attempts + 1);
    if attempts + 1 == 2 { assert |a| != |b|; }
    if attempts + 1 == 4 { assert |a| != |b|; }
    if attempts + 1 == 7 { assert |a| != |b|; }
    if attempts + 1 == 10 { assert a[16] != b[16]; }
  }

  /** The Yes button's text changes exactly at 4, 7 and 10. */
  lemma YesTextChangesOnlyAtBands(attempts: nat)
    ensures GetYesText(attempts) != GetYesText(attempts + 1)
        <==> attempts + 1 == 4 || attempts + 1 == 7 || attempts + 1 == 10
  {
    var a, b := GetYesText(attempts), GetYesText(attempts + 1);
    if attempts + 1 == 4 { assert a[1] != b[1]; }
    if attempts + 1 == 7 || attempts + 1 == 10 { assert |a| != |b|; }
  }

  /** What the No button's touch handler does. */
  datatype TouchAction = Dodge | Accept

  /** Everything about the No button the escalation decides: its text, class,
      size and opacity, and what hovering, clicking and touching do. */
  datatype NoButtonView = NoButtonView(
    text: string,
    className: string,
    scale: real,
    opacity: real,
    fontSize: real,
    hoverDodges: bool,
    clickAccepts: bool,
    touch: TouchAction)

  /** The No button. Before the first dodge it sits in the card (`placed` is
      false); afterwards it is fixed-positioned and, from the tenth dodge on,
      surrenders: it reads "Fine... Yes! 💖" and accepts instead of dodging. */
  function NoButton(attempts: nat, placed: bool): (v: NoButtonView)
    ensures !placed ==> v.text == "No" && v.hoverDodges && !v.clickAccepts && v.touch == Dodge
    ensures placed ==> (v.hoverDodges <==> attempts < SurrenderAt)
    ensures placed ==> (v.clickAccepts <==> attempts >= SurrenderAt)
    ensures placed ==> (v.touch == Accept <==> attempts >= SurrenderAt)
    ensures placed && attempts >= SurrenderAt ==>
              v.text == "Fine... Yes! 💖" && v.className == "no-btn no-btn-surrender"
              && v.scale == 1.0 && v.opacity == 1.0 && v.fontSize == 18.0
    ensures placed && attempts < SurrenderAt ==>
              v.text == NoTexts[attempts] && v.scale == NoScale(attempts) && v.opacity == NoOpacity(attempts)
              && v.fontSize == NoFontSize(attempts)
    ensures placed && attempts < 8 ==> v.className == "no-btn"
    ensures placed ==> (v.className == "no-btn no-btn-glitch" <==> 8 <= attempts < SurrenderAt)
  {
    if !placed then
      // the in-card button sets no inline style; its scale, opacity and
      // font size come from the style sheet, so 1.0, 1.0 and 18.0 here are
      // placeholders that no contract states
      NoButtonView("No", "no-btn", 1.0, 1.0, 18.0, true, false, Dodge)
    else if attempts >= SurrenderAt then
      NoButtonView("Fine... Yes! 💖", "no-btn no-btn-surrender", 1.0, 1.0, 18.0, false, true, Accept)
    else
      NoButtonView(GetNoText(attempts), if attempts >= 8 then "no-btn no-btn-glitch" else "no-btn",
                   NoScale(attempts), NoOpacity(attempts), NoFontSize(attempts), true, false, Dodge)
  }
}
