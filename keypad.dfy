/**
 * The on-screen keypad of the code-entry page (static/js/main.js): each click
 * on a keypad key rewrites the value of the code input field.
 */
module Keypad {
  import opened Wrappers

  /** The input is never grown past this many characters by a key press. */
  const MaxLength: nat := 6

  /**
   * What a click lands on: somewhere that is not inside a `.keypad-key`, or a
   * key button with its `data-key` and `data-action` attributes (null when absent).
   */
  datatype Click = Elsewhere | KeyButton(key: Option<string>, action: Option<string>)

  /** The new `input.value` after one click. */
  function Press(value: string, click: Click): string
  {
    match click
    case Elsewhere => value
    case KeyButton(key, action) =>
      if Truthy(key) then
        if |value| < MaxLength then value + key.value else value
      else if action == Some("back") then
        if value == "" then "" else value[..|value| - 1]
      else if action == Some("clear") then ""
      else value
  }

  /** The value after a sequence of clicks. */
  function Run(value: string, clicks: seq<Click>): string
    decreases |clicks|
  {
    if clicks == [] then value else Run(Press(value, clicks[0]), clicks[1..])
  }

  /** The button labelled as the digit `d` (its `data-key` attribute). */
  function DigitKey(d: char): Click
  {
    KeyButton(Some([d]), None)
  }

  const Back: Click := KeyButton(None, Some("back"))
  const Clear: Click := KeyButton(None, Some("clear"))

  /** A key appends itself when the value is shorter than six characters, and is ignored otherwise. */
  lemma KeyAppends(value: string, key: string, action: Option<string>)
    requires key != ""
    ensures |value| < MaxLength ==> Press(value, KeyButton(Some(key), action)) == value + key
    ensures |value| >= MaxLength ==> Press(value, KeyButton(Some(key), action)) == value
  {
  }

  /** A button with a `data-key` is a key whatever its `data-action` says. */
  lemma KeyBeforeAction(value: string, key: string, action: Option<string>)
    requires key != ""
    ensures Press(value, KeyButton(Some(key), action)) == Press(value, KeyButton(Some(key), None))
  {
  }

  /** `back` removes exactly the last character, and leaves an empty value empty. */
  lemma BackRemovesLast(value: string)
    ensures value == "" ==> Press(value, Back) == ""
    ensures value != "" ==> Press(value, Back) + [value[|value| - 1]] == value
  {
  }

  /** `clear` empties the value whatever it held. */
  lemma ClearEmpties(value: string)
    ensures Press(value, Clear) == ""
  {
  }

  /** A click outside the keys, or on a key with no key and no known action, changes nothing. */
  lemma IgnoredClicks(value: string, click: Click)
    requires click.Elsewhere? ||
             (!Truthy(click.key) && click.action != Some("back") && click.action != Some("clear"))
    ensures Press(value, click) == value
  {
  }

  /** Below the cap, a digit followed by `back` gives the value back. */
  lemma DigitThenBack(value: string, d: char)
    requires |value| < MaxLength
    ensures Run(value, [DigitKey(d), Back]) == value
  {
    var typed := Press(value, DigitKey(d));
    assert typed == value + [d];
    assert typed[..|value|] == value;
    assert [DigitKey(d), Back][1..] == [Back];
    assert Run(typed, [Back]) == Run(Press(typed, Back), []);
  }

  /** Every key of the page's keypad is a single character (a digit). */
  predicate SingleCharKeys(clicks: seq<Click>)
  {
    forall i :: 0 <= i < |clicks| ==> clicks[i].Elsewhere? || clicks[i].key.None? || |clicks[i].key.value| <= 1
  }

  /** With single-character keys, a value of at most six characters stays within six after any clicks. */
  lemma {:induction false} RunStaysWithinCap(value: string, clicks: seq<Click>)
    requires |value| <= MaxLength && SingleCharKeys(clicks)
    ensures |Run(value, clicks)| <= MaxLength
    decreases |clicks|
  {
    if clicks != [] {
      RunStaysWithinCap(Press(value, clicks[0]), clicks[1..]);
    }
  }

  /**
   * The cap is checked before appending, not after: a `data-key` of several
   * characters pressed at five characters takes the value past six.
   */
  lemma LongKeyPassesCap(value: string, key: string)
    requires |value| == MaxLength - 1 && |key| == 2
    ensures |Press(value, KeyButton(Some(key), None))| == MaxLength + 1
  {
  }

  /** The code input field; the click handler overwrites its value in place. */
  class CodeInput {
    var value: string

    constructor (initial: string)
      ensures value == initial
    {
      value := initial;
    }

    /** The keypad's click listener. */
    method OnClick(click: Click)
      modifies this
      ensures value == Press(old(value), click)
      ensures |old(value)| <= MaxLength && (click.Elsewhere? || click.key.None? || |click.key.value| <= 1)
              ==> |value| <= MaxLength
    {
      match click {
        case Elsewhere =>
        case KeyButton(key, action) =>
          if Truthy(key) {
            if |value| < MaxLength {
              value := value + key.value;
            }
          } else if action == Some("back") {
            if value != "" {
              value := value[..|value| - 1];
            }
          } else if action == Some("clear") {
            value := "";
          }
      }
    }
  }
}
