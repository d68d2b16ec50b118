/**
 * src/games/colors/objects/coloredWord.ts: a colour word is a label that
 * shows a word's text in some colour and remembers the word's own colour.
 * Its layout, background and tweens are not modelled.
 */
module ColoredWords {
  import opened Wrappers
  import Js

  const DefaultColor: string := "#ffffff"
  const DefaultVisibilityDuration: int := 2000
  /** The engine's own text colour, for a style that names none. */
  const EngineTextColor: string := "#fff"

  /** The part of a text style the model keeps: its colour. */
  datatype TextStyle = TextStyle(color: Option<string>)

  /** A `ColoredWordConfig`: the word's data (`text`, `color`), `visibilityDuration` and `style`. */
  class ColoredWordConfig {
    var text: string
    var color: Option<string>
    var visibilityDuration: Option<int>
    var style: Option<TextStyle>

    constructor (text: string, color: Option<string>, visibilityDuration: Option<int>, style: Option<TextStyle>)
      ensures this.text == text && this.color == color
      ensures this.visibilityDuration == visibilityDuration && this.style == style
    {
      this.text := text;
      this.color := color;
      this.visibilityDuration := visibilityDuration;
      this.style := style;
    }
  }

  /** The word's own colour after `getValidConfig`: "#ffffff" when falsy, then lower-cased. */
  function NormalColor(c: Option<string>): (r: string)
    ensures |r| > 0
    ensures forall i :: 0 <= i < |r| ==> !Js.IsUpperAscii(r[i])
    ensures !Js.FalsyString(c) ==> r == Js.Lower(c.value)
  {
    Js.LowerIdempotent(Js.StringOr(c, DefaultColor));
    Js.Lower(Js.StringOr(c, DefaultColor))
  }

  /** The colour the label's text has: its style's, or the engine's when the style names none. */
  function StyleColor(style: TextStyle): string {
    style.color.GetOr(EngineTextColor)
  }

  /**
   * `getValidConfig`: a falsy colour becomes "#ffffff" and a falsy
   * duration 2000, a missing style gets one without a colour, and the
   * colour is lower-cased and the text upper-cased.
   */
  method GetValidConfig(config: ColoredWordConfig)
    modifies config
    ensures config.color == Some(NormalColor(old(config.color)))
    ensures config.text == Js.Upper(old(config.text))
    ensures config.visibilityDuration == Some(Js.NumberOr(old(config.visibilityDuration), DefaultVisibilityDuration))
    ensures config.style == Some(old(config.style).GetOr(TextStyle(None)))
  {
    if Js.FalsyString(config.color) {
      config.color := Some(DefaultColor);
    }
    if Js.FalsyNumber(config.visibilityDuration) {
      config.visibilityDuration := Some(DefaultVisibilityDuration);
    }
    if config.style.None? {
      config.style := Some(TextStyle(None));
    }
    config.color := Some(Js.Lower(config.color.value));
    config.text := Js.Upper(config.text);
  }

  /**
   * A configuration once normalised is left as it is by a second
   * normalisation: the colour, the text and the duration are fixed points.
   */
  lemma NormalisationIdempotent(color: Option<string>, text: string, duration: Option<int>)
    ensures NormalColor(Some(NormalColor(color))) == NormalColor(color)
    ensures Js.Upper(Js.Upper(text)) == Js.Upper(text)
    ensures var d := Js.NumberOr(duration, DefaultVisibilityDuration);
      Js.NumberOr(Some(d), DefaultVisibilityDuration) == d
  {
    var c := NormalColor(color);
    Js.LowerIdempotent(Js.StringOr(color, DefaultColor));
    assert Js.StringOr(Some(c), DefaultColor) == c;
    Js.UpperIdempotent(text);
  }

  /**
   * A `ColoredWord`. Its configuration is a fresh object per word that
   * nothing changes after the constructor, so what the getters read is
   * fixed then: `originalColor` is the normalised data colour, and
   * `actualColor` the colour of the text as the style gave it.
   */
  class ColoredWord {
    const text: string
    const originalColor: string
    const actualColor: string
    const visibilityDuration: int

    constructor (config: ColoredWordConfig)
      modifies config
      ensures config.color == Some(NormalColor(old(config.color)))
      ensures config.text == Js.Upper(old(config.text))
      ensures config.visibilityDuration == Some(Js.NumberOr(old(config.visibilityDuration), DefaultVisibilityDuration))
      ensures config.style == Some(old(config.style).GetOr(TextStyle(None)))
      ensures text == config.text && originalColor == config.color.value
      ensures visibilityDuration == config.visibilityDuration.value
      ensures actualColor == StyleColor(config.style.value)
    {
      GetValidConfig(config);
      text := config.text;
      originalColor := config.color.value;
      actualColor := StyleColor(config.style.value);
      visibilityDuration := config.visibilityDuration.value;
    }
  }
}
