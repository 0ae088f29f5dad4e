/** The accessibility controls of scripts.js: font-size and theme buttons
    that edit the classes on `document.body`, the hide-images toggle, and
    the highlighting of the button that matches the current choice. */
module Preferences {

  import ButtonGroup

  const FontSmall := "font-small"
  const FontLarge := "font-large"
  const FontExtraLarge := "font-extra-large"
  const HighContrast := "high-contrast"
  const DarkTheme := "dark-theme"
  const HideImages := "hide-images"

  const SizeClasses: set<string> := {FontSmall, FontLarge, FontExtraLarge}
  const ThemeClasses: set<string> := {HighContrast, DarkTheme}

  /** The size classes a font button leaves behind: never small together
      with a larger size, and extra-large only on top of large. */
  predicate SizeWellFormed(c: set<string>) {
    !(FontSmall in c && (FontLarge in c || FontExtraLarge in c)) &&
    (FontExtraLarge in c ==> FontLarge in c)
  }

  /** The decrease button: a well-formed small size; nothing but the size
      classes changes. */
  function Decrease(c: set<string>): (r: set<string>)
    ensures SizeWellFormed(r) && FontSmall in r
    ensures r - SizeClasses == c - SizeClasses
  {
    c - {FontLarge, FontExtraLarge} + {FontSmall}
  }

  /** The normal-size button: no size class at all. */
  function Normal(c: set<string>): (r: set<string>)
    ensures SizeWellFormed(r) && r * SizeClasses == {}
    ensures r - SizeClasses == c - SizeClasses
  {
    c - SizeClasses
  }

  /** The increase button, and the size it reports to the button highlight:
      small is dropped, then extra-large is added on top of large, or large
      is added. */
  function Increase(c: set<string>): (r: (set<string>, string))
    ensures SizeWellFormed(r.0) && FontLarge in r.0 && FontSmall !in r.0
    ensures r.0 - SizeClasses == c - SizeClasses
    ensures FontExtraLarge in r.0 <==> FontLarge in c || FontExtraLarge in c
    ensures r.1 == (if FontLarge in c then "extra-large" else "large")
  {
    var c1 := c - {FontSmall};
    if FontLarge in c1 then (c1 + {FontExtraLarge}, "extra-large") else (c1 + {FontLarge}, "large")
  }

  /** The size the body classes show, as the button highlight names it. */
  function SizeOf(c: set<string>): string {
    if FontSmall in c then "small"
    else if FontExtraLarge in c then "extra-large"
    else if FontLarge in c then "large"
    else "normal"
  }

  /** The font button `updateFontButtons(size)` highlights: decrease, normal,
      increase, or none for a size it does not know. Large and extra-large
      share the increase button. */
  function FontButton(size: string): (i: int)
    ensures -1 <= i < 3
    ensures i == 0 <==> size == "small"
    ensures i == 1 <==> size == "normal"
    ensures i == 2 <==> size == "large" || size == "extra-large"
    ensures i == -1 <==> size !in {"small", "normal", "large", "extra-large"}
  {
    if size == "small" then 0
    else if size == "normal" then 1
    else if size == "large" || size == "extra-large" then 2
    else -1
  }

  /** Each font button highlights the button that matches the classes it
      leaves on the body, from any starting classes. */
  lemma FontHighlightMatchesClasses(c: set<string>)
    ensures FontButton("small") == FontButton(SizeOf(Decrease(c))) == 0
    ensures FontButton("normal") == FontButton(SizeOf(Normal(c))) == 1
    ensures FontButton(Increase(c).1) == FontButton(SizeOf(Increase(c).0)) == 2
  {
  }

  /** Two presses of increase reach extra-large, and further presses change
      nothing. */
  lemma IncreaseSaturates(c: set<string>)
    ensures FontExtraLarge in Increase(Increase(c).0).0
    ensures Increase(Increase(Increase(c).0).0).0 == Increase(Increase(c).0).0
    ensures SizeOf(Increase(Increase(c).0).0) == "extra-large"
  {
  }

  /** From small, one press of increase goes straight to large: there is no
      step back to the normal size. */
  lemma IncreaseFromSmallSkipsNormal(c: set<string>)
    ensures SizeOf(Increase(Decrease(c)).0) == "large"
  {
  }

  /** The theme buttons. Each leaves at most one theme class set, whatever
      the body carried before, and touches nothing but the theme classes. */
  function DefaultTheme(c: set<string>): (r: set<string>)
    ensures r * ThemeClasses == {}
    ensures r - ThemeClasses == c - ThemeClasses
  {
    c - ThemeClasses
  }

  function HighContrastTheme(c: set<string>): (r: set<string>)
    ensures HighContrast in r && DarkTheme !in r
    ensures r - ThemeClasses == c - ThemeClasses
  {
    c - {DarkTheme} + {HighContrast}
  }

  function DarkThemeOn(c: set<string>): (r: set<string>)
    ensures DarkTheme in r && HighContrast !in r
    ensures r - ThemeClasses == c - ThemeClasses
  {
    c - {HighContrast} + {DarkTheme}
  }

  /** The theme the body classes show, as the button highlight names it. */
  function ThemeOf(c: set<string>): string {
    if HighContrast in c then "high-contrast"
    else if DarkTheme in c then "dark"
    else "default"
  }

  /** The theme button `updateThemeButtons(theme)` highlights, or none. */
  function ThemeButton(theme: string): (i: int)
    ensures -1 <= i < 3
    ensures i == 0 <==> theme == "default"
    ensures i == 1 <==> theme == "high-contrast"
    ensures i == 2 <==> theme == "dark"
    ensures i >= 0 <==> theme in {"default", "high-contrast", "dark"}
  {
    if theme == "default" then 0
    else if theme == "high-contrast" then 1
    else if theme == "dark" then 2
    else -1
  }

  /** Each theme button highlights the theme the body then shows. */
  lemma ThemeHighlightMatchesClasses(c: set<string>)
    ensures ThemeButton(ThemeOf(DefaultTheme(c))) == ThemeButton("default") == 0
    ensures ThemeButton(ThemeOf(HighContrastTheme(c))) == ThemeButton("high-contrast") == 1
    ensures ThemeButton(ThemeOf(DarkThemeOn(c))) == ThemeButton("dark") == 2
  {
  }

  /** `classList.toggle('hide-images')`. */
  function ToggleImages(c: set<string>): (r: set<string>)
    ensures HideImages in r <==> HideImages !in c
    ensures r - {HideImages} == c - {HideImages}
  {
    if HideImages in c then c - {HideImages} else c + {HideImages}
  }

  /** Toggling twice restores the body classes. */
  lemma ToggleImagesTwice(c: set<string>)
    ensures ToggleImages(ToggleImages(c)) == c
  {
  }

  /** The label of the image toggle for a given state. */
  function ImageLabel(hidden: bool): string {
    if hidden then "Show Images" else "Hide Images"
  }

  class AccessibilityControls {
    /** The classes on `document.body`. */
    var bodyClasses: set<string>
    /** Which of the decrease, normal and increase buttons are on the page,
        and which carry `active`. */
    const fontPresent: seq<bool>
    const fontActive: array<bool>
    /** Which of the default, high-contrast and dark buttons are on the page,
        and which carry `active`. */
    const themePresent: seq<bool>
    const themeActive: array<bool>
    /** Whether the image toggle and its label are on the page, the label's
        text and the toggle's `aria-pressed`. */
    const imagesPresent: bool
    const labelPresent: bool
    var imageLabel: string
    var ariaPressed: bool

    /** A button that is not on the page is never active. */
    ghost predicate Valid()
      reads this, fontActive, themeActive
    {
      |fontPresent| == 3 && fontActive.Length == 3 &&
      |themePresent| == 3 && themeActive.Length == 3 &&
      fontActive != themeActive &&
      (forall i :: 0 <= i < 3 && !fontPresent[i] ==> !fontActive[i]) &&
      (forall i :: 0 <= i < 3 && !themePresent[i] ==> !themeActive[i])
    }

    constructor (bodyClasses: set<string>, fontPresent: seq<bool>, themePresent: seq<bool>,
                 imagesPresent: bool, labelPresent: bool, imageLabel: string)
      requires |fontPresent| == 3 && |themePresent| == 3
      ensures Valid() && fresh(fontActive) && fresh(themeActive)
      ensures this.bodyClasses == bodyClasses && this.fontPresent == fontPresent
      ensures this.themePresent == themePresent && this.imagesPresent == imagesPresent
      ensures this.labelPresent == labelPresent && this.imageLabel == imageLabel && !ariaPressed
    {
      this.bodyClasses := bodyClasses;
      this.fontPresent, this.themePresent := fontPresent, themePresent;
      this.imagesPresent, this.labelPresent := imagesPresent, labelPresent;
      this.imageLabel := imageLabel;
      ariaPressed := false;
      fontActive := new bool[3](_ => false);
      themeActive := new bool[3](_ => false);
    }

    /** `updateFontButtons(size)`: every font button is cleared, then the
        button for `size` is highlighted if it is on the page. */
    method UpdateFontButtons(size: string)
      requires Valid()
      modifies fontActive
      ensures Valid()
      ensures forall i :: 0 <= i < 3 ==> (fontActive[i] <==> i == FontButton(size) && fontPresent[i])
      ensures ButtonGroup.AtMostOneActive(fontActive[..])
      ensures FontButton(size) >= 0 && fontPresent[FontButton(size)] ==> ButtonGroup.ExactlyOneActive(fontActive[..])
    {
      var target := FontButton(size);
      if target >= 0 && !fontPresent[target] {
        target := -1;
      }
      ButtonGroup.ActivateOnly(fontActive, target);
      if target >= 0 {
        assert fontActive[..][target];
      }
    }

    /** `updateThemeButtons(theme)`, the same for the theme buttons. */
    method UpdateThemeButtons(theme: string)
      requires Valid()
      modifies themeActive
      ensures Valid()
      ensures forall i :: 0 <= i < 3 ==> (themeActive[i] <==> i == ThemeButton(theme) && themePresent[i])
      ensures ButtonGroup.AtMostOneActive(themeActive[..])
      ensures ThemeButton(theme) >= 0 && themePresent[ThemeButton(theme)] ==> ButtonGroup.ExactlyOneActive(themeActive[..])
    {
      var target := ThemeButton(theme);
      if target >= 0 && !themePresent[target] {
        target := -1;
      }
      ButtonGroup.ActivateOnly(themeActive, target);
      if target >= 0 {
        assert themeActive[..][target];
      }
    }

    /** A click on font button `b` (0 decrease, 1 normal, 2 increase), which
        has a handler only when it is on the page: the body takes the new size
        classes and the highlighted button is the one matching them. */
    method ClickFont(b: nat)
      requires Valid() && b < 3
      modifies this`bodyClasses, fontActive
      ensures Valid()
      ensures !fontPresent[b] ==> bodyClasses == old(bodyClasses) && fontActive[..] == old(fontActive[..])
      ensures fontPresent[b] ==> bodyClasses == (if b == 0 then Decrease(old(bodyClasses))
                                                 else if b == 1 then Normal(old(bodyClasses))
                                                 else Increase(old(bodyClasses)).0)
      ensures fontPresent[b] ==> forall i :: 0 <= i < 3 ==> (fontActive[i] <==> i == b)
      ensures fontPresent[b] ==> SizeWellFormed(bodyClasses) && FontButton(SizeOf(bodyClasses)) == b
    {
      if !fontPresent[b] {
        return;
      }
      FontHighlightMatchesClasses(bodyClasses);
      if b == 0 {
        bodyClasses := Decrease(bodyClasses);
        UpdateFontButtons("small");
      } else if b == 1 {
        bodyClasses := Normal(bodyClasses);
        UpdateFontButtons("normal");
      } else {
        var r := Increase(bodyClasses);
        bodyClasses := r.0;
        UpdateFontButtons(r.1);
      }
    }

    /** A click on theme button `b` (0 default, 1 high contrast, 2 dark):
        at most one theme class remains and its button is highlighted. */
    method ClickTheme(b: nat)
      requires Valid() && b < 3
      modifies this`bodyClasses, themeActive
      ensures Valid()
      ensures !themePresent[b] ==> bodyClasses == old(bodyClasses) && themeActive[..] == old(themeActive[..])
      ensures themePresent[b] ==> bodyClasses == (if b == 0 then DefaultTheme(old(bodyClasses))
                                                  else if b == 1 then HighContrastTheme(old(bodyClasses))
                                                  else DarkThemeOn(old(bodyClasses)))
      ensures themePresent[b] ==> forall i :: 0 <= i < 3 ==> (themeActive[i] <==> i == b)
      ensures themePresent[b] ==> !(HighContrast in bodyClasses && DarkTheme in bodyClasses) &&
                                  ThemeButton(ThemeOf(bodyClasses)) == b
    {
      if !themePresent[b] {
        return;
      }
      ThemeHighlightMatchesClasses(bodyClasses);
      if b == 0 {
        bodyClasses := DefaultTheme(bodyClasses);
        UpdateThemeButtons("default");
      } else if b == 1 {
        bodyClasses := HighContrastTheme(bodyClasses);
        UpdateThemeButtons("high-contrast");
      } else {
        bodyClasses := DarkThemeOn(bodyClasses);
        UpdateThemeButtons("dark");
      }
    }

    /** A click on the image toggle: `hide-images` flips, and `aria-pressed`
        and the label (when present) report the new state. */
    method ClickToggleImages()
      requires Valid()
      modifies this`bodyClasses, this`imageLabel, this`ariaPressed
      ensures Valid()
      ensures !imagesPresent ==> bodyClasses == old(bodyClasses) && imageLabel == old(imageLabel) &&
                                 ariaPressed == old(ariaPressed)
      ensures imagesPresent ==> bodyClasses == ToggleImages(old(bodyClasses))
      ensures imagesPresent ==> (ariaPressed <==> HideImages in bodyClasses)
      ensures imagesPresent && labelPresent ==> imageLabel == ImageLabel(HideImages in bodyClasses)
      ensures imagesPresent && !labelPresent ==> imageLabel == old(imageLabel)
    {
      if !imagesPresent {
        return;
      }
      bodyClasses := ToggleImages(bodyClasses);
      var isHidden := HideImages in bodyClasses;
      if labelPresent {
        imageLabel := ImageLabel(isHidden);
      }
      ariaPressed := isHidden;
    }
  }
}
