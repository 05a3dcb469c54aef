/** How a section's style record becomes the style of the rendered section, twice over: in the
    live preview (`getSectionStyle`, src/App.tsx:967-975) and in the exported HTML page (the
    `base` style built from `getBg`, `getPad`, `getShadow` and `getAnim`,
    src/App.tsx:833-836, 840). Both are modelled as the choices they make (which background
    form, which padding box, whether a shadow, a border or an animation is emitted) rather
    than as CSS text. The module also models the font links at the head of the exported page
    (src/App.tsx:810-813). */
module Export {
  import opened Wrappers
  import opened Styles
  import opened Sections

  /** The three forms a section background can take. */
  datatype Background =
    | LinearGradient(direction: int, from: string, to: string)
    | Image(url: string, size: string, position: string)
    | SolidColor(color: string)

  /** A CSS padding box, in the CSS order top, right, bottom, left. */
  datatype Box = Box(top: int, right: int, bottom: int, left: int)

  datatype Shadow = Shadow(x: int, y: int, blur: int, spread: int, color: string)

  datatype Border = Border(width: int, color: string)

  datatype Animation = Animation(name: string, duration: real, delay: real)

  /** What the live preview applies to a section element. */
  datatype LiveStyle = LiveStyle(
    background: Background,
    color: string,
    padding: Box,
    fontFamily: string,
    borderRadius: int,
    border: Option<Border>,
    shadow: Option<Shadow>)

  /** What the exported page puts in a section's `style` attribute before the per-type parts. */
  datatype ExportStyle = ExportStyle(
    background: Background,
    color: string,
    padding: Box,
    fontFamily: string,
    shadow: Option<Shadow>,
    animation: Option<Animation>)

  // ----- the live preview -----

  /** `getSectionStyle(s)`: a border only when its width is positive, a shadow only when its
      blur is positive. */
  function GetSectionStyle(s: SectionStyles): (r: LiveStyle)
    ensures r.border.Some? <==> s.borderWidth > 0
    ensures r.shadow.Some? <==> s.shadowBlur > 0
  {
    LiveStyle(
      background :=
        if s.backgroundType == "gradient" then LinearGradient(s.gradientDirection, s.gradientFrom, s.gradientTo)
        else if s.backgroundType == "image" && s.backgroundImage != "" then
          Image(s.backgroundImage, s.backgroundSize, s.backgroundPosition)
        else SolidColor(s.backgroundColor),
      color := s.textColor,
      padding := Box(s.paddingTop, s.paddingRight, s.paddingBottom, s.paddingLeft),
      fontFamily := s.fontFamily,
      borderRadius := s.borderRadius,
      border := if s.borderWidth > 0 then Some(Border(s.borderWidth, s.borderColor)) else None,
      shadow :=
        if s.shadowBlur > 0 then Some(Shadow(s.shadowX, s.shadowY, s.shadowBlur, s.shadowSpread, s.shadowColor))
        else None)
  }

  // ----- the export -----

  /** `getBg(s)`: the background the preview shows. */
  function GetBg(s: SectionStyles): (r: Background)
    ensures r == GetSectionStyle(s).background
  {
    if s.backgroundType == "gradient" then LinearGradient(s.gradientDirection, s.gradientFrom, s.gradientTo)
    else if s.backgroundType == "image" && s.backgroundImage != "" then
      Image(s.backgroundImage, s.backgroundSize, s.backgroundPosition)
    else SolidColor(s.backgroundColor)
  }

  /** `getPad(s)`: the padding the preview applies. */
  function GetPad(s: SectionStyles): (r: Box)
    ensures r == GetSectionStyle(s).padding
  {
    Box(s.paddingTop, s.paddingRight, s.paddingBottom, s.paddingLeft)
  }

  /** `getShadow(s)`, `None` being the empty string: the shadow the preview shows. */
  function GetShadow(s: SectionStyles): (r: Option<Shadow>)
    ensures r == GetSectionStyle(s).shadow
  {
    if s.shadowBlur > 0 then Some(Shadow(s.shadowX, s.shadowY, s.shadowBlur, s.shadowSpread, s.shadowColor))
    else None
  }

  /** `getAnim(s)`, `None` being the empty string: the chosen animation with its timing, unless
      it is "none". */
  function GetAnim(s: SectionStyles): (r: Option<Animation>)
    ensures r.Some? <==> s.animation != "none"
    ensures r.Some? ==> r.value.name == s.animation
  {
    if s.animation != "none" then Some(Animation(s.animation, s.animationDuration, s.animationDelay))
    else None
  }

  /** The preview and an exported style show the same background, text colour, padding,
      font and shadow. */
  predicate Agree(live: LiveStyle, exp: ExportStyle)
  {
    && live.background == exp.background
    && live.color == exp.color
    && live.padding == exp.padding
    && live.fontFamily == exp.fontFamily
    && live.shadow == exp.shadow
  }

  /** The `base` style of an exported section: what the preview shows, and the animation. */
  function ExportBase(s: SectionStyles): (r: ExportStyle)
    ensures Agree(GetSectionStyle(s), r)
    ensures r.animation == GetAnim(s)
  {
    ExportStyle(GetBg(s), s.textColor, GetPad(s), s.fontFamily, GetShadow(s), GetAnim(s))
  }

  /** The types `renderSection` writes bare, without `base`: a divider and a spacer as a plain
      `div`, a custom section as its raw HTML (src/App.tsx:855-857). */
  predicate WrittenBare(t: SectionType)
  {
    t == Divider || t == Spacer || t == Custom
  }

  /** The style the exported page gives a section: `base` for the twelve types whose markup
      carries it, none for the three written bare. */
  function ExportStyleOf(sec: Section): (r: Option<ExportStyle>)
    ensures r.None? <==> WrittenBare(sec.kind)
    ensures r.Some? ==> r.value == ExportBase(sec.styles)
  {
    if WrittenBare(sec.kind) then None else Some(ExportBase(sec.styles))
  }

  // ----- what the two have in common, and where they part -----

  /** The background branch `getSectionStyle` and `getBg` both take: a gradient exactly when
      the type says so; an image exactly when the type says so and there is an image; the
      solid colour otherwise, including an image type without an image. */
  lemma BackgroundBranches(s: SectionStyles)
    ensures var b := GetSectionStyle(s).background;
            && GetBg(s) == b
            && (b.LinearGradient? <==> s.backgroundType == "gradient")
            && (b.Image? <==> s.backgroundType == "image" && s.backgroundImage != "")
            && (b.SolidColor? <==> s.backgroundType != "gradient" && !(s.backgroundType == "image" && s.backgroundImage != ""))
            && (b.SolidColor? ==> b.color == s.backgroundColor)
            && (b.LinearGradient? ==> b == LinearGradient(s.gradientDirection, s.gradientFrom, s.gradientTo))
  {
  }

  /** For every section the export styles, it agrees with the preview on background, text
      colour, padding (top, right, bottom, left), font and shadow; the preview also sets a
      corner radius and a border the export never writes, and the export an animation the
      preview never plays. */
  lemma LiveAndExportAgree(sec: Section)
    ensures ExportStyleOf(sec).Some? <==> !WrittenBare(sec.kind)
    ensures ExportStyleOf(sec).Some? ==> Agree(GetSectionStyle(sec.styles), ExportStyleOf(sec).value)
    ensures var live := GetSectionStyle(sec.styles);
            && live.color == sec.styles.textColor
            && live.padding == Box(sec.styles.paddingTop, sec.styles.paddingRight, sec.styles.paddingBottom, sec.styles.paddingLeft)
  {
  }

  /** The preview shows a shadow exactly when its blur is positive, and the export does so
      too for the sections it styles; the `boxShadow` preset field plays no part in either. */
  lemma ShadowOnlyWithBlur(sec: Section)
    ensures GetSectionStyle(sec.styles).shadow.Some? <==> sec.styles.shadowBlur > 0
    ensures (ExportStyleOf(sec).Some? && ExportStyleOf(sec).value.shadow.Some?) <==>
              !WrittenBare(sec.kind) && sec.styles.shadowBlur > 0
    ensures forall p :: GetSectionStyle(sec.styles.(boxShadow := p)) == GetSectionStyle(sec.styles)
    ensures forall p :: ExportStyleOf(sec.(styles := sec.styles.(boxShadow := p))) == ExportStyleOf(sec)
  {
  }

  /** The border is a preview-only effect, and the animation an export-only one, emitted only
      for the sections the export styles. */
  lemma PreviewAndExportDiffer(sec: Section)
    ensures GetSectionStyle(sec.styles).border.Some? <==> sec.styles.borderWidth > 0
    ensures (ExportStyleOf(sec).Some? && ExportStyleOf(sec).value.animation.Some?) <==>
              !WrittenBare(sec.kind) && sec.styles.animation != "none"
    ensures forall w, c, r ::
              ExportStyleOf(sec.(styles := sec.styles.(borderWidth := w, borderColor := c, borderRadius := r))) == ExportStyleOf(sec)
    ensures forall a, d, e ::
              GetSectionStyle(sec.styles.(animation := a, animationDuration := d, animationDelay := e)) == GetSectionStyle(sec.styles)
  {
  }

  /** A section with its type's default styles, such as a freshly added one, is previewed in
      its solid default colour with a soft shadow (the default blur is 20) and no border. The
      export gives it the same look and a fade-in over 0.6s, except for a divider, spacer or
      custom section, which it writes without any of them. */
  lemma FreshSectionRendering(sec: Section)
    requires sec.styles == GetDefaultStyles(sec.kind)
    ensures var t := sec.kind;
            var live := GetSectionStyle(sec.styles);
            && live.background == SolidColor(if IsDark(t) then Navy else White)
            && live.shadow == Some(Shadow(0, 4, 20, 0, "rgba(0,0,0,0.1)"))
            && live.border == None
            && (!WrittenBare(t) ==>
                  ExportStyleOf(sec) == Some(ExportStyle(live.background, live.color, live.padding, live.fontFamily,
                                                         live.shadow, Some(Animation("fadeIn", 0.6, 0.0)))))
            && (WrittenBare(t) ==> ExportStyleOf(sec) == None)
  {
  }

  /** As written, a spacer with the default styles, such as a freshly added one, is previewed
      with 80px of padding above and below, a white background and a shadow, none of which
      the exported page reproduces. */
  lemma FreshSpacerExportedBare(sec: Section)
    requires sec.kind == Spacer && sec.styles == GetDefaultStyles(Spacer)
    ensures var live := GetSectionStyle(sec.styles);
            && ExportStyleOf(sec) == None
            && live.padding == Box(80, 24, 80, 24)
            && live.background == SolidColor(White)
            && live.shadow.Some?
  {
  }

  /** The export as the preview shows it: every section carries `base`, the bare types too. */
  function IntendedExportStyle(sec: Section): (r: ExportStyle)
    ensures Agree(GetSectionStyle(sec.styles), r)
    ensures r.animation.Some? <==> sec.styles.animation != "none"
  {
    ExportBase(sec.styles)
  }

  /** The export as written gives the intended style exactly to the types it does not write
      bare. */
  lemma ExportAgreesUnlessBare(sec: Section)
    ensures ExportStyleOf(sec) == Some(IntendedExportStyle(sec)) <==> !WrittenBare(sec.kind)
  {
  }

  /** The animations the exported style sheet defines keyframes for (src/App.tsx:824-827). */
  const Keyframed: set<string> := {"fadeIn", "slideUp", "slideDown", "zoomIn"}

  /** Of the eleven animations the picker offers besides "none", only four have keyframes in
      the exported page; the export still names the other seven in the section's style. */
  lemma PickerAnimationsWithoutKeyframes(s: SectionStyles)
    requires s.animation in Animations && s.animation != "none"
    ensures ExportBase(s).animation.Some?
    ensures s.animation !in Keyframed <==>
              s.animation in ["slideLeft", "slideRight", "zoomOut", "bounce", "rotate", "flip", "pulse"]
  {
  }

  // ----- font links -----

  predicate NoDuplicates(xs: seq<string>)
  {
    forall i, j :: 0 <= i < j < |xs| ==> xs[i] != xs[j]
  }

  /** The position of the first occurrence of `x` in `xs`. */
  function FirstIndex(xs: seq<string>, x: string): (r: nat)
    requires x in xs
    ensures r < |xs| && xs[r] == x && forall k :: 0 <= k < r ==> xs[k] != x
  {
    if xs[0] == x then 0 else 1 + FirstIndex(xs[1..], x)
  }

  /** `[...new Set(xs)]`: each value once, in the order of first occurrence, so the first
      value first. */
  function Dedup(xs: seq<string>): (r: seq<string>)
    ensures NoDuplicates(r) && |r| <= |xs|
    ensures forall x :: x in r <==> x in xs
    ensures forall i, j :: 0 <= i < j < |r| ==> FirstIndex(xs, r[i]) < FirstIndex(xs, r[j])
    ensures xs != [] ==> r != [] && r[0] == xs[0]
  {
    if xs == [] then []
    else
      var init := Dedup(xs[..|xs| - 1]);
      assert forall x :: x in xs <==> x in xs[..|xs| - 1] || x == xs[|xs| - 1];
      forall x | x in init ensures FirstIndex(xs, x) == FirstIndex(xs[..|xs| - 1], x) {
        FirstIndexOfPrefix(xs, x);
      }
      if xs[|xs| - 1] in init then init
      else
        assert |xs| > 1 ==> xs[..|xs| - 1][0] == xs[0];
        assert FirstIndex(xs, xs[|xs| - 1]) == |xs| - 1;
        init + [xs[|xs| - 1]]
  }

  /** A value found before the last element is first found at the same place without it. */
  lemma FirstIndexOfPrefix(xs: seq<string>, x: string)
    requires xs != [] && x in xs[..|xs| - 1]
    ensures FirstIndex(xs, x) == FirstIndex(xs[..|xs| - 1], x)
  {
    var a := FirstIndex(xs, x);
    var b := FirstIndex(xs[..|xs| - 1], x);
    assert xs[b] == x;
  }

  /** A list without repeats is its own de-duplication. */
  lemma {:induction false} DedupOfDistinct(xs: seq<string>)
    requires NoDuplicates(xs)
    ensures Dedup(xs) == xs
  {
    if xs != [] {
      var init := xs[..|xs| - 1];
      assert NoDuplicates(init);
      DedupOfDistinct(init);
      assert xs[|xs| - 1] !in init;
      assert init + [xs[|xs| - 1]] == xs;
    }
  }

  /** `FONTS.find(fo => fo.value === f)`. */
  function FindFont(value: string): (r: Option<FontOption>)
    ensures r.Some? <==> exists f :: f in Fonts && f.value == value
    ensures r.Some? ==> r.value in Fonts && r.value.value == value
  {
    FindFontIn(Fonts, value)
  }

  function FindFontIn(fonts: seq<FontOption>, value: string): (r: Option<FontOption>)
    ensures r.Some? <==> exists f :: f in fonts && f.value == value
    ensures r.Some? ==> r.value in fonts && r.value.value == value
  {
    if fonts == [] then None
    else if fonts[0].value == value then Some(fonts[0])
    else
      var r := FindFontIn(fonts[1..], value);
      assert forall f :: f in fonts[1..] ==> f in fonts;
      assert forall f :: f in fonts && f != fonts[0] ==> f in fonts[1..];
      r
  }

  /** `name.replace(/ /g, '+')`. */
  function SpacesToPlus(name: string): (r: string)
    ensures |r| == |name|
    ensures forall i :: 0 <= i < |name| ==> r[i] == if name[i] == ' ' then '+' else name[i]
  {
    seq(|name|, i requires 0 <= i < |name| => if name[i] == ' ' then '+' else name[i])
  }

  /** The replacement is applied twice in the source; the second pass finds no space left and
      changes nothing. */
  lemma SpacesToPlusIdempotent(name: string)
    ensures ' ' !in SpacesToPlus(name)
    ensures SpacesToPlus(SpacesToPlus(name)) == SpacesToPlus(name)
  {
    var r := SpacesToPlus(name);
    assert forall i :: 0 <= i < |r| ==> r[i] != ' ';
  }

  /** The `family` parameter of a Google Fonts link for a catalogue font: its display name
      with every space as '+'. */
  function UrlFamily(f: FontOption): (r: string)
    ensures r == SpacesToPlus(f.name) && ' ' !in r
  {
    SpacesToPlusIdempotent(f.name);
    SpacesToPlus(SpacesToPlus(f.name))
  }

  /** The text of `s` before its first `'`; all of `s` when it has none. */
  function UpToQuote(s: string): (r: string)
    ensures r <= s && '\'' !in r
    ensures |r| < |s| ==> s[|r|] == '\''
  {
    if s == [] || s[0] == '\'' then [] else [s[0]] + UpToQuote(s[1..])
  }

  /** The family a CSS `font-family` value names first, without its quotes. */
  function LeadingFamily(value: string): string
  {
    if |value| > 0 && value[0] == '\'' then UpToQuote(value[1..]) else value
  }

  /** A value that opens with a quoted family names that family first. */
  lemma {:induction false} LeadingFamilyOfQuoted(family: string, rest: string)
    requires '\'' !in family
    ensures LeadingFamily("'" + family + "'" + rest) == family
  {
    UpToQuoteOf(family, rest);
    assert ("'" + family + "'" + rest)[1..] == family + "'" + rest;
  }

  lemma {:induction false} UpToQuoteOf(family: string, rest: string)
    requires '\'' !in family
    ensures UpToQuote(family + "'" + rest) == family
  {
    if family != [] {
      UpToQuoteOf(family[1..], rest);
      assert (family + "'" + rest)[1..] == family[1..] + "'" + rest;
    }
  }

  /** As written, a link asks for the font's display name. "Zen Kaku Gothic" is shown under a
      shorter name than the family its CSS value uses, "Zen Kaku Gothic New", so its link asks
      for a family the page never uses. */
  lemma ZenLinkNamesOtherFamily()
    ensures UrlFamily(Fonts[8]) == "Zen+Kaku+Gothic"
    ensures LeadingFamily(Fonts[8].value) == "Zen Kaku Gothic New"
    ensures Fonts[8].name != LeadingFamily(Fonts[8].value)
  {
    var once := SpacesToPlus("Zen Kaku Gothic");
    assert forall i :: 0 <= i < |once| ==> once[i] == "Zen+Kaku+Gothic"[i];
    SpacesToPlusIdempotent("Zen Kaku Gothic");
    ZenValueQuotesItsFamily();
  }

  /** The CSS value of "Zen Kaku Gothic" names the family "Zen Kaku Gothic New" first. */
  lemma ZenValueQuotesItsFamily()
    ensures LeadingFamily(Fonts[8].value) == "Zen Kaku Gothic New"
  {
    assert Fonts[8].value == "'Zen Kaku Gothic New', sans-serif";
    ZenValueSplits();
    LeadingFamilyOfQuoted("Zen Kaku Gothic New", ", sans-serif");
  }

  /** The catalogue value of Zen Kaku Gothic is a quoted family followed by a fallback. */
  lemma ZenValueSplits()
    ensures "'" + "Zen Kaku Gothic New" + "'" + ", sans-serif" == "'Zen Kaku Gothic New', sans-serif"
  {
    var v := "'" + "Zen Kaku Gothic New" + "'" + ", sans-serif";
    assert forall i :: 0 <= i < |v| ==> v[i] == "'Zen Kaku Gothic New', sans-serif"[i];
  }

  /** The link the export evidently means: the family the font's CSS value names, with every
      space as '+'. It is the link as written whenever the display name is that family. */
  function IntendedUrlFamily(f: FontOption): (r: string)
    ensures ' ' !in r
    ensures f.name == LeadingFamily(f.value) ==> r == UrlFamily(f)
  {
    SpacesToPlusIdempotent(LeadingFamily(f.value));
    SpacesToPlus(LeadingFamily(f.value))
  }

  /** The intended link for "Zen Kaku Gothic" asks for the family its CSS value uses. */
  lemma IntendedZenLink()
    ensures IntendedUrlFamily(Fonts[8]) == "Zen+Kaku+Gothic+New"
    ensures IntendedUrlFamily(Fonts[8]) != UrlFamily(Fonts[8])
  {
    ZenIntendedFamily();
    ZenNewLink();
    ZenLinkNamesOtherFamily();
  }

  /** The intended link for "Zen Kaku Gothic" is built from "Zen Kaku Gothic New". */
  lemma ZenIntendedFamily()
    ensures IntendedUrlFamily(Fonts[8]) == SpacesToPlus("Zen Kaku Gothic New")
  {
    ZenValueQuotesItsFamily();
  }

  /** "Zen Kaku Gothic New" with every space as '+'. */
  lemma ZenNewLink()
    ensures SpacesToPlus("Zen Kaku Gothic New") == "Zen+Kaku+Gothic+New"
  {
    var once := SpacesToPlus("Zen Kaku Gothic New");
    assert forall i :: 0 <= i < |once| ==> once[i] == "Zen+Kaku+Gothic+New"[i];
  }

  /** The fonts a page uses: the primary font first, then each section's font in page order. */
  function UsedFamilies(settings: PageSettings, secs: seq<Section>): (r: seq<string>)
    ensures |r| == |secs| + 1 && r[0] == settings.fontPrimary
    ensures forall i :: 0 <= i < |secs| ==> r[i + 1] == secs[i].styles.fontFamily
  {
    [settings.fontPrimary] + seq(|secs|, i requires 0 <= i < |secs| => secs[i].styles.fontFamily)
  }

  /** The font links of an exported page: one entry per distinct family in order of first
      use, a link for a catalogue font and an empty line (`None`) for any other family. */
  function FontLinks(settings: PageSettings, secs: seq<Section>): (r: seq<Option<string>>)
    ensures var families := Dedup(UsedFamilies(settings, secs));
            && |r| == |families|
            && (forall i :: 0 <= i < |r| ==> (r[i].Some? <==> exists f :: f in Fonts && f.value == families[i]))
            && (forall i :: 0 <= i < |r| ==>
                  r[i] == (if FindFont(families[i]).Some? then Some(UrlFamily(FindFont(families[i]).value)) else None))
  {
    var families := Dedup(UsedFamilies(settings, secs));
    seq(|families|, i requires 0 <= i < |families| =>
          var font := FindFont(families[i]);
          if font.Some? then Some(UrlFamily(font.value)) else None)
  }

  /** There is one entry per distinct family; the first is the primary font's; no family is
      linked twice; and an entry is a link exactly when its family is in the catalogue. */
  lemma FontLinksShape(settings: PageSettings, secs: seq<Section>)
    ensures var families := Dedup(UsedFamilies(settings, secs));
            var links := FontLinks(settings, secs);
            && |links| == |families|
            && families[0] == settings.fontPrimary
            && NoDuplicates(families)
            && (forall f :: f in families <==> f == settings.fontPrimary || exists k :: 0 <= k < |secs| && secs[k].styles.fontFamily == f)
            && (forall i :: 0 <= i < |links| ==> (links[i].Some? <==> exists f :: f in Fonts && f.value == families[i]))
  {
    UsedFamiliesMembers(settings, secs);
  }

  /** A family is used exactly when it is the primary font or some section's font. */
  lemma UsedFamiliesMembers(settings: PageSettings, secs: seq<Section>)
    ensures forall f :: f in UsedFamilies(settings, secs) <==>
              f == settings.fontPrimary || exists k :: 0 <= k < |secs| && secs[k].styles.fontFamily == f
  {
    var used := UsedFamilies(settings, secs);
    forall f ensures f in used <==> f == settings.fontPrimary || exists k :: 0 <= k < |secs| && secs[k].styles.fontFamily == f {
      if f in used && f != settings.fontPrimary {
        var j :| 0 <= j < |used| && used[j] == f;
        assert j > 0 && secs[j - 1].styles.fontFamily == f;
      }
      if exists k :: 0 <= k < |secs| && secs[k].styles.fontFamily == f {
        var k :| 0 <= k < |secs| && secs[k].styles.fontFamily == f;
        assert used[k + 1] == f;
      }
    }
  }

  /** With the default page settings, a page whose sections all keep their type's default
      styles (a new page, or any sections just added) links exactly one font: Noto Sans JP,
      which the primary font and every default style share. */
  lemma DefaultPageLinksOneFont(secs: seq<Section>)
    requires forall k :: 0 <= k < |secs| ==> secs[k].styles == GetDefaultStyles(secs[k].kind)
    ensures FontLinks(DefaultPageSettings(), secs) == [Some("Noto+Sans+JP")]
  {
    var used := UsedFamilies(DefaultPageSettings(), secs);
    var noto := Fonts[0].value;
    forall k | 0 <= k < |used| ensures used[k] == noto {
      if k > 0 {
        assert used[k] == GetDefaultStyles(secs[k - 1].kind).fontFamily;
      }
    }
    DedupOfConstant(used, noto);
    assert FindFont(noto) == Some(Fonts[0]);
    NotoUrlFamily();
  }

  lemma NotoUrlFamily()
    ensures UrlFamily(Fonts[0]) == "Noto+Sans+JP"
  {
    var once := SpacesToPlus("Noto Sans JP");
    assert forall i :: 0 <= i < |once| ==> once[i] == "Noto+Sans+JP"[i];
    SpacesToPlusIdempotent("Noto Sans JP");
  }

  /** A non-empty list of one repeated value de-duplicates to that value. */
  lemma {:induction false} DedupOfConstant(xs: seq<string>, x: string)
    requires xs != [] && forall k :: 0 <= k < |xs| ==> xs[k] == x
    ensures Dedup(xs) == [x]
  {
    if |xs| > 1 {
      DedupOfConstant(xs[..|xs| - 1], x);
    }
  }
}
