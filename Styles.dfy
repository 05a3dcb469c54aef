/** The style model of the page editor: the closed set of section types, the flat style record
    every section carries, the button style record, the page settings, the font and animation
    catalogues, and the per-type defaults (src/App.tsx:5-249).
    Numbers the style editor moves in whole steps (pixels, columns, angles) are `int`; the
    ones it moves in tenths or halves (line height, letter spacing, overlay opacity, animation
    duration and delay) are `real`. */
module Styles {

  datatype SectionType =
    | Hero | Features | Pricing | Testimonials | Stats | Video | Gallery | Logos
    | Faq | Cta | Contact | Footer | Divider | Spacer | Custom

  datatype SectionStyles = SectionStyles(
    backgroundColor: string,
    textColor: string,
    padding: string,
    paddingTop: int,
    paddingBottom: int,
    paddingLeft: int,
    paddingRight: int,
    backgroundType: string,
    gradientFrom: string,
    gradientTo: string,
    gradientDirection: int,
    backgroundImage: string,
    backgroundSize: string,
    backgroundPosition: string,
    backgroundOverlay: real,
    fontFamily: string,
    fontSize: int,
    headingSize: int,
    lineHeight: real,
    letterSpacing: real,
    textAlign: string,
    borderWidth: int,
    borderColor: string,
    borderRadius: int,
    boxShadow: string,
    shadowX: int,
    shadowY: int,
    shadowBlur: int,
    shadowSpread: int,
    shadowColor: string,
    animation: string,
    animationDuration: real,
    animationDelay: real,
    maxWidth: string,
    columns: int,
    gap: int,
    customCSS: string)

  datatype ButtonStyles = ButtonStyles(
    backgroundColor: string,
    textColor: string,
    borderRadius: int,
    paddingX: int,
    paddingY: int,
    fontSize: int,
    fontWeight: string,
    borderWidth: int,
    borderColor: string,
    shadow: string,
    hoverEffect: string)

  datatype PageSettings = PageSettings(
    title: string,
    description: string,
    favicon: string,
    ogImage: string,
    themeColor: string,
    fontPrimary: string,
    fontSecondary: string,
    colorPrimary: string,
    colorSecondary: string,
    colorAccent: string,
    customHead: string,
    customCSS: string)

  /** One entry of a picker: the label shown and the value stored in a style field. */
  datatype FontOption = FontOption(name: string, value: string)

  const Fonts: seq<FontOption> := [
    FontOption("Noto Sans JP", "'Noto Sans JP', sans-serif"),
    FontOption("Inter", "'Inter', sans-serif"),
    FontOption("Poppins", "'Poppins', sans-serif"),
    FontOption("Roboto", "'Roboto', sans-serif"),
    FontOption("Open Sans", "'Open Sans', sans-serif"),
    FontOption("Montserrat", "'Montserrat', sans-serif"),
    FontOption("Playfair Display", "'Playfair Display', serif"),
    FontOption("Lora", "'Lora', serif"),
    FontOption("Zen Kaku Gothic", "'Zen Kaku Gothic New', sans-serif"),
    FontOption("M PLUS 1p", "'M PLUS 1p', sans-serif")
  ]

  /** The values of the animation picker; "none" switches the entrance animation off. */
  const Animations: seq<string> := [
    "none", "fadeIn", "slideDown", "slideUp", "slideLeft", "slideRight",
    "zoomIn", "zoomOut", "bounce", "rotate", "flip", "pulse"
  ]

  const Navy := "#0f172a"
  const White := "#ffffff"
  const Ink := "#1f2937"

  /** The types that default to a dark background with light text. */
  predicate IsDark(t: SectionType)
  {
    t == Cta || t == Hero || t == Footer || t == Stats
  }

  /** The default style of a freshly added section of type `t`. Only five fields depend on the
      type: the dark or light colours (background and text), the taller vertical padding of a
      hero (top and bottom), and three columns for feature and pricing grids. */
  function GetDefaultStyles(t: SectionType): (r: SectionStyles)
    ensures r.backgroundColor == (if IsDark(t) then Navy else White)
    ensures r.textColor == (if IsDark(t) then White else Ink)
    ensures r.paddingTop == r.paddingBottom == (if t == Hero then 120 else 80)
    ensures r.columns == (if t == Features || t == Pricing then 3 else 1)
  {
    SectionStyles(
      backgroundColor := if IsDark(t) then Navy else White,
      textColor := if IsDark(t) then White else Ink,
      padding := "custom",
      paddingTop := if t == Hero then 120 else 80,
      paddingBottom := if t == Hero then 120 else 80,
      paddingLeft := 24,
      paddingRight := 24,
      backgroundType := "solid",
      gradientFrom := "#0ea5e9",
      gradientTo := "#8b5cf6",
      gradientDirection := 135,
      backgroundImage := "",
      backgroundSize := "cover",
      backgroundPosition := "center",
      backgroundOverlay := 0.5,
      fontFamily := "'Noto Sans JP', sans-serif",
      fontSize := 16,
      headingSize := 48,
      lineHeight := 1.6,
      letterSpacing := 0.0,
      textAlign := "center",
      borderWidth := 0,
      borderColor := "#e5e7eb",
      borderRadius := 0,
      boxShadow := "none",
      shadowX := 0,
      shadowY := 4,
      shadowBlur := 20,
      shadowSpread := 0,
      shadowColor := "rgba(0,0,0,0.1)",
      animation := "fadeIn",
      animationDuration := 0.6,
      animationDelay := 0.0,
      maxWidth := "1200px",
      columns := if t == Features then 3 else if t == Pricing then 3 else 1,
      gap := 32,
      customCSS := "")
  }

  /** No field other than the colour scheme, the vertical padding and the column count depends
      on the section type: overwriting those five in one type's defaults gives another's. */
  lemma DefaultStylesDifferOnlyInTypedFields(t: SectionType, u: SectionType)
    ensures var d := GetDefaultStyles(u);
            GetDefaultStyles(t).(backgroundColor := d.backgroundColor, textColor := d.textColor,
                                 paddingTop := d.paddingTop, paddingBottom := d.paddingBottom,
                                 columns := d.columns) == d
  {
  }

  /** The ranges the style editor's controls keep a style inside. */
  predicate InEditorRanges(s: SectionStyles)
  {
    && 0 <= s.paddingTop <= 200 && 0 <= s.paddingBottom <= 200
    && 0 <= s.paddingLeft <= 100 && 0 <= s.paddingRight <= 100
    && 1 <= s.columns <= 6 && 8 <= s.gap <= 64
    && 0 <= s.gradientDirection <= 360
    && 0.0 <= s.backgroundOverlay <= 1.0
    && 0 <= s.borderRadius <= 48 && 0 <= s.borderWidth <= 8
    && 0 <= s.shadowBlur <= 100
    && -50 <= s.shadowX <= 50 && -50 <= s.shadowY <= 50 && -50 <= s.shadowSpread <= 50
    && -2.0 <= s.letterSpacing <= 10.0
    && 24 <= s.headingSize <= 96 && 12 <= s.fontSize <= 24
    && 1.0 <= s.lineHeight <= 2.5
    && 0.1 <= s.animationDuration <= 2.0 && 0.0 <= s.animationDelay <= 2.0
    && s.animation in Animations
    && (exists f :: f in Fonts && f.value == s.fontFamily)
  }

  /** Every default style is one the editor's controls could have produced: its numbers lie in
      the slider ranges, its animation is a picker value and its font is a catalogue font. */
  lemma DefaultStylesInEditorRanges(t: SectionType)
    ensures InEditorRanges(GetDefaultStyles(t))
  {
    assert Fonts[0] in Fonts;
  }

  /** The default button style: an 8px-rounded sky-blue button whose border colour is its
      background colour and whose border is zero wide; its sizes lie in the editor's ranges. */
  function GetDefaultButtonStyles(): (r: ButtonStyles)
    ensures r.borderColor == r.backgroundColor
    ensures r.borderWidth == 0 && r.borderRadius == 8
    ensures 8 <= r.paddingX <= 64 && 4 <= r.paddingY <= 32 && 12 <= r.fontSize <= 24
  {
    ButtonStyles(
      backgroundColor := "#0ea5e9",
      textColor := "#ffffff",
      borderRadius := 8,
      paddingX := 32,
      paddingY := 16,
      fontSize := 16,
      fontWeight := "600",
      borderWidth := 0,
      borderColor := "#0ea5e9",
      shadow := "0 4px 14px rgba(14, 165, 233, 0.4)",
      hoverEffect := "lift")
  }

  /** The page settings a new page starts with (src/App.tsx:236-249). */
  function DefaultPageSettings(): (r: PageSettings)
    ensures r.fontPrimary == Fonts[0].value
    ensures r.customHead == "" && r.customCSS == ""
  {
    PageSettings(
      title := "My Landing Page",
      description := "Created with LP Builder Pro",
      favicon := "",
      ogImage := "",
      themeColor := "#0ea5e9",
      fontPrimary := "'Noto Sans JP', sans-serif",
      fontSecondary := "'Inter', sans-serif",
      colorPrimary := "#0ea5e9",
      colorSecondary := "#8b5cf6",
      colorAccent := "#f59e0b",
      customHead := "",
      customCSS := "")
  }
}
