/** The fixed palette offered for treatments, and looking a colour's name up
    by its hex code regardless of letter case (TreatmentColors.swift). */
module TreatmentColors {
  import opened Wrappers
  import opened Lists

  /** One palette entry: a display name, a "#RRGGBB" code and an emoji. The
      random identity each entry gets in the app is not part of this model. */
  datatype ColorOption = ColorOption(name: string, value: string, emoji: string)

  const Palette: seq<ColorOption> := [
    ColorOption("메인 핑크", "#FFA0B9", "💗"),
    ColorOption("어두운 핑크", "#F28AA5", "💕"),
    ColorOption("로즈 핑크", "#FF6B9D", "🌹"),
    ColorOption("코랄 핑크", "#FF8FAB", "🪸"),
    ColorOption("라벤더", "#E0BBE4", "💜"),
    ColorOption("피치", "#FFB6C1", "🍑"),
    ColorOption("레드", "#FF3B30", "🔴"),
    ColorOption("오렌지", "#FF9500", "🟠"),
    ColorOption("옐로우", "#FFCC00", "🟡"),
    ColorOption("민트", "#30D158", "💚"),
    ColorOption("스카이블루", "#5AC8FA", "🩵"),
    ColorOption("퍼플", "#AF52DE", "🟣"),
    ColorOption("브라운", "#A2845E", "🟤"),
    ColorOption("그레이", "#8E8E93", "⚫"),
    ColorOption("라이트그레이", "#C7C7CC", "⚪")
  ]

  function UpperChar(c: char): char
  {
    if 'a' <= c <= 'z' then (c as int - 32) as char else c
  }

  /** `uppercased()` on ASCII letters; every other character is kept. */
  function Upper(s: string): (u: string)
    ensures |u| == |s|
    ensures forall i :: 0 <= i < |s| ==> u[i] == UpperChar(s[i])
  {
    if s == [] then [] else [UpperChar(s[0])] + Upper(s[1..])
  }

  /** Whether a palette entry's code equals `hex` ignoring letter case. */
  predicate Matches(hex: string, o: ColorOption)
  {
    Upper(o.value) == Upper(hex)
  }

  /** `name(for:)` over a given palette: the name of the first entry whose
      code matches `hex` ignoring case, or none. */
  function NameIn(palette: seq<ColorOption>, hex: string): (r: Option<string>)
    ensures r.None? <==> forall i :: 0 <= i < |palette| ==> !Matches(hex, palette[i])
    ensures r.Some? ==> exists i :: 0 <= i < |palette| && Matches(hex, palette[i])
                          && palette[i].name == r.value
                          && forall j :: 0 <= j < i ==> !Matches(hex, palette[j])
  {
    match FirstIndex(palette, o => Matches(hex, o))
    case None => None
    case Some(i) => Some(palette[i].name)
  }

  /** `TreatmentColors.name(for:)`. */
  function NameFor(hex: string): (r: Option<string>)
    ensures r.None? <==> forall i :: 0 <= i < |Palette| ==> !Matches(hex, Palette[i])
    ensures r.Some? ==> exists i :: 0 <= i < |Palette| && Matches(hex, Palette[i])
                          && Palette[i].name == r.value
  {
    NameIn(Palette, hex)
  }

  // ---------------------------------------------------------------- lemmas

  lemma UpperOfUpper(s: string)
    requires forall i :: 0 <= i < |s| ==> !('a' <= s[i] <= 'z')
    ensures Upper(s) == s
  {
  }

  /** Every palette code is already upper case. */
  lemma PaletteUpper()
    ensures forall i :: 0 <= i < |Palette| ==> Upper(Palette[i].value) == Palette[i].value
  {
    forall i | 0 <= i < |Palette| ensures Upper(Palette[i].value) == Palette[i].value {
      UpperOfUpper(Palette[i].value);
    }
  }

  /** The fifteen palette codes differ pairwise, even ignoring case. */
  lemma PaletteDistinct()
    ensures |Palette| == 15
    ensures forall i, j :: 0 <= i < j < |Palette| ==> Upper(Palette[i].value) != Upper(Palette[j].value)
  {
    PaletteUpper();
    CodesDistinct();
  }

  /** The fifteen codes as spelled in the palette differ pairwise. */
  lemma CodesDistinct()
    ensures forall i, j :: 0 <= i < j < |Palette| ==> Palette[i].value != Palette[j].value
  {
  }

  /** So at most one entry matches a code, and a found name is the only one. */
  lemma NameForUnique(hex: string, i: nat)
    requires i < |Palette| && Matches(hex, Palette[i])
    ensures NameFor(hex) == Some(Palette[i].name)
    ensures forall j :: 0 <= j < |Palette| && j != i ==> !Matches(hex, Palette[j])
  {
    PaletteDistinct();
  }

  /** Lower-case input finds the main pink. */
  lemma LowerCaseLookup()
    ensures NameFor("#ffa0b9") == Some("메인 핑크")
  {
    var hex := "#ffa0b9";
    assert Upper(hex) == "#FFA0B9";
    PaletteUpper();
    NameForUnique(hex, 0);
  }
}
