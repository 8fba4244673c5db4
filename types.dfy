/** The shared vocabulary: the three summary styles and the stored record. */
module Types {
  import opened Wrappers

  /** The closed set of summary styles. */
  datatype Style = Concise | Detailed | BulletPoints

  /** The wire spelling of a style. */
  function StyleName(s: Style): string {
    match s
    case Concise => "concise"
    case Detailed => "detailed"
    case BulletPoints => "bullet-points"
  }

  /** Membership in the list of valid styles: the style a string spells, if
      it spells one. */
  function ParseStyle(name: string): (r: Option<Style>)
    ensures r.Some? ==> StyleName(r.value) == name
    ensures r.None? ==> forall s: Style :: StyleName(s) != name
  {
    if name == "concise" then Some(Concise)
    else if name == "detailed" then Some(Detailed)
    else if name == "bullet-points" then Some(BulletPoints)
    else None
  }

  /** Every style's spelling is recognised as that style. */
  lemma ParseStyleName(s: Style)
    ensures ParseStyle(StyleName(s)) == Some(s)
  {
  }

  /** A persisted summary. Timestamps are milliseconds since the epoch. */
  datatype Summary = Summary(
    id: string,
    originalText: string,
    summaryText: string,
    summaryStyle: Style,
    createdAt: int,
    updatedAt: int)
}
