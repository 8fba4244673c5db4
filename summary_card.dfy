/** The summary card: its text preview, its style badge and label, and its
    delete button. */
module SummaryCard {
  import opened Wrappers
  import opened Types

  /** Characters of the original text shown while the card is collapsed. */
  const PreviewLength: nat := 150

  const ConciseBadge: string := "bg-blue-100 text-blue-800"
  const DetailedBadge: string := "bg-green-100 text-green-800"
  const BulletPointsBadge: string := "bg-purple-100 text-purple-800"
  const DefaultBadge: string := "bg-gray-100 text-gray-800"

  /** `truncateText`: short text is kept whole; longer text is cut to
      `maxLength` characters and marked with an ellipsis. */
  function TruncateText(text: string, maxLength: nat): (r: string)
    ensures |text| <= maxLength ==> r == text
    ensures |r| == if |text| <= maxLength then |text| else maxLength + 3
    ensures |text| > maxLength ==> text[..maxLength] <= r && r[maxLength..] == "..."
    ensures var shown := if |text| <= maxLength then |text| else maxLength;
      r[..shown] == text[..shown]
  {
    if |text| <= maxLength then text else text[..maxLength] + "..."
  }

  /** `getStyleBadgeColor`: one colour per known style, grey for anything
      else. */
  function BadgeColor(style: string): (r: string)
    ensures r == DefaultBadge <==> ParseStyle(style).None?
  {
    match style
    case "concise" => ConciseBadge
    case "detailed" => DetailedBadge
    case "bullet-points" => BulletPointsBadge
    case _ => DefaultBadge
  }

  /** The three styles get three different colours. */
  lemma BadgeColorsDistinct(a: Style, b: Style)
    ensures a != b ==> BadgeColor(StyleName(a)) != BadgeColor(StyleName(b))
  {
  }

  /** The position of the first `c` in `s`, or `|s|` when there is none. */
  function IndexOf(s: string, c: char): (k: nat)
    ensures k <= |s|
    ensures k < |s| ==> s[k] == c
    ensures forall j :: 0 <= j < k ==> s[j] != c
  {
    if s == [] then 0
    else if s[0] == c then 0
    else 1 + IndexOf(s[1..], c)
  }

  /** `String.prototype.replace` with a one-character pattern: only the first
      occurrence of `from` becomes `to`; a string without `from` is
      unchanged. */
  function ReplaceFirst(s: string, from: char, to: char): (r: string)
    ensures |r| == |s|
    ensures forall i :: 0 <= i < |s| ==> r[i] == if i == IndexOf(s, from) then to else s[i]
  {
    if s == [] then []
    else if s[0] == from then [to] + s[1..]
    else [s[0]] + ReplaceFirst(s[1..], from, to)
  }

  /** The badge text: the style with its first hyphen turned into a space. */
  function StyleLabel(style: string): string {
    ReplaceFirst(style, '-', ' ')
  }

  /** The labels the three styles actually get: "bullet points" for
      bullet-points, the name itself for the others. */
  lemma StyleLabelOf(style: Style, name: string)
    requires name == StyleName(style)
    ensures StyleLabel(name) == if style == BulletPoints then "bullet points" else name
  {
    if style == BulletPoints {
      LabelOfHyphenated("bullet", "points");
    } else {
      LabelWithoutHyphen(name);
    }
  }

  /** A label without a hyphen is the style itself. */
  lemma LabelWithoutHyphen(style: string)
    requires forall i :: 0 <= i < |style| ==> style[i] != '-'
    ensures StyleLabel(style) == style
  {
    assert IndexOf(style, '-') == |style|;
  }

  /** A word pair joined by a hyphen is shown joined by a space. */
  lemma LabelOfHyphenated(first: string, second: string)
    requires '-' !in first
    ensures StyleLabel(first + "-" + second) == first + " " + second
  {
    var s := first + "-" + second;
    assert s[|first|] == '-';
    assert forall j :: 0 <= j < |first| ==> s[j] == first[j];
    assert IndexOf(s, '-') == |first|;
  }

  /** The answer to the DELETE request: its `success` flag, or an error
      thrown while fetching or parsing. */
  datatype DeleteReply = Replied(success: bool) | Thrown

  class Card {
    const summary: Summary
    var isExpanded: bool
    var isDeleting: bool

    constructor (summary: Summary)
      ensures this.summary == summary && !isExpanded && !isDeleting
    {
      this.summary := summary;
      isExpanded, isDeleting := false, false;
    }

    /** The original text as the card shows it: whole when expanded, else
        its first 150 characters and an ellipsis. */
    function Preview(): (r: string)
      reads this
      ensures !isExpanded ==> r == TruncateText(summary.originalText, PreviewLength)
      ensures !isExpanded ==> |r| <= PreviewLength + 3
      ensures isExpanded ==> r == summary.originalText
    {
      if isExpanded then summary.originalText else TruncateText(summary.originalText, PreviewLength)
    }

    method ToggleExpanded()
      modifies this
      ensures isExpanded == !old(isExpanded) && isDeleting == old(isDeleting)
    {
      isExpanded := !isExpanded;
    }

    /** The first half of `handleDelete`: nothing happens unless the user
        confirms; then the button is disabled and the request names this
        card's id. */
    method BeginDelete(confirmed: bool) returns (request: Option<string>)
      modifies this
      ensures request == (if confirmed then Some(summary.id) else None)
      ensures isDeleting == (confirmed || old(isDeleting))
      ensures isExpanded == old(isExpanded)
    {
      if !confirmed {
        return None;
      }
      isDeleting := true;
      request := Some(summary.id);
    }

    /** The second half of `handleDelete`: `onDelete` is called with this
        card's id only when the server reports success; any other answer
        raises the alert. The button is enabled again either way. */
    method FinishDelete(reply: DeleteReply) returns (onDelete: Option<string>, alerted: bool)
      modifies this
      ensures onDelete == (if reply == Replied(true) then Some(summary.id) else None)
      ensures alerted <==> onDelete.None?
      ensures !isDeleting && isExpanded == old(isExpanded)
    {
      if reply == Replied(true) {
        onDelete, alerted := Some(summary.id), false;
      } else {
        onDelete, alerted := None, true;
      }
      isDeleting := false;
    }
  }
}
