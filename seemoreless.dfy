/** The `SeeMoreLess` component: a text shown truncated to `maxLength`
    characters with an ellipsis until expanded, and a "See More" / "See
    Less" toggle shown only when the text is longer than `maxLength`. */
module SeeMoreLess {
  import opened Common

  const DefaultMaxLength: int := 100
  const DefaultMoreText: string := "See More"
  const DefaultLessText: string := "See Less"
  const Ellipsis: string := "..."

  function Max0(n: int): nat {
    if n < 0 then 0 else n
  }

  /** `text.substring(0, end)`: the end is clamped into [0, |text|]. */
  function Substring(text: string, end: int): (r: string)
    ensures |r| == if end > |text| then |text| else Max0(end)
    ensures r == text[..|r|]
  {
    text[..if end > |text| then |text| else Max0(end)]
  }

  /** `displayedText`. */
  function DisplayedText(text: string, maxLength: int, isExpanded: bool): (d: string)
    ensures isExpanded ==> d == text
    ensures !isExpanded && |text| <= maxLength ==> d == text
    ensures !isExpanded && |text| > maxLength ==>
      Max0(maxLength) <= |text| && d == text[..Max0(maxLength)] + Ellipsis
    ensures !isExpanded ==> |d| <= Max0(maxLength) + |Ellipsis|
  {
    if isExpanded then text
    else Substring(text, maxLength) + (if |text| > maxLength then Ellipsis else "")
  }

  /** The toggle's label, with the leading space the component renders. */
  function ToggleLabel(isExpanded: bool, moreText: string, lessText: string): (r: string)
    ensures |r| >= 1 && r[0] == ' '
    ensures r[1..] == if isExpanded then lessText else moreText
  {
    " " + (if isExpanded then lessText else moreText)
  }

  /** A mounted component: its props (defaults applied) and its state. */
  class Component {
    const text: string
    const maxLength: int
    const moreText: string
    const lessText: string
    var isExpanded: bool

    /** Props left undefined take their defaults; the text starts collapsed. */
    constructor (text: string, maxLength: Option<int>, moreText: Option<string>, lessText: Option<string>)
      ensures this.text == text && !isExpanded
      ensures this.maxLength == if maxLength.Some? then maxLength.value else DefaultMaxLength
      ensures this.moreText == if moreText.Some? then moreText.value else DefaultMoreText
      ensures this.lessText == if lessText.Some? then lessText.value else DefaultLessText
    {
      this.text := text;
      this.maxLength := if maxLength.Some? then maxLength.value else DefaultMaxLength;
      this.moreText := if moreText.Some? then moreText.value else DefaultMoreText;
      this.lessText := if lessText.Some? then lessText.value else DefaultLessText;
      isExpanded := false;
    }

    /** `toggleExpand`: flips the state, so two toggles restore it. */
    method ToggleExpand()
      modifies this
      ensures isExpanded == !old(isExpanded)
    {
      isExpanded := !isExpanded;
    }

    /** What the component renders: the displayed text, and the toggle's
      label when the toggle is shown at all. */
    method Render() returns (displayed: string, toggle: Option<string>)
      ensures displayed == DisplayedText(text, maxLength, isExpanded)
      ensures isExpanded || |text| <= maxLength ==> displayed == text
      ensures !isExpanded && |text| > maxLength ==>
        Max0(maxLength) <= |text| && displayed == text[..Max0(maxLength)] + Ellipsis
      ensures !isExpanded ==> |displayed| <= Max0(maxLength) + |Ellipsis|
      ensures toggle.Some? <==> |text| > maxLength
      ensures toggle.Some? ==> toggle.value == ToggleLabel(isExpanded, moreText, lessText)
      ensures toggle.Some? ==> toggle.value == " " + (if isExpanded then lessText else moreText)
    {
      displayed := DisplayedText(text, maxLength, isExpanded);
      toggle := if |text| > maxLength then Some(ToggleLabel(isExpanded, moreText, lessText)) else None;
    }
  }
}
