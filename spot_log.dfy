/**
 * The session-log lines written when an LPR read is matched to a spot or
 * the spot is freed: the description is built with `str.title()` and then
 * "Lpr" is put back to "LPR".
 */
module SpotLog {
  import opened Wrappers
  import opened Text

  /** `str(...)` of an optional spot name: the name itself, or the text "None" when it is missing. */
  function SpotNameText(spotName: Option<string>): (r: string)
    ensures spotName.Some? ==> r == spotName.value
    ensures spotName.None? ==> r == "None"
  {
    if spotName.Some? then spotName.value else "None"
  }

  /**
   * `text.title().replace('Lpr', 'LPR')`, the form of the spot-match
   * descriptions: a text that starts with the acronym "LPR" still does after
   * title-casing.
   */
  function TitledDescription(text: string): (r: string)
    ensures "LPR" <= text ==> "LPR" <= r
  {
    if "LPR" <= text then TitledKeepsAcronym(text); ReplaceAll(Title(text), "Lpr", "LPR")
    else ReplaceAll(Title(text), "Lpr", "LPR")
  }

  /** Title-casing turns a leading "LPR" into "Lpr", which the replacement puts back. */
  lemma TitledKeepsAcronym(text: string)
    requires "LPR" <= text
    ensures "LPR" <= ReplaceAll(Title(text), "Lpr", "LPR")
  {
    var rest := text[3..];
    assert text == "LPR" + rest;
    TitleFromAppend("LPR", rest, false);
    assert TitleFrom("LPR", false) == "Lpr";
    ReplaceLeading("Lpr", TitleFrom(rest, true), "LPR");
  }

  /** Title-casing keeps a trailing space. */
  lemma TitleKeepsTrailingSpace(s: string)
    requires s != [] && s[|s| - 1] == ' '
    ensures Title(s)[|s| - 1] == ' '
  {
    var front := s[..|s| - 1];
    assert s == front + " ";
    TitleFromAppend(front, " ", false);
    assert TitleFrom(" ", true) == " " && TitleFrom(" ", false) == " ";
  }

  /**
   * After a heading that ends in a space, a name is title-cased as a word of
   * its own, and no "Lpr" straddles the join.
   */
  lemma HeadingThenName(heading: string, name: string)
    requires heading != [] && heading[|heading| - 1] == ' '
    ensures ReplaceAll(Title(heading + name), "Lpr", "LPR") ==
            ReplaceAll(Title(heading), "Lpr", "LPR") + ReplaceAll(Title(name), "Lpr", "LPR")
  {
    TitleFromAppend(heading, name, false);
    assert !IsLetter(heading[|heading| - 1]);
    TitleKeepsTrailingSpace(heading);
    ReplaceAppend(Title(heading), Title(name), "Lpr", "LPR");
  }

  /** The heading of the description logged when an LPR read is matched to a spot. */
  const LPR_MATCH_HEADING := "LPR match to Spot name: "

  /** The heading of the description logged when the spot of an LPR-matched session is freed. */
  const LPR_FREE_HEADING := "LPR match to Spot Free name: "

  /** Both headings start with the acronym and end in a space. */
  lemma HeadingsShape()
    ensures "LPR" <= LPR_MATCH_HEADING && LPR_MATCH_HEADING[|LPR_MATCH_HEADING| - 1] == ' '
    ensures "LPR" <= LPR_FREE_HEADING && LPR_FREE_HEADING[|LPR_FREE_HEADING| - 1] == ' '
  {
  }

  /**
   * The description of an LPR spot match or spot free: the heading
   * title-cased with its acronym kept, then the spot name title-cased on
   * its own.
   */
  function LprDescription(heading: string, spotName: string): (r: string)
    ensures "LPR" <= heading ==> "LPR" <= r
    ensures heading != [] && heading[|heading| - 1] == ' ' ==>
              r == TitledDescription(heading) + TitledDescription(spotName)
  {
    if heading != [] && heading[|heading| - 1] == ' ' then
      HeadingThenName(heading, spotName);
      TitledDescription(heading + spotName)
    else
      TitledDescription(heading + spotName)
  }
}
