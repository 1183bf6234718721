/**
 * The small decisions of the snippet editor window: which buttons a
 * selection enables, which group names are accepted, and what the content
 * box shows for a selection of snippets.
 */
module Guards {

  import opened Base
  import opened Text

  /**
   * The two selection-dependent buttons of a list: one that acts on every
   * selected row (delete) and one that acts on a single row (rename a
   * group, edit a snippet).
   */
  datatype Buttons = Buttons(delete: bool, single: bool)

  /**
   * The group buttons `ReloadSnippetsList` enables for the number of
   * selected groups: both for one group, only delete for several, neither
   * for none.
   */
  function GroupButtons(selectionCount: int): (r: Buttons)
    ensures r.delete <==> selectionCount >= 1
    ensures r.single <==> selectionCount == 1
  {
    if selectionCount == 1 then Buttons(true, true)
    else if selectionCount > 1 then Buttons(true, false)
    else Buttons(false, false)
  }

  /** The snippet buttons `snippetsList_SelectedIndexChanged` enables. */
  function SnippetButtons(selectionCount: int): Buttons
  {
    Buttons(selectionCount >= 1, selectionCount == 1)
  }

  /**
   * The snippet list and the group list follow the same rule, and in both
   * the single-row button is never on without the delete button.
   */
  lemma SameSelectionRule(selectionCount: int)
    ensures SnippetButtons(selectionCount) == GroupButtons(selectionCount)
    ensures GroupButtons(selectionCount).single ==> GroupButtons(selectionCount).delete
  {
  }

  /**
   * The name `addGroupButton_Click` adds for the text typed in: the text
   * trimmed, or nothing when only white space was typed.
   */
  function GroupNameToAdd(text: string): (r: Option<string>)
    ensures r == None <==> forall i :: 0 <= i < |text| ==> IsWhiteSpace(text[i])
    ensures r.Some? ==> r.value == Trim(text) && r.value != []
  {
    TrimSpec(text);
    var name := Trim(text);
    if |name| == 0 then None else Some(name)
  }

  /** An added name has no white space at either end, and trimming it again changes nothing. */
  lemma AddedNameTrimmed(text: string)
    requires GroupNameToAdd(text).Some?
    ensures var name := GroupNameToAdd(text).value;
      && !IsWhiteSpace(name[0]) && !IsWhiteSpace(name[|name| - 1])
      && GroupNameToAdd(name) == Some(name)
  {
    TrimSpec(text);
    TrimIdempotent(text);
  }

  /** `renameGroupButton_Click` renames to any input but the empty one, untrimmed. */
  function RenameAccepted(input: string): bool
  {
    input != ""
  }

  /**
   * A name of white space only is refused when a group is added, but is
   * taken as it is when a group is renamed.
   */
  lemma BlankNameRenamedNotAdded(text: string)
    requires text != [] && forall i :: 0 <= i < |text| ==> IsWhiteSpace(text[i])
    ensures GroupNameToAdd(text) == None && RenameAccepted(text)
  {
  }

  /** What the content box shows for a selection of snippets. */
  datatype Preview = Blank | ShowContent(content: string) | MultipleSelected

  /**
   * `snippetsList_SelectedIndexChanged`: the content of the selected
   * snippet when exactly one is selected and the index is in range, the
   * "multiple snippets" message when several are, and nothing otherwise.
   */
  function SnippetPreview(selectionCount: int, selectedIndex: int, snippets: seq<string>): (r: Preview)
    ensures r.ShowContent? <==> selectionCount == 1 && 0 <= selectedIndex < |snippets|
    ensures r.ShowContent? ==> r.content == snippets[selectedIndex]
    ensures r.MultipleSelected? <==> selectionCount > 1
    ensures r.Blank? <==> selectionCount < 1 || (selectionCount == 1 && !(0 <= selectedIndex < |snippets|))
  {
    if selectionCount == 1 then
      if selectedIndex < 0 || selectedIndex >= |snippets| then Blank else ShowContent(snippets[selectedIndex])
    else if selectionCount >= 1 then MultipleSelected
    else Blank
  }
}
