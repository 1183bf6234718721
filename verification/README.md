# Clipy tray menu and clipboard capture, in Dafny

Clipy is a clipboard-history manager for Windows. Its main form
(`Clipy/Form1.cs`) listens for clipboard changes and saves each new text as
a history. It keeps named groups of snippets, and it rebuilds a tray menu
from both. This project models the parts of that form that hold real logic:

- **Title shortening** (`Text`, in `text.dfy`). `shorttenedContent` cuts a
  label to `MAX_MENU_TITLE` characters and appends `"..."`. A menu title is
  `shorttenedContent(content.Trim().FirstLine())`.
- **Paging** (`Pagination`, in `partition.dfy`). `organizeHistoriesMenu` shows
  at most `MAX_COUNT` records. It puts them in pages of
  `NUMBER_OF_ITEMS_PER_GROUP` entries. Each page is labelled with its range,
  and each entry is numbered within its page and tagged with its record's id.
  - The method `OrganizeHistoriesMenu` is the source's loop. It mutates a
    "current page" and is proved equal to the functional `Partition`.
  - The lemmas then state what `Partition` guarantees.
- **Menu assembly** (`Assembly`, in `assembly.dfy`). `UpdateTrayMenu` builds
  the menu in this order:
  1. the history pages;
  2. a separator, only when there are groups;
  3. one item per group;
  4. the fixed actions.

  The method follows the source's additions, one item at a time, and is
  proved equal to `TrayMenu`.
- **Capture** (`Capture`, in `capture.dfy`). `ClipboardDataChanged` saves a
  history only for a non-empty text. The text is saved as it is, untrimmed.
  Exceptions from the clipboard, the store or the menu rebuild are
  swallowed.
- **Editor guards** (`Guards`, in `guards.dfy`):
  - which buttons a selection of groups or snippets enables;
  - which group names are accepted;
  - what the content box shows for a selection of snippets.

`Base` (`base.dfy`) holds `Option` and `Min`. `Menu` (`menu.dfy`) holds the
menu as data:

- WinForms `MenuItem` objects become the datatype `MenuItem`, with these cases:
  - page items;
  - group nodes;
  - separators;
  - the fixed actions.
- A leaf's `Tag` and `Click` handler become an `Entry`'s `tag` and `onClick`.
- Label strings are kept as their numbers:
  - `lower` and `upper` of `"{lower} - {upper}"`;
  - the entry `number` of `"{n}. "`.

The three settings `MAX_COUNT`, `MAX_MENU_TITLE` and
`NUMBER_OF_ITEMS_PER_GROUP` are the fields of `Config`. The records that
`LoadHistories` and `LoadSnippetsInGroup` return are inputs.

### How the source's arithmetic is modelled

- **Division and remainder.** C# `%` and `/` truncate toward zero, and
  Dafny's are Euclidean. The loop only divides record indices `i >= 0`, and
  for those the two agree (`DivInPage`, `RemainderAt`).
- **Zero page size.** `NUMBER_OF_ITEMS_PER_GROUP == 0` makes `i % n` throw as
  soon as any record is shown.
- **Negative title length.** A negative `MAX_MENU_TITLE` makes
  `Substring(0, MAX_MENU_TITLE)` throw.
- **What the precondition excludes.** These throwing settings are what
  `CanPartition` and `CanBuildMenu` rule out, and nothing else.
- **Negative page size.** A negative `NUMBER_OF_ITEMS_PER_GROUP` does not
  throw. Records are then paged by its absolute value. The labels are
  computed by the source's own formula `(i / n) * n + delta`, as
  `UpperLimit`, whatever they come out as.
- **`FirstLine()`.** This extension method is not part of this model's
  source. It is taken to be the text before the first `'\n'` or `'\r'`.
- **`Trim()`.** It removes the characters `char.IsWhiteSpace` accepts.

### Behaviour of the code worth knowing

- Flat group entries carry no number prefix (`Clipy/Form1.cs:409`).
- The separator after the history pages is added only when there is a
  group (`Clipy/Form1.cs:384`).
- A shortened title runs up to `MAX_MENU_TITLE + 3` characters, the ellipsis
  included (`Clipy/Form1.cs:433`).
- A page size of zero throws as soon as a record is shown; a negative page
  size pages by its absolute value (`Clipy/Form1.cs:448`).
- Only `null` and `""` are refused as clipboard text, so text of white space
  only is saved (`Clipy/Form1.cs:229`).
- Adding a group trims the name and refuses a blank one
  (`Clipy/Form1.cs:291-295`); renaming takes any non-empty input as it is
  (`Clipy/Form1.cs:330`).

## Model

| member | source | states |
|---|---|---|
| Text.TrimSpec | Clipy/Form1.cs:464 | `Trim()` keeps the part of the text between its leading and trailing white space, which it drops; the result is empty exactly when the text is all white space and otherwise starts and ends with a non-space |
| Text.TrimStartSpec | Clipy/Form1.cs:464 | dropping leading white space keeps a suffix, and everything dropped is white space |
| Text.TrimEndSpec | Clipy/Form1.cs:464 | dropping trailing white space keeps a prefix, and everything dropped is white space |
| Text.TrimIdempotent | Clipy/Form1.cs:464 | trimming twice is trimming once |
| Text.FirstLineSpec | Clipy/Form1.cs:465 | `FirstLine()` is the longest prefix without a line break: the whole text when it has none |
| Text.ShortenedSpec | Clipy/Form1.cs:428-439 | the result keeps the first `min(length, MAX_MENU_TITLE)` characters and ends with `"..."` exactly when the text was longer than `MAX_MENU_TITLE`; so a short text comes back unchanged and no result is longer than `MAX_MENU_TITLE + 3` |
| Text.ShortenedIdempotent | Clipy/Form1.cs:428-439 | shortening a shortened title changes nothing |
| Text.ShortenedToNothing | Clipy/Form1.cs:431-434 | with `MAX_MENU_TITLE == 0` every non-empty text becomes `"..."` alone |
| Text.ShortenedSingleLine | Clipy/Form1.cs:428-439 | shortening a text without line breaks gives a text without line breaks |
| Text.MenuTitleSingleLine | Clipy/Form1.cs:464-465 | a menu title is a single line, at most `MAX_MENU_TITLE + 3` long, starting with the trimmed first line cut to `MAX_MENU_TITLE` |
| Pagination.PageCountIsCeiling | Clipy/Form1.cs:446-461 | the number of pages opened for `a > 0` records is `ceil(a / p)` |
| Pagination.DivInPage | Clipy/Form1.cs:448-457 | for record `i` in block `k` of `abs(n)` records, `i % n` is its offset in the block and `i / n` is `k` (or `-k` for negative `n`), as C#'s truncating operators give for `i >= 0` |
| Pagination.RemainderAt | Clipy/Form1.cs:448-449 | `i % n == 0` exactly when the pages opened so far are full; otherwise it is record `i`'s offset in the last page |
| Pagination.PaginateLength | Clipy/Form1.cs:446-461 | the pages for a range of records number one per started block of `abs(n)` records |
| Pagination.PaginateAt | Clipy/Form1.cs:449-469 | page `k` of a range is the page opened at the range's `k * abs(n)`-th record |
| Pagination.PaginateTags | Clipy/Form1.cs:463-467 | the tags of a range's pages are the ids of its records, in order |
| Pagination.MakePageExtend | Clipy/Form1.cs:462-469 | adding the next record to a page appends its entry, numbered after the others |
| Pagination.PaginateOnePage | Clipy/Form1.cs:449-460 | records that fit in one page make a single page |
| Pagination.PaginateSplit | Clipy/Form1.cs:446-470 | the pages for a range split at a page boundary are the pages before it followed by the pages after it |
| Pagination.LoopTurnOpens | Clipy/Form1.cs:448-469 | a turn with `i % n == 0` opens a page labelled `1 + i` to `(i / n) * n + delta` that holds record `i`, numbered 1 |
| Pagination.LoopTurnJoins | Clipy/Form1.cs:462-469 | a turn with `i % n != 0` appends record `i`, numbered `i % n + 1`, to the last page |
| Pagination.LoopTurn | Clipy/Form1.cs:446-470 | one turn of the loop, as the source writes it (open a page when the remainder is 0, then add the entry to the current page), yields the pages for one more record |
| Pagination.OrganizeHistoriesMenu | Clipy/Form1.cs:441-471 | the loop with its mutated current page adds exactly the pages `Partition` describes |
| Pagination.PartitionLength | Clipy/Form1.cs:443-461 | with `total = min(count, MAX_COUNT)`, there are no pages when `total <= 0` and `ceil(total / abs(n))` pages otherwise |
| Pagination.PartitionPageBounds | Clipy/Form1.cs:443-469 | page `k` starts at record `k * abs(n) < total` and is labelled `k * abs(n) + 1` to the source's upper limit; every page but the last holds exactly `abs(n)` entries; no page is empty or runs past `total` |
| Pagination.PartitionPageEntries | Clipy/Form1.cs:462-469 | entry `j` of page `k` is record `k * abs(n) + j`, numbered `j + 1`, titled with the record's shortened first line, tagged with its id and wired to the given handler |
| Pagination.PartitionLabel | Clipy/Form1.cs:451-459 | for `n > 0`, page `k` is labelled `k * n + 1` to `min(k * n + n, total)`; each upper bound is one less than the next lower bound, and the last is `total` |
| Pagination.PartitionLabels | Clipy/Form1.cs:451-459 | the labels of all pages together: contiguous ranges that start at 1 and end at `total` |
| Pagination.PartitionTags | Clipy/Form1.cs:443-467 | the tags of all pages, in order, are the ids of the first `total` records: no record at index `total` or later appears |
| Pagination.PartitionTwentyFive | Clipy/Form1.cs:441-471 | 25 records in pages of 10 under a cap of 100 make pages 1-10, 11-20 and 21-25, and the last holds 5 entries numbered 1 to 5 |
| Pagination.PartitionCappedAtFive | Clipy/Form1.cs:443 | a cap of 5 over 25 records leaves one page 1-5 of 5 entries |
| Assembly.MakeGroupItem | Clipy/Form1.cs:386-415 | the `ForEach` callback builds exactly the group item `GroupItem` describes |
| Assembly.UpdateTrayMenu | Clipy/Form1.cs:373-426 | the additions to the context menu produce exactly `TrayMenu` |
| Assembly.TrayMenuLayout | Clipy/Form1.cs:380-423 | the menu is the history pages, then a separator only if there is a group, then one item per group in load order, then separator, edit, settings, delete-histories, separator, exit |
| Assembly.TrayMenuSeparators | Clipy/Form1.cs:384-422 | the menu holds three separators when there are groups and two when there are none |
| Assembly.GroupItemShape | Clipy/Form1.cs:387-401 | a group item carries the group's name, is enabled exactly when the group has a snippet, and is paged exactly when it has more than `NUMBER_OF_ITEMS_PER_GROUP` snippets, so exactly that many stay flat |
| Assembly.FlatGroupEntries | Clipy/Form1.cs:404-413 | a flat group lists every snippet in order, unnumbered, titled with its shortened first line, tagged with its id and wired to `Snippet_Click` |
| Assembly.PagedGroupEntries | Clipy/Form1.cs:398-401 | a paged group's pages are `organizeHistoriesMenu`'s, so they show only the first `MAX_COUNT` snippets, in order |
| Assembly.TrayMenuHistoryTags | Clipy/Form1.cs:377-380 | the menu starts with the history pages, whose tags are the ids of the first `min(count, MAX_COUNT)` histories in load order |
| Assembly.SaneSettingsBuildMenu | Clipy/Form1.cs:373-426 | a positive page size and a non-negative title length let the menu be built for any histories and groups |
| Capture.ClipboardDataChanged | Clipy/Form1.cs:217-242 | the handler saves what `Captured` gives unless reading the clipboard or saving throws, in which case nothing is saved; the menu is rebuilt exactly when a history was saved and the rebuild does not throw; no exception leaves the handler |
| Capture.CapturedSpec | Clipy/Form1.cs:221-234 | a change saves at most one history, and one exactly when the data object offers a non-null, non-empty text; that history holds the text verbatim and the time of the change |
| Capture.NothingCaptured | Clipy/Form1.cs:222-229 | a null data object, data without text, a null string and `""` save nothing |
| Capture.WhiteSpaceCaptured | Clipy/Form1.cs:229-231 | text of white space only is saved untrimmed, though its menu title is empty |
| Guards.GroupButtons | Clipy/Form1.cs:266-281 | for the selection count `ReloadSnippetsList` reads, delete is enabled exactly when it is at least 1 and rename exactly when it is 1 |
| Guards.SameSelectionRule | Clipy/Form1.cs:513-515 | as functions of a selection count, the snippet buttons (edit for one, delete for one or more) follow the same rule as the group buttons, and the single-row button never goes on without delete |
| Guards.GroupNameToAdd | Clipy/Form1.cs:291-295 | a typed group name is refused exactly when it is all white space; otherwise the name added is the trimmed, non-empty text |
| Guards.AddedNameTrimmed | Clipy/Form1.cs:291 | an added name neither starts nor ends with white space, and adding it again as typed gives the same name |
| Guards.BlankNameRenamedNotAdded | Clipy/Form1.cs:330 | a name of white space only is refused when adding a group but accepted, untrimmed, when renaming one |
| Guards.SnippetPreview | Clipy/Form1.cs:517-528 | the content box shows the selected snippet exactly when one snippet is selected at an index in range, the "multiple" message exactly when several are, and nothing otherwise |

## Left out

- The Win32 clipboard-viewer chain (`WndProc`, `SetClipboardViewer`, `SendMessage`) is operating-system message plumbing. The model starts from the data object a change hands over.
- `DataProcess` is not part of this model. Its loads are inputs, and `SaveHistory` is the list of saved histories. A call that throws is a `Fault` parameter of `ClipboardDataChanged`.
- `DateTime.Now` is the parameter `now`.
- Localized strings, message boxes, input dialogs, fonts, window showing and hiding, and the 0.1 s `Timer` that `SettingsMenu_Click` waits on after the settings dialog are UI.
- The click handlers `SubMenu_Click` and `Snippet_Click`, and the double-click handlers, write to the clipboard and look rows up in UI state.
- `string.Format` rendering is left out: labels are kept as their numbers, and titles as strings.
- Assembly.UpdateTrayMenu: the group item is added to the context menu before its children and `Enabled` are set. Here it is a value built first and then appended. The resulting menu is the same, but aliasing between the item and the menu is not modelled.
- Assembly.UpdateTrayMenu: the form's `groups` field is loaded once and then reused. Here the groups are an input. The model does not capture that a stale `groups` list can hide groups added later.
- Assembly.UpdateTrayMenu: assigning the form's `histories` field, which `SubMenu_Click` reads, is left out with that handler.
- Assembly.UpdateTrayMenu: calls with settings that make `%` or `Substring` throw are excluded by `CanBuildMenu` rather than modelled as exceptions. The same holds for `Pagination.OrganizeHistoriesMenu` under `CanPartition`.
- The selection handling of the group list, `groupList_SelectedIndexChanged`, is list-box plumbing.
- Text.ShortenedSpec / Text.Shortened: a Dafny string is a sequence of Unicode scalar values, while `Count()` and `Substring` count UTF-16 code units. Text outside the Basic Multilingual Plane is therefore cut later than the source cuts it, the `MAX_MENU_TITLE + 3` bound is in scalar values, and a surrogate pair split by `Substring` is not modelled.
- Assembly.TrayMenuSeparators: the count is of the items the builder adds as separators. WinForms draws any item captioned `"-"` as a separator bar, so a group named `"-"`, or a flat snippet entry titled `"-"`, also shows as one; the model keeps such a `GroupNode` or `Entry` apart from `Separator`.
- Assembly.GroupItemShape: "paged" is the tag of `Children`. The source builds the same childless item for `Pages([])` and `Flat([])`, which arise for a group with no snippets under a negative page size and for a paged group under `MAX_COUNT <= 0`.
- The `Console.WriteLine` logging of `ClipboardDataChanged` (`Clipy/Form1.cs:223`, `:240`) is dropped.
- A record's content is never null here. The source's `history.Content.Trim()` (`Clipy/Form1.cs:408`, `:464`) would throw on a null content, and that exception is not modelled.
- Guards.GroupButtons: the group buttons are set only for the selection count `ReloadSnippetsList` reads, and it is never called for an empty selection (`Clipy/Form1.cs:247-252`). After a deselection the buttons keep their previous state, unlike the snippet buttons, which are recomputed on every selection change (`Clipy/Form1.cs:513-515`). The model states the rule as a function of a count and does not capture that stale state.
