/**
 * The tray menu as data. `MainForm` builds it from WinForms `MenuItem`
 * objects; here each kind of item is a datatype case, and the `Tag` and
 * `Click` handler an item carries become the `tag` and `onClick` of an entry.
 */
module Menu {

  import opened Base

  /**
   * A stored `History` row as the menu builder reads it: clipboard
   * histories and group snippets share this record.
   */
  datatype Record = Record(id: int, content: string)

  /**
   * The three settings `reloadSettings` re-reads before each rebuild:
   * `MAX_COUNT` (numberOfHistories), `MAX_MENU_TITLE` (menuLength) and
   * `NUMBER_OF_ITEMS_PER_GROUP` (itemsPerGroup).
   */
  datatype Config = Config(maxCount: int, maxMenuTitle: int, itemsPerGroup: int)

  /**
   * Which click handler an entry is wired to: `SubMenu_Click` looks the tag
   * up among the loaded histories, `Snippet_Click` asks the store for it.
   */
  datatype Handler = SubMenuClick | SnippetClick

  /**
   * A leaf item. `number` is the 1-based position shown as the `"{n}. "`
   * prefix of a paged entry; flat snippet entries have none.
   */
  datatype Entry = Entry(number: Option<int>, title: string, tag: int, onClick: Handler)

  /** A page item labelled `"{lower} - {upper}"` holding its entries. */
  datatype Page = Page(lower: int, upper: int, entries: seq<Entry>)

  /**
   * What a group item holds: pages of snippets, or the snippets directly.
   * The tag records which branch built it; `Pages([])` and `Flat([])` stand
   * for the same childless WinForms item.
   */
  datatype Children = Pages(pages: seq<Page>) | Flat(entries: seq<Entry>)

  /** The fixed items at the bottom of the menu. */
  datatype Action = EditSnippets | Settings | DeleteHistories | Exit

  datatype MenuItem =
    | PageItem(page: Page)
    | GroupNode(name: string, enabled: bool, children: Children)
    | Separator
    | ActionItem(action: Action)

  /** The ids of some records, in order. */
  function Ids(rs: seq<Record>): seq<int>
  {
    seq(|rs|, i requires 0 <= i < |rs| => rs[i].id)
  }

  /** The tags of some entries, in order. */
  function Tags(es: seq<Entry>): seq<int>
  {
    seq(|es|, i requires 0 <= i < |es| => es[i].tag)
  }

  /** The tags of all entries of some pages, page after page. */
  function PageTags(ps: seq<Page>): seq<int>
  {
    if ps == [] then [] else Tags(ps[0].entries) + PageTags(ps[1..])
  }
}
