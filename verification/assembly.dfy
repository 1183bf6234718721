/**
 * `UpdateTrayMenu`: the whole tray menu, rebuilt from the stored
 * histories and groups. The history pages come first, then, when there
 * are groups, a separator and one item per group, and last the fixed
 * actions. `TrayMenu` says what the menu is; the method `UpdateTrayMenu`
 * builds it by successive additions, as the source does.
 */
module Assembly {

  import opened Base
  import opened Text
  import opened Menu
  import opened Pagination

  /** A snippet group with the snippets `LoadSnippetsInGroup` returns for it. */
  datatype Group = Group(name: string, snippets: seq<Record>)

  /**
   * When the group item can be built without an exception: a group with
   * more than `n` snippets goes through `organizeHistoriesMenu`; otherwise
   * every snippet is shortened, which needs a non-negative title length.
   */
  predicate CanShowGroup(g: Group, cfg: Config)
  {
    if |g.snippets| > cfg.itemsPerGroup then CanPartition(|g.snippets|, cfg)
    else |g.snippets| > 0 ==> cfg.maxMenuTitle >= 0
  }

  /** When the whole menu can be built without an exception. */
  predicate CanBuildMenu(histories: seq<Record>, groups: seq<Group>, cfg: Config)
  {
    && CanPartition(|histories|, cfg)
    && forall i :: 0 <= i < |groups| ==> CanShowGroup(groups[i], cfg)
  }

  /** The snippets of a small group, listed directly: no number, tagged with their ids. */
  function FlatEntries(rs: seq<Record>, maxTitle: int): seq<Entry>
    requires rs != [] ==> maxTitle >= 0
  {
    seq(|rs|, i requires 0 <= i < |rs| => Entry(None, MenuTitle(rs[i].content, maxTitle), rs[i].id, SnippetClick))
  }

  /**
   * The item for one group: disabled when it has no snippets, its snippets
   * paged when there are more than `n` of them, listed directly otherwise.
   */
  function GroupItem(g: Group, cfg: Config): MenuItem
    requires CanShowGroup(g, cfg)
  {
    var children :=
      if |g.snippets| > cfg.itemsPerGroup then Pages(Partition(g.snippets, cfg, SnippetClick))
      else Flat(FlatEntries(g.snippets, cfg.maxMenuTitle));
    GroupNode(g.name, |g.snippets| != 0, children)
  }

  /** The menu items for some pages. */
  function PageItems(ps: seq<Page>): seq<MenuItem>
  {
    seq(|ps|, i requires 0 <= i < |ps| => PageItem(ps[i]))
  }

  /** The items for the groups, in the order they were loaded. */
  function GroupItems(groups: seq<Group>, cfg: Config): seq<MenuItem>
    requires forall i :: 0 <= i < |groups| ==> CanShowGroup(groups[i], cfg)
  {
    seq(|groups|, i requires 0 <= i < |groups| => GroupItem(groups[i], cfg))
  }

  /** The fixed bottom of the menu. */
  const Trailer: seq<MenuItem> :=
    [Separator, ActionItem(EditSnippets), ActionItem(Settings), ActionItem(DeleteHistories), Separator, ActionItem(Exit)]

  /** The menu `UpdateTrayMenu` installs. */
  function TrayMenu(histories: seq<Record>, groups: seq<Group>, cfg: Config): seq<MenuItem>
    requires CanBuildMenu(histories, groups, cfg)
  {
    PageItems(Partition(histories, cfg, SubMenuClick))
    + (if |groups| > 0 then [Separator] else [])
    + GroupItems(groups, cfg)
    + Trailer
  }

  /**
   * The body of the `groups.ForEach` callback in `UpdateTrayMenu`: the
   * item for group `g`, enabled only when it has snippets, filled with
   * pages by `organizeHistoriesMenu` when it has more than `n` snippets and
   * with one unnumbered entry per snippet otherwise.
   */
  method MakeGroupItem(g: Group, cfg: Config) returns (item: MenuItem)
    requires CanShowGroup(g, cfg)
    ensures item == GroupItem(g, cfg)
  {
    var enabled: bool;
    if |g.snippets| == 0 {
      enabled := false;
    } else {
      enabled := true;
    }
    var children: Children;
    if |g.snippets| > cfg.itemsPerGroup {
      var sub := OrganizeHistoriesMenu(g.snippets, cfg, SnippetClick);
      children := Pages(sub);
    } else {
      var entries: seq<Entry> := [];
      var i := 0;
      while i < |g.snippets|
        invariant 0 <= i <= |g.snippets|
        invariant entries == FlatEntries(g.snippets[..i], cfg.maxMenuTitle)
      {
        var history := g.snippets[i];
        entries := entries + [Entry(None, MenuTitle(history.content, cfg.maxMenuTitle), history.id, SnippetClick)];
        i := i + 1;
      }
      assert g.snippets[..i] == g.snippets;
      children := Flat(entries);
    }
    item := GroupNode(g.name, enabled, children);
  }

  /**
   * `UpdateTrayMenu` as the source runs it, from the settings, histories
   * and groups it loads.
   */
  method UpdateTrayMenu(histories: seq<Record>, groups: seq<Group>, cfg: Config) returns (menu: seq<MenuItem>)
    requires CanBuildMenu(histories, groups, cfg)
    ensures menu == TrayMenu(histories, groups, cfg)
  {
    var pages := OrganizeHistoriesMenu(histories, cfg, SubMenuClick);
    menu := PageItems(pages);
    if |groups| > 0 {
      menu := menu + [Separator];
    }
    ghost var head := menu;
    var k := 0;
    while k < |groups|
      invariant 0 <= k <= |groups|
      invariant menu == head + GroupItems(groups[..k], cfg)
    {
      var m := MakeGroupItem(groups[k], cfg);
      menu := menu + [m];
      assert GroupItems(groups[..k + 1], cfg) == GroupItems(groups[..k], cfg) + [m];
      k := k + 1;
    }
    assert groups[..k] == groups;
    menu := menu + [Separator];
    menu := menu + [ActionItem(EditSnippets)];
    menu := menu + [ActionItem(Settings)];
    menu := menu + [ActionItem(DeleteHistories)];
    menu := menu + [Separator];
    menu := menu + [ActionItem(Exit)];
    assert menu == head + GroupItems(groups, cfg) + Trailer;
  }

  /** How many separators a list of items holds. */
  function Separators(items: seq<MenuItem>): nat
  {
    if items == [] then 0 else (if items[0] == Separator then 1 else 0) + Separators(items[1..])
  }

  lemma {:induction false} SeparatorsAppend(a: seq<MenuItem>, b: seq<MenuItem>)
    ensures Separators(a + b) == Separators(a) + Separators(b)
    decreases |a|
  {
    if a == [] {
      assert a + b == b;
    } else {
      assert (a + b)[0] == a[0];
      assert (a + b)[1..] == a[1..] + b;
      SeparatorsAppend(a[1..], b);
    }
  }

  /** A list none of whose items is a separator counts none. */
  lemma {:induction false} NoSeparators(items: seq<MenuItem>)
    requires forall i :: 0 <= i < |items| ==> items[i] != Separator
    ensures Separators(items) == 0
    decreases |items|
  {
    if items != [] {
      assert items[0] != Separator;
      NoSeparators(items[1..]);
    }
  }

  /**
   * The menu is laid out in order: the history pages, a separator exactly
   * when there are groups, one item per group in load order, and the fixed
   * actions, which end the menu.
   */
  lemma TrayMenuLayout(histories: seq<Record>, groups: seq<Group>, cfg: Config)
    requires CanBuildMenu(histories, groups, cfg)
    ensures var m := TrayMenu(histories, groups, cfg);
      var ps := Partition(histories, cfg, SubMenuClick);
      var s := if |groups| > 0 then 1 else 0;
      && |m| == |ps| + s + |groups| + 6
      && (forall k :: 0 <= k < |ps| ==> m[k] == PageItem(ps[k]))
      && (|groups| > 0 ==> m[|ps|] == Separator)
      && (forall i :: 0 <= i < |groups| ==> m[|ps| + s + i] == GroupItem(groups[i], cfg))
      && m[|ps| + s + |groups|..] == Trailer
      && (groups == [] ==> m == PageItems(ps) + Trailer)
  {
  }

  /**
   * The menu holds three separators when there are groups and two when
   * there are none: only the one after the history pages depends on them.
   */
  lemma TrayMenuSeparators(histories: seq<Record>, groups: seq<Group>, cfg: Config)
    requires CanBuildMenu(histories, groups, cfg)
    ensures Separators(TrayMenu(histories, groups, cfg)) == if |groups| > 0 then 3 else 2
  {
    var pages := PageItems(Partition(histories, cfg, SubMenuClick));
    var sep: seq<MenuItem> := if |groups| > 0 then [Separator] else [];
    var items := GroupItems(groups, cfg);
    NoSeparators(pages);
    NoSeparators(items);
    SeparatorsAppend(pages, sep);
    SeparatorsAppend(pages + sep, items);
    SeparatorsAppend(pages + sep + items, Trailer);
    assert Separators(sep) == (if |groups| > 0 then 1 else 0);
    assert Separators(Trailer) == 2;
  }

  /**
   * A group item is named after its group, enabled exactly when the group
   * has a snippet, and paged exactly when it has more than `n` snippets:
   * a group of exactly `n` snippets stays flat.
   */
  lemma GroupItemShape(g: Group, cfg: Config)
    requires CanShowGroup(g, cfg)
    ensures var item := GroupItem(g, cfg);
      && item.GroupNode? && item.name == g.name
      && (item.enabled <==> |g.snippets| >= 1)
      && (item.children.Pages? <==> |g.snippets| > cfg.itemsPerGroup)
      && (|g.snippets| == cfg.itemsPerGroup ==> item.children.Flat?)
  {
  }

  /**
   * A flat group lists every snippet, in order, unnumbered, tagged with the
   * snippet's id and wired to the snippet handler.
   */
  lemma FlatGroupEntries(g: Group, cfg: Config)
    requires CanShowGroup(g, cfg) && |g.snippets| <= cfg.itemsPerGroup
    ensures var item := GroupItem(g, cfg);
      && item.children.Flat?
      && |item.children.entries| == |g.snippets|
      && (forall j :: 0 <= j < |g.snippets| ==>
            && item.children.entries[j].number == None
            && item.children.entries[j].title == MenuTitle(g.snippets[j].content, cfg.maxMenuTitle)
            && item.children.entries[j].onClick == SnippetClick)
      && Tags(item.children.entries) == Ids(g.snippets)
  {
  }

  /**
   * A paged group shows its first `MAX_COUNT` snippets, no more, in order,
   * as numbered entries wired to the snippet handler.
   */
  lemma PagedGroupEntries(g: Group, cfg: Config)
    requires CanShowGroup(g, cfg) && |g.snippets| > cfg.itemsPerGroup
    ensures var item := GroupItem(g, cfg);
      var total := Total(|g.snippets|, cfg);
      && item.children.Pages?
      && item.children.pages == Partition(g.snippets, cfg, SnippetClick)
      && PageTags(item.children.pages) == Ids(g.snippets[..if total < 0 then 0 else total])
  {
    PartitionTags(g.snippets, cfg, SnippetClick);
  }

  /**
   * The history part of the menu shows the ids of the first
   * `min(count, MAX_COUNT)` histories, in the order they were loaded.
   */
  lemma TrayMenuHistoryTags(histories: seq<Record>, groups: seq<Group>, cfg: Config)
    requires CanBuildMenu(histories, groups, cfg)
    ensures var m := TrayMenu(histories, groups, cfg);
      var ps := Partition(histories, cfg, SubMenuClick);
      var total := Total(|histories|, cfg);
      && |ps| <= |m|
      && (forall k :: 0 <= k < |ps| ==> m[k].PageItem? && m[k].page == ps[k])
      && PageTags(ps) == Ids(histories[..if total < 0 then 0 else total])
  {
    TrayMenuLayout(histories, groups, cfg);
    PartitionTags(histories, cfg, SubMenuClick);
  }

  /**
   * With a positive page size and a non-negative title length the menu can
   * be built from any histories and groups.
   */
  lemma SaneSettingsBuildMenu(histories: seq<Record>, groups: seq<Group>, cfg: Config)
    requires cfg.itemsPerGroup > 0 && cfg.maxMenuTitle >= 0
    ensures CanBuildMenu(histories, groups, cfg)
  {
  }
}
