/**
 * The widget record, the seed catalogue the dashboard starts from and is
 * reset to, and the `bank-` namespacing that tells a drag out of the bank
 * from a drag within the dashboard.
 */
module Widgets {
  import opened Wrappers
  import opened GridGeometry

  /** Opaque classification used only to pick the widget's content. */
  datatype WidgetType = Product | Settings | RecentlyVisited | ExploreCapabilities | Subscriptions | Placeholder

  /** A widget's identity, its footprint on the grid and its pass-through payload. */
  datatype Widget = Widget(
    id: string,
    title: string,
    widgetType: WidgetType,
    colSpan: ColumnSpan,
    rowSpan: RowSpan,
    navigateTo: Option<string>,
    footerText: Option<string>)

  /** The ids of a widget list, in list order. */
  function Ids(ws: seq<Widget>): (ids: seq<string>)
  {
    seq(|ws|, i requires 0 <= i < |ws| => ws[i].id)
  }

  /** No element occurs twice. */
  predicate Distinct<T(==)>(s: seq<T>)
  {
    forall i, j :: 0 <= i < j < |s| ==> s[i] != s[j]
  }

  function Plain(id: string, title: string, t: WidgetType, c: ColumnSpan, r: RowSpan): Widget
  {
    Widget(id, title, t, c, r, None, None)
  }

  /** The sixteen widgets of the default dashboard, in display order. */
  function InitialWidgets(): (ws: seq<Widget>)
    ensures |ws| == 16
  {
    [ Plain("rhel", "Red Hat Enterprise Linux", Product, 1, 3),
      Plain("openshift", "Red Hat OpenShift", Product, 1, 3),
      Plain("ansible", "Ansible Automation Platform", Product, 1, 3),
      Plain("recently-visited", "Recently Visited", RecentlyVisited, 1, 4),
      Plain("settings", "Settings", Settings, 1, 2),
      Plain("image-builder", "Image Builder", Product, 1, 3),
      Plain("explore-capabilities", "Explore capabilities", ExploreCapabilities, 3, 5),
      Plain("acs", "Advanced Cluster Security", Product, 1, 2),
      Plain("openshift-ai", "Red Hat OpenShift AI", Product, 1, 2),
      Widget("data-integrations", "Data Integrations", Placeholder, 1, 2,
             Some("/data-integration"), Some("View integrations")),
      Widget("alert-manager", "Alert Manager", Placeholder, 1, 2,
             Some("/alert-manager"), Some("Manage alerts")),
      Widget("bookmarked-resources", "Bookmarked Resources", Placeholder, 1, 2,
             Some("/bookmarks"), Some("View bookmarks")),
      Widget("events", "Events", Placeholder, 1, 2,
             Some("/event-log"), Some("View events")),
      Widget("support-cases", "My Support Cases", Placeholder, 1, 2,
             Some("/support"), Some("View support cases")),
      Widget("ask-red-hat", "Ask Red Hat", Placeholder, 1, 2,
             None, Some("Ask a question")),
      Plain("subscriptions", "Subscriptions", Subscriptions, 4, 2) ]
  }

  /** The lengths of the seed ids, in seed order. */
  const SEED_ID_LENGTHS: seq<int> := [4, 9, 7, 16, 8, 13, 20, 3, 12, 17, 13, 20, 6, 13, 11, 13]

  lemma InitialIdLengths()
    ensures |SEED_ID_LENGTHS| == |Ids(InitialWidgets())|
    ensures forall i :: 0 <= i < 16 ==> SEED_ID_LENGTHS[i] == |Ids(InitialWidgets())[i]|
  {
  }

  /** The seed ids of equal length: 5, 10, 13 and 15 (13 characters), 6 and 11 (20 characters). */
  lemma InitialIdsOfEqualLength()
    ensures var ids := Ids(InitialWidgets());
      && ids[5] != ids[10] && ids[5] != ids[13] && ids[5] != ids[15]
      && ids[10] != ids[13] && ids[10] != ids[15] && ids[13] != ids[15]
      && ids[6] != ids[11]
  {
    var ids := Ids(InitialWidgets());
    assert ids[5][0] == 'i' && ids[10][0] == 'a' && ids[13][0] == 's' && ids[15][0] == 's';
    assert ids[13][2] == 'p' && ids[15][2] == 'b';
    assert ids[6][0] == 'e' && ids[11][0] == 'b';
  }

  /**
   * Sixteen strings with the seed ids' lengths are pairwise distinct once the
   * seven pairs of equal length are: strings of different lengths differ.
   */
  lemma DistinctBySeedLengths(ids: seq<string>)
    requires |ids| == 16 && forall i :: 0 <= i < 16 ==> SEED_ID_LENGTHS[i] == |ids[i]|
    requires ids[5] != ids[10] && ids[5] != ids[13] && ids[5] != ids[15]
    requires ids[10] != ids[13] && ids[10] != ids[15] && ids[13] != ids[15]
    requires ids[6] != ids[11]
    ensures Distinct(ids)
  {
  }

  /** No two seed widgets share an id. */
  lemma InitialIdsDistinct()
    ensures Distinct(Ids(InitialWidgets()))
  {
    InitialIdLengths();
    InitialIdsOfEqualLength();
    DistinctBySeedLengths(Ids(InitialWidgets()));
  }

  const BANK_PREFIX: string := "bank-"

  /** The drag id of a widget shown in the bank. */
  function BankId(id: string): (s: string)
    ensures |s| == |BANK_PREFIX| + |id|
    ensures s[..|BANK_PREFIX|] == BANK_PREFIX && s[|BANK_PREFIX|..] == id
  {
    BANK_PREFIX + id
  }

  /** `s.startsWith('bank-')`. */
  predicate IsBankId(s: string)
  {
    |BANK_PREFIX| <= |s| && s[..|BANK_PREFIX|] == BANK_PREFIX
  }

  /** `s.replace('bank-', '')` on a drag id that starts with the prefix: the first occurrence is the prefix. */
  function StripBank(s: string): (id: string)
    requires IsBankId(s)
    ensures BankId(id) == s
  {
    s[|BANK_PREFIX|..]
  }

  /** An id whose first character is not the prefix's is a dashboard id. */
  lemma NotBankIdByFirst(s: string)
    requires |s| > 0 && s[0] != BANK_PREFIX[0]
    ensures !IsBankId(s)
  {
  }

  /** Namespacing a widget id and stripping the prefix again gives the widget id back. */
  lemma BankIdRoundTrip(id: string)
    ensures IsBankId(BankId(id))
    ensures StripBank(BankId(id)) == id
  {
    assert BankId(id)[..|BANK_PREFIX|] == BANK_PREFIX;
  }
}
