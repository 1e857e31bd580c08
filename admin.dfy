/** The options lifecycle and upgrade logic of library/helpers/admin_helper.php:
    the 'deleted' timestamp (delete, restore, wipe after three hours), the
    upgrade check, the upgrade itself (special cases, widget migration and the
    conformance pass against the defaults), prefilling the sidebars, and the
    choice of message in the update notifier.

    The WordPress options the theme reads and writes are the fields of a Site
    object; the clock, the author count, the defaults record and translated
    labels are parameters. */
module Admin {
  import opened Php
  import Version

  /** The properties of an Options object. */
  type Record = map<string, Value>

  /** sidebars_widgets: sidebar id to the widget ids placed in it. */
  type Sidebars = map<string, seq<string>>

  // ---------------------------------------------------------------------------
  // The 'deleted' timestamp

  /** How long deleted options can be restored, in seconds. */
  const RestoreWindow := 3 * 3600

  /** The 'deleted' property when it is an int. */
  function DeletedStamp(o: Record): Option<int> {
    if "deleted" in o && o["deleted"].Int? then Some(o["deleted"].i) else None
  }

  /** The options carry a positive int 'deleted' timestamp. */
  predicate MarkedDeleted(o: Record) {
    DeletedStamp(o).Some? && DeletedStamp(o).value > 0
  }

  /** The record delete_tarski_options stores, if it stores one. */
  function MarkDeleted(o: Record, now: int): (r: Record)
    ensures MarkedDeleted(o) ==> r == o
    ensures !MarkedDeleted(o) ==> DeletedStamp(r) == Some(now)
    ensures r - {"deleted"} == o - {"deleted"}
  {
    if MarkedDeleted(o) then o else o["deleted" := Int(now)]
  }

  /** The record restore_tarski_options leaves. */
  function Unmark(o: Record): (r: Record)
    ensures MarkedDeleted(o) ==> "deleted" !in r
    ensures !MarkedDeleted(o) ==> r == o
    ensures r - {"deleted"} == o - {"deleted"}
  {
    if MarkedDeleted(o) then o - {"deleted"} else o
  }

  /** maybe_wipe_tarski_options wipes when 'deleted' is an int more than three hours old. */
  predicate WipeDue(o: Record, now: int) {
    DeletedStamp(o).Some? && now - DeletedStamp(o).value > RestoreWindow
  }

  /** Deleting twice keeps the first timestamp. */
  lemma DeleteIdempotent(o: Record, first: int, second: int)
    requires first >= 1
    ensures MarkedDeleted(MarkDeleted(o, first))
    ensures MarkDeleted(MarkDeleted(o, first), second) == MarkDeleted(o, first)
  {
  }

  /** Restoring after a delete leaves the record without a 'deleted' field and
      otherwise as it was. */
  lemma RestoreUndoesDelete(o: Record, now: int)
    requires now >= 1
    ensures Unmark(MarkDeleted(o, now)) == o - {"deleted"}
  {
    if !MarkedDeleted(o) {
      assert o["deleted" := Int(now)] - {"deleted"} == o - {"deleted"};
    }
  }

  /** Options deleted at time t are wiped at t + 3h + 1 but not at t + 3h. */
  lemma WipeOnlyAfterThreeHours(o: Record, t: int, now: int)
    requires t >= 1 && !MarkedDeleted(o)
    ensures WipeDue(MarkDeleted(o, t), now) <==> now > t + 10800
    ensures !WipeDue(MarkDeleted(o, t), t + 10800)
  {
  }

  // ---------------------------------------------------------------------------
  // Upgrade check

  /** tarski_upgrade_needed: options are stored, and the installed version is
      empty or older than the current one. */
  predicate UpgradeNeeded(stored: Option<Record>, current: string, compare: Version.Comparator) {
    stored.Some? &&
    var installed := Field(stored.value, "installed");
    !Truthy(installed) || compare(ToStr(installed), current) == -1
  }

  /** No stored options: no upgrade. Options without an installed version:
      upgrade. Options already at the current version: no upgrade. */
  lemma UpgradeNeededCases(stored: Option<Record>, current: string, compare: Version.Comparator)
    requires Version.WellBehaved(compare)
    ensures stored.None? ==> !UpgradeNeeded(stored, current, compare)
    ensures stored.Some? && !IsSet(stored.value, "installed") ==> UpgradeNeeded(stored, current, compare)
    ensures stored.Some? && Field(stored.value, "installed") == Str(current) && StrTruthy(current) ==>
      !UpgradeNeeded(stored, current, compare)
  {
    if stored.Some? && Field(stored.value, "installed") == Str(current) && StrTruthy(current) {
      assert compare(current, current) == 0;
    }
  }

  // ---------------------------------------------------------------------------
  // Upgrade: special cases

  /** The option names the special cases touch are pairwise different. */
  lemma SpecialNamesDistinct()
    ensures "show_authors" != "centred_theme" && "show_authors" != "show_categories" && "centred_theme" != "show_categories"
    ensures "centered_theme" != "centred_theme" && "hide_categories" != "show_categories"
    ensures "centered_theme" != "show_authors" && "hide_categories" != "show_authors" && "hide_categories" != "centred_theme"
  {
    assert "show_authors"[0] == 's' && "centred_theme"[0] == 'c' && "hide_categories"[0] == 'h';
    assert "show_authors"[5] == 'a' && "show_categories"[5] == 'c';
    assert |"centered_theme"| != |"centred_theme"|;
  }

  /** tarski_upgrade_special: show_authors on for several authors; legacy
      'centered_theme' and 'hide_categories == 1' carried over. Nothing else changes. */
  function UpgradeSpecial(o: Record, authorCount: int): (r: Record)
    ensures forall name :: name != "show_authors" && name != "centred_theme" && name != "show_categories" ==>
      (name in r <==> name in o) && Field(r, name) == Field(o, name)
    ensures Field(r, "show_authors") == if authorCount > 1 then Bool(true) else Field(o, "show_authors")
    ensures Field(r, "centred_theme") ==
      if !Truthy(Field(o, "centred_theme")) && IsSet(o, "centered_theme") then Bool(true) else Field(o, "centred_theme")
    ensures Field(r, "show_categories") ==
      if !Truthy(Field(o, "show_categories")) && IsSet(o, "hide_categories") && LooseEqualsInt(o["hide_categories"], 1)
      then Bool(false) else Field(o, "show_categories")
    ensures "show_authors" in r <==> "show_authors" in o || authorCount > 1
    ensures "centred_theme" in r <==>
      "centred_theme" in o || (!Truthy(Field(o, "centred_theme")) && IsSet(o, "centered_theme"))
    ensures "show_categories" in r <==>
      "show_categories" in o ||
      (!Truthy(Field(o, "show_categories")) && IsSet(o, "hide_categories") && LooseEqualsInt(o["hide_categories"], 1))
  {
    SpecialNamesDistinct();
    var o1 := if authorCount > 1 then o["show_authors" := Bool(true)] else o;
    var o2 := if !Truthy(Field(o1, "centred_theme")) && IsSet(o1, "centered_theme") then o1["centred_theme" := Bool(true)] else o1;
    if !Truthy(Field(o2, "show_categories")) && IsSet(o2, "hide_categories") && LooseEqualsInt(o2["hide_categories"], 1)
    then o2["show_categories" := Bool(false)] else o2
  }

  // ---------------------------------------------------------------------------
  // Upgrade: conformance against the defaults

  /** One option conformed to its default's shape. */
  function ConformValue(v: Value, d: Value): (r: Value)
    ensures d != Null ==> r != Null && (r.Arr? <==> d.Arr?)
    ensures v != Null && (v.Arr? <==> d.Arr?) ==> r == v
  {
    if v == Null then d
    else if v.Arr? && !d.Arr? then Str(Implode(" ", v.entries))
    else if !v.Arr? && d.Arr? then Arr([(IntKey(0), v)])
    else v
  }

  /** The record the conformance pass of tarski_upgrade leaves. */
  function Conform(o: Record, defaults: Record): (r: Record)
    ensures r.Keys <= o.Keys
    ensures forall name :: name in r ==> IsSet(defaults, name)
  {
    map name | name in o && IsSet(defaults, name) :: ConformValue(o[name], defaults[name])
  }

  /** The conformance pass: unknown options go, null ones take their default,
      and each survivor has its default's shape (array or not); no option is
      added that was not there. */
  lemma ConformShape(o: Record, defaults: Record)
    ensures forall name :: name in Conform(o, defaults) <==> name in o && IsSet(defaults, name)
    ensures forall name :: name in Conform(o, defaults) ==>
      && Conform(o, defaults)[name] != Null
      && (Conform(o, defaults)[name].Arr? <==> defaults[name].Arr?)
    ensures forall name :: name in o && o[name] == Null && IsSet(defaults, name) ==>
      Conform(o, defaults)[name] == defaults[name]
    ensures forall name :: name in o && o[name].Arr? && IsSet(defaults, name) && !defaults[name].Arr? ==>
      Conform(o, defaults)[name] == Str(Implode(" ", o[name].entries))
    ensures forall name :: name in o && o[name] != Null && !o[name].Arr? && IsSet(defaults, name) && defaults[name].Arr? ==>
      Conform(o, defaults)[name] == Arr([(IntKey(0), o[name])])
    ensures forall name :: name in o && o[name] != Null && IsSet(defaults, name) && (o[name].Arr? <==> defaults[name].Arr?) ==>
      Conform(o, defaults)[name] == o[name]
  {
  }

  /** Conforming an already conformed record changes nothing. */
  lemma ConformIdempotent(o: Record, defaults: Record)
    ensures Conform(Conform(o, defaults), defaults) == Conform(o, defaults)
  {
    var once := Conform(o, defaults);
    ConformShape(o, defaults);
    assert forall name :: name in once ==> ConformValue(once[name], defaults[name]) == once[name];
  }

  /** The options conformed so far: the names not yet visited keep their
      value, the visited ones are conformed or gone. */
  ghost predicate ConformedExcept(conformed: Record, options: Record, defaults: Record, pending: set<string>) {
    && pending <= options.Keys
    && (forall name :: name in conformed <==> name in options && (name in pending || IsSet(defaults, name)))
    && (forall name :: name in conformed ==>
          conformed[name] == if name in pending then options[name] else ConformValue(options[name], defaults[name]))
  }

  /** Visiting one pending name keeps ConformedExcept. */
  lemma ConformVisit(conformed: Record, next: Record, options: Record, defaults: Record, pending: set<string>, name: string)
    requires ConformedExcept(conformed, options, defaults, pending) && name in pending
    requires !IsSet(defaults, name) ==> next == conformed - {name}
    requires IsSet(defaults, name) ==> next == conformed[name := ConformValue(options[name], defaults[name])]
    ensures ConformedExcept(next, options, defaults, pending - {name})
  {
  }

  /** Nothing pending: the record is conformed. */
  lemma ConformedAll(conformed: Record, options: Record, defaults: Record)
    requires ConformedExcept(conformed, options, defaults, {})
    ensures conformed == Conform(options, defaults)
  {
  }

  /** The foreach of tarski_upgrade over the option names. PHP visits them in
      property order; each step reads and writes only its own name, so the
      order does not change the outcome and the model picks any pending name. */
  method ConformOptions(options: Record, defaults: Record) returns (conformed: Record)
    ensures conformed == Conform(options, defaults)
  {
    conformed := options;
    var pending := options.Keys;
    while pending != {}
      invariant ConformedExcept(conformed, options, defaults, pending)
      decreases |pending|
    {
      var name :| name in pending;
      var value := conformed[name];
      ghost var before := conformed;
      if !IsSet(defaults, name) {
        conformed := conformed - {name};
      } else if value == Null {
        conformed := conformed[name := defaults[name]];
      } else if value.Arr? && !defaults[name].Arr? {
        conformed := conformed[name := Str(Implode(" ", value.entries))];
      } else if !value.Arr? && defaults[name].Arr? {
        conformed := conformed[name := Arr([(IntKey(0), value)])];
      } else {
        assert before == before[name := value];
      }
      ConformVisit(before, conformed, options, defaults, pending, name);
      pending := pending - {name};
    }
    ConformedAll(conformed, options, defaults);
  }

  /** The options record tarski_upgrade stores. */
  function UpgradedOptions(o: Record, current: string, authorCount: int, defaults: Record): (r: Record)
    ensures forall name :: name in r ==> IsSet(defaults, name)
  {
    Conform(UpgradeSpecial(o["installed" := Str(current)], authorCount), defaults)
  }

  /** Storing 'installed' first means the upgrade is not run twice: once it has
      run, tarski_upgrade_needed is false, provided the defaults know a scalar
      'installed' and the current version is a truthy string. */
  lemma UpgradeRunsOnce(o: Record, current: string, authorCount: int, defaults: Record, compare: Version.Comparator)
    requires IsSet(defaults, "installed") && !defaults["installed"].Arr?
    requires StrTruthy(current) && compare(current, current) == 0
    ensures Field(UpgradedOptions(o, current, authorCount, defaults), "installed") == Str(current)
    ensures !UpgradeNeeded(Some(UpgradedOptions(o, current, authorCount, defaults)), current, compare)
  {
    var special := UpgradeSpecial(o["installed" := Str(current)], authorCount);
    assert Field(special, "installed") == Str(current);
    ConformShape(special, defaults);
  }

  /** The legacy settings carried over by the special cases survive the
      conformance pass when the defaults know those options as scalars. */
  lemma LegacySettingsSurvive(o: Record, current: string, authorCount: int, defaults: Record)
    requires IsSet(defaults, "centred_theme") && !defaults["centred_theme"].Arr?
    requires IsSet(defaults, "show_categories") && !defaults["show_categories"].Arr?
    ensures !Truthy(Field(o, "centred_theme")) && IsSet(o, "centered_theme") ==>
      Field(UpgradedOptions(o, current, authorCount, defaults), "centred_theme") == Bool(true)
    ensures !Truthy(Field(o, "show_categories")) && IsSet(o, "hide_categories") && LooseEqualsInt(o["hide_categories"], 1) ==>
      Field(UpgradedOptions(o, current, authorCount, defaults), "show_categories") == Bool(false)
  {
    var o1 := o["installed" := Str(current)];
    var special := UpgradeSpecial(o1, authorCount);
    assert Field(o1, "centred_theme") == Field(o, "centred_theme");
    assert Field(o1, "centered_theme") == Field(o, "centered_theme");
    assert Field(o1, "show_categories") == Field(o, "show_categories");
    assert Field(o1, "hide_categories") == Field(o, "hide_categories");
    ConformShape(special, defaults);
  }

  // ---------------------------------------------------------------------------
  // Upgrade: old sidebar options to widgets

  /** empty($widgets[id]) */
  predicate SidebarEmpty(w: Sidebars, id: string) {
    id !in w || w[id] == []
  }

  /** strlen(trim($v)) > 0; trim() of an array gives null, which has length 0. */
  predicate HasText(v: Value) {
    !v.Arr? && |Trim(ToStr(v))| > 0
  }

  /** The value of a text widget: array('title' => '', 'text' => text). */
  function TextWidget(text: Value): Value {
    Arr([(StrKey("title"), Str("")), (StrKey("text"), text)])
  }

  /** "text-$n" */
  function TextWidgetId(n: int): string {
    "text-" + IntToString(n)
  }

  /** The widget ids of footer-main: a text widget for a non-blank blurb, then recent articles. */
  function FooterIds(o: Record, text: PArray): seq<string> {
    var withBlurb := PushIf([], HasText(Field(o, "blurb")), TextWidgetId(NextIndex(text)));
    PushIf(withBlurb, Truthy(Field(o, "footer_recent")), "recent-articles")
  }

  /** footer-main lists the blurb's text widget when there is one, then recent articles. */
  lemma FooterIdsShape(o: Record, text: PArray)
    ensures FooterIds(o, text) ==
      (if HasText(Field(o, "blurb")) then [TextWidgetId(NextIndex(text))] else [])
      + (if Truthy(Field(o, "footer_recent")) then ["recent-articles"] else [])
  {
    var blurb, recent := HasText(Field(o, "blurb")), Truthy(Field(o, "footer_recent"));
    var withBlurb := PushIf([], blurb, TextWidgetId(NextIndex(text)));
    PushIfAppends([], blurb, TextWidgetId(NextIndex(text)));
    PushIfAppends(withBlurb, recent, "recent-articles");
    assert withBlurb == if blurb then [TextWidgetId(NextIndex(text))] else [];
  }

  /** The footer-main step: footer-main gets its ids, and a non-blank blurb its text widget. */
  function FooterMain(o: Record, w: Sidebars, text: PArray): (Sidebars, PArray) {
    var blurb := Field(o, "blurb");
    (w["footer-main" := FooterIds(o, text)], if HasText(blurb) then Append(text, TextWidget(blurb)) else text)
  }

  /** The widget ids of sidebar-main: custom text, pages and links. */
  function LegacyIds(o: Record, text: PArray): seq<string> {
    var withCustom := PushIf([], HasText(Field(o, "sidebar_custom")), TextWidgetId(NextIndex(text)));
    var withPages := PushIf(withCustom, Truthy(Field(o, "sidebar_pages")), "pages");
    PushIf(withPages, Truthy(Field(o, "sidebar_links")), "links")
  }

  /** sidebar-main lists the custom text widget when there is one, then pages, then links. */
  lemma LegacyIdsShape(o: Record, text: PArray)
    ensures LegacyIds(o, text) ==
      (if HasText(Field(o, "sidebar_custom")) then [TextWidgetId(NextIndex(text))] else [])
      + (if Truthy(Field(o, "sidebar_pages")) then ["pages"] else [])
      + (if Truthy(Field(o, "sidebar_links")) then ["links"] else [])
  {
    var custom, pages, links := HasText(Field(o, "sidebar_custom")), Truthy(Field(o, "sidebar_pages")), Truthy(Field(o, "sidebar_links"));
    var withCustom := PushIf([], custom, TextWidgetId(NextIndex(text)));
    var withPages := PushIf(withCustom, pages, "pages");
    PushIfAppends([], custom, TextWidgetId(NextIndex(text)));
    PushIfAppends(withCustom, pages, "pages");
    PushIfAppends(withPages, links, "links");
    assert withCustom == if custom then [TextWidgetId(NextIndex(text))] else [];
  }

  /** The sidebar-main step: sidebar-main gets its ids, and non-blank custom text its text widget. */
  function LegacySidebar(o: Record, w: Sidebars, text: PArray): (Sidebars, PArray) {
    var custom := Field(o, "sidebar_custom");
    (w["sidebar-main" := LegacyIds(o, text)], if HasText(custom) then Append(text, TextWidget(custom)) else text)
  }

  /** The first two steps: the numbered sidebars of older versions move to
      their named successors when those are empty. */
  function RenamedSidebars(widgets: Sidebars): Sidebars {
    var w1 := if SidebarEmpty(widgets, "sidebar-main") && !SidebarEmpty(widgets, "sidebar-1")
      then widgets["sidebar-main" := widgets["sidebar-1"]] else widgets;
    if SidebarEmpty(w1, "footer-sidebar") && !SidebarEmpty(w1, "sidebar-2")
    then w1["footer-sidebar" := w1["sidebar-2"]] else w1
  }

  /** The third step: footer-main is built when it is empty. */
  function FooterStep(o: Record, w: Sidebars, text: PArray): (Sidebars, PArray) {
    if SidebarEmpty(w, "footer-main") then FooterMain(o, w, text) else (w, text)
  }

  /** The last step: sidebar-main is built from the old settings when it is
      empty and the old sidebar type was Tarski's own. */
  function LegacyStep(o: Record, w: Sidebars, text: PArray): (Sidebars, PArray) {
    if SidebarEmpty(w, "sidebar-main") && LooseEqualsStr(Field(o, "sidebar_type"), "tarski")
    then LegacySidebar(o, w, text) else (w, text)
  }

  /** The sidebars and text widgets tarski_upgrade_widgets writes back. */
  function UpgradedWidgets(o: Record, widgets: Sidebars, text: PArray): (Sidebars, PArray) {
    var s3 := FooterStep(o, RenamedSidebars(widgets), text);
    LegacyStep(o, s3.0, s3.1)
  }

  /** The sidebar ids the upgrade names are pairwise different. */
  lemma SidebarIdsDistinct()
    ensures "sidebar-main" != "footer-sidebar" && "sidebar-main" != "footer-main" && "footer-sidebar" != "footer-main"
    ensures "sidebar-1" != "sidebar-main" && "sidebar-1" != "footer-sidebar" && "sidebar-1" != "footer-main"
    ensures "sidebar-2" != "sidebar-main" && "sidebar-2" != "footer-sidebar" && "sidebar-2" != "footer-main"
  {
    assert "sidebar-main"[0] == 's' && "footer-sidebar"[0] == 'f' && "footer-main"[0] == 'f';
    assert "footer-sidebar"[7] == 's' && "footer-main"[7] == 'm';
    assert "sidebar-1"[8] == '1' && "sidebar-2"[8] == '2' && "sidebar-main"[8] == 'm';
  }

  /** The footer-main step writes footer-main only. */
  lemma FooterStepFrame(o: Record, w: Sidebars, text: PArray, id: string)
    requires id != "footer-main"
    ensures (id in FooterStep(o, w, text).0 <==> id in w)
    ensures id in w ==> FooterStep(o, w, text).0[id] == w[id]
  {
    if SidebarEmpty(w, "footer-main") {
      var ids := FooterMain(o, w, text).0["footer-main"];
      assert FooterMain(o, w, text).0 == w["footer-main" := ids];
    }
  }

  /** The sidebar-main step writes sidebar-main only. */
  lemma LegacyStepFrame(o: Record, w: Sidebars, text: PArray, id: string)
    requires id != "sidebar-main"
    ensures (id in LegacyStep(o, w, text).0 <==> id in w)
    ensures id in w ==> LegacyStep(o, w, text).0[id] == w[id]
  {
    if SidebarEmpty(w, "sidebar-main") && LooseEqualsStr(Field(o, "sidebar_type"), "tarski") {
      var ids := LegacySidebar(o, w, text).0["sidebar-main"];
      assert LegacySidebar(o, w, text).0 == w["sidebar-main" := ids];
    }
  }

  /** The three sidebars the widget upgrade may write. */
  predicate UpgradeTarget(id: string) {
    id == "sidebar-main" || id == "footer-sidebar" || id == "footer-main"
  }

  /** The widget upgrade leaves existing sidebars well alone: a non-empty
      sidebar-main, footer-sidebar or footer-main keeps its widgets, and every
      other sidebar is untouched. */
  lemma WidgetsLeaveSidebarsAlone(o: Record, widgets: Sidebars, text: PArray, id: string)
    ensures var w := UpgradedWidgets(o, widgets, text).0;
      && (!UpgradeTarget(id) ==> (id in w <==> id in widgets) && (id in widgets ==> w[id] == widgets[id]))
      && (UpgradeTarget(id) && !SidebarEmpty(widgets, id) ==> id in w && w[id] == widgets[id])
  {
    SidebarIdsDistinct();
    var w2 := RenamedSidebars(widgets);
    var s3 := FooterStep(o, w2, text);
    if id != "footer-main" {
      FooterStepFrame(o, w2, text, id);
    }
    if id != "sidebar-main" {
      LegacyStepFrame(o, s3.0, s3.1, id);
    }
  }

  /** The numbered sidebars move only into empty targets. */
  lemma WidgetsRenamed(o: Record, widgets: Sidebars, text: PArray)
    ensures var w := UpgradedWidgets(o, widgets, text).0;
      && (SidebarEmpty(widgets, "sidebar-main") && !SidebarEmpty(widgets, "sidebar-1") ==>
            w["sidebar-main"] == widgets["sidebar-1"])
      && (SidebarEmpty(widgets, "footer-sidebar") && !SidebarEmpty(widgets, "sidebar-2") ==>
            w["footer-sidebar"] == widgets["sidebar-2"])
  {
    SidebarIdsDistinct();
    var w2 := RenamedSidebars(widgets);
    var s3 := FooterStep(o, w2, text);
    FooterStepFrame(o, w2, text, "sidebar-main");
    FooterStepFrame(o, w2, text, "footer-sidebar");
    LegacyStepFrame(o, s3.0, s3.1, "footer-sidebar");
  }

  /** An empty footer-main is rebuilt from the blurb and footer_recent settings. */
  lemma FooterMainBuilt(o: Record, widgets: Sidebars, text: PArray)
    requires SidebarEmpty(widgets, "footer-main")
    ensures UpgradedWidgets(o, widgets, text).0["footer-main"] ==
      (if HasText(Field(o, "blurb")) then [TextWidgetId(NextIndex(text))] else [])
      + (if Truthy(Field(o, "footer_recent")) then ["recent-articles"] else [])
  {
    SidebarIdsDistinct();
    FooterIdsShape(o, text);
    var w2 := RenamedSidebars(widgets);
    assert SidebarEmpty(w2, "footer-main");
    var s3 := FooterStep(o, w2, text);
    LegacyStepFrame(o, s3.0, s3.1, "footer-main");
  }

  /** The footer-main step appends at most one text widget, under a fresh key,
      and places its id first in footer-main. */
  lemma FooterStepText(o: Record, w: Sidebars, text: PArray)
    requires DistinctKeys(text)
    ensures var (w', t) := FooterStep(o, w, text);
      && DistinctKeys(t) && |t| >= |text| && t[..|text|] == text
      && (SidebarEmpty(w, "footer-main") && HasText(Field(o, "blurb")) ==>
            |t| > |text| && t[|text|] == (IntKey(NextIndex(text)), TextWidget(Field(o, "blurb")))
            && w'["footer-main"][0] == TextWidgetId(NextIndex(text)))
  {
    if SidebarEmpty(w, "footer-main") && HasText(Field(o, "blurb")) {
      AppendFresh(text, TextWidget(Field(o, "blurb")));
      FooterIdsShape(o, text);
    }
  }

  /** The sidebar-main step appends at most one text widget, under a fresh key. */
  lemma LegacyStepText(o: Record, w: Sidebars, text: PArray)
    requires DistinctKeys(text)
    ensures var t := LegacyStep(o, w, text).1;
      DistinctKeys(t) && |t| >= |text| && t[..|text|] == text
  {
    if SidebarEmpty(w, "sidebar-main") && LooseEqualsStr(Field(o, "sidebar_type"), "tarski") && HasText(Field(o, "sidebar_custom")) {
      AppendFresh(text, TextWidget(Field(o, "sidebar_custom")));
    }
  }

  /** Text widgets are only appended to widget_text, under fresh keys. */
  lemma WidgetTextAppended(o: Record, widgets: Sidebars, text: PArray)
    requires DistinctKeys(text)
    ensures var t := UpgradedWidgets(o, widgets, text).1;
      DistinctKeys(t) && |t| >= |text| && t[..|text|] == text
  {
    var s3 := FooterStep(o, RenamedSidebars(widgets), text);
    var t := LegacyStep(o, s3.0, s3.1).1;
    assert t == UpgradedWidgets(o, widgets, text).1;
    FooterStepText(o, RenamedSidebars(widgets), text);
    LegacyStepText(o, s3.0, s3.1);
    PrefixOfPrefix(text, s3.1, t);
  }

  /** The text-N id the upgrade places first in an empty footer-main names the
      new text widget holding the blurb. */
  lemma BlurbWidgetResolves(o: Record, widgets: Sidebars, text: PArray)
    requires DistinctKeys(text)
    requires SidebarEmpty(widgets, "footer-main") && HasText(Field(o, "blurb"))
    ensures var (w, t) := UpgradedWidgets(o, widgets, text);
      && w["footer-main"][0] == TextWidgetId(NextIndex(text))
      && Lookup(t, IntKey(NextIndex(text))) == TextWidget(Field(o, "blurb"))
  {
    SidebarIdsDistinct();
    var w2 := RenamedSidebars(widgets);
    assert SidebarEmpty(w2, "footer-main");
    var s3 := FooterStep(o, w2, text);
    FooterStepText(o, w2, text);
    LegacyStepText(o, s3.0, s3.1);
    LegacyStepFrame(o, s3.0, s3.1, "footer-main");
    var t := LegacyStep(o, s3.0, s3.1).1;
    assert t[|text|] == t[..|s3.1|][|text|] == s3.1[|text|];
    IndexOfDistinct(t, IntKey(NextIndex(text)), |text|);
  }

  lemma PrefixOfPrefix(a: PArray, b: PArray, c: PArray)
    requires |a| <= |b| <= |c| && b[..|a|] == a && c[..|b|] == b
    ensures c[..|a|] == a
  {
    assert c[..|a|] == c[..|b|][..|a|];
  }

  // ---------------------------------------------------------------------------
  // Prefilling the sidebars

  /** The sidebars tarski_prefill_sidebars writes: a missing sidebar-main,
      footer-sidebar or footer-main is taken from the old sidebar or the fixed
      default. */
  function PrefilledSidebars(widgets: Sidebars, recentLabel: string): (r: Sidebars)
    ensures forall id :: id in widgets ==> id in r && r[id] == widgets[id]
    ensures r.Keys == widgets.Keys + {"sidebar-main", "footer-sidebar", "footer-main"}
    ensures "sidebar-main" !in widgets ==>
      r["sidebar-main"] == if "sidebar-1" in widgets then widgets["sidebar-1"] else ["categories", "links"]
    ensures "footer-sidebar" !in widgets ==>
      r["footer-sidebar"] == if "sidebar-2" in widgets then widgets["sidebar-2"] else ["search"]
    ensures "footer-main" !in widgets ==> r["footer-main"] == [recentLabel]
  {
    var w1 := if "sidebar-main" in widgets then widgets
      else if "sidebar-1" in widgets then widgets["sidebar-main" := widgets["sidebar-1"]]
      else widgets["sidebar-main" := ["categories", "links"]];
    var w2 := if "footer-sidebar" in w1 then w1
      else if "sidebar-2" in w1 then w1["footer-sidebar" := w1["sidebar-2"]]
      else w1["footer-sidebar" := ["search"]];
    if "footer-main" in w2 then w2 else w2["footer-main" := [recentLabel]]
  }

  /** Prefilling twice is prefilling once. */
  lemma PrefillIdempotent(widgets: Sidebars, recentLabel: string)
    ensures PrefilledSidebars(PrefilledSidebars(widgets, recentLabel), recentLabel) == PrefilledSidebars(widgets, recentLabel)
  {
  }

  // ---------------------------------------------------------------------------
  // The stored state

  class Site {
    /** The tarski_options row, None when there is none. */
    var stored: Option<Record>
    /** The sidebars_widgets option. */
    var sidebars: Sidebars
    /** The widget_text option (an absent option reads as an empty array). */
    var widgetText: PArray

    constructor (stored: Option<Record>, sidebars: Sidebars, widgetText: PArray)
      ensures this.stored == stored && this.sidebars == sidebars && this.widgetText == widgetText
    {
      this.stored := stored;
      this.sidebars := sidebars;
      this.widgetText := widgetText;
    }

    /** What an Options object loads: the stored record, or no properties. */
    function Loaded(): Record
      reads this
    {
      if stored.Some? then stored.value else map[]
    }

    /** delete_tarski_options: stamps 'deleted' and stores, unless already marked. */
    method DeleteTarskiOptions(now: int)
      modifies this`stored
      ensures MarkedDeleted(old(Loaded())) ==> stored == old(stored)
      ensures !MarkedDeleted(old(Loaded())) ==> stored == Some(MarkDeleted(old(Loaded()), now))
    {
      var options := Loaded();
      var deleted := Field(options, "deleted");
      if !deleted.Int? || deleted.i < 1 {
        options := options["deleted" := Int(now)];
        stored := Some(options);
      }
    }

    /** restore_tarski_options: removes a positive int 'deleted' and stores; otherwise writes nothing. */
    method RestoreTarskiOptions()
      modifies this`stored
      ensures MarkedDeleted(old(Loaded())) ==> stored == Some(Unmark(old(Loaded())))
      ensures !MarkedDeleted(old(Loaded())) ==> stored == old(stored)
    {
      var options := Loaded();
      var deleted := Field(options, "deleted");
      if deleted.Int? && deleted.i > 0 {
        options := options - {"deleted"};
        stored := Some(options);
      }
    }

    /** maybe_wipe_tarski_options: drops the row once the restore window has passed. */
    method MaybeWipeTarskiOptions(now: int)
      modifies this`stored
      ensures stored == if WipeDue(old(Loaded()), now) then None else old(stored)
    {
      var options := Loaded();
      var del := Field(options, "deleted");
      if del.Int? && now - del.i > 3 * 3600 {
        stored := None;
      }
    }

    /** tarski_upgrade: stamps the installed version, applies the special
        cases, migrates the widgets with the options as they now are, conforms
        the options to the defaults and stores them. */
    method TarskiUpgrade(current: string, authorCount: int, defaults: Record)
      modifies this`stored, this`sidebars, this`widgetText
      ensures stored == Some(UpgradedOptions(old(Loaded()), current, authorCount, defaults))
      ensures sidebars == UpgradedWidgets(UpgradeSpecial(old(Loaded())["installed" := Str(current)], authorCount),
                                          old(sidebars), old(widgetText)).0
      ensures widgetText == UpgradedWidgets(UpgradeSpecial(old(Loaded())["installed" := Str(current)], authorCount),
                                            old(sidebars), old(widgetText)).1
    {
      var options := Loaded();
      options := options["installed" := Str(current)];
      options := UpgradeSpecial(options, authorCount);
      UpgradeWidgets(options);
      options := ConformOptions(options, defaults);
      stored := Some(options);
    }

    /** tarski_upgrade_widgets: rewires sidebars and text widgets in place. */
    method UpgradeWidgets(options: Record)
      modifies this`sidebars, this`widgetText
      ensures sidebars == UpgradedWidgets(options, old(sidebars), old(widgetText)).0
      ensures widgetText == UpgradedWidgets(options, old(sidebars), old(widgetText)).1
    {
      ghost var result := UpgradedWidgets(options, sidebars, widgetText);
      if SidebarEmpty(sidebars, "sidebar-main") && !SidebarEmpty(sidebars, "sidebar-1") {
        sidebars := sidebars["sidebar-main" := sidebars["sidebar-1"]];
      }
      if SidebarEmpty(sidebars, "footer-sidebar") && !SidebarEmpty(sidebars, "sidebar-2") {
        sidebars := sidebars["footer-sidebar" := sidebars["sidebar-2"]];
      }
      assert sidebars == RenamedSidebars(old(sidebars));
      ghost var step := FooterStep(options, sidebars, widgetText);
      assert result == LegacyStep(options, step.0, step.1);
      if SidebarEmpty(sidebars, "footer-main") {
        FooterMainWidgets(options);
      }
      assert sidebars == step.0 && widgetText == step.1;
      if SidebarEmpty(sidebars, "sidebar-main") && LooseEqualsStr(Field(options, "sidebar_type"), "tarski") {
        LegacySidebarWidgets(options);
      }
      assert sidebars == result.0 && widgetText == result.1;
    }

    /** $widget_text[] = array('title' => '', 'text' => text), then the key
        it went under, read back as (int) end(array_keys($widget_text)). */
    method AddTextWidget(text: Value) returns (number: int)
      modifies this`widgetText
      ensures widgetText == Append(old(widgetText), TextWidget(text))
      ensures number == NextIndex(old(widgetText))
    {
      widgetText := Append(widgetText, TextWidget(text));
      number := KeyToInt(widgetText[|widgetText| - 1].0);
    }

    /** The footer-main block of tarski_upgrade_widgets. */
    method FooterMainWidgets(options: Record)
      modifies this`sidebars, this`widgetText
      ensures sidebars == FooterMain(options, old(sidebars), old(widgetText)).0
      ensures widgetText == FooterMain(options, old(sidebars), old(widgetText)).1
    {
      ghost var w0, t0 := sidebars, widgetText;
      var ids: seq<string> := [];
      var blurb := Field(options, "blurb");
      if HasText(blurb) {
        var number := AddTextWidget(blurb);
        ids := ids + [TextWidgetId(number)];
      }
      assert ids == PushIf([], HasText(blurb), TextWidgetId(NextIndex(t0)));
      if Truthy(Field(options, "footer_recent")) {
        ids := ids + ["recent-articles"];
      }
      assert ids == FooterIds(options, t0);
      sidebars := sidebars["footer-main" := ids];
      assert sidebars == w0["footer-main" := FooterIds(options, t0)];
    }

    /** The sidebar-main block of tarski_upgrade_widgets, for the 'tarski' sidebar type. */
    method LegacySidebarWidgets(options: Record)
      modifies this`sidebars, this`widgetText
      ensures sidebars == LegacySidebar(options, old(sidebars), old(widgetText)).0
      ensures widgetText == LegacySidebar(options, old(sidebars), old(widgetText)).1
    {
      ghost var w0, t0 := sidebars, widgetText;
      var ids: seq<string> := [];
      var custom := Field(options, "sidebar_custom");
      if HasText(custom) {
        var number := AddTextWidget(custom);
        ids := ids + [TextWidgetId(number)];
      }
      ghost var withCustom := PushIf([], HasText(custom), TextWidgetId(NextIndex(t0)));
      assert ids == withCustom;
      if Truthy(Field(options, "sidebar_pages")) {
        ids := ids + ["pages"];
      }
      assert ids == PushIf(withCustom, Truthy(Field(options, "sidebar_pages")), "pages");
      if Truthy(Field(options, "sidebar_links")) {
        ids := ids + ["links"];
      }
      assert ids == LegacyIds(options, t0);
      sidebars := sidebars["sidebar-main" := ids];
      assert sidebars == w0["sidebar-main" := LegacyIds(options, t0)];
    }
  }

  // ---------------------------------------------------------------------------
  // The update notifier's message

  /** The sentences of the notifier; their translated wording is not modelled. */
  datatype Sentence =
    | NewVersionAvailable(latest: string, link: string, current: string)
    | UpToDate(current: string)
    | DevelopmentVersion(current: string)
    | NoServer(current: string)
    | NotificationDisabled(current: string)

  /** A paragraph of the message: a sentence, or the release summary as is. */
  datatype Paragraph = Said(sentence: Sentence) | Summary(text: string)

  /** The message: the extra class of the status box and its paragraphs. */
  datatype Notice = Notice(cssClass: string, body: seq<Paragraph>)

  /** What a TarskiVersion object holds after the notifier's four calls. */
  datatype Report = Report(current: string, latest: string, link: string, summary: string, status: Version.Status)

  function VersionReport(themeVersion: string, feed: string, escape: string -> string, compare: Version.Comparator): Report {
    var current := Version.CurrentVersion(themeVersion);
    var latest := Version.FieldOr(Version.EntryField(feed, "title"), escape, "");
    Report(
      current,
      latest,
      Version.FieldOr(Version.EntryField(feed, "id"), escape, ""),
      Version.FieldOr(Version.EntryField(feed, "summary"), escape, ""),
      Version.StatusOf(latest, current, compare))
  }

  /** The message tarski_update_notifier builds. */
  function SelectNotice(canGetRemote: bool, notify: bool, onOptionsPage: bool, v: Report): Notice {
    if !canGetRemote then Notice("", [])
    else if !notify then Notice("disabled", [Said(NotificationDisabled(v.current))])
    else if v.status == Version.Older then
      Notice("updated fade", [Said(NewVersionAvailable(v.latest, v.link, v.current)), Summary(v.summary)])
    else if onOptionsPage then
      match v.status
      case Current => Notice("", [Said(UpToDate(v.current))])
      case Newer => Notice("", [Said(DevelopmentVersion(v.current))])
      case _ => Notice("error", [Said(NoServer(v.current))])
    else Notice("", [])
  }

  /** A newer release is always announced; off the options page nothing else
      is said; 'error' and 'no_connection' read the same. */
  lemma NoticeSelection(canGetRemote: bool, notify: bool, onOptionsPage: bool, v: Report)
    requires canGetRemote && notify
    ensures v.status == Version.Older ==> SelectNotice(canGetRemote, notify, onOptionsPage, v).cssClass == "updated fade"
    ensures v.status != Version.Older && !onOptionsPage ==> SelectNotice(canGetRemote, notify, onOptionsPage, v) == Notice("", [])
    ensures SelectNotice(canGetRemote, notify, onOptionsPage, v.(status := Version.Error)) ==
            SelectNotice(canGetRemote, notify, onOptionsPage, v.(status := Version.NoConnection))
  {
  }

  /** The status box up to its first paragraph's text. */
  function NoticeOpen(cssClass: string): string {
    "<div id=\"tarski-update-status\" class=\"update-status " + cssClass + "\"><p>"
  }

  /** The text of one paragraph, given the wording of each sentence. */
  function ParagraphText(p: Paragraph, wording: Sentence -> string): string {
    match p
    case Said(s) => wording(s)
    case Summary(t) => t
  }

  /** The HTML the notifier returns, given the wording of each sentence: the
      paragraphs joined with "</p>\n<p>" inside the status box. */
  function NoticeHtml(n: Notice, wording: Sentence -> string): (html: string)
    ensures |n.body| == 0 ==> html == NoticeOpen(n.cssClass) + "</p></div>"
    ensures |n.body| == 1 ==> html == NoticeOpen(n.cssClass) + ParagraphText(n.body[0], wording) + "</p></div>"
    ensures |n.body| == 2 ==>
      html == NoticeOpen(n.cssClass) + ParagraphText(n.body[0], wording) + "</p>\n<p>" + ParagraphText(n.body[1], wording) + "</p></div>"
  {
    var texts := seq(|n.body|, i requires 0 <= i < |n.body| => ParagraphText(n.body[i], wording));
    assert |n.body| == 2 ==> texts[1..] == [ParagraphText(n.body[1], wording)];
    NoticeOpen(n.cssClass) + Join("</p>\n<p>", texts) + "</p></div>"
  }

  /** The if/switch of tarski_update_notifier once the version checks have run. */
  method ChooseNotice(v: Report, onOptionsPage: bool) returns (notice: Notice)
    ensures notice == SelectNotice(true, true, onOptionsPage, v)
  {
    notice := Notice("", []);
    if v.status == Version.Older {
      notice := Notice("updated fade", [Said(NewVersionAvailable(v.latest, v.link, v.current)), Summary(v.summary)]);
    } else if onOptionsPage {
      match v.status
      case Current =>
        notice := Notice("", [Said(UpToDate(v.current))]);
      case Newer =>
        notice := Notice("", [Said(DevelopmentVersion(v.current))]);
      case NoConnection | Error =>
        notice := Notice("error", [Said(NoServer(v.current))]);
    }
  }

  /** tarski_update_notifier: runs the version checks on a fresh TarskiVersion
      and picks the message. */
  method UpdateNotifier(themeVersion: string, feed: string, canGetRemote: bool, notify: bool, onOptionsPage: bool,
                        escape: string -> string, compare: Version.Comparator)
    returns (notice: Notice)
    ensures notice == SelectNotice(canGetRemote, notify, onOptionsPage, VersionReport(themeVersion, feed, escape, compare))
  {
    ghost var report := VersionReport(themeVersion, feed, escape, compare);
    var version := new Version.TarskiVersion();
    version.CurrentVersionNumber(themeVersion);
    notice := Notice("", []);
    if canGetRemote {
      if notify {
        version.LatestVersionNumber(feed, escape);
        version.LatestVersionLink(feed, escape);
        version.VersionStatus(themeVersion, feed, escape, compare);
        version.LatestVersionSummary(feed, escape);
        assert version.latest == report.latest && version.current == report.current;
        assert version.latestLink == report.link && version.latestSummary == report.summary;
        assert version.status == Some(report.status);
        var checked := Report(version.current, version.latest, version.latestLink, version.latestSummary, version.status.value);
        assert checked == report;
        notice := ChooseNotice(checked, onOptionsPage);
      } else {
        notice := Notice("disabled", [Said(NotificationDisabled(version.current))]);
      }
    }
  }
}
