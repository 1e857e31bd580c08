# Tarski theme core, modelled in Dafny

This project models three pieces of decision logic from the Tarski WordPress theme. The WordPress
reads (`get_option`, `get_tarski_option`, `is_home()`, the clock, the feed text) are parameters.
The writes are the fields of an object or returned values.

- **Update notifier version logic** (`version.dfy`, module `Version`). The class `TarskiVersion`
  has the fields `current`, `latest`, `latestLink`, `latestSummary` and `status`.
  - The installed version is the trimmed `Version` header, or `'unknown'`.
  - The latest release's title, id and summary come from the first `<entry>` of the Atom version
    feed. The model reproduces the feed's regular expression exactly: leftmost match, lazy
    quantifiers, case-insensitive tags.
  - The status is one of `current`, `older`, `newer`, `error` and `no_connection`.
  - Cache freshness decides whether the cached feed is used.
- **Options lifecycle and upgrade** (`admin.dfy`, module `Admin`). The class `Site` holds the
  stored options record, `sidebars_widgets` and `widget_text`.
  - The `deleted` timestamp goes through delete, restore, and a wipe after three hours.
  - The upgrade check and the upgrade itself cover the special cases, the widget migration and the
    conformance loop against the defaults.
  - Prefilling the sidebars.
  - The choice of message in the update notifier.
- **Template list assembly** (`template.dfy`, module `Template`):
  - the feed link MIME type;
  - the navbar filters (wrap, admin link, external links) and the navbar's page filtering;
  - versioned style urls and the stylesheet links;
  - the document title;
  - the body classes and body id.

`php.dfy` (module `Php`) holds the PHP semantics these pieces rely on:
- truthiness, `isset` and `empty`;
- conversion to string and `(int)`, and loose `==` against an int;
- `trim`, `explode`, `implode` and `str_replace`;
- ordered arrays with integer and string keys: `$a[k] = v`, `$a[] = v`, `array_unshift`.

Some PHP built-ins and WordPress functions are function-typed parameters: `version_compare`,
`wp_specialchars`, `attribute_escape`, `__()`, `is_valid_tarski_style` and `get_permalink`.
`apply_filters` is the identity.

## Model

| member | source | states |
|---|---|---|
| Version.CurrentVersion | library/classes/version.php:57-62 | The installed version is the trimmed Version header when that is non-empty, and exactly 'unknown' otherwise; never empty |
| Version.CurrentVersionIsTrimmed | library/classes/version.php:57-62 | The installed version carries no surrounding whitespace |
| Version.FeedData | library/classes/version.php:72-94 | The cached copy is used exactly when the cache is fresh, the remote copy otherwise |
| Version.CacheExpiresAfterAnHour | library/classes/version.php:80 | The cache is fresh iff it exists, its mtime is later than now - 3600 and its contents are truthy; a cache exactly an hour old is refetched |
| Version.CacheIsFresh | library/classes/version.php:80 | The freshness test: the cache file exists, its mtime is strictly later than now - 3600 and its contents are truthy |
| Version.FindTag | library/classes/version.php:109 | The found position is the first case-insensitive occurrence of the tag at or after the start; none means no occurrence |
| Version.EntryField | library/classes/version.php:109 | A captured group is never empty (the `(.+?)` group) |
| Version.EntryFieldComplete | library/classes/version.php:109 | Whenever an entry/tag/close-tag/entry-close sequence occurs in the text, the pattern yields a group |
| Version.EntryFieldSound | library/classes/version.php:109 | A yielded group lies between the first `<entry>`, the first `<tag>` after it and the first `</tag>` at least one character later, with some `</entry>` after that |
| Version.EntryFieldIffMatch | library/classes/version.php:109 | The pattern yields a group iff the text contains a matching sequence |
| Version.StatusClassification | library/classes/version.php:154-167 | The status is 'no_connection' iff latest is falsy; otherwise 'current', 'older', 'newer' iff the comparison gives 0, 1, -1 |
| Version.StatusNeverError | library/classes/version.php:156-168 | With a comparison into {-1, 0, 1}, 'error' is unreachable and the status is one of the four others |
| Version.SameVersionIsCurrent | library/classes/version.php:154-158 | A feed announcing the installed version gives 'current' |
| Version.StatusOf | library/classes/version.php:154-168 | 'no_connection' exactly when latest is falsy; 'error' only when the comparison answers something other than -1, 0 or 1 |
| Version.TarskiVersion.constructor | library/classes/version.php:18-48 | A fresh object has no versions and no status |
| Version.TarskiVersion.CurrentVersionNumber | library/classes/version.php:55-63 | Sets only current, to the normalised installed version |
| Version.TarskiVersion.LatestVersionNumber | library/classes/version.php:108-112 | Sets latest to the escaped title group of the first entry; with no match leaves it unchanged; writes nothing else |
| Version.TarskiVersion.LatestVersionLink | library/classes/version.php:123-127 | Same rule for the id group, writing only latestLink |
| Version.TarskiVersion.LatestVersionSummary | library/classes/version.php:135-139 | Same rule for the summary group, writing only latestSummary |
| Version.TarskiVersion.VersionStatus | library/classes/version.php:150-169 | Runs both setters, then sets status to the classification of latest against current |
| Admin.DeleteIdempotent | library/helpers/admin_helper.php:101-104 | Deleting marks the options deleted; deleting again keeps the first timestamp |
| Admin.RestoreUndoesDelete | library/helpers/admin_helper.php:128-131 | Restore after delete gives the record without a 'deleted' field and otherwise unchanged |
| Admin.WipeOnlyAfterThreeHours | library/helpers/admin_helper.php:151-156 | Options deleted at t are wiped iff now > t + 10800; exactly three hours does not wipe |
| Admin.MarkDeleted | library/helpers/admin_helper.php:101-104 | A record already marked deleted is kept; otherwise its 'deleted' becomes now; no other field changes |
| Admin.Unmark | library/helpers/admin_helper.php:128-131 | A marked record loses 'deleted'; any other record is kept as it is; no other field changes |
| Admin.WipeDue | library/helpers/admin_helper.php:151-156 | The wipe test: 'deleted' is an int and now minus it exceeds 10800 seconds |
| Admin.Site.constructor | library/helpers/admin_helper.php:218-219 | The abstract site state: the stored tarski_options row, sidebars_widgets and widget_text that get_option and wp_get_sidebars_widgets read |
| Admin.Site.Loaded | library/helpers/admin_helper.php:98-99 | What an Options object loads: the stored row, or no properties when none is stored |
| Admin.Site.DeleteTarskiOptions | library/helpers/admin_helper.php:92-107 | Stores a 'deleted' timestamp only when 'deleted' is not a positive int; otherwise writes nothing |
| Admin.Site.RestoreTarskiOptions | library/helpers/admin_helper.php:119-134 | Removes 'deleted' only when it is a positive int; otherwise writes nothing |
| Admin.Site.MaybeWipeTarskiOptions | library/helpers/admin_helper.php:148-157 | Removes the stored options exactly when 'deleted' is an int more than three hours old |
| Admin.UpgradeNeededCases | library/helpers/admin_helper.php:168-173 | No stored options: no upgrade; no installed version: upgrade; installed version equal to the current one: no upgrade |
| Admin.UpgradeNeeded | library/helpers/admin_helper.php:168-173 | Options are stored and 'installed' is empty or compares as -1 against the current version |
| Admin.UpgradeSpecial | library/helpers/admin_helper.php:197-207 | show_authors becomes true for several authors; centred_theme true only when empty and centered_theme is set; show_categories false only when empty and hide_categories == 1; each of the three is present afterwards exactly when it was before or its rule fired; every other option unchanged |
| Admin.ConformShape | library/helpers/admin_helper.php:297-311 | Survivors are exactly the existing options the defaults set; none is null; each is an array iff its default is; null takes the default; array-to-scalar is the space-joined string; scalar-to-array is a one-element array |
| Admin.ConformIdempotent | library/helpers/admin_helper.php:297-311 | Conforming twice equals conforming once |
| Admin.ConformValue | library/helpers/admin_helper.php:298-310 | Against a non-null default the result is non-null and an array iff the default is; a non-null value already of its default's shape is kept |
| Admin.Conform | library/helpers/admin_helper.php:297-311 | Only existing options survive, and only those the defaults set |
| Admin.ConformOptions | library/helpers/admin_helper.php:297-311 | The foreach loop, each step unsetting or rewriting only its own option, ends with the conformed record |
| Admin.UpgradeRunsOnce | library/helpers/admin_helper.php:288-311 | After the upgrade 'installed' is the current version, so the upgrade check is false |
| Admin.LegacySettingsSurvive | library/helpers/admin_helper.php:200-205 | The legacy centred_theme and show_categories carried over by the special cases survive conformance |
| Admin.UpgradedOptions | library/helpers/admin_helper.php:288-311 | Every option stored by the upgrade is one the defaults set |
| Admin.Site.TarskiUpgrade | library/helpers/admin_helper.php:278-315 | Stores the upgraded options, and leaves sidebars and widget_text as the widget migration of the specially upgraded options gives them |
| Admin.WidgetsLeaveSidebarsAlone | library/helpers/admin_helper.php:222-262 | Sidebars other than sidebar-main, footer-sidebar and footer-main are untouched; a non-empty one of those three keeps its widgets |
| Admin.UpgradedWidgets | library/helpers/admin_helper.php:222-262 | The renaming, footer-main and sidebar-main steps applied in source order |
| Admin.FooterStep | library/helpers/admin_helper.php:229-242 | footer-main is built only when it is empty |
| Admin.LegacyStep | library/helpers/admin_helper.php:245-262 | sidebar-main is built only when it is empty and the sidebar type loosely equals 'tarski' |
| Admin.WidgetsRenamed | library/helpers/admin_helper.php:222-226 | An empty sidebar-main takes a non-empty sidebar-1; an empty footer-sidebar takes a non-empty sidebar-2 |
| Admin.FooterIdsShape | library/helpers/admin_helper.php:233-241 | The conditional pushes onto footer-main give the blurb's text widget id when the blurb is not blank, then recent-articles when footer_recent is set |
| Admin.LegacyIdsShape | library/helpers/admin_helper.php:249-261 | The conditional pushes onto sidebar-main give the custom text widget id when the custom text is not blank, then pages, then links, each when its setting is on |
| Admin.FooterMainBuilt | library/helpers/admin_helper.php:229-242 | An empty footer-main becomes text-N for a non-blank blurb (N the new last key of widget_text), then recent-articles if set |
| Admin.FooterStepFrame | library/helpers/admin_helper.php:229-242 | The footer step changes no sidebar but footer-main |
| Admin.LegacyStepFrame | library/helpers/admin_helper.php:245-262 | The legacy step changes no sidebar but sidebar-main |
| Admin.FooterStepText | library/helpers/admin_helper.php:233-236 | The footer step only appends to widget_text; a blurb widget lands under the next index, which footer-main names |
| Admin.LegacyStepText | library/helpers/admin_helper.php:249-252 | The legacy step only appends to widget_text, keeping keys distinct |
| Admin.WidgetTextAppended | library/helpers/admin_helper.php:222-262 | The whole migration keeps existing text widgets in place and only appends |
| Admin.BlurbWidgetResolves | library/helpers/admin_helper.php:233-236 | The text-N id put in footer-main resolves to the blurb widget in the final widget_text |
| Admin.Site.UpgradeWidgets | library/helpers/admin_helper.php:217-267 | The migration steps in order leave the sidebars and widget_text the migration functions describe |
| Admin.Site.AddTextWidget | library/helpers/admin_helper.php:234-235 | Pushing a text widget appends it to widget_text, and the key read back with end(array_keys()) is the next free integer index of the old array |
| Admin.Site.FooterMainWidgets | library/helpers/admin_helper.php:229-242 | The footer-main block writes footer-main and widget_text as the footer step describes |
| Admin.Site.LegacySidebarWidgets | library/helpers/admin_helper.php:245-262 | The sidebar-main block writes sidebar-main and widget_text as the legacy step describes |
| Admin.PrefilledSidebars | library/helpers/admin_helper.php:324-343 | Existing sidebars are never changed; afterwards all three keys exist, taken from sidebar-1/sidebar-2 or the fixed defaults |
| Admin.PrefillIdempotent | library/helpers/admin_helper.php:324-343 | Prefilling twice equals prefilling once |
| Admin.NoticeSelection | library/helpers/admin_helper.php:510-562 | With notification on, 'older' is always announced with 'updated fade'; off the options page nothing else is said; 'error' and 'no_connection' read the same |
| Admin.SelectNotice | library/helpers/admin_helper.php:510-562 | The message for each branch: nothing without remote access, 'disabled' when notification is off, 'updated fade' for an older install, the status sentence on the options page |
| Admin.NoticeHtml | library/helpers/admin_helper.php:564-567 | The status box carries the message's class; no body prints an empty paragraph; a single paragraph, a sentence or the summary, prints as it is; two paragraphs (the 'older' notice) are joined with `</p>\n<p>` |
| Admin.ChooseNotice | library/helpers/admin_helper.php:519-554 | Once the version calls have run, the if/switch on the status builds exactly the message SelectNotice gives for a remote-capable site with notification on |
| Admin.UpdateNotifier | library/helpers/admin_helper.php:501-568 | Running the four version calls on a fresh TarskiVersion yields the message chosen from the resulting report |
| Template.FeedLinkType | library/helpers/template_helper.php:296-304 | Atom's MIME type exactly when the (defaulted) type is 'atom', RSS's for every other value |
| Template.FeedLinkTypeAttribute | library/helpers/template_helper.php:282-287 | The link starts with its type attribute; a non-empty type is used as given, the empty one falls back to feed_link_type |
| Template.GenerateFeedLink | library/helpers/template_helper.php:282-287 | The alternate link with the given or defaulted type, the title and the href |
| Template.WrapNavlistShape | library/helpers/template_helper.php:657-665 | An array gains the list opening first and the closing last, two entries more, values between unchanged, keys distinct; a non-array gives false |
| Template.WrapNavlist | library/helpers/template_helper.php:657-665 | The list opening unshifted and the closing pushed onto an array; false otherwise |
| Template.AdminLinkOnlyAdmin | library/helpers/template_helper.php:632-644 | Only a logged-in user gets the 'admin' entry; other entries keep their place and value |
| Template.AddAdminLink | library/helpers/template_helper.php:632-644 | A non-array becomes empty; the 'admin' entry is set only for a logged-in user |
| Template.AddExternalLinks | library/helpers/template_helper.php:595-622 | The loop appends one item per bookmark when a link category is set, with $rel, $target and $title carried over as the loop leaves them |
| Template.CarriedNone | library/helpers/template_helper.php:602-611 | An attribute no bookmark sets stays empty |
| Template.CarriedIsLastTruthy | library/helpers/template_helper.php:602-611 | An attribute is the one of the last earlier bookmark that set it, since it is never reset |
| Template.ExternalItemsCount | library/helpers/template_helper.php:602-619 | One item per bookmark |
| Template.ExternalItemAt | library/helpers/template_helper.php:602-618 | The entry for bookmark i is written with the rel, target and title carried through bookmark i |
| Template.ExternalLinkInheritsRel | library/helpers/template_helper.php:602-611 | Every bookmark is written with the rel of the last bookmark up to it that has one, so a bookmark without rel inherits an earlier rel |
| Template.AddVersionToStyles | library/helpers/template_helper.php:232-241 | Every entry keeps its key and position; each array entry with a truthy url gets it versioned, others are unchanged |
| Template.VersionedUrl | library/helpers/template_helper.php:236-238 | A versioned entry's url is the old one plus '?v=' and the version; its keys and other fields are unchanged |
| Template.Stylesheets | library/helpers/template_helper.php:192-213 | The loop stores, by key, a link per entry with a url and joins them with newlines and a trailing blank line |
| Template.StylesheetsKeepOrder | library/helpers/template_helper.php:192-213 | With distinct keys the links keep the entries' order and keys |
| Template.StyleLinksKeys | library/helpers/template_helper.php:194-209 | No more links than entries, each under a key of the style array |
| Template.DefaultStylesheets | library/helpers/template_helper.php:166-213 | The default array gives main (screen,projection), print, mobile (handheld) and, with a style, the alternate sheet, in that order |
| Template.DoctitleText | library/helpers/template_helper.php:92-113 | The title is the site name alone without content, else "site sep content", or "content sep site" when swapped |
| Template.DoctitleContentCases | library/helpers/template_helper.php:76-90 | A 404 page shows the translated 'Error 404'; the posts front page without a description has no content |
| Template.DoctitleContent | library/helpers/template_helper.php:76-90 | The content chosen by the first matching page kind: 404, posts front page, search, month, tag, otherwise the trimmed page title |
| Template.Doctitle | library/helpers/template_helper.php:92-113 | The title elements, reversed when swapped, joined with spaces; a caller that gives no separator passes `DefaultSep`, "&middot;" |
| Template.BodyClass | library/helpers/template_helper.php:690-721 | The four conditional pushes add centre, janus, the valid style's name and rtl, each when its setting holds, and the classes are joined with spaces |
| Template.StyleClassOfCssFile | library/helpers/template_helper.php:700-701 | The class of a style file 'name.css' is its name |
| Template.BodyClassesAllSettings | library/helpers/template_helper.php:693-708 | With every setting on, the classes are centre, janus, the style class and rtl, in that order |
| Template.BodyClasses | library/helpers/template_helper.php:691-708 | centre, janus, the valid style's class and rtl, each present when its setting holds, in that order |
| Template.BodyClassesPositions | library/helpers/template_helper.php:693-708 | One class per setting that holds, each at its fixed place after the ones before it |
| Template.BodyIdFirstKindWins | library/helpers/template_helper.php:735-770 | The body id is the id of the first page kind, in the fixed order, that holds; 'unknown' if none |
| Template.DateIds | library/helpers/template_helper.php:754-765 | Date ids are 'date-Y', 'date-Y-M' and 'date-Y-M-D' for year, month and day |
| Template.BodyId | library/helpers/template_helper.php:735-770 | The id of the first page kind that holds, in the elseif order, or 'unknown' |
| Template.HomeLinkNameTruthy | library/helpers/template_helper.php:515-520 | The home link name is the option when it is truthy and the translated 'Home' otherwise, never empty |
| Template.HomeLinkName | library/helpers/template_helper.php:515-520 | The option when truthy, the translated 'Home' otherwise |
| Template.TarskiNavbar | library/helpers/template_helper.php:530-585 | The navbar is Home (unless a page is the front page) then each listed page under its id, printed on lines of their own, or false when empty |
| Template.NavbarListsExactlyListedPages | library/helpers/template_helper.php:550-567 | A page has an entry iff its id is loosely equal to a listed id |
| Template.NavbarKeepsPageOrder | library/helpers/template_helper.php:547-567 | With distinct page ids the entries follow Home in page order with distinct keys |
| Template.NavPageEntries | library/helpers/template_helper.php:550-567 | One entry per listed page, under its id, marked current when it is the viewed page or the posts page shown as home |
| Php.TrimIdempotent | library/classes/version.php:57 | trim of a trimmed string changes nothing |
| Php.IntToStringRoundTrip | library/helpers/template_helper.php:552 | An int printed and read back with (int) is the same int |
| Php.JoinSplit | library/helpers/template_helper.php:548 | Implode of an explode gives back the string (a property of the explode model itself; no lemma about the theme uses it) |
| Php.SplitJoin | library/helpers/template_helper.php:548 | Explode of an implode of separator-free parts gives back the parts (a property of the explode and implode models; no lemma about the theme uses it) |
| Php.SetLookup | library/helpers/template_helper.php:559 | `$a[k] = v` keeps keys distinct, makes k read v and leaves every other key |
| Php.AppendAllExtends | library/helpers/template_helper.php:612 | Pushing values keeps the old entries as a prefix and appends the values in order |
| Php.UnshiftShape | library/helpers/template_helper.php:659 | array_unshift puts the value first, keeps the others in order and keeps keys distinct |
| Php.RenumberIncreasing | library/helpers/template_helper.php:659 | array_unshift renumbers the integer keys in increasing order |
| Php.RemoveCssSuffix | library/helpers/template_helper.php:701 | Removing '.css' from 'x.css' is removing it from x |

## Left out

- Remote fetch, cache-file reads and writes, `cache_is_writable` and `can_get_remote` are
  filesystem and network calls. The feed text, the cache's existence, mtime and contents, and
  `can_get_remote` are parameters; only the freshness decision is modelled.
- The unreachable output-buffering code after `return` in `version_feed_data` is not modelled.
- `version_compare`, `wp_specialchars`, `attribute_escape`, `__()` and `sprintf` wording are
  abstract. The notifier's sentences are a datatype; their translated wording is a parameter of
  `NoticeHtml`.
- `Options::tarski_options_get` and `tarski_options_defaults` are not part of this model. The
  stored record is loaded, or an empty record when nothing is stored; the defaults are a
  parameter.
- `tarski_count_authors` is SQL. Its result, the author count, is a parameter.
- Nonce and capability checks, `wp_redirect`, `wp_die` and the persistence calls
  (`update_option`, `delete_option`, `wp_set_sidebars_widgets`) are request plumbing. Their effect
  is the new state of the `Site` fields; `update_option` in `tarski_upgrade` is the write of
  `stored` in `Site.TarskiUpgrade`.
- Admin.Site.TarskiUpgrade: `theme_version('current')` is the `current` parameter.
- Admin.ConformOptions: PHP visits the options in property order, but the model visits them in an
  arbitrary order. Each step touches only its own option, so the result is the same.
- `tarski_feeds`, `tarski_feedlink`, `tarski_searchform`, `tarski_credits`, `tarski_admin`,
  style and script enqueueing, and `WalkerPageSelect` are left out. They are WordPress link
  builders or `include`-based output.
- All `echo` output is modelled as the returned value. `tarski_doctitle` reads an undefined
  `$return`, so it always echoes; the model returns the echoed string.
- Template.AddExternalLinks: the bookmark query by category is a parameter (the bookmarks). The
  category option only decides whether any are read.
- Php.ToInt: loose `==` between an int and a string is approximated by reading the string's
  leading integer. Floats, exponents and numeric-string to numeric-string comparison are not
  modelled.
- Numeric-string array keys are not normalised to integer keys. The model's keys are the ones the
  source writes: page ids as ints, names as strings.
- A `null` `latest`, `latest_link` or `latest_summary` field is modelled as `""`. Both are falsy
  and print as nothing.
- Template.TarskiNavbar: `get_pages`, `get_permalink`, `is_page` and the front-page options are
  parameters (a page list, a permalink function and a navigation context).
- Template.BodyClass: `is_valid_tarski_style` is a parameter.
- Template.AddVersionToStyles: entries are addressed by position in the loop and by key in the
  source. These agree because a PHP array's keys are distinct.
- Admin.Site.UpgradeWidgets: a missing `widget_text` option (PHP `false` turned into an array by
  `[]=`) is modelled as the empty array.
- Php.FormatOne: `sprintf` is modelled only as replacing the first `%s`. `%%` and positional
  specifiers are not read; the formats the model uses (the search-results title) have neither.
