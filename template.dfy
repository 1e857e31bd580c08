/** The list assembly of library/helpers/template_helper.php: feed MIME types
    and feed links, the navbar and its filters, the stylesheet links, the
    document title, and the body class and id.

    WordPress queries (is_home(), get_option(), get_bloginfo(), …) are
    parameters; translations and escaping are function-typed parameters;
    filters are the identity; what the theme echoes is returned. */
module Template {
  import opened Php

  // ---------------------------------------------------------------------------
  // Feed links

  const AtomMime := "application/atom+xml"
  const RssMime := "application/rss+xml"

  /** The feed type after empty() has fallen back to the site's default feed. */
  function FeedType(feedType: string, defaultFeed: string): string {
    if StrTruthy(feedType) then feedType else defaultFeed
  }

  /** feed_link_type: Atom exactly for 'atom', RSS for everything else. */
  function FeedLinkType(feedType: string, defaultFeed: string): (mime: string)
    ensures mime == AtomMime <==> FeedType(feedType, defaultFeed) == "atom"
    ensures mime == RssMime <==> FeedType(feedType, defaultFeed) != "atom"
  {
    if FeedType(feedType, defaultFeed) == "atom" then AtomMime else RssMime
  }

  /** The type attribute generate_feed_link writes: the given type, or the
      default feed's MIME type when the given one is the empty string. */
  function FeedLinkAttrType(feedType: string, defaultFeed: string): string {
    if feedType == "" then FeedLinkType("", defaultFeed) else feedType
  }

  /** generate_feed_link */
  function GenerateFeedLink(title: string, link: string, feedType: string, defaultFeed: string): string {
    "<link rel=\"alternate\" type=\"" + FeedLinkAttrType(feedType, defaultFeed)
      + "\" title=\"" + title + "\" href=\"" + link + "\" />"
  }

  /** The type attribute follows the link's opening; only the empty string
      falls back to the default feed ("0", which feed_link_type would treat as
      empty, is written as it is). */
  lemma FeedLinkTypeAttribute(title: string, link: string, feedType: string, defaultFeed: string)
    ensures var t := FeedLinkAttrType(feedType, defaultFeed);
      GenerateFeedLink(title, link, feedType, defaultFeed)[..28 + |t|] == "<link rel=\"alternate\" type=\"" + t
    ensures feedType != "" ==> FeedLinkAttrType(feedType, defaultFeed) == feedType
    ensures feedType == "" ==> (FeedLinkAttrType(feedType, defaultFeed) == AtomMime <==> defaultFeed == "atom")
  {
    var t := FeedLinkAttrType(feedType, defaultFeed);
    var prefix := "<link rel=\"alternate\" type=\"" + t;
    assert |"<link rel=\"alternate\" type=\""| == 28;
    var r := GenerateFeedLink(title, link, feedType, defaultFeed);
    assert r == prefix + ("\" title=\"" + title + "\" href=\"" + link + "\" />");
  }

  // ---------------------------------------------------------------------------
  // Navbar filters

  /** The navbar a filter works on: a non-array becomes an empty array. */
  function NavbarArray(navbar: Value): PArray {
    if navbar.Arr? then navbar.entries else []
  }

  const NavlistOpen := "<ul class=\"primary xoxo\">"
  const NavlistClose := "</ul>"

  /** wrap_navlist: the list opening unshifted, the closing pushed; false for a non-array. */
  function WrapNavlist(navbar: Value): Value {
    if navbar.Arr? then Arr(Append(Unshift(navbar.entries, Str(NavlistOpen)), Str(NavlistClose)))
    else Bool(false)
  }

  /** An array gains the opening first and the closing last, two entries more,
      and keeps its values in between and its keys distinct; anything else
      gives false. */
  lemma WrapNavlistShape(navbar: Value)
    ensures !navbar.Arr? ==> WrapNavlist(navbar) == Bool(false)
    ensures navbar.Arr? ==>
      && WrapNavlist(navbar).Arr?
      && |WrapNavlist(navbar).entries| == |navbar.entries| + 2
      && ValuesOf(WrapNavlist(navbar).entries) == [Str(NavlistOpen)] + ValuesOf(navbar.entries) + [Str(NavlistClose)]
      && (DistinctKeys(navbar.entries) ==> DistinctKeys(WrapNavlist(navbar).entries))
  {
    if navbar.Arr? {
      var u := Unshift(navbar.entries, Str(NavlistOpen));
      UnshiftShape(navbar.entries, Str(NavlistOpen));
      AppendAllExtends(u, [Str(NavlistClose)]);
      assert AppendAll(u, [Str(NavlistClose)]) == Append(u, Str(NavlistClose)) by {
        assert [Str(NavlistClose)][..0] == [];
      }
    }
  }

  /** The admin entry add_admin_link writes. */
  function AdminItem(siteUrl: string, caption: string): string {
    "<li><a id=\"nav-admin\" href=\"" + siteUrl + "/wp-admin/\">" + caption + "</a></li>"
  }

  /** add_admin_link */
  function AddAdminLink(navbar: Value, loggedIn: bool, siteUrl: string, caption: string): PArray {
    var base := NavbarArray(navbar);
    if loggedIn then Set(base, StrKey("admin"), Str(AdminItem(siteUrl, caption))) else base
  }

  /** Only the 'admin' entry is written, and only for a logged-in user; every
      other entry stays where and what it was. */
  lemma AdminLinkOnlyAdmin(navbar: Value, loggedIn: bool, siteUrl: string, caption: string)
    ensures var base := NavbarArray(navbar); var r := AddAdminLink(navbar, loggedIn, siteUrl, caption);
      && (!loggedIn ==> r == base)
      && (loggedIn ==>
            && StrKey("admin") in KeysOf(r) && |base| <= |r| <= |base| + 1
            && (forall i :: 0 <= i < |base| && base[i].0 != StrKey("admin") ==> r[i] == base[i]))
      && (loggedIn && DistinctKeys(base) ==> Lookup(r, StrKey("admin")) == Str(AdminItem(siteUrl, caption)))
  {
    var base := NavbarArray(navbar);
    if loggedIn {
      var k := StrKey("admin");
      var v := Str(AdminItem(siteUrl, caption));
      match IndexOf(base, k)
      case Some(i) =>
        assert Set(base, k, v) == base[i := (k, v)];
        assert KeysOf(base[i := (k, v)])[i] == k;
      case None =>
        assert Set(base, k, v) == base + [(k, v)];
        assert KeysOf(base + [(k, v)])[|base|] == k;
      if DistinctKeys(base) {
        SetLookup(base, k, v, k);
      }
    }
  }

  /** A bookmark of the external-links category. */
  datatype Bookmark = Bookmark(id: int, url: string, name: string, rel: string, target: string, description: string)

  /** The three optional link attributes. */
  datatype Attribute = Rel | Target | Title

  function AttributeValue(link: Bookmark, attr: Attribute): string {
    match attr
    case Rel => link.rel
    case Target => link.target
    case Title => link.description
  }

  function AttributeText(attr: Attribute, value: string): string {
    match attr
    case Rel => "rel=\"" + value + "\" "
    case Target => "target=\"" + value + "\" "
    case Title => "title=\"" + value + "\" "
  }

  /** What $rel, $target or $title holds after the given links: they are set
      for a link with a truthy value and never reset, so the last truthy value
      wins and a link without one inherits it. */
  function Carried(links: seq<Bookmark>, attr: Attribute): string {
    if |links| == 0 then ""
    else if StrTruthy(AttributeValue(links[|links| - 1], attr)) then AttributeText(attr, AttributeValue(links[|links| - 1], attr))
    else Carried(links[..|links| - 1], attr)
  }

  /** The carried attribute is empty when no link has a truthy value. */
  lemma {:induction false} CarriedNone(links: seq<Bookmark>, attr: Attribute)
    requires forall k :: 0 <= k < |links| ==> !StrTruthy(AttributeValue(links[k], attr))
    ensures Carried(links, attr) == ""
    decreases |links|
  {
    if |links| > 0 {
      var init := links[..|links| - 1];
      assert forall k :: 0 <= k < |init| ==> init[k] == links[k];
      CarriedNone(init, attr);
    }
  }

  /** The carried attribute is the text of the last link with a truthy value. */
  lemma {:induction false} CarriedIsLastTruthy(links: seq<Bookmark>, attr: Attribute, j: nat)
    requires j < |links| && StrTruthy(AttributeValue(links[j], attr))
    requires forall k :: j < k < |links| ==> !StrTruthy(AttributeValue(links[k], attr))
    ensures Carried(links, attr) == AttributeText(attr, AttributeValue(links[j], attr))
    decreases |links|
  {
    var n := |links|;
    if j < n - 1 {
      var init := links[..n - 1];
      assert forall k :: 0 <= k < |init| ==> init[k] == links[k];
      assert !StrTruthy(AttributeValue(links[n - 1], attr));
      CarriedIsLastTruthy(init, attr, j);
    }
  }

  /** One more bookmark: the attribute is its own when truthy, else carried. */
  lemma CarriedStep(links: seq<Bookmark>, i: nat, attr: Attribute)
    requires i < |links|
    ensures Carried(links[..i + 1], attr) ==
              if StrTruthy(AttributeValue(links[i], attr)) then AttributeText(attr, AttributeValue(links[i], attr))
              else Carried(links[..i], attr)
  {
    assert links[..i + 1][..i] == links[..i];
  }

  /** One more bookmark: one more entry, written with the carried attributes. */
  lemma ExternalItemsStep(base: PArray, links: seq<Bookmark>, i: nat, rel: string, target: string, title: string)
    requires i < |links|
    requires rel == Carried(links[..i + 1], Rel) && target == Carried(links[..i + 1], Target)
    requires title == Carried(links[..i + 1], Title)
    ensures AppendAll(base, ExternalItems(links[..i + 1]))
      == Append(AppendAll(base, ExternalItems(links[..i])), Str(ExternalItem(links[i], rel, target, title)))
  {
    assert links[..i + 1][..i] == links[..i];
    var items := ExternalItems(links[..i]);
    var item := Str(ExternalItem(links[i], rel, target, title));
    assert ExternalItems(links[..i + 1]) == items + [item];
    assert (items + [item])[..|items|] == items;
  }

  /** The entry add_external_links writes for one bookmark. */
  function ExternalItem(link: Bookmark, rel: string, target: string, title: string): string {
    "<li><a id=\"nav-link-" + IntToString(link.id) + "\" " + rel + target + title
      + " href=\"" + link.url + "\">" + link.name + "</a></li>"
  }

  /** The entries for the given bookmarks, in order, each with the attributes
      carried up to and including it. */
  function ExternalItems(links: seq<Bookmark>): seq<Value>
    decreases |links|
  {
    if |links| == 0 then []
    else
      ExternalItems(links[..|links| - 1])
        + [Str(ExternalItem(links[|links| - 1], Carried(links, Rel), Carried(links, Target), Carried(links, Title)))]
  }

  /** add_external_links: appends one entry per bookmark of the chosen category. */
  method AddExternalLinks(navbar: Value, extlinkCat: Value, bookmarks: seq<Bookmark>) returns (r: PArray)
    ensures r == AppendAll(NavbarArray(navbar), if Truthy(extlinkCat) then ExternalItems(bookmarks) else [])
  {
    r := NavbarArray(navbar);
    if Truthy(extlinkCat) {
      var rel, target, title := "", "", "";
      var i := 0;
      while i < |bookmarks|
        invariant 0 <= i <= |bookmarks|
        invariant rel == Carried(bookmarks[..i], Rel)
        invariant target == Carried(bookmarks[..i], Target)
        invariant title == Carried(bookmarks[..i], Title)
        invariant r == AppendAll(NavbarArray(navbar), ExternalItems(bookmarks[..i]))
      {
        var link := bookmarks[i];
        CarriedStep(bookmarks, i, Rel);
        CarriedStep(bookmarks, i, Target);
        CarriedStep(bookmarks, i, Title);
        if StrTruthy(link.rel) {
          rel := AttributeText(Rel, link.rel);
        }
        if StrTruthy(link.target) {
          target := AttributeText(Target, link.target);
        }
        if StrTruthy(link.description) {
          title := AttributeText(Title, link.description);
        }
        var item := Str(ExternalItem(link, rel, target, title));
        ExternalItemsStep(NavbarArray(navbar), bookmarks, i, rel, target, title);
        r := Append(r, item);
        i := i + 1;
      }
      assert bookmarks[..|bookmarks|] == bookmarks;
    } else {
      assert AppendAll(r, []) == r;
    }
  }

  /** One entry per bookmark, after the existing ones. */
  lemma {:induction false} ExternalItemsCount(links: seq<Bookmark>)
    ensures |ExternalItems(links)| == |links|
    decreases |links|
  {
    if |links| > 0 {
      ExternalItemsCount(links[..|links| - 1]);
    }
  }

  /** The entry for bookmark i is written with the attributes carried up to
      and including that bookmark. */
  lemma {:induction false} ExternalItemAt(links: seq<Bookmark>, i: nat)
    requires i < |links|
    ensures |ExternalItems(links)| == |links|
    ensures ExternalItems(links)[i] ==
      Str(ExternalItem(links[i], Carried(links[..i + 1], Rel), Carried(links[..i + 1], Target), Carried(links[..i + 1], Title)))
    decreases |links|
  {
    var init := links[..|links| - 1];
    ExternalItemsCount(links);
    ExternalItemsCount(init);
    if i == |links| - 1 {
      assert links[..i + 1] == links;
    } else {
      ExternalItemAt(init, i);
      assert init[..i + 1] == links[..i + 1];
    }
  }

  /** The attributes are not reset between bookmarks: bookmark i is written
      with the rel of the last bookmark up to it that has a truthy rel, even
      when its own rel is empty. */
  lemma ExternalLinkInheritsRel(links: seq<Bookmark>, i: nat, j: nat)
    requires j <= i < |links| && StrTruthy(links[j].rel)
    requires forall k :: j < k <= i ==> !StrTruthy(links[k].rel)
    ensures |ExternalItems(links)| == |links|
    ensures ExternalItems(links)[i] ==
      Str(ExternalItem(links[i], AttributeText(Rel, links[j].rel), Carried(links[..i + 1], Target), Carried(links[..i + 1], Title)))
  {
    ExternalItemAt(links, i);
    var prefix := links[..i + 1];
    assert forall k :: j < k < |prefix| ==> prefix[k] == links[k];
    CarriedIsLastTruthy(prefix, Rel, j);
  }

  // ---------------------------------------------------------------------------
  // Stylesheets

  /** An entry of the style array with an array value and a truthy url. */
  predicate HasUrl(values: Value) {
    values.Arr? && Truthy(Lookup(values.entries, StrKey("url")))
  }

  /** One style entry after add_version_to_styles. */
  function Versioned(values: Value, version: string): Value {
    if HasUrl(values)
    then Arr(Set(values.entries, StrKey("url"), Str(ToStr(Lookup(values.entries, StrKey("url"))) + "?v=" + version)))
    else values
  }

  /** add_version_to_styles: the version query is appended to each url, in place. */
  method AddVersionToStyles(styleArray: Value, version: string) returns (r: Value)
    ensures !styleArray.Arr? ==> r == styleArray
    ensures styleArray.Arr? ==>
      && r.Arr? && |r.entries| == |styleArray.entries|
      && (forall i :: 0 <= i < |r.entries| ==>
            r.entries[i] == (styleArray.entries[i].0, Versioned(styleArray.entries[i].1, version)))
  {
    if !styleArray.Arr? {
      return styleArray;
    }
    var a := styleArray.entries;
    var i := 0;
    while i < |a|
      invariant 0 <= i <= |a| && |a| == |styleArray.entries|
      invariant forall j :: 0 <= j < i ==> a[j] == (styleArray.entries[j].0, Versioned(styleArray.entries[j].1, version))
      invariant forall j :: i <= j < |a| ==> a[j] == styleArray.entries[j]
    {
      var values := a[i].1;
      if values.Arr? && Truthy(Lookup(values.entries, StrKey("url"))) {
        var url := Lookup(values.entries, StrKey("url"));
        a := a[i := (a[i].0, Arr(Set(values.entries, StrKey("url"), Str(ToStr(url) + "?v=" + version))))];
      }
      i := i + 1;
    }
    r := Arr(a);
  }

  /** A style entry with a url gets the version query on its url and nothing
      else changes; an entry without one is left alone. */
  lemma VersionedUrl(values: Value, version: string, other: Key)
    ensures !HasUrl(values) ==> Versioned(values, version) == values
    ensures HasUrl(values) ==>
      Versioned(values, version).Arr? && KeysOf(Versioned(values, version).entries) == KeysOf(values.entries)
    ensures HasUrl(values) && DistinctKeys(values.entries) ==>
      && Lookup(Versioned(values, version).entries, StrKey("url"))
           == Str(ToStr(Lookup(values.entries, StrKey("url"))) + "?v=" + version)
      && (other != StrKey("url") ==> Lookup(Versioned(values, version).entries, other) == Lookup(values.entries, other))
  {
    if HasUrl(values) {
      var url := StrKey("url");
      assert IndexOf(values.entries, url).Some?;
      var v := Str(ToStr(Lookup(values.entries, url)) + "?v=" + version);
      if DistinctKeys(values.entries) {
        SetLookup(values.entries, url, v, other);
      }
    }
  }

  /** A style entry with only a url. */
  function UrlStyle(key: string, url: string): (Key, Value) {
    (StrKey(key), Arr([(StrKey("url"), Str(url))]))
  }

  /** A style entry with a url and a media. */
  function MediaStyle(key: string, url: string, media: string): (Key, Value) {
    (StrKey(key), Arr([(StrKey("url"), Str(url)), (StrKey("media"), Str(media))]))
  }

  /** The style array tarski_stylesheets starts from. */
  function DefaultStyleArray(stylesheetUrl: string, templateDir: string, style: Value): PArray {
    [ UrlStyle("main", stylesheetUrl),
      MediaStyle("print", templateDir + "/library/css/print.css", "print"),
      MediaStyle("mobile", templateDir + "/library/css/mobile.css", "handheld") ]
    + (if Truthy(style) then [UrlStyle("alternate", templateDir + "/styles/" + ToStr(style))] else [])
  }

  const DefaultMedia := "screen,projection"

  /** The media of a style entry, 'screen,projection' when it has none. */
  function StyleMedia(values: PArray): string {
    var media := Lookup(values, StrKey("media"));
    if Truthy(media) then ToStr(media) else DefaultMedia
  }

  function StyleLink(url: string, media: string): string {
    "<link rel=\"stylesheet\" href=\"" + url + "\" type=\"text/css\" media=\"" + media + "\" />"
  }

  /** The link for one style entry: one entry under its key when it has a url, none otherwise. */
  function StyleLinkOf(entry: (Key, Value)): PArray {
    if HasUrl(entry.1)
    then [(entry.0, Str(StyleLink(ToStr(Lookup(entry.1.entries, StrKey("url"))), StyleMedia(entry.1.entries))))]
    else []
  }

  /** The link for each entry that has a url, under the entry's key, in order. */
  function StyleLinks(a: PArray): PArray
    decreases |a|
  {
    if |a| == 0 then [] else StyleLinks(a[..|a| - 1]) + StyleLinkOf(a[|a| - 1])
  }

  lemma StyleLinksSnoc(a: PArray, entry: (Key, Value))
    ensures StyleLinks(a + [entry]) == StyleLinks(a) + StyleLinkOf(entry)
  {
    assert (a + [entry])[..|a|] == a;
  }

  /** What tarski_stylesheets echoes. */
  function StylesheetsOutput(stylesheets: PArray): string {
    Implode("\n", stylesheets) + "\n\n"
  }

  /** The loop of tarski_stylesheets: a link per entry with a url, stored by key. */
  method Stylesheets(styleArray: Value) returns (output: string)
    ensures output == StylesheetsOutput(SetAll([], StyleLinks(NavbarArray(styleArray))))
  {
    var stylesheets: PArray := [];
    if styleArray.Arr? {
      var a := styleArray.entries;
      var i := 0;
      while i < |a|
        invariant 0 <= i <= |a|
        invariant stylesheets == SetAll([], StyleLinks(a[..i]))
      {
        var (key, values) := a[i];
        StylesheetsStep(a, i);
        if values.Arr? && Truthy(Lookup(values.entries, StrKey("url"))) {
          var media := Lookup(values.entries, StrKey("media"));
          var mediaText := if Truthy(media) then ToStr(media) else DefaultMedia;
          stylesheets := Set(stylesheets, key, Str(StyleLink(ToStr(Lookup(values.entries, StrKey("url"))), mediaText)));
        }
        i := i + 1;
      }
      assert a[..|a|] == a;
    }
    output := Implode("\n", stylesheets) + "\n\n";
  }

  /** One step of the loop of tarski_stylesheets: an entry with a url adds
      its link by key, any other entry leaves the links as they were. */
  lemma StylesheetsStep(a: PArray, i: nat)
    requires i < |a|
    ensures HasUrl(a[i].1) ==>
      SetAll([], StyleLinks(a[..i + 1])) == Set(SetAll([], StyleLinks(a[..i])), a[i].0, Str(StyleLink(ToStr(Lookup(a[i].1.entries, StrKey("url"))), StyleMedia(a[i].1.entries))))
    ensures !HasUrl(a[i].1) ==> SetAll([], StyleLinks(a[..i + 1])) == SetAll([], StyleLinks(a[..i]))
  {
    assert a[..i] + [a[i]] == a[..i + 1];
    StyleLinksSnoc(a[..i], a[i]);
    var links := StyleLinks(a[..i]);
    if HasUrl(a[i].1) {
      var e := StyleLinkOf(a[i])[0];
      assert (links + [e])[..|links|] == links;
    } else {
      assert links + [] == links;
    }
  }

  /** Every link sits under a key of the style array. */
  lemma {:induction false} StyleLinksKeys(a: PArray)
    ensures |StyleLinks(a)| <= |a|
    ensures forall j :: 0 <= j < |StyleLinks(a)| ==> StyleLinks(a)[j].0 in KeysOf(a)
    decreases |a|
  {
    if |a| > 0 {
      var init := a[..|a| - 1];
      StyleLinksKeys(init);
      assert forall k :: k in KeysOf(init) ==> k in KeysOf(a) by {
        forall k | k in KeysOf(init) ensures k in KeysOf(a) {
          var j :| 0 <= j < |init| && KeysOf(init)[j] == k;
          assert KeysOf(a)[j] == k;
        }
      }
      assert KeysOf(a)[|a| - 1] == a[|a| - 1].0;
    }
  }

  /** Entries with distinct keys give links with distinct keys. */
  lemma {:induction false} StyleLinksDistinct(a: PArray)
    requires DistinctKeys(a)
    ensures DistinctKeys(StyleLinks(a))
    decreases |a|
  {
    if |a| > 0 {
      var n := |a|;
      var init := a[..n - 1];
      assert DistinctKeys(init);
      StyleLinksDistinct(init);
      StyleLinksKeys(init);
      var links := StyleLinks(init);
      if HasUrl(a[n - 1].1) {
        forall j | 0 <= j < |links|
          ensures KeysOf(links)[j] != a[n - 1].0
        {
          var m :| 0 <= m < |init| && KeysOf(init)[m] == links[j].0;
          assert a[m].0 == links[j].0;
        }
        DistinctKeysSnoc(links, StyleLinkOf(a[n - 1])[0]);
        assert StyleLinks(a) == links + [StyleLinkOf(a[n - 1])[0]];
      } else {
        assert StyleLinks(a) == links;
      }
    }
  }

  /** With distinct keys the links keep distinct keys, so storing them by key
      is appending them: entries without a url are dropped and the order of
      the style array is kept. */
  lemma StylesheetsKeepOrder(a: PArray)
    requires DistinctKeys(a)
    ensures DistinctKeys(StyleLinks(a))
    ensures SetAll([], StyleLinks(a)) == StyleLinks(a)
  {
    StyleLinksDistinct(a);
    assert [] + StyleLinks(a) == StyleLinks(a);
    SetAllFresh([], StyleLinks(a));
  }

  /** An entry with only a url gets the default media. */
  lemma StyleLinkOfUrlOnly(key: string, u: string)
    requires StrTruthy(u)
    ensures StyleLinkOf(UrlStyle(key, u)) == [LinkEntry(key, u, DefaultMedia)]
  {
    assert Lookup([(StrKey("url"), Str(u))], StrKey("media")) == Null;
  }

  /** An entry with a url and a media keeps its media. */
  lemma StyleLinkOfWithMedia(key: string, u: string, m: string)
    requires StrTruthy(u) && StrTruthy(m)
    ensures StyleLinkOf(MediaStyle(key, u, m)) == [LinkEntry(key, u, m)]
  {
    LookupPair(StrKey("url"), Str(u), StrKey("media"), Str(m));
  }

  /** The link stored for a style. */
  function LinkEntry(key: string, url: string, media: string): (Key, Value) {
    (StrKey(key), Str(StyleLink(url, media)))
  }

  lemma LookupPair(k1: Key, v1: Value, k2: Key, v2: Value)
    requires k1 != k2
    ensures Lookup([(k1, v1), (k2, v2)], k1) == v1
    ensures Lookup([(k1, v1), (k2, v2)], k2) == v2
  {
    var a := [(k1, v1), (k2, v2)];
    assert a[..1] == [(k1, v1)];
    assert IndexOf([(k1, v1)], k1) == Some(0);
    assert IndexOf(a, k1) == Some(0);
    assert IndexOf(a, k2) == Some(1);
  }

  /** A path under a directory is a truthy string. */
  lemma PathTruthy(dir: string, rest: string)
    requires |rest| > 0 && rest[0] == '/'
    ensures StrTruthy(dir + rest)
  {
    assert (dir + rest)[|dir|] == '/';
  }

  /** The links for main, print and mobile. */
  lemma FixedStylesheets(stylesheetUrl: string, templateDir: string)
    requires StrTruthy(stylesheetUrl)
    ensures StyleLinks([ UrlStyle("main", stylesheetUrl),
                         MediaStyle("print", templateDir + "/library/css/print.css", "print"),
                         MediaStyle("mobile", templateDir + "/library/css/mobile.css", "handheld") ]) ==
      [ LinkEntry("main", stylesheetUrl, DefaultMedia),
        LinkEntry("print", templateDir + "/library/css/print.css", "print"),
        LinkEntry("mobile", templateDir + "/library/css/mobile.css", "handheld") ]
  {
    var printUrl := templateDir + "/library/css/print.css";
    var mobileUrl := templateDir + "/library/css/mobile.css";
    var main := UrlStyle("main", stylesheetUrl);
    var print_ := MediaStyle("print", printUrl, "print");
    var mobile := MediaStyle("mobile", mobileUrl, "handheld");
    PathTruthy(templateDir, "/library/css/print.css");
    PathTruthy(templateDir, "/library/css/mobile.css");
    StyleLinkOfUrlOnly("main", stylesheetUrl);
    StyleLinkOfWithMedia("print", printUrl, "print");
    StyleLinkOfWithMedia("mobile", mobileUrl, "handheld");
    StyleLinksSnoc([], main);
    assert [] + [main] == [main];
    StyleLinksSnoc([main], print_);
    assert [main] + [print_] == [main, print_];
    StyleLinksSnoc([main, print_], mobile);
    assert [main, print_] + [mobile] == [main, print_, mobile];
  }

  /** With a non-empty stylesheet url the default array gives main (with the
      default media), print, mobile and, for a chosen style, alternate, in
      that order. */
  lemma DefaultStylesheets(stylesheetUrl: string, templateDir: string, style: Value)
    requires StrTruthy(stylesheetUrl)
    ensures StyleLinks(DefaultStyleArray(stylesheetUrl, templateDir, style)) ==
      [ LinkEntry("main", stylesheetUrl, DefaultMedia),
        LinkEntry("print", templateDir + "/library/css/print.css", "print"),
        LinkEntry("mobile", templateDir + "/library/css/mobile.css", "handheld") ]
      + (if Truthy(style) then [LinkEntry("alternate", templateDir + "/styles/" + ToStr(style), DefaultMedia)] else [])
  {
    FixedStylesheets(stylesheetUrl, templateDir);
    var first := [ UrlStyle("main", stylesheetUrl),
                   MediaStyle("print", templateDir + "/library/css/print.css", "print"),
                   MediaStyle("mobile", templateDir + "/library/css/mobile.css", "handheld") ];
    if Truthy(style) {
      var altUrl := templateDir + "/styles/" + ToStr(style);
      PathTruthy(templateDir + "/styles", "/" + ToStr(style));
      assert templateDir + "/styles" + ("/" + ToStr(style)) == altUrl;
      StyleLinkOfUrlOnly("alternate", altUrl);
      StyleLinksSnoc(first, UrlStyle("alternate", altUrl));
    } else {
      assert first + [] == first;
    }
  }

  // ---------------------------------------------------------------------------
  // Document title

  /** The WordPress conditional tags a template reads. */
  datatype Conditionals = Conditionals(
    isHome: bool, isSearch: bool, isPage: bool, isSingle: bool, isCategory: bool, isTag: bool,
    isAuthor: bool, isDate: bool, isYear: bool, isMonth: bool, isDay: bool, is404: bool)

  /** The texts the title is made from, as WordPress supplies them. */
  datatype TitleSources = TitleSources(
    description: string, searchQuery: string, monthTitle: string, tagTitles: string, pageTitle: string)

  /** The content part of the title, by the first branch that applies. */
  function DoctitleContent(q: Conditionals, showOnFront: string, src: TitleSources,
                           translate: string -> string, escape: string -> string): string {
    if q.is404 then translate("Error 404")
    else if showOnFront == "posts" && q.isHome then (if StrTruthy(src.description) then src.description else "")
    else if q.isSearch then FormatOne(translate("Search results for %s"), escape(src.searchQuery))
    else if q.isMonth then src.monthTitle
    else if q.isTag then src.tagTitles
    else Trim(src.pageTitle)
  }

  /** The title elements: the site name, and the separator and content when
      the content is truthy; reversed (keys kept) when the order is swapped. */
  function DoctitleElements(siteName: string, sep: string, content: string, swap: bool): PArray {
    var elements := if StrTruthy(content)
      then [(StrKey("site_name"), Str(siteName)), (StrKey("separator"), Str(sep)), (StrKey("content"), Str(content))]
      else [(StrKey("site_name"), Str(siteName))];
    if swap then Reverse(elements) else elements
  }

  /** The separator tarski_doctitle uses when it is given none. */
  const DefaultSep := "&middot;"

  /** tarski_doctitle */
  function Doctitle(siteName: string, sep: string, content: string, swapOption: Value): string {
    Implode(" ", DoctitleElements(siteName, sep, content, Truthy(swapOption)))
  }

  /** The title reads "site sep content", or "content sep site" when swapped,
      or just the site name when there is no content. */
  lemma DoctitleText(siteName: string, sep: string, content: string, swapOption: Value)
    ensures Doctitle(siteName, sep, content, swapOption) ==
      if !StrTruthy(content) then siteName
      else if Truthy(swapOption) then content + " " + sep + " " + siteName
      else siteName + " " + sep + " " + content
  {
    var e := DoctitleElements(siteName, sep, content, Truthy(swapOption));
    var parts := seq(|e|, i requires 0 <= i < |e| => ToStr(e[i].1));
    assert Doctitle(siteName, sep, content, swapOption) == Join(" ", parts);
    if StrTruthy(content) {
      if Truthy(swapOption) {
        assert parts == [content, sep, siteName];
        JoinThree(" ", content, sep, siteName);
      } else {
        assert parts == [siteName, sep, content];
        JoinThree(" ", siteName, sep, content);
      }
    } else {
      assert parts == [siteName];
    }
  }

  lemma JoinThree(sep: string, x: string, y: string, z: string)
    ensures Join(sep, [x, y, z]) == x + sep + y + sep + z
  {
    assert [x, y, z][1..] == [y, z];
    assert [y, z][1..] == [z];
  }

  /** A 404 page is titled by the translated "Error 404" whatever else holds,
      and the posts front page without a description by the site name alone. */
  lemma DoctitleContentCases(q: Conditionals, showOnFront: string, src: TitleSources,
                             translate: string -> string, escape: string -> string)
    ensures q.is404 ==> DoctitleContent(q, showOnFront, src, translate, escape) == translate("Error 404")
    ensures !q.is404 && showOnFront == "posts" && q.isHome && !StrTruthy(src.description) ==>
      !StrTruthy(DoctitleContent(q, showOnFront, src, translate, escape))
  {
  }

  // ---------------------------------------------------------------------------
  // Body class and id

  /** The class for an alternate style: its file name with ".css" removed. */
  function StyleClass(style: Value): string {
    RemoveAll(ToStr(style), ".css")
  }

  /** tarski_bodyclass: the classes pushed in order, joined by spaces. */
  method BodyClass(centred: Value, swapSides: Value, style: Value, isValidStyle: string -> bool, textDirection: string)
    returns (classes: seq<string>, bodyClass: string)
    ensures classes == BodyClasses(centred, swapSides, style, isValidStyle, textDirection)
    ensures bodyClass == Join(" ", classes)
  {
    classes := [];
    if Truthy(centred) {
      classes := classes + ["centre"];
    }
    assert classes == (if Truthy(centred) then ["centre"] else []);
    if Truthy(swapSides) {
      classes := classes + ["janus"];
    }
    ghost var settled := classes;
    if Truthy(style) {
      var styleFile := ToStr(style);
      var styleName := RemoveAll(styleFile, ".css");
      if isValidStyle(styleFile) {
        classes := classes + [styleName];
      }
    }
    assert classes == settled + (if Truthy(style) && isValidStyle(ToStr(style)) then [StyleClass(style)] else []);
    if textDirection == "rtl" {
      classes := classes + ["rtl"];
    }
    bodyClass := Join(" ", classes);
  }

  /** The body classes: centre, janus, the style's class and rtl, each when
      its setting holds, in that order. */
  function BodyClasses(centred: Value, swapSides: Value, style: Value, isValidStyle: string -> bool, textDirection: string): seq<string> {
    (if Truthy(centred) then ["centre"] else [])
      + (if Truthy(swapSides) then ["janus"] else [])
      + (if Truthy(style) && isValidStyle(ToStr(style)) then [StyleClass(style)] else [])
      + (if textDirection == "rtl" then ["rtl"] else [])
  }

  /** Each class sits at its fixed place exactly when its setting holds:
      there is one class per setting that holds, centre first, then janus,
      the style's class and rtl, each after the ones before it. */
  lemma BodyClassesPositions(centred: Value, swapSides: Value, style: Value, isValidStyle: string -> bool, textDirection: string)
    ensures var r := BodyClasses(centred, swapSides, style, isValidStyle, textDirection);
      var c := if Truthy(centred) then 1 else 0;
      var j := if Truthy(swapSides) then 1 else 0;
      var v := if Truthy(style) && isValidStyle(ToStr(style)) then 1 else 0;
      var t := if textDirection == "rtl" then 1 else 0;
      && |r| == c + j + v + t
      && (Truthy(centred) ==> r[0] == "centre")
      && (Truthy(swapSides) ==> r[c] == "janus")
      && (Truthy(style) && isValidStyle(ToStr(style)) ==> r[c + j] == StyleClass(style))
      && (textDirection == "rtl" ==> r[c + j + v] == "rtl")
  {
  }

  /** A style file "name.css" whose name has no dot gives the class "name". */
  lemma StyleClassOfCssFile(name: string)
    requires '.' !in name
    ensures StyleClass(Str(name + ".css")) == name
  {
    RemoveCssSuffix(name);
    RemoveAllAbsent(name, ".css");
  }

  /** With every setting on, the classes are exactly centre, janus, the style
      class and rtl. */
  lemma BodyClassesAllSettings(style: string, isValidStyle: string -> bool)
    requires StrTruthy(style) && isValidStyle(style)
    ensures BodyClasses(Bool(true), Bool(true), Str(style), isValidStyle, "rtl") ==
      ["centre", "janus", StyleClass(Str(style)), "rtl"]
  {
  }

  /** The data the body id is made from. */
  datatype IdSources = IdSources(
    postName: string, categoryNicename: string, tagSlug: string, authorLogin: string,
    year: string, monthnum: string, day: string)

  /** The date id: year, year-month or year-month-day. */
  function DateId(q: Conditionals, d: IdSources): string {
    "date" +
      if q.isYear then "-" + d.year
      else if q.isMonth then "-" + d.year + "-" + d.monthnum
      else if q.isDay then "-" + d.year + "-" + d.monthnum + "-" + d.day
      else ""
  }

  /** tarski_bodyid: the first page kind that applies decides. */
  function BodyId(q: Conditionals, d: IdSources): string {
    if q.isHome then "home"
    else if q.isSearch then "search"
    else if q.isPage then "page-" + d.postName
    else if q.isSingle then "post-" + d.postName
    else if q.isCategory then "cat-" + d.categoryNicename
    else if q.isTag then "tag-" + d.tagSlug
    else if q.isAuthor then "author-" + d.authorLogin
    else if q.isDate then DateId(q, d)
    else if q.is404 then "404"
    else "unknown"
  }

  /** The page kinds in the order tarski_bodyid tests them. */
  function KindFlags(q: Conditionals): seq<bool> {
    [q.isHome, q.isSearch, q.isPage, q.isSingle, q.isCategory, q.isTag, q.isAuthor, q.isDate, q.is404]
  }

  /** The id for each page kind, by position in KindFlags. */
  function IdOfKind(kind: nat, q: Conditionals, d: IdSources): string {
    match kind
    case 0 => "home"
    case 1 => "search"
    case 2 => "page-" + d.postName
    case 3 => "post-" + d.postName
    case 4 => "cat-" + d.categoryNicename
    case 5 => "tag-" + d.tagSlug
    case 6 => "author-" + d.authorLogin
    case 7 => DateId(q, d)
    case 8 => "404"
    case _ => "unknown"
  }

  /** The body id is the id of the first kind, in the fixed order, that the
      page is; 'unknown' when it is none of them. */
  lemma BodyIdFirstKindWins(q: Conditionals, d: IdSources, k: nat)
    requires k <= |KindFlags(q)|
    requires k < |KindFlags(q)| ==> KindFlags(q)[k]
    requires forall j :: 0 <= j < k ==> !KindFlags(q)[j]
    ensures BodyId(q, d) == IdOfKind(k, q, d)
  {
    var flags := KindFlags(q);
    if k == 0 { }
    else if k == 1 { assert !flags[0]; }
    else if k == 2 { assert !flags[0] && !flags[1]; }
    else if k == 3 { assert !flags[0] && !flags[1] && !flags[2]; }
    else if k == 4 { assert !flags[0] && !flags[1] && !flags[2] && !flags[3]; }
    else if k == 5 { assert !flags[0] && !flags[1] && !flags[2] && !flags[3] && !flags[4]; }
    else if k == 6 { assert !flags[0] && !flags[1] && !flags[2] && !flags[3] && !flags[4] && !flags[5]; }
    else if k == 7 { assert !flags[0] && !flags[1] && !flags[2] && !flags[3] && !flags[4] && !flags[5] && !flags[6]; }
    else {
      assert !flags[0] && !flags[1] && !flags[2] && !flags[3] && !flags[4] && !flags[5] && !flags[6] && !flags[7];
      if k == 9 { assert !flags[8]; }
    }
  }

  /** A date archive's id names the year, the month or the day. */
  lemma DateIds(q: Conditionals, d: IdSources)
    requires q.isDate && !q.isHome && !q.isSearch && !q.isPage && !q.isSingle && !q.isCategory && !q.isTag && !q.isAuthor
    ensures q.isYear ==> BodyId(q, d) == "date-" + d.year
    ensures !q.isYear && q.isMonth ==> BodyId(q, d) == "date-" + d.year + "-" + d.monthnum
    ensures !q.isYear && !q.isMonth && q.isDay ==> BodyId(q, d) == "date-" + d.year + "-" + d.monthnum + "-" + d.day
  {
  }

  // ---------------------------------------------------------------------------
  // Navbar

  /** home_link_name: the option when it is truthy, else the translated 'Home'. */
  function HomeLinkName(option: Value, translatedHome: string): string {
    if Truthy(option) then ToStr(option) else translatedHome
  }

  /** "0" reads as zero. */
  lemma ZeroString()
    ensures ToInt("0") == 0
  {
    IntToStringRoundTrip(0);
    assert DigitChar(0) == '0';
    assert IntToString(0) == "0";
  }

  /** A non-zero integer prints as a truthy string. */
  lemma NonZeroPrintsTruthy(i: int)
    requires i != 0
    ensures StrTruthy(IntToString(i))
  {
    IntToStringRoundTrip(i);
    ZeroString();
    assert IntToString(i) != "" by {
      if i < 0 {
        assert |IntToString(i)| == 1 + |NatToString(-i)|;
      }
    }
  }

  /** A truthy value prints as a truthy string. */
  lemma TruthyToStr(v: Value)
    requires Truthy(v)
    ensures StrTruthy(ToStr(v))
  {
    if v.Int? {
      NonZeroPrintsTruthy(v.i);
    }
  }

  /** The navbar's Home link always has a caption when the translation has one. */
  lemma HomeLinkNameTruthy(option: Value, translatedHome: string)
    requires StrTruthy(translatedHome)
    ensures StrTruthy(HomeLinkName(option, translatedHome))
    ensures Truthy(option) && option.Str? ==> HomeLinkName(option, translatedHome) == option.s
  {
    if Truthy(option) {
      TruthyToStr(option);
    }
  }

  /** A page as get_pages returns it. */
  datatype Page = Page(id: int, name: string, title: string)

  const NavCurrent := " class=\"nav-current\""

  function HomeItem(status: string, url: string, name: string): string {
    "<li><a id=\"nav-home\"" + status + " href=\"" + url + "\" rel=\"home\">" + name + "</a></li>"
  }

  function PageItem(p: Page, status: string, link: string): string {
    "<li><a id=\"nav-" + IntToString(p.id) + "-" + p.name + "\"" + status + " href=\"" + link + "\">" + p.title + "</a></li>"
  }

  /** in_array($page->ID, $nav_pages): loosely equal to some listed id. */
  predicate Listed(id: int, navIds: seq<string>) {
    exists j :: 0 <= j < |navIds| && LooseEqualsInt(Str(navIds[j]), id)
  }

  /** The state tarski_navbar reads. */
  datatype NavContext = NavContext(
    showOnFront: string, isHome: bool, homeUrl: string, homeName: string,
    viewing: Option<int>, pageForPosts: Value)

  /** The page is the one being viewed, or the posts page shown as home. */
  predicate IsCurrent(p: Page, c: NavContext) {
    c.viewing == Some(p.id) || (c.showOnFront == "page" && LooseEqualsInt(c.pageForPosts, p.id) && c.isHome)
  }

  /** The Home entry, unless a static page is the front page. */
  function HomeEntries(c: NavContext): PArray {
    if c.showOnFront != "page"
    then [(StrKey("home"), Str(HomeItem(if c.isHome then NavCurrent else "", c.homeUrl, c.homeName)))]
    else []
  }

  /** The entry for each listed page, under its id, in page order. */
  function NavPageEntries(pages: seq<Page>, navIds: seq<string>, c: NavContext, permalink: int -> string): PArray
    decreases |pages|
  {
    if |pages| == 0 then []
    else
      var p := pages[|pages| - 1];
      NavPageEntries(pages[..|pages| - 1], navIds, c, permalink)
        + (if Listed(p.id, navIds)
           then [(IntKey(p.id), Str(PageItem(p, if IsCurrent(p, c) then NavCurrent else "", permalink(p.id))))]
           else [])
  }

  /** What tarski_navbar outputs: the entries on lines of their own, or false
      when there are none. */
  function NavbarOutput(navbar: PArray): Value {
    if |navbar| > 0 then Str("\n" + Implode("\n", navbar) + "\n\n") else Bool(false)
  }

  /** tarski_navbar */
  method TarskiNavbar(c: NavContext, pages: seq<Page>, navPages: Value, permalink: int -> string)
    returns (output: Value)
    ensures output == NavbarOutput(SetAll(HomeEntries(c), NavPageEntries(pages, Split(ToStr(navPages), ','), c, permalink)))
  {
    var navbar: PArray := [];
    if c.showOnFront != "page" {
      var homeStatus := "";
      if c.isHome {
        homeStatus := NavCurrent;
      }
      navbar := Set(navbar, StrKey("home"), Str(HomeItem(homeStatus, c.homeUrl, c.homeName)));
    }
    var navIds := Split(ToStr(navPages), ',');
    if |navIds| > 0 && |pages| > 0 {
      var i := 0;
      while i < |pages|
        invariant 0 <= i <= |pages|
        invariant navbar == SetAll(HomeEntries(c), NavPageEntries(pages[..i], navIds, c, permalink))
      {
        var page := pages[i];
        NavbarStep(HomeEntries(c), pages, navIds, c, permalink, i);
        if exists j :: 0 <= j < |navIds| && LooseEqualsInt(Str(navIds[j]), page.id) {
          var pageStatus := "";
          if c.viewing == Some(page.id) || (c.showOnFront == "page" && LooseEqualsInt(c.pageForPosts, page.id) && c.isHome) {
            pageStatus := NavCurrent;
          }
          navbar := Set(navbar, IntKey(page.id), Str(PageItem(page, pageStatus, permalink(page.id))));
        }
        i := i + 1;
      }
      assert pages[..|pages|] == pages;
    } else {
      assert NavPageEntries(pages, navIds, c, permalink) == [];
    }
    if |navbar| > 0 {
      output := Str("\n" + Implode("\n", navbar) + "\n\n");
    } else {
      output := Bool(false);
    }
  }

  /** One more page: a listed page is stored under its id, any other is skipped. */
  lemma NavbarStep(home: PArray, pages: seq<Page>, navIds: seq<string>, c: NavContext, permalink: int -> string, i: nat)
    requires i < |pages|
    ensures Listed(pages[i].id, navIds) ==>
      SetAll(home, NavPageEntries(pages[..i + 1], navIds, c, permalink))
        == Set(SetAll(home, NavPageEntries(pages[..i], navIds, c, permalink)), IntKey(pages[i].id),
               Str(PageItem(pages[i], if IsCurrent(pages[i], c) then NavCurrent else "", permalink(pages[i].id))))
    ensures !Listed(pages[i].id, navIds) ==>
      SetAll(home, NavPageEntries(pages[..i + 1], navIds, c, permalink)) == SetAll(home, NavPageEntries(pages[..i], navIds, c, permalink))
  {
    assert pages[..i + 1][..i] == pages[..i];
    var entries := NavPageEntries(pages[..i], navIds, c, permalink);
    if Listed(pages[i].id, navIds) {
      var entry := (IntKey(pages[i].id), Str(PageItem(pages[i], if IsCurrent(pages[i], c) then NavCurrent else "", permalink(pages[i].id))));
      assert NavPageEntries(pages[..i + 1], navIds, c, permalink) == entries + [entry];
      assert (entries + [entry])[..|entries|] == entries;
    } else {
      assert NavPageEntries(pages[..i + 1], navIds, c, permalink) == entries + [];
      assert entries + [] == entries;
    }
  }

  /** Page ids are distinct. */
  ghost predicate DistinctIds(pages: seq<Page>) {
    forall i, j :: 0 <= i < j < |pages| ==> pages[i].id != pages[j].id
  }

  function Ids(pages: seq<Page>): seq<int> {
    seq(|pages|, i requires 0 <= i < |pages| => pages[i].id)
  }

  /** The ids of the listed pages, in page order. */
  ghost function ListedIds(pages: seq<Page>, navIds: seq<string>): seq<int>
    decreases |pages|
  {
    if |pages| == 0 then []
    else
      var p := pages[|pages| - 1];
      ListedIds(pages[..|pages| - 1], navIds) + (if Listed(p.id, navIds) then [p.id] else [])
  }

  /** The entries sit under the listed pages' ids, in page order. */
  lemma {:induction false} NavEntryKeys(pages: seq<Page>, navIds: seq<string>, c: NavContext, permalink: int -> string)
    ensures |NavPageEntries(pages, navIds, c, permalink)| == |ListedIds(pages, navIds)|
    ensures forall j :: 0 <= j < |ListedIds(pages, navIds)| ==>
      NavPageEntries(pages, navIds, c, permalink)[j].0 == IntKey(ListedIds(pages, navIds)[j])
    decreases |pages|
  {
    if |pages| > 0 {
      NavEntryKeys(pages[..|pages| - 1], navIds, c, permalink);
    }
  }

  /** An id is among the listed ids exactly when some page has it and it is listed. */
  lemma {:induction false} ListedIdsMembers(pages: seq<Page>, navIds: seq<string>)
    ensures forall x :: x in ListedIds(pages, navIds) <==> x in Ids(pages) && Listed(x, navIds)
    decreases |pages|
  {
    if |pages| > 0 {
      var init := pages[..|pages| - 1];
      ListedIdsMembers(init, navIds);
      assert Ids(pages) == Ids(init) + [pages[|pages| - 1].id];
    }
  }

  /** With distinct page ids the listed ids are distinct. */
  lemma {:induction false} ListedIdsDistinct(pages: seq<Page>, navIds: seq<string>)
    requires DistinctIds(pages)
    ensures forall a, b :: 0 <= a < b < |ListedIds(pages, navIds)| ==> ListedIds(pages, navIds)[a] != ListedIds(pages, navIds)[b]
    decreases |pages|
  {
    if |pages| > 0 {
      var n := |pages|;
      var init := pages[..n - 1];
      assert DistinctIds(init);
      ListedIdsDistinct(init, navIds);
      ListedIdsMembers(init, navIds);
      assert pages[n - 1].id !in Ids(init) by {
        forall i | 0 <= i < n - 1 ensures Ids(init)[i] != pages[n - 1].id {
          assert Ids(init)[i] == pages[i].id;
        }
      }
    }
  }

  /** A page has an entry exactly when its id is listed. */
  lemma NavbarListsExactlyListedPages(pages: seq<Page>, navIds: seq<string>, c: NavContext, permalink: int -> string)
    ensures forall i :: 0 <= i < |pages| ==>
      (IntKey(pages[i].id) in KeysOf(NavPageEntries(pages, navIds, c, permalink)) <==> Listed(pages[i].id, navIds))
  {
    var e := NavPageEntries(pages, navIds, c, permalink);
    var ids := ListedIds(pages, navIds);
    NavEntryKeys(pages, navIds, c, permalink);
    ListedIdsMembers(pages, navIds);
    forall i | 0 <= i < |pages|
      ensures IntKey(pages[i].id) in KeysOf(e) <==> Listed(pages[i].id, navIds)
    {
      var x := pages[i].id;
      assert Ids(pages)[i] == x;
      if IntKey(x) in KeysOf(e) {
        var j :| 0 <= j < |e| && KeysOf(e)[j] == IntKey(x);
        assert ids[j] == x;
      }
      if Listed(x, navIds) {
        assert x in ids;
        var j :| 0 <= j < |ids| && ids[j] == x;
        assert KeysOf(e)[j] == IntKey(x);
      }
    }
  }

  /** With distinct page ids, storing the entries by id appends them after
      Home in page order. */
  lemma NavbarKeepsPageOrder(pages: seq<Page>, navIds: seq<string>, c: NavContext, permalink: int -> string)
    requires DistinctIds(pages)
    ensures DistinctKeys(HomeEntries(c) + NavPageEntries(pages, navIds, c, permalink))
    ensures SetAll(HomeEntries(c), NavPageEntries(pages, navIds, c, permalink)) == HomeEntries(c) + NavPageEntries(pages, navIds, c, permalink)
  {
    var e := NavPageEntries(pages, navIds, c, permalink);
    var h := HomeEntries(c);
    NavEntryKeys(pages, navIds, c, permalink);
    ListedIdsDistinct(pages, navIds);
    var whole := h + e;
    forall a, b | 0 <= a < b < |whole| ensures whole[a].0 != whole[b].0 {
      assert whole[b] == e[b - |h|];
      if a >= |h| {
        assert whole[a] == e[a - |h|];
      }
    }
    SetAllFresh(h, e);
  }
}
