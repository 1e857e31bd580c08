/** The update notifier's version logic (class TarskiVersion in
    library/classes/version.php): the installed version, the latest release
    read from the first entry of the Atom version feed, and the status that
    compares the two. WordPress reads (the theme's Version header, the feed
    text, the clock) are parameters; wp_specialchars and version_compare are
    function-typed parameters. */
module Version {
  import opened Php

  /** The five statuses version_status can assign. */
  datatype Status = Current | Older | Newer | Error | NoConnection

  /** The status as the source spells it. */
  function StatusName(s: Status): string {
    match s
    case Current => "current"
    case Older => "older"
    case Newer => "newer"
    case Error => "error"
    case NoConnection => "no_connection"
  }

  /** version_compare(a, b): its internals are not modelled, so any function
      into int stands for it; WellBehaved is what PHP documents of it. */
  type Comparator = (string, string) -> int

  ghost predicate WellBehaved(compare: Comparator) {
    && (forall a, b :: compare(a, b) == -1 || compare(a, b) == 0 || compare(a, b) == 1)
    && (forall a :: compare(a, a) == 0)
  }

  // ---------------------------------------------------------------------------
  // Installed version

  const Unknown := "unknown"

  /** current_version_number: the trimmed Version header, or 'unknown' when it trims to nothing. */
  function CurrentVersion(themeVersion: string): (v: string)
    ensures |v| > 0
    ensures Trim(themeVersion) == "" ==> v == Unknown
    ensures Trim(themeVersion) != "" ==> v == Trim(themeVersion)
  {
    var installed := Trim(themeVersion);
    if |installed| < 1 then Unknown else installed
  }

  /** The installed version never carries surrounding whitespace. */
  lemma CurrentVersionIsTrimmed(themeVersion: string)
    ensures Trim(CurrentVersion(themeVersion)) == CurrentVersion(themeVersion)
  {
    if Trim(themeVersion) == "" {
      assert Unknown[0] == 'u' && Unknown[|Unknown| - 1] == 'n';
      assert TrimLeft(Unknown) == Unknown;
      assert TrimRight(Unknown) == Unknown;
    } else {
      TrimIdempotent(themeVersion);
    }
  }

  // ---------------------------------------------------------------------------
  // Feed cache

  /** The cache lifetime, one hour in seconds. */
  const CacheTime := 60 * 60

  /** version_feed_data serves the cached copy only when the file exists, its
      mtime is later than one hour ago, and its contents are truthy. */
  predicate CacheIsFresh(cacheExists: bool, mtime: int, now: int, cached: string) {
    cacheExists && now - CacheTime < mtime && StrTruthy(cached)
  }

  /** The feed text version_feed_data returns: the cache or the remote copy. */
  function FeedData(cacheExists: bool, mtime: int, now: int, cached: string, remote: string): (atom: string)
    ensures CacheIsFresh(cacheExists, mtime, now, cached) ==> atom == cached
    ensures !CacheIsFresh(cacheExists, mtime, now, cached) ==> atom == remote
  {
    if CacheIsFresh(cacheExists, mtime, now, cached) then cached else remote
  }

  /** A cache file written at mtime is served for strictly less than an hour,
      and an empty or "0" file is never served. */
  lemma CacheExpiresAfterAnHour(mtime: int, now: int, cached: string)
    ensures CacheIsFresh(true, mtime, now, cached) <==> now < mtime + 3600 && StrTruthy(cached)
    ensures FeedData(true, mtime, mtime + 3600, cached, "") == ""
  {
  }

  // ---------------------------------------------------------------------------
  // Field extraction: preg_match('/<entry>.*?<NAME>(.+?)<\/NAME>.*?<\/entry>/is', feed)

  /** ASCII lower-casing, which is how the /i flag compares letters. */
  function Lower(c: char): char {
    if 'A' <= c <= 'Z' then (c as int + 32) as char else c
  }

  /** The (lower-case) tag occurs at position i of s, ignoring case. */
  predicate TagAt(s: string, i: int, tag: string) {
    0 <= i && i + |tag| <= |s| && LowerAll(s[i..i + |tag|]) == tag
  }

  function LowerAll(s: string): string {
    seq(|s|, k requires 0 <= k < |s| => Lower(s[k]))
  }

  /** The first occurrence of tag at or after position from. */
  function FindTag(s: string, tag: string, from: nat): (r: Option<nat>)
    decreases |s| - from
    ensures r.Some? ==> from <= r.value && TagAt(s, r.value, tag)
    ensures r.Some? ==> forall j :: from <= j < r.value ==> !TagAt(s, j, tag)
    ensures r.None? ==> forall j :: from <= j ==> !TagAt(s, j, tag)
  {
    if from + |tag| > |s| then None
    else if TagAt(s, from, tag) then Some(from)
    else FindTag(s, tag, from + 1)
  }

  const EntryOpen := "<entry>"
  const EntryClose := "</entry>"

  function OpenTag(name: string): string {
    "<" + name + ">"
  }

  function CloseTag(name: string): string {
    "</" + name + ">"
  }

  /** The group the pattern captures, if the pattern matches. With lazy
      quantifiers and the leftmost match this is: the first <entry>, the first
      <NAME> after it, the first </NAME> at least one character later, provided
      some </entry> follows. */
  function EntryField(s: string, name: string): (r: Option<string>)
    ensures r.Some? ==> |r.value| > 0
  {
    match FindTag(s, EntryOpen, 0)
    case None => None
    case Some(e) =>
      match FindTag(s, OpenTag(name), e + |EntryOpen|)
      case None => None
      case Some(t) =>
        var start := t + |OpenTag(name)|;
        match FindTag(s, CloseTag(name), start + 1)
        case None => None
        case Some(c) =>
          if FindTag(s, EntryClose, c + |CloseTag(name)|).Some? then Some(s[start..c]) else None
  }

  /** Positions e, t, c, x at which the pattern matches s: <entry> at e, <NAME>
      at t after it, a non-empty group, </NAME> at c, </entry> at x after it. */
  ghost predicate PatternMatches(s: string, name: string, e: int, t: int, c: int, x: int) {
    && TagAt(s, e, EntryOpen)
    && e + |EntryOpen| <= t && TagAt(s, t, OpenTag(name))
    && t + |OpenTag(name)| < c && TagAt(s, c, CloseTag(name))
    && c + |CloseTag(name)| <= x && TagAt(s, x, EntryClose)
  }

  /** i is the first place at or after from where tag occurs. */
  ghost predicate FirstAt(s: string, tag: string, from: int, i: int) {
    from <= i && TagAt(s, i, tag) && forall j :: from <= j < i ==> !TagAt(s, j, tag)
  }

  /** Whenever the pattern matches anywhere, EntryField finds a group. */
  lemma EntryFieldComplete(s: string, name: string, e: nat, t: nat, c: nat, x: nat)
    requires PatternMatches(s, name, e, t, c, x)
    ensures EntryField(s, name).Some?
  {
    var open, close := OpenTag(name), CloseTag(name);
    var fe := FindTag(s, EntryOpen, 0);
    assert fe.Some?;
    var e0 := fe.value;
    assert e0 <= e;
    var ft := FindTag(s, open, e0 + |EntryOpen|);
    assert ft.Some?;
    var t0 := ft.value;
    assert t0 <= t;
    var fc := FindTag(s, close, t0 + |open| + 1);
    assert fc.Some?;
    var c0 := fc.value;
    assert c0 <= c;
    assert FindTag(s, EntryClose, c0 + |close|).Some?;
  }

  /** What EntryField returns is the group of a genuine match, and that match
      is the leftmost-lazy one the regular expression engine picks. */
  lemma EntryFieldSound(s: string, name: string)
    requires EntryField(s, name).Some?
    ensures exists e, t, c, x ::
      && PatternMatches(s, name, e, t, c, x)
      && FirstAt(s, EntryOpen, 0, e)
      && FirstAt(s, OpenTag(name), e + |EntryOpen|, t)
      && FirstAt(s, CloseTag(name), t + |OpenTag(name)| + 1, c)
      && EntryField(s, name).value == s[t + |OpenTag(name)|..c]
  {
    var open, close := OpenTag(name), CloseTag(name);
    var fe := FindTag(s, EntryOpen, 0);
    assert fe.Some?;
    var e := fe.value;
    var ft := FindTag(s, open, e + |EntryOpen|);
    assert ft.Some?;
    var t := ft.value;
    var fc := FindTag(s, close, t + |open| + 1);
    assert fc.Some?;
    var c := fc.value;
    var fx := FindTag(s, EntryClose, c + |close|);
    assert fx.Some?;
    var x := fx.value;
    assert EntryField(s, name).value == s[t + |open|..c];
    assert FirstAt(s, EntryOpen, 0, e);
    assert FirstAt(s, open, e + |EntryOpen|, t);
    assert FirstAt(s, close, t + |open| + 1, c);
    assert PatternMatches(s, name, e, t, c, x);
  }

  /** The pattern matches exactly when EntryField finds a group. */
  lemma EntryFieldIffMatch(s: string, name: string)
    ensures EntryField(s, name).Some? <==> exists e: nat, t: nat, c: nat, x: nat :: PatternMatches(s, name, e, t, c, x)
  {
    if EntryField(s, name).Some? {
      EntryFieldSound(s, name);
    }
    if exists e: nat, t: nat, c: nat, x: nat :: PatternMatches(s, name, e, t, c, x) {
      var e: nat, t: nat, c: nat, x: nat :| PatternMatches(s, name, e, t, c, x);
      EntryFieldComplete(s, name, e, t, c, x);
    }
  }

  // ---------------------------------------------------------------------------
  // Status

  /** The status version_status assigns for the given latest and current versions. */
  function StatusOf(latest: string, current: string, compare: Comparator): (s: Status)
    ensures s == NoConnection <==> !StrTruthy(latest)
    ensures s == Error ==> compare(latest, current) !in {-1, 0, 1}
  {
    if StrTruthy(latest) then
      var cmp := compare(latest, current);
      if cmp == 0 then Current
      else if cmp == 1 then Older
      else if cmp == -1 then Newer
      else Error
    else NoConnection
  }

  /** With no usable latest version the status is 'no_connection', whatever the
      installed version; with one, the comparison alone decides. */
  lemma StatusClassification(latest: string, current: string, compare: Comparator)
    ensures StatusOf(latest, current, compare) == NoConnection <==> !StrTruthy(latest)
    ensures StrTruthy(latest) ==>
      && (StatusOf(latest, current, compare) == Current <==> compare(latest, current) == 0)
      && (StatusOf(latest, current, compare) == Older <==> compare(latest, current) == 1)
      && (StatusOf(latest, current, compare) == Newer <==> compare(latest, current) == -1)
  {
  }

  /** When version_compare answers only -1, 0 or 1, 'error' cannot happen. */
  lemma StatusNeverError(latest: string, current: string, compare: Comparator)
    requires WellBehaved(compare)
    ensures StatusOf(latest, current, compare) in {Current, Older, Newer, NoConnection}
  {
    var cmp := compare(latest, current);
    assert cmp == -1 || cmp == 0 || cmp == 1;
  }

  /** A feed announcing the installed version reports 'current'. */
  lemma SameVersionIsCurrent(version: string, compare: Comparator)
    requires WellBehaved(compare)
    requires StrTruthy(version)
    ensures StatusOf(version, version, compare) == Current
  {
    assert compare(version, version) == 0;
  }

  /** The result of a feed lookup: the matched group, escaped, or the old value. */
  function FieldOr(found: Option<string>, escape: string -> string, previous: string): string {
    match found
    case Some(v) => escape(v)
    case None => previous
  }

  // ---------------------------------------------------------------------------
  // The object

  class TarskiVersion {
    /** The installed version. */
    var current: string
    /** The latest released version, "" (standing for null) until found. */
    var latest: string
    /** Link to the latest release post. */
    var latestLink: string
    /** Summary of the latest release. */
    var latestSummary: string
    /** The status, unset until version_status runs. */
    var status: Option<Status>

    constructor ()
      ensures current == "" && latest == "" && latestLink == "" && latestSummary == ""
      ensures status == None
    {
      current, latest, latestLink, latestSummary := "", "", "", "";
      status := None;
    }

    /** current_version_number */
    method CurrentVersionNumber(themeVersion: string)
      modifies this`current
      ensures current == CurrentVersion(themeVersion)
    {
      var installed := Trim(themeVersion);
      if |installed| < 1 {
        current := Unknown;
      } else {
        current := installed;
      }
    }

    /** latest_version_number: sets latest only when the feed's first entry has a title. */
    method LatestVersionNumber(feed: string, escape: string -> string)
      modifies this`latest
      ensures latest == FieldOr(EntryField(feed, "title"), escape, old(latest))
    {
      var found := EntryField(feed, "title");
      if found.Some? {
        latest := escape(found.value);
      }
    }

    /** latest_version_link: the same rule for the entry's id. */
    method LatestVersionLink(feed: string, escape: string -> string)
      modifies this`latestLink
      ensures latestLink == FieldOr(EntryField(feed, "id"), escape, old(latestLink))
    {
      var found := EntryField(feed, "id");
      if found.Some? {
        latestLink := escape(found.value);
      }
    }

    /** latest_version_summary: the same rule for the entry's summary. */
    method LatestVersionSummary(feed: string, escape: string -> string)
      modifies this`latestSummary
      ensures latestSummary == FieldOr(EntryField(feed, "summary"), escape, old(latestSummary))
    {
      var found := EntryField(feed, "summary");
      if found.Some? {
        latestSummary := escape(found.value);
      }
    }

    /** version_status: refreshes current and latest, then classifies. */
    method VersionStatus(themeVersion: string, feed: string, escape: string -> string, compare: Comparator)
      modifies this`current, this`latest, this`status
      ensures current == CurrentVersion(themeVersion)
      ensures latest == FieldOr(EntryField(feed, "title"), escape, old(latest))
      ensures status == Some(StatusOf(latest, current, compare))
    {
      CurrentVersionNumber(themeVersion);
      LatestVersionNumber(feed, escape);
      var cmp := compare(latest, current);
      if StrTruthy(latest) {
        if cmp == 0 {
          status := Some(Current);
        } else if cmp == 1 {
          status := Some(Older);
        } else if cmp == -1 {
          status := Some(Newer);
        } else {
          status := Some(Error);
        }
      } else {
        status := Some(NoConnection);
      }
    }
  }
}
