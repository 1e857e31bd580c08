/** PHP values and the few built-ins the theme's logic leans on: truthiness and
    empty(), string conversion, (int) conversion, trim(), explode()/implode(),
    and ordered arrays with their implicit integer keys. */
module Php {

  datatype Option<+T> = None | Some(value: T)

  /** A PHP array key: an integer or a string. */
  datatype Key = IntKey(i: int) | StrKey(s: string)

  /** A PHP value. An array is an ordered list of key/value entries. */
  datatype Value =
    | Null
    | Bool(b: bool)
    | Int(i: int)
    | Str(s: string)
    | Arr(entries: seq<(Key, Value)>)

  /** An ordered PHP array. */
  type PArray = seq<(Key, Value)>

  // ---------------------------------------------------------------------------
  // Truthiness and string conversion

  /** A string is falsy when it is "" or "0". */
  predicate StrTruthy(s: string) {
    s != "" && s != "0"
  }

  /** PHP's conversion to boolean; empty(v) is its negation. */
  predicate Truthy(v: Value) {
    match v
    case Null => false
    case Bool(b) => b
    case Int(i) => i != 0
    case Str(s) => StrTruthy(s)
    case Arr(e) => |e| > 0
  }

  /** isset() on a record field: present and not null. */
  predicate IsSet(record: map<string, Value>, name: string) {
    name in record && record[name] != Null
  }

  /** Reading a field that may be absent gives null. */
  function Field(record: map<string, Value>, name: string): Value {
    if name in record then record[name] else Null
  }

  predicate IsDigit(c: char) {
    '0' <= c <= '9'
  }

  function DigitChar(d: nat): (c: char)
    requires d < 10
    ensures IsDigit(c) && DigitValue(c) == d
  {
    ('0' as int + d) as char
  }

  /** Decimal notation of a natural number, as PHP prints it. */
  function NatToString(n: nat): (s: string)
    ensures |s| > 0 && IsDigit(s[0])
    ensures forall i :: 0 <= i < |s| ==> IsDigit(s[i])
  {
    if n < 10 then [DigitChar(n)] else NatToString(n / 10) + [DigitChar(n % 10)]
  }

  function IntToString(i: int): string {
    if i < 0 then "-" + NatToString(-i) else NatToString(i)
  }

  /** String conversion, as used by string concatenation and implode(). */
  function ToStr(v: Value): string {
    match v
    case Null => ""
    case Bool(b) => if b then "1" else ""
    case Int(i) => IntToString(i)
    case Str(s) => s
    case Arr(_) => "Array"
  }

  // ---------------------------------------------------------------------------
  // (int) conversion of a string: leading whitespace, an optional sign, digits

  predicate IsNumericSpace(c: char) {
    c == ' ' || c == '\t' || c == '\n' || c == '\r' || c as int == 0x0B || c as int == 0x0C
  }

  function SkipSpaces(s: string): (r: string)
    ensures |r| <= |s| && r == s[|s| - |r|..]
  {
    if |s| > 0 && IsNumericSpace(s[0]) then SkipSpaces(s[1..]) else s
  }

  function LeadingDigits(s: string): (d: string)
    ensures |d| <= |s| && d == s[..|d|]
    ensures forall i :: 0 <= i < |d| ==> IsDigit(d[i])
  {
    if |s| > 0 && IsDigit(s[0]) then [s[0]] + LeadingDigits(s[1..]) else []
  }

  function DigitValue(c: char): nat
    requires IsDigit(c)
  {
    c as int - '0' as int
  }

  function DigitsValue(s: string): nat
    requires forall i :: 0 <= i < |s| ==> IsDigit(s[i])
  {
    if s == [] then 0 else DigitsValue(s[..|s| - 1]) * 10 + DigitValue(s[|s| - 1])
  }

  /** The integer a string stands for when PHP compares it with an integer
      (the integer prefix; a fraction or exponent is not read). */
  function ToInt(s: string): int {
    var t := SkipSpaces(s);
    if |t| > 0 && t[0] == '-' then 0 - DigitsValue(LeadingDigits(t[1..]))
    else if |t| > 0 && t[0] == '+' then DigitsValue(LeadingDigits(t[1..]))
    else DigitsValue(LeadingDigits(t))
  }

  /** Loose comparison `v == n` of a value with an integer. */
  predicate LooseEqualsInt(v: Value, n: int) {
    match v
    case Null => n == 0
    case Bool(b) => b == (n != 0)
    case Int(i) => i == n
    case Str(s) => ToInt(s) == n
    case Arr(_) => false
  }

  /** Loose comparison `v == t` of a value with a string (a numeric string
      compared with another numeric string is compared as text here). */
  predicate LooseEqualsStr(v: Value, t: string) {
    match v
    case Null => t == ""
    case Bool(b) => b == StrTruthy(t)
    case Int(i) => i == ToInt(t)
    case Str(s) => s == t
    case Arr(_) => false
  }

  /** The (int) cast of an array key. */
  function KeyToInt(k: Key): int {
    match k
    case IntKey(i) => i
    case StrKey(s) => ToInt(s)
  }

  lemma {:induction false} AllDigitsAreLeading(s: string)
    requires forall i :: 0 <= i < |s| ==> IsDigit(s[i])
    ensures LeadingDigits(s) == s
  {
    if |s| > 0 {
      AllDigitsAreLeading(s[1..]);
    }
  }

  lemma {:induction false} DigitsValueOfNatToString(n: nat)
    ensures DigitsValue(NatToString(n)) == n
  {
    if n >= 10 {
      var s := NatToString(n);
      assert s[..|s| - 1] == NatToString(n / 10);
      DigitsValueOfNatToString(n / 10);
    }
  }

  /** A digit string reads as its value. */
  lemma ToIntOfDigits(digits: string)
    requires |digits| > 0 && forall i :: 0 <= i < |digits| ==> IsDigit(digits[i])
    ensures ToInt(digits) == DigitsValue(digits)
  {
    assert !IsNumericSpace(digits[0]);
    assert SkipSpaces(digits) == digits;
    AllDigitsAreLeading(digits);
  }

  /** A minus sign before a digit string negates its value. */
  lemma ToIntOfNegativeDigits(digits: string)
    requires forall i :: 0 <= i < |digits| ==> IsDigit(digits[i])
    ensures ToInt("-" + digits) == 0 - DigitsValue(digits)
  {
    var t := "-" + digits;
    assert t[0] == '-' && t[1..] == digits;
    assert SkipSpaces(t) == t;
    AllDigitsAreLeading(digits);
    assert LeadingDigits(t[1..]) == digits;
  }

  /** Reading back what IntToString printed gives the integer again. */
  lemma IntToStringRoundTrip(i: int)
    ensures ToInt(IntToString(i)) == i
  {
    if i < 0 {
      DigitsValueOfNatToString(-i);
      ToIntOfNegativeDigits(NatToString(-i));
    } else {
      DigitsValueOfNatToString(i);
      ToIntOfDigits(NatToString(i));
    }
  }

  // ---------------------------------------------------------------------------
  // trim()

  /** The characters trim() removes by default. */
  predicate IsTrimSpace(c: char) {
    c == ' ' || c == '\t' || c == '\n' || c == '\r' || c == '\0' || c as int == 0x0B
  }

  function TrimLeft(s: string): (r: string)
    ensures |r| <= |s| && r == s[|s| - |r|..]
    ensures |r| > 0 ==> !IsTrimSpace(r[0])
    ensures forall i :: 0 <= i < |s| - |r| ==> IsTrimSpace(s[i])
  {
    if |s| > 0 && IsTrimSpace(s[0]) then
      var r := TrimLeft(s[1..]);
      assert s[1..][|s| - 1 - |r|..] == s[|s| - |r|..];
      assert forall i :: 1 <= i < |s| ==> s[1..][i - 1] == s[i];
      r
    else s
  }

  function TrimRight(s: string): (r: string)
    ensures |r| <= |s| && r == s[..|r|]
    ensures |r| > 0 ==> !IsTrimSpace(r[|r| - 1])
    ensures forall i :: |r| <= i < |s| ==> IsTrimSpace(s[i])
  {
    if |s| > 0 && IsTrimSpace(s[|s| - 1]) then TrimRight(s[..|s| - 1]) else s
  }

  /** trim(): the slice of s left after removing whitespace at both ends. */
  function Trim(s: string): (r: string)
    ensures |r| > 0 ==> !IsTrimSpace(r[0]) && !IsTrimSpace(r[|r| - 1])
    ensures |r| <= |s|
  {
    TrimRight(TrimLeft(s))
  }

  /** Trimming is idempotent. */
  lemma TrimIdempotent(s: string)
    ensures Trim(Trim(s)) == Trim(s)
  {
    var r := Trim(s);
    assert TrimLeft(r) == r;
    assert TrimRight(r) == r;
  }

  /** trim() yields "" exactly when every character is whitespace. */
  lemma TrimEmptyIff(s: string)
    ensures Trim(s) == "" <==> forall i :: 0 <= i < |s| ==> IsTrimSpace(s[i])
  {
    if Trim(s) == "" {
      assert |TrimLeft(s)| == 0;
    }
  }

  // ---------------------------------------------------------------------------
  // implode() / explode()

  function Join(sep: string, parts: seq<string>): (r: string)
    ensures |parts| == 1 ==> r == parts[0]
  {
    if |parts| == 0 then ""
    else if |parts| == 1 then parts[0]
    else parts[0] + sep + Join(sep, parts[1..])
  }

  /** explode() on a one-character separator: never empty, no part holds the separator. */
  function Split(s: string, sep: char): (parts: seq<string>)
    ensures |parts| > 0
    ensures forall i :: 0 <= i < |parts| ==> sep !in parts[i]
  {
    if |s| == 0 then [""]
    else
      var rest := Split(s[1..], sep);
      if s[0] == sep then [""] + rest else [[s[0]] + rest[0]] + rest[1..]
  }

  /** implode(sep, explode(sep, s)) == s. */
  lemma {:induction false} JoinSplit(s: string, sep: char)
    ensures Join([sep], Split(s, sep)) == s
  {
    if |s| > 0 {
      var rest := Split(s[1..], sep);
      JoinSplit(s[1..], sep);
      if s[0] == sep {
        assert Split(s, sep) == [""] + rest;
        assert ([""] + rest)[1..] == rest;
        assert s == [sep] + s[1..];
      } else {
        var parts := [[s[0]] + rest[0]] + rest[1..];
        assert Split(s, sep) == parts;
        if |rest| == 1 {
          assert s == [s[0]] + s[1..];
        } else {
          assert parts[1..] == rest[1..];
          assert Join([sep], rest) == rest[0] + [sep] + Join([sep], rest[1..]);
          assert s == [s[0]] + s[1..];
        }
      }
    }
  }

  /** Splitting a separator-free prefix off the front. */
  lemma {:induction false} SplitAfterPart(p: string, sep: char, t: string)
    requires sep !in p
    ensures Split(p + [sep] + t, sep) == [p] + Split(t, sep)
  {
    if |p| > 0 {
      SplitAfterPart(p[1..], sep, t);
      var whole := p + [sep] + t;
      assert whole[0] == p[0] && p[0] != sep;
      assert whole[1..] == p[1..] + [sep] + t;
      assert [p[0]] + p[1..] == p;
    } else {
      assert p + [sep] + t == [sep] + t;
      assert ([sep] + t)[1..] == t;
    }
  }

  /** A separator-free string splits into itself. */
  lemma {:induction false} SplitWhole(p: string, sep: char)
    requires sep !in p
    ensures Split(p, sep) == [p]
  {
    if |p| > 0 {
      SplitWhole(p[1..], sep);
      assert p == [p[0]] + p[1..];
    }
  }

  /** explode(sep, implode(sep, parts)) == parts when no part holds the separator. */
  lemma {:induction false} SplitJoin(parts: seq<string>, sep: char)
    requires |parts| > 0
    requires forall i :: 0 <= i < |parts| ==> sep !in parts[i]
    ensures Split(Join([sep], parts), sep) == parts
  {
    if |parts| == 1 {
      SplitWhole(parts[0], sep);
    } else {
      SplitJoin(parts[1..], sep);
      SplitAfterPart(parts[0], sep, Join([sep], parts[1..]));
      assert parts == [parts[0]] + parts[1..];
    }
  }

  /** sprintf with a single %s: the first "%s" of fmt is replaced by arg. */
  function FormatOne(fmt: string, arg: string): string {
    if |fmt| < 2 then fmt
    else if fmt[..2] == "%s" then arg + fmt[2..]
    else [fmt[0]] + FormatOne(fmt[1..], arg)
  }

  // ---------------------------------------------------------------------------
  // Ordered arrays

  /** Keys of a PHP array are distinct. */
  ghost predicate DistinctKeys(a: PArray) {
    forall i, j :: 0 <= i < j < |a| ==> a[i].0 != a[j].0
  }

  function KeysOf(a: PArray): seq<Key> {
    seq(|a|, i requires 0 <= i < |a| => a[i].0)
  }

  function ValuesOf(a: PArray): seq<Value> {
    seq(|a|, i requires 0 <= i < |a| => a[i].1)
  }

  /** Position of a key, if present. */
  function IndexOf(a: PArray, k: Key): (r: Option<nat>)
    ensures r.Some? ==> r.value < |a| && a[r.value].0 == k
    ensures r.None? <==> k !in KeysOf(a)
  {
    if |a| == 0 then None
    else if a[|a| - 1].0 == k then
      assert KeysOf(a)[|a| - 1] == k;
      Some(|a| - 1)
    else
      var r := IndexOf(a[..|a| - 1], k);
      assert KeysOf(a) == KeysOf(a[..|a| - 1]) + [a[|a| - 1].0];
      r
  }

  /** $a[k], null when absent. */
  function Lookup(a: PArray, k: Key): Value {
    match IndexOf(a, k)
    case Some(i) => a[i].1
    case None => Null
  }

  /** $a[k] = v: replaces in place when k is present, appends otherwise. */
  function Set(a: PArray, k: Key, v: Value): (r: PArray)
    ensures k in KeysOf(a) ==> KeysOf(r) == KeysOf(a)
    ensures k !in KeysOf(a) ==> KeysOf(r) == KeysOf(a) + [k]
  {
    match IndexOf(a, k)
    case Some(i) => a[i := (k, v)]
    case None => a + [(k, v)]
  }

  /** The key $a[] = v uses: one past the largest integer key, and never negative. */
  function NextIndex(a: PArray): (n: nat)
    ensures forall i :: 0 <= i < |a| && a[i].0.IntKey? ==> a[i].0.i < n
  {
    if |a| == 0 then 0
    else
      var n := NextIndex(a[..|a| - 1]);
      match a[|a| - 1].0
      case IntKey(i) => if i + 1 > n then i + 1 else n
      case StrKey(_) => n
  }

  /** if (c) $list[] = x; on a plain list. */
  function PushIf<T>(list: seq<T>, c: bool, x: T): seq<T> {
    if c then list + [x] else list
  }

  /** A conditional push appends x, or nothing. */
  lemma PushIfAppends<T>(list: seq<T>, c: bool, x: T)
    ensures PushIf(list, c, x) == list + (if c then [x] else [])
  {
    assert list + [] == list;
  }

  /** $a[] = v: the old entries stay as they are and v goes last, under an
      integer key that is not yet used. */
  function Append(a: PArray, v: Value): (r: PArray)
    ensures |r| == |a| + 1 && r[..|a|] == a && r[|a|].1 == v
    ensures r[|a|].0.IntKey? && r[|a|].0 !in KeysOf(a)
  {
    a + [(IntKey(NextIndex(a)), v)]
  }

  /** implode(sep, $a). */
  function Implode(sep: string, a: PArray): string {
    Join(sep, seq(|a|, i requires 0 <= i < |a| => ToStr(a[i].1)))
  }

  /** With distinct keys, a key's position is where it is found. */
  lemma IndexOfDistinct(a: PArray, k: Key, i: nat)
    requires DistinctKeys(a) && i < |a| && a[i].0 == k
    ensures IndexOf(a, k) == Some(i)
  {
    assert KeysOf(a)[i] == k;
  }

  /** An assignment by key changes that key's value and no other. */
  lemma SetLookup(a: PArray, k: Key, v: Value, other: Key)
    requires DistinctKeys(a)
    ensures DistinctKeys(Set(a, k, v))
    ensures Lookup(Set(a, k, v), k) == v
    ensures other != k ==> Lookup(Set(a, k, v), other) == Lookup(a, other)
  {
    match IndexOf(a, k)
    case Some(i) =>
      ReplaceLookup(a, i, k, v, other);
    case None =>
      AddLookup(a, k, v, other);
  }

  /** Replacing the entry at a key's position. */
  lemma ReplaceLookup(a: PArray, i: nat, k: Key, v: Value, other: Key)
    requires DistinctKeys(a) && i < |a| && a[i].0 == k
    ensures DistinctKeys(a[i := (k, v)])
    ensures Lookup(a[i := (k, v)], k) == v
    ensures other != k ==> Lookup(a[i := (k, v)], other) == Lookup(a, other)
  {
    var r := a[i := (k, v)];
    assert forall j :: 0 <= j < |r| ==> r[j].0 == a[j].0;
    assert KeysOf(r) == KeysOf(a);
    IndexOfDistinct(r, k, i);
    if other != k {
      match IndexOf(a, other)
      case Some(j) =>
        IndexOfDistinct(r, other, j);
      case None =>
    }
  }

  /** Adding an entry under a new key at the end. */
  lemma AddLookup(a: PArray, k: Key, v: Value, other: Key)
    requires DistinctKeys(a) && k !in KeysOf(a)
    ensures DistinctKeys(a + [(k, v)])
    ensures Lookup(a + [(k, v)], k) == v
    ensures other != k ==> Lookup(a + [(k, v)], other) == Lookup(a, other)
  {
    var r := a + [(k, v)];
    DistinctKeysSnoc(a, (k, v));
    assert r[..|a|] == a;
    IndexOfDistinct(r, k, |a|);
  }

  /** Appending adds one entry under a fresh key and keeps the keys distinct. */
  lemma AppendFresh(a: PArray, v: Value)
    requires DistinctKeys(a)
    ensures DistinctKeys(Append(a, v))
    ensures Lookup(Append(a, v), IntKey(NextIndex(a))) == v
  {
    var r := Append(a, v);
    assert forall i :: 0 <= i < |a| ==> a[i].0 == KeysOf(a)[i];
    var idx := IndexOf(r, IntKey(NextIndex(a)));
    assert KeysOf(r)[|a|] == IntKey(NextIndex(a));
    assert idx.Some?;
    assert idx.value == |a|;
  }

  /** An entry under a new key keeps the keys distinct. */
  lemma DistinctKeysSnoc(a: PArray, e: (Key, Value))
    requires DistinctKeys(a) && e.0 !in KeysOf(a)
    ensures DistinctKeys(a + [e])
  {
    assert forall j :: 0 <= j < |a| ==> KeysOf(a)[j] == a[j].0;
  }

  /** The entries assigned one by one, $a[k] = v for each (k, v) in order. */
  function SetAll(a: PArray, entries: PArray): PArray
    decreases |entries|
  {
    if |entries| == 0 then a
    else
      var last := entries[|entries| - 1];
      Set(SetAll(a, entries[..|entries| - 1]), last.0, last.1)
  }

  /** Assigning entries under keys not yet present is appending them. */
  lemma {:induction false} SetAllFresh(a: PArray, entries: PArray)
    requires DistinctKeys(a + entries)
    ensures SetAll(a, entries) == a + entries
    decreases |entries|
  {
    if |entries| == 0 {
      assert a + entries == a;
    } else {
      var n := |entries|;
      var init := entries[..n - 1];
      var whole := a + entries;
      assert (a + init) == whole[..|a| + n - 1];
      assert DistinctKeys(a + init);
      SetAllFresh(a, init);
      var last := entries[n - 1];
      assert whole[|a| + n - 1] == last;
      assert forall j :: 0 <= j < |a + init| ==> KeysOf(a + init)[j] == whole[j].0 != last.0;
      assert last.0 !in KeysOf(a + init);
      assert (a + init) + [last] == whole;
    }
  }

  /** $a[] = v for each v in order. */
  function AppendAll(a: PArray, vs: seq<Value>): PArray
    decreases |vs|
  {
    if |vs| == 0 then a else Append(AppendAll(a, vs[..|vs| - 1]), vs[|vs| - 1])
  }

  /** Appending keeps what was there, adds the values in order, and keeps the
      keys distinct. */
  lemma {:induction false} AppendAllExtends(a: PArray, vs: seq<Value>)
    ensures |AppendAll(a, vs)| == |a| + |vs|
    ensures AppendAll(a, vs)[..|a|] == a
    ensures ValuesOf(AppendAll(a, vs)) == ValuesOf(a) + vs
    ensures DistinctKeys(a) ==> DistinctKeys(AppendAll(a, vs))
    decreases |vs|
  {
    if |vs| > 0 {
      var init := AppendAll(a, vs[..|vs| - 1]);
      AppendAllExtends(a, vs[..|vs| - 1]);
      var r := Append(init, vs[|vs| - 1]);
      assert r[..|a|] == init[..|a|];
      assert ValuesOf(r) == ValuesOf(init) + [vs[|vs| - 1]];
      assert vs[..|vs| - 1] + [vs[|vs| - 1]] == vs;
      if DistinctKeys(a) {
        AppendFresh(init, vs[|vs| - 1]);
      }
    }
  }

  /** array_reverse($a, true): the entries in reverse order, keys kept. */
  function Reverse(a: PArray): (r: PArray)
    ensures |r| == |a|
    ensures forall i :: 0 <= i < |a| ==> r[i] == a[|a| - 1 - i]
  {
    if |a| == 0 then [] else [a[|a| - 1]] + Reverse(a[..|a| - 1])
  }

  /** The integer keys renumbered from n upwards; string keys kept. */
  function Renumber(a: PArray, n: int): (r: PArray)
    ensures |r| == |a|
    ensures forall i :: 0 <= i < |a| ==> r[i].1 == a[i].1
    ensures forall i :: 0 <= i < |a| ==> (a[i].0.StrKey? ==> r[i].0 == a[i].0) && (a[i].0.IntKey? ==> r[i].0.IntKey?)
    ensures forall i :: 0 <= i < |a| && r[i].0.IntKey? ==> r[i].0.i >= n
  {
    if |a| == 0 then []
    else
      var head := if a[0].0.IntKey? then (IntKey(n), a[0].1) else a[0];
      var rest := Renumber(a[1..], if a[0].0.IntKey? then n + 1 else n);
      assert forall i :: 1 <= i < |a| ==> ([head] + rest)[i] == rest[i - 1] && a[i] == a[1..][i - 1];
      [head] + rest
  }

  /** Renumbered integer keys increase strictly. */
  lemma {:induction false} RenumberIncreasing(a: PArray, n: int)
    ensures forall i, j :: 0 <= i < j < |a| && Renumber(a, n)[i].0.IntKey? && Renumber(a, n)[j].0.IntKey? ==>
      Renumber(a, n)[i].0.i < Renumber(a, n)[j].0.i
    decreases |a|
  {
    if |a| > 0 {
      var r := Renumber(a, n);
      var m := if a[0].0.IntKey? then n + 1 else n;
      var rest := Renumber(a[1..], m);
      RenumberIncreasing(a[1..], m);
      forall i, j | 0 <= i < j < |a| && r[i].0.IntKey? && r[j].0.IntKey?
        ensures r[i].0.i < r[j].0.i
      {
        assert r[j] == rest[j - 1];
        if i > 0 {
          assert r[i] == rest[i - 1];
        }
      }
    }
  }

  /** array_unshift($a, v): v first under key 0, integer keys renumbered. */
  function Unshift(a: PArray, v: Value): PArray {
    [(IntKey(0), v)] + Renumber(a, 1)
  }

  /** Unshifting keeps the values after the new one and keeps keys distinct. */
  lemma UnshiftShape(a: PArray, v: Value)
    ensures |Unshift(a, v)| == |a| + 1
    ensures ValuesOf(Unshift(a, v)) == [v] + ValuesOf(a)
    ensures DistinctKeys(a) ==> DistinctKeys(Unshift(a, v))
  {
    var r := Unshift(a, v);
    RenumberIncreasing(a, 1);
    assert forall i :: 1 <= i <= |a| ==> r[i] == Renumber(a, 1)[i - 1];
    assert forall i :: 0 <= i < |r| ==> ValuesOf(r)[i] == ([v] + ValuesOf(a))[i];
    assert ValuesOf(r) == [v] + ValuesOf(a);
  }

  /** str_replace(pat, "", s): occurrences removed in one left-to-right scan. */
  function RemoveAll(s: string, pat: string): (r: string)
    requires |pat| > 0
    ensures |r| <= |s|
    decreases |s|
  {
    if |s| < |pat| then s
    else if s[..|pat|] == pat then RemoveAll(s[|pat|..], pat)
    else [s[0]] + RemoveAll(s[1..], pat)
  }

  /** A string without the pattern's first character has nothing to remove. */
  lemma {:induction false} RemoveAllAbsent(s: string, pat: string)
    requires |pat| > 0 && pat[0] !in s
    ensures RemoveAll(s, pat) == s
    decreases |s|
  {
    if |s| >= |pat| {
      assert s[0] != pat[0];
      assert s[..|pat|] != pat;
      RemoveAllAbsent(s[1..], pat);
      assert [s[0]] + s[1..] == s;
    }
  }

  /** A trailing ".css" is removed, and no match straddles it. */
  lemma {:induction false} RemoveCssSuffix(x: string)
    ensures RemoveAll(x + ".css", ".css") == RemoveAll(x, ".css")
    decreases |x|
  {
    var s := x + ".css";
    if |x| == 0 {
      assert s[..4] == ".css" && s[4..] == "";
    } else if |x| < 4 {
      assert s[|x|] == '.' && ".css"[|x|] != '.';
      assert s[..4] != ".css";
      RemoveCssSuffix(x[1..]);
      assert s[1..] == x[1..] + ".css";
      assert RemoveAll(x[1..], ".css") == x[1..];
      assert [x[0]] + x[1..] == x;
    } else if x[..4] == ".css" {
      assert s[..4] == x[..4];
      assert s[4..] == x[4..] + ".css";
      RemoveCssSuffix(x[4..]);
    } else {
      assert s[..4] == x[..4];
      assert s[1..] == x[1..] + ".css";
      RemoveCssSuffix(x[1..]);
    }
  }
}
