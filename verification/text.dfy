/**
  String operations of the Python runtime that the session layer relies on:
  substring search (`in`, `str.find`), `str.split(sep)`, `str.split(sep, 1)`,
  `sep.join(...)`, `str.strip()` and `str.strip(chars)`, `int(...)` on decimal
  digits and `str(n)` on a non-negative integer.
*/
module Text {
  import opened Base

  // ---------------------------------------------------------------------------
  // Character classes
  // ---------------------------------------------------------------------------

  predicate IsDigit(c: char) { '0' <= c <= '9' }

  /** The regular-expression class `\w`, restricted to ASCII. */
  predicate IsWordChar(c: char) {
    IsDigit(c) || 'a' <= c <= 'z' || 'A' <= c <= 'Z' || c == '_'
  }

  /** The characters for which Python's `str.isspace()` holds (also the regex class `\s`). */
  predicate IsSpace(c: char) {
    || c == ' '
    || '\t' <= c <= '\r'
    || '\U{1C}' <= c <= '\U{1F}'
    || c == '\U{85}'
    || c == '\U{A0}'
    || c == '\U{1680}'
    || '\U{2000}' <= c <= '\U{200A}'
    || c == '\U{2028}'
    || c == '\U{2029}'
    || c == '\U{202F}'
    || c == '\U{205F}'
    || c == '\U{3000}'
  }

  /** The character set of `strip("[]")`. */
  predicate IsBracket(c: char) { c == '[' || c == ']' }

  function LowerChar(c: char): char {
    if 'A' <= c <= 'Z' then (c as int + 32) as char else c
  }

  /** `str.lower()` on ASCII letters. */
  function LowerAscii(s: string): (r: string)
    ensures |r| == |s|
    ensures forall i :: 0 <= i < |s| ==> r[i] == LowerChar(s[i])
  {
    seq(|s|, i requires 0 <= i < |s| => LowerChar(s[i]))
  }

  // ---------------------------------------------------------------------------
  // Substring search
  // ---------------------------------------------------------------------------

  predicate OccursAt(s: string, t: string, i: nat) {
    i + |t| <= |s| && s[i..i + |t|] == t
  }

  /** The first index at or after `from` where `t` occurs in `s` (`s.find(t, from)`). */
  function FindFrom(s: string, t: string, from: nat): (r: Option<nat>)
    decreases |s| - from
    ensures r.Some? ==> from <= r.value && OccursAt(s, t, r.value)
    ensures r.Some? ==> forall j :: from <= j < r.value ==> !OccursAt(s, t, j)
    ensures r.None? ==> forall j :: from <= j ==> !OccursAt(s, t, j)
  {
    if from + |t| > |s| then None
    else if OccursAt(s, t, from) then Some(from)
    else FindFrom(s, t, from + 1)
  }

  /** Python's `t in s` for strings. */
  predicate Contains(s: string, t: string) {
    FindFrom(s, t, 0).Some?
  }

  lemma ContainsIff(s: string, t: string)
    ensures Contains(s, t) <==> exists j :: OccursAt(s, t, j)
  {
    if !Contains(s, t) {
      assert forall j :: 0 <= j ==> !OccursAt(s, t, j);
    }
  }

  lemma OccursAtChar(s: string, c: char, j: nat)
    ensures OccursAt(s, [c], j) <==> j < |s| && s[j] == c
  {
    if j < |s| && s[j] == c { assert s[j..j + 1] == [c]; }
  }

  /** A one-character search agrees with membership. */
  lemma ContainsChar(s: string, c: char)
    ensures Contains(s, [c]) <==> c in s
  {
    if c in s {
      var j :| 0 <= j < |s| && s[j] == c;
      OccursAtChar(s, c, j);
    } else if Contains(s, [c]) {
      var j := FindFrom(s, [c], 0).value;
      OccursAtChar(s, c, j);
    }
  }

  /** An occurrence inside a prefix or a suffix is an occurrence in the whole string. */
  lemma OccursInSlice(s: string, t: string, lo: nat, hi: nat, j: nat)
    requires lo <= hi <= |s|
    requires OccursAt(s[lo..hi], t, j)
    ensures OccursAt(s, t, lo + j)
  {
    forall k | 0 <= k < |t| ensures s[lo + j..lo + j + |t|][k] == t[k] {
      assert s[lo..hi][j..j + |t|][k] == t[k];
    }
    assert s[lo + j..lo + j + |t|] == t;
  }

  // ---------------------------------------------------------------------------
  // Splitting and joining
  // ---------------------------------------------------------------------------

  /** Python's `s.split(sep)` for a non-empty separator: every occurrence, left to right. */
  function Split(s: string, sep: string): (r: seq<string>)
    requires |sep| > 0
    decreases |s|
    ensures |r| >= 1
  {
    match FindFrom(s, sep, 0)
    case None => [s]
    case Some(i) => [s[..i]] + Split(s[i + |sep|..], sep)
  }

  /** Python's `sep.join(parts)`. */
  function JoinWith(parts: seq<string>, sep: string): string
    decreases |parts|
  {
    if |parts| == 0 then ""
    else if |parts| == 1 then parts[0]
    else parts[0] + sep + JoinWith(parts[1..], sep)
  }

  /** Joining the pieces of a split with the same separator gives back the original string. */
  lemma {:induction false} SplitThenJoin(s: string, sep: string)
    requires |sep| > 0
    ensures JoinWith(Split(s, sep), sep) == s
    decreases |s|
  {
    match FindFrom(s, sep, 0)
    case None =>
    case Some(i) =>
      var rest := Split(s[i + |sep|..], sep);
      SplitThenJoin(s[i + |sep|..], sep);
      assert Split(s, sep) == [s[..i]] + rest;
      assert ([s[..i]] + rest)[1..] == rest;
      assert s == s[..i] + sep + s[i + |sep|..];
  }

  /** No piece of a split contains the separator. */
  lemma {:induction false} SplitPiecesAvoidSep(s: string, sep: string)
    requires |sep| > 0
    ensures forall p :: p in Split(s, sep) ==> !Contains(p, sep)
    decreases |s|
  {
    match FindFrom(s, sep, 0)
    case None =>
    case Some(i) =>
      SplitPiecesAvoidSep(s[i + |sep|..], sep);
      PrefixBeforeFirstLacks(s, sep, i);
  }

  /** Splitting on a character that the first piece lacks peels that piece off. */
  lemma SplitCharCons(a: string, c: char, b: string)
    requires c !in a
    ensures Split(a + [c] + b, [c]) == [a] + Split(b, [c])
  {
    var s := a + [c] + b;
    OccursAtChar(s, c, |a|);
    var r := FindFrom(s, [c], 0);
    assert r.Some?;
    OccursAtChar(s, c, r.value);
    assert r.value == |a|;
    assert s[..|a|] == a;
    assert s[|a| + 1..] == b;
  }

  /** A string without the character splits into itself alone. */
  lemma SplitCharNone(a: string, c: char)
    requires c !in a
    ensures Split(a, [c]) == [a]
  {
    if FindFrom(a, [c], 0).Some? {
      OccursAtChar(a, c, FindFrom(a, [c], 0).value);
    }
  }

  /** The search finds an occurrence when none starts earlier. */
  lemma FindFirst(s: string, t: string, i: nat)
    requires OccursAt(s, t, i)
    requires forall j :: 0 <= j < i ==> !OccursAt(s, t, j)
    ensures FindFrom(s, t, 0) == Some(i)
  {
  }

  /** Splitting a join gives the parts back when no part contains the first character of the separator. */
  lemma {:induction false} JoinThenSplit(parts: seq<string>, sep: string)
    requires |parts| >= 1 && |sep| > 0
    requires forall p :: p in parts ==> sep[0] !in p
    ensures Split(JoinWith(parts, sep), sep) == parts
    decreases |parts|
  {
    var first := parts[0];
    assert first in parts;
    if |parts| == 1 {
      SplitWithoutSep(first, sep);
    } else {
      var rest := JoinWith(parts[1..], sep);
      SplitAtFirst(first, sep, rest);
      JoinThenSplit(parts[1..], sep);
      assert parts == [first] + parts[1..];
    }
  }

  /** A string lacking the separator's first character splits into itself alone. */
  lemma SplitWithoutSep(s: string, sep: string)
    requires |sep| > 0 && sep[0] !in s
    ensures Split(s, sep) == [s]
  {
    forall j | 0 <= j ensures !OccursAt(s, sep, j) {
      if j < |s| && j + |sep| <= |s| {
        assert s[j..j + |sep|][0] == s[j];
      }
    }
  }

  /** A separator after a first piece that lacks its first character is where the split cuts first. */
  lemma SplitAtFirst(first: string, sep: string, rest: string)
    requires |sep| > 0 && sep[0] !in first
    ensures Split(first + sep + rest, sep) == [first] + Split(rest, sep)
  {
    var s := first + sep + rest;
    forall j | 0 <= j < |first| ensures !OccursAt(s, sep, j) {
      assert s[j] == first[j];
      assert j + |sep| <= |s| ==> s[j..j + |sep|][0] == s[j];
    }
    assert OccursAt(s, sep, |first|) by { assert s[|first|..|first| + |sep|] == sep; }
    FindFirst(s, sep, |first|);
    assert s[..|first|] == first;
    assert s[|first| + |sep|..] == rest;
  }

  /** The join of four parts written out. */
  lemma JoinFour(a: string, b: string, c: string, d: string, sep: string)
    ensures JoinWith([a, b, c, d], sep) == a + sep + b + sep + c + sep + d
  {
    assert [c, d][1..] == [d];
    assert JoinWith([c, d], sep) == c + sep + d;
    assert [b, c, d][1..] == [c, d];
    assert JoinWith([b, c, d], sep) == b + sep + (c + sep + d);
    assert [a, b, c, d][1..] == [b, c, d];
  }

  /** Appending a part to a non-empty join adds one separator and the part. */
  lemma {:induction false} JoinAppend(parts: seq<string>, sep: string, x: string)
    requires |parts| >= 1
    ensures JoinWith(parts + [x], sep) == JoinWith(parts, sep) + sep + x
    decreases |parts|
  {
    assert (parts + [x])[1..] == parts[1..] + [x];
    if |parts| > 1 {
      JoinAppend(parts[1..], sep, x);
    }
  }

  /** The text before the first occurrence of a separator does not contain it. */
  lemma PrefixBeforeFirstLacks(s: string, sep: string, i: nat)
    requires |sep| > 0 && FindFrom(s, sep, 0) == Some(i)
    ensures !Contains(s[..i], sep)
  {
    if Contains(s[..i], sep) {
      OccursInSlice(s, sep, 0, i, FindFrom(s[..i], sep, 0).value);
    }
  }

  /** Python's `s.split(sep, 1)` when `sep` occurs: the text before and after its first occurrence. */
  function SplitOnce(s: string, sep: string): (r: (string, string))
    requires |sep| > 0 && Contains(s, sep)
    ensures r.0 + sep + r.1 == s
    ensures !Contains(r.0, sep)
  {
    var i := FindFrom(s, sep, 0).value;
    PrefixBeforeFirstLacks(s, sep, i);
    assert s == s[..i] + sep + s[i + |sep|..];
    (s[..i], s[i + |sep|..])
  }

  /** A separator none of whose proper prefixes is also its suffix ("://", any single character). */
  predicate Unbordered(sep: string) {
    forall k :: 0 < k < |sep| ==> sep[..k] != sep[|sep| - k..]
  }

  /**
    Splitting at the first separator recovers the two halves of a concatenation, provided the
    first half lacks the separator and the separator cannot overlap itself.
  */
  lemma SplitOnceUnique(a: string, sep: string, b: string)
    requires |sep| > 0 && Unbordered(sep) && !Contains(a, sep)
    ensures Contains(a + sep + b, sep)
    ensures SplitOnce(a + sep + b, sep) == (a, b)
  {
    var s := a + sep + b;
    assert OccursAt(s, sep, |a|) by { assert s[|a|..|a| + |sep|] == sep; }
    var i := FindFrom(s, sep, 0).value;
    if i < |a| {
      if i + |sep| <= |a| {
        assert s[i..i + |sep|] == a[i..i + |sep|];
        assert OccursAt(a, sep, i);
        ContainsIff(a, sep);
      } else {
        StraddleIsBorder(a, sep, b, i);
        assert false;
      }
    }
    assert i == |a|;
    assert s[..|a|] == a;
    assert s[|a| + |sep|..] == b;
  }

  /** An occurrence of sep that starts inside a and ends inside the following sep exposes a border of sep. */
  lemma StraddleIsBorder(a: string, sep: string, b: string, i: nat)
    requires i < |a| < i + |sep|
    requires OccursAt(a + sep + b, sep, i)
    ensures var k := i + |sep| - |a|; 0 < k < |sep| && sep[..k] == sep[|sep| - k..]
  {
    var s := a + sep + b;
    var k := i + |sep| - |a|;
    assert s[|a|..i + |sep|] == sep[..k];
    assert s[|a|..i + |sep|] == s[i..i + |sep|][|sep| - k..];
  }

  // ---------------------------------------------------------------------------
  // Stripping
  // ---------------------------------------------------------------------------

  /** Python's `s.lstrip(chars)` for the character set `drop`. */
  function LStrip(s: string, drop: char -> bool): (r: string)
    decreases |s|
    ensures |r| <= |s| && r == s[|s| - |r|..]
    ensures r == [] || !drop(r[0])
    ensures forall i :: 0 <= i < |s| - |r| ==> drop(s[i])
  {
    if |s| > 0 && drop(s[0]) then LStrip(s[1..], drop) else s
  }

  /** Python's `s.rstrip(chars)` for the character set `drop`. */
  function RStrip(s: string, drop: char -> bool): (r: string)
    decreases |s|
    ensures |r| <= |s| && r == s[..|r|]
    ensures r == [] || !drop(r[|r| - 1])
    ensures forall i :: |r| <= i < |s| ==> drop(s[i])
  {
    if |s| > 0 && drop(s[|s| - 1]) then RStrip(s[..|s| - 1], drop) else s
  }

  /** Python's `s.strip(chars)`: the longest middle slice that neither starts nor ends with a dropped character. */
  function StripWhere(s: string, drop: char -> bool): (r: string)
    ensures r == [] || (!drop(r[0]) && !drop(r[|r| - 1]))
    ensures forall c :: c in r ==> c in s
  {
    RStrip(LStrip(s, drop), drop)
  }

  /** Python's `s.strip()`. */
  function Strip(s: string): string {
    StripWhere(s, IsSpace)
  }

  /** Dropped characters around a core that starts and ends with kept characters are exactly what strip removes. */
  lemma StripExact(pre: string, x: string, post: string, drop: char -> bool)
    requires forall c :: c in pre ==> drop(c)
    requires forall c :: c in post ==> drop(c)
    requires x != [] && !drop(x[0]) && !drop(x[|x| - 1])
    ensures StripWhere(pre + x + post, drop) == x
  {
    var rest := x + post;
    assert rest[0] == x[0];
    assert pre + x + post == pre + rest;
    LStripExact(pre, rest, drop);
    RStripExact(x, post, drop);
  }

  lemma {:induction false} LStripExact(pre: string, rest: string, drop: char -> bool)
    requires forall c :: c in pre ==> drop(c)
    requires rest != [] && !drop(rest[0])
    ensures LStrip(pre + rest, drop) == rest
    decreases |pre|
  {
    if pre != [] {
      assert (pre + rest)[1..] == pre[1..] + rest;
      LStripExact(pre[1..], rest, drop);
    } else {
      assert pre + rest == rest;
    }
  }

  lemma {:induction false} RStripExact(rest: string, post: string, drop: char -> bool)
    requires forall c :: c in post ==> drop(c)
    requires rest != [] && !drop(rest[|rest| - 1])
    ensures RStrip(rest + post, drop) == rest
    decreases |post|
  {
    if post != [] {
      assert (rest + post)[..|rest + post| - 1] == rest + post[..|post| - 1];
      RStripExact(rest, post[..|post| - 1], drop);
    } else {
      assert rest + post == rest;
    }
  }

  // ---------------------------------------------------------------------------
  // Word runs (the `\w+` of a regular expression)
  // ---------------------------------------------------------------------------

  /** The length of the longest run of word characters starting at index i. */
  function WordRun(s: string, i: nat): (n: nat)
    decreases |s| - i
    ensures n == 0 || i + n <= |s|
    ensures forall k :: i <= k < i + n ==> IsWordChar(s[k])
    ensures i + n < |s| ==> !IsWordChar(s[i + n])
  {
    if i < |s| && IsWordChar(s[i]) then 1 + WordRun(s, i + 1) else 0
  }

  /** A run of n word characters that reaches the end or a non-word character is the word run. */
  lemma {:induction false} WordRunIs(s: string, i: nat, n: nat)
    requires i + n <= |s|
    requires forall k :: i <= k < i + n ==> IsWordChar(s[k])
    requires i + n == |s| || !IsWordChar(s[i + n])
    ensures WordRun(s, i) == n
    decreases n
  {
    if n > 0 {
      WordRunIs(s, i + 1, n - 1);
    }
  }

  // ---------------------------------------------------------------------------
  // Decimal numbers
  // ---------------------------------------------------------------------------

  function DigitChar(d: nat): (c: char)
    requires d < 10
    ensures IsDigit(c) && c as int - '0' as int == d
  {
    ('0' as int + d) as char
  }

  /** Python's `str(n)` for a non-negative integer. */
  function NatToString(n: nat): (r: string)
    decreases n
    ensures IsDecimal(r)
  {
    if n < 10 then [DigitChar(n)] else NatToString(n / 10) + [DigitChar(n % 10)]
  }

  /** A non-empty run of decimal digits, the strings this model lets `int(...)` accept. */
  predicate IsDecimal(s: string) {
    |s| > 0 && forall c :: c in s ==> IsDigit(c)
  }

  /** The value of a string of decimal digits, read left to right. */
  function DecimalValue(s: string): nat
    requires IsDecimal(s)
    decreases |s|
  {
    assert s[|s| - 1] in s;
    var last := s[|s| - 1] as int - '0' as int;
    if |s| == 1 then last
    else
      assert IsDecimal(s[..|s| - 1]) by { assert forall c :: c in s[..|s| - 1] ==> c in s; }
      10 * DecimalValue(s[..|s| - 1]) + last
  }

  /** Rendering a number in decimal and reading it back gives the number. */
  lemma {:induction false} DecimalRoundTrip(n: nat)
    ensures IsDecimal(NatToString(n))
    ensures DecimalValue(NatToString(n)) == n
    decreases n
  {
    if n >= 10 {
      DecimalRoundTrip(n / 10);
      var r := NatToString(n);
      assert r == NatToString(n / 10) + [DigitChar(n % 10)];
      assert r[..|r| - 1] == NatToString(n / 10);
    }
  }

  // ---------------------------------------------------------------------------
  // Python rendering of optional values
  // ---------------------------------------------------------------------------

  /** The f-string rendering of an optional string: `None` prints as "None". */
  function Show(o: Option<string>): string {
    match o
    case None => "None"
    case Some(s) => s
  }

  /** The f-string rendering of an optional port number. */
  function ShowPort(o: Option<nat>): string {
    match o
    case None => "None"
    case Some(n) => NatToString(n)
  }

  /** Python truthiness of an optional string: present and non-empty. */
  predicate Truthy(o: Option<string>) {
    o.Some? && o.value != ""
  }
}
