/**
  The explain formatter (query/explain_results.py). Each formatter takes the decoded explain
  document of one engine and replaces the flat plan strings inside it by lists and objects: the
  legacy engine's bracketed field list and its `Type(key=value, ...)` request, and the Calcite
  engine's `LogicalProject(name=position, ...)`, its `table=[[...]]` names and its
  PushDownContext.

  Each regular expression is written out as the positions it matches. Decoding a `sourceBuilder`
  value is a parameter `decode`, which gives None where `json.loads` raises.
*/
module ExplainResults {
  import opened Base
  import opened Text
  import opened Json

  /** The exception a formatter raises. */
  datatype ExplainError =
      /** A subscript the document lacks, or a plan that is not a string (KeyError, IndexError, TypeError, AttributeError). */
    | ShapeError
      /** Unpacking a split that did not give exactly two pieces (ValueError). */
    | UnpackError(text: string)
      /** A legacy sourceBuilder value that is not JSON (JSONDecodeError). */
    | DecodeError(text: string)

  /** The two engines, which treat a malformed request part differently. */
  datatype Engine = Legacy | Calcite

  // ---------------------------------------------------------------------------
  // The legacy field list
  // ---------------------------------------------------------------------------

  /** `[f.strip() for f in pieces if f.strip()]`. */
  function StrippedNonEmpty(pieces: seq<string>): (r: seq<string>)
    decreases |pieces|
    ensures forall x :: x in r ==> x != [] && x in StripEach(pieces)
  {
    if |pieces| == 0 then []
    else
      var rest := StrippedNonEmpty(pieces[1..]);
      var f := Strip(pieces[0]);
      assert StripEach(pieces) == [f] + StripEach(pieces[1..]);
      if f != "" then [f] + rest else rest
  }

  /** The legacy field list: brackets stripped from both ends, split on ",", each piece stripped, empty pieces dropped. */
  function FieldList(text: string): (fields: seq<string>)
    ensures forall f :: f in fields ==> f != "" && ',' !in f
    ensures forall f :: f in fields ==> !IsSpace(f[0]) && !IsSpace(f[|f| - 1])
  {
    var pieces := Split(StripWhere(text, IsBracket), ",");
    PiecesWithoutComma(StripWhere(text, IsBracket));
    StrippedPlain(pieces);
    StrippedNonEmpty(pieces)
  }

  /** The pieces of a split on "," hold no ",". */
  lemma PiecesWithoutComma(inside: string)
    ensures forall p :: p in Split(inside, ",") ==> ',' !in p
  {
    SplitPiecesAvoidSep(inside, ",");
    forall p | p in Split(inside, ",") ensures ',' !in p { ContainsChar(p, ','); }
  }

  /** Stripping keeps a piece free of ",", and a kept piece neither starts nor ends with space. */
  lemma StrippedPlain(pieces: seq<string>)
    requires forall p :: p in pieces ==> ',' !in p
    ensures forall x :: x in StrippedNonEmpty(pieces) ==> ',' !in x && !IsSpace(x[0]) && !IsSpace(x[|x| - 1])
  {
    forall x | x in StrippedNonEmpty(pieces) ensures ',' !in x && !IsSpace(x[0]) && !IsSpace(x[|x| - 1]) {
      var i :| 0 <= i < |pieces| && x == Strip(pieces[i]);
      assert pieces[i] in pieces;
    }
  }

  /** A field as it appears in the list: non-empty, no surrounding space, no comma and no bracket. */
  predicate PlainField(f: string) {
    f != "" && !IsSpace(f[0]) && !IsSpace(f[|f| - 1]) && ',' !in f && '[' !in f && ']' !in f
  }

  /** Reading back the list `[a, b, ...]` written from plain fields gives the fields. */
  lemma FieldListOfJoin(fields: seq<string>)
    requires forall f :: f in fields ==> PlainField(f)
    ensures FieldList("[" + JoinWith(fields, ", ") + "]") == fields
  {
    if |fields| == 0 {
      assert "[" + JoinWith(fields, ", ") + "]" == "[]";
      FieldListOfBrackets();
    } else {
      FieldListOfPlain(fields);
    }
  }

  /** The empty list `[]` reads back as no fields. */
  lemma FieldListOfBrackets()
    ensures FieldList("[]") == []
  {
    assert LStrip("[]", IsBracket) == "";
    assert StripWhere("[]", IsBracket) == "";
    assert Split("", ",") == [""];
    assert Strip("") == "";
    assert StrippedNonEmpty([""]) == [];
  }

  /** A non-empty list of plain fields reads back as those fields. */
  lemma FieldListOfPlain(fields: seq<string>)
    requires |fields| >= 1 && forall f :: f in fields ==> PlainField(f)
    ensures FieldList("[" + JoinWith(fields, ", ") + "]") == fields
  {
    JoinedFieldEnds(fields);
    BracketsAround(JoinWith(fields, ", "));
    PiecesOfJoin("", fields);
    assert "" + JoinWith(fields, ", ") == JoinWith(fields, ", ");
  }

  /** A non-empty join of plain fields neither starts nor ends with a bracket. */
  lemma JoinedFieldEnds(fields: seq<string>)
    requires |fields| >= 1 && forall f :: f in fields ==> PlainField(f)
    ensures var j := JoinWith(fields, ", "); j != [] && !IsBracket(j[0]) && !IsBracket(j[|j| - 1])
  {
    var first, last := fields[0], fields[|fields| - 1];
    assert first in fields && last in fields;
    assert first[0] in first && last[|last| - 1] in last;
    JoinEnds(fields, ", ");
  }

  /** Stripping brackets from `[x]` gives `x` when `x` neither starts nor ends with one. */
  lemma BracketsAround(x: string)
    requires x != [] && !IsBracket(x[0]) && !IsBracket(x[|x| - 1])
    ensures StripWhere("[" + x + "]", IsBracket) == x
  {
    var open, close := "[", "]";
    assert open[0] == '[' && |open| == 1 && close[0] == ']' && |close| == 1;
    StripExact(open, x, close, IsBracket);
  }

  /** The join starts with the first part's first character and ends with the last part's last character. */
  lemma {:induction false} JoinEnds(parts: seq<string>, sep: string)
    requires |parts| >= 1 && parts[0] != [] && parts[|parts| - 1] != []
    requires forall p :: p in parts ==> p != []
    ensures var j := JoinWith(parts, sep);
            j != [] && j[0] == parts[0][0] && j[|j| - 1] == parts[|parts| - 1][|parts[|parts| - 1]| - 1]
    decreases |parts|
  {
    if |parts| > 1 {
      assert parts[1] in parts;
      assert forall p :: p in parts[1..] ==> p in parts;
      JoinEnds(parts[1..], sep);
    }
  }

  /** The pieces of `pre + "a, b, ..."` split on "," strip back to the fields, when `pre` is blank. */
  lemma {:induction false} PiecesOfJoin(pre: string, fields: seq<string>)
    requires forall c :: c in pre ==> IsSpace(c)
    requires |fields| >= 1 && forall f :: f in fields ==> PlainField(f)
    ensures StrippedNonEmpty(Split(pre + JoinWith(fields, ", "), ",")) == fields
    decreases |fields|
  {
    var first := fields[0];
    assert PlainField(first) by { assert first in fields; }
    if |fields| == 1 {
      PiecesOfOne(pre, first);
    } else {
      var rest := JoinWith(fields[1..], ", ");
      JoinCommaSpace(pre, fields);
      PiecesOfCons(pre, first, " " + rest);
      assert forall f :: f in fields[1..] ==> PlainField(f) by {
        forall f | f in fields[1..] ensures PlainField(f) { assert f in fields; }
      }
      PiecesOfJoin(" ", fields[1..]);
      assert fields == [first] + fields[1..];
    }
  }

  /** One plain field after blanks. */
  lemma PiecesOfOne(pre: string, f: string)
    requires forall c :: c in pre ==> IsSpace(c)
    requires PlainField(f)
    ensures StrippedNonEmpty(Split(pre + f, ",")) == [f]
  {
    BlankThenField(pre, f);
    SplitCharNone(pre + f, ',');
    StrippedCons(pre + f, []);
    assert [pre + f] + [] == [pre + f];
  }

  /** A plain field after blanks, then a comma and more. */
  lemma PiecesOfCons(pre: string, f: string, more: string)
    requires forall c :: c in pre ==> IsSpace(c)
    requires PlainField(f)
    ensures StrippedNonEmpty(Split((pre + f) + [','] + more, ",")) == [f] + StrippedNonEmpty(Split(more, ","))
  {
    BlankThenField(pre, f);
    SplitCharCons(pre + f, ',', more);
    StrippedCons(pre + f, Split(more, ","));
  }

  lemma JoinCommaSpace(pre: string, fields: seq<string>)
    requires |fields| >= 2
    ensures pre + JoinWith(fields, ", ") == (pre + fields[0]) + [','] + (" " + JoinWith(fields[1..], ", "))
  {
  }

  /** A plain field after blanks strips back to itself, and the two hold no comma. */
  lemma BlankThenField(pre: string, f: string)
    requires forall c :: c in pre ==> IsSpace(c)
    requires PlainField(f)
    ensures Strip(pre + f) == f && ',' !in pre + f
  {
    StripExact(pre, f, "", IsSpace);
    assert pre + f + "" == pre + f;
  }

  /** A piece that strips to something non-empty contributes that and then the rest. */
  lemma StrippedCons(p: string, rest: seq<string>)
    requires Strip(p) != ""
    ensures StrippedNonEmpty([p] + rest) == [Strip(p)] + StrippedNonEmpty(rest)
  {
    assert ([p] + rest)[1..] == rest;
  }

  // ---------------------------------------------------------------------------
  // The request pattern `(\w+)\((.*)\)`
  // ---------------------------------------------------------------------------

  /** The index of the first line break at or after i, or the length: where `.` stops matching. */
  function LineEnd(s: string, i: nat): (e: nat)
    requires i <= |s|
    decreases |s| - i
    ensures i <= e <= |s|
    ensures forall k :: i <= k < e ==> s[k] != '\n'
    ensures e < |s| ==> s[e] == '\n'
  {
    if i == |s| || s[i] == '\n' then i else LineEnd(s, i + 1)
  }

  /** The last index in [lo, hi) that holds c. */
  function LastIndexOf(s: string, c: char, lo: nat, hi: nat): (r: Option<nat>)
    requires lo <= hi <= |s|
    decreases hi - lo
    ensures r.Some? ==> lo <= r.value < hi && s[r.value] == c
    ensures r.Some? ==> forall k :: r.value < k < hi ==> s[k] != c
    ensures r.None? ==> forall k :: lo <= k < hi ==> s[k] != c
  {
    if lo == hi then None
    else if s[hi - 1] == c then Some(hi - 1)
    else LastIndexOf(s, c, lo, hi - 1)
  }

  /**
    `re.match(r"(\w+)\((.*)\)", s)`: the leading word, and the text between the "(" after it and
    the last ")" of the first line (the greedy `.*` backs off to that ")" and cannot cross a line break).
  */
  function MatchCall(s: string): (m: Option<(string, string)>)
    ensures WordRun(s, 0) == 0 ==> m.None?
    ensures m.Some? ==>
              var kind := m.value.0;
              var inner := m.value.1;
              && kind != [] && (forall k :: 0 <= k < |kind| ==> IsWordChar(kind[k]))
              && '\n' !in inner
              && |kind| + |inner| + 2 <= |s|
              && s[..|kind| + |inner| + 2] == kind + "(" + inner + ")"
              && (forall k :: |kind| + |inner| + 1 < k < LineEnd(s, |kind| + 1) ==> s[k] != ')')
  {
    var n := WordRun(s, 0);
    if n == 0 || n >= |s| || s[n] != '(' then None
    else
      var e := LineEnd(s, n + 1);
      match LastIndexOf(s, ')', n + 1, e)
      case None => None
      case Some(j) =>
        var kind := s[..n];
        var inner := s[n + 1..j];
        assert s[..j + 1] == kind + "(" + inner + ")";
        assert forall c :: c in inner ==> c != '\n';
        Some((kind, inner))
  }

  /** A call written as `kind(inner)` on one line matches with exactly that kind and inner text. */
  lemma MatchCallOfCall(kind: string, inner: string)
    requires kind != [] && forall k :: 0 <= k < |kind| ==> IsWordChar(kind[k])
    requires '\n' !in inner
    ensures MatchCall(kind + "(" + inner + ")") == Some((kind, inner))
  {
    var s := kind + "(" + inner + ")";
    assert s[|kind|] == '(';
    WordRunIs(s, 0, |kind|);
    var e := LineEnd(s, |kind| + 1);
    assert forall k :: |kind| + 1 <= k < |s| ==> s[k] != '\n' by {
      forall k | |kind| + 1 <= k < |s| ensures s[k] != '\n' {
        if k < |s| - 1 {
          assert s[k] == inner[k - |kind| - 1];
          assert inner[k - |kind| - 1] in inner;
        }
      }
    }
    assert e == |s|;
    assert LastIndexOf(s, ')', |kind| + 1, e) == Some(|s| - 1);
    assert s[..|kind|] == kind;
    assert s[|kind| + 1..|s| - 1] == inner;
  }

  // ---------------------------------------------------------------------------
  // Splitting the request on `, (?=\w+=)`
  // ---------------------------------------------------------------------------

  /** A part that starts with a word followed by "=": what the split's lookahead demands of the text after ", ". */
  predicate WordKeyed(p: string) {
    var n := WordRun(p, 0);
    0 < n < |p| && p[n] == '='
  }

  /** `re.split(r", (?=\w+=)", s)` cuts at index i: ", " there, and a word and "=" after it. */
  predicate CutAt(s: string, i: nat) {
    i + 2 <= |s| && s[i] == ',' && s[i + 1] == ' ' && WordKeyed(s[i + 2..])
  }

  /** The first cut at or after `from`. */
  function NextCut(s: string, from: nat): (r: Option<nat>)
    decreases |s| - from
    ensures r.Some? ==> from <= r.value && CutAt(s, r.value)
    ensures r.Some? ==> forall k :: from <= k < r.value ==> !CutAt(s, k)
    ensures r.None? ==> forall k :: from <= k ==> !CutAt(s, k)
  {
    if from >= |s| then None
    else if CutAt(s, from) then Some(from)
    else NextCut(s, from + 1)
  }

  /**
    `re.split(r", (?=\w+=)", s)`: the text is cut at every ", " that a word and "=" follow, so
    every part after the first starts with a word and "=".
  */
  function SplitParts(s: string): (parts: seq<string>)
    decreases |s|
    ensures |parts| >= 1
    ensures forall k :: 1 <= k < |parts| ==> WordKeyed(parts[k])
  {
    match NextCut(s, 0)
    case None => [s]
    case Some(i) =>
      var t := s[i + 2..];
      var rest := SplitParts(t);
      assert WordKeyed(rest[0]) by { FirstPartKeyed(t); }
      [s[..i]] + rest
  }

  /** The first part of a text that starts with a word and "=" starts with them too. */
  lemma FirstPartKeyed(t: string)
    requires WordKeyed(t)
    ensures match NextCut(t, 0)
            case None => WordKeyed(t)
            case Some(j) => WordKeyed(t[..j])
  {
    var n := WordRun(t, 0);
    match NextCut(t, 0)
    case None =>
    case Some(j) =>
      assert t[j] == ',';
      assert forall k :: 0 <= k < n ==> IsWordChar(t[k]);
      assert t[n] == '=';
      WordRunIs(t[..j], 0, n);
  }

  /** Joining the parts with ", " gives the text back. */
  lemma {:induction false} SplitPartsJoin(s: string)
    ensures JoinWith(SplitParts(s), ", ") == s
    decreases |s|
  {
    match NextCut(s, 0)
    case None =>
    case Some(i) =>
      var rest := SplitParts(s[i + 2..]);
      SplitPartsJoin(s[i + 2..]);
      assert SplitParts(s) == [s[..i]] + rest;
      assert ([s[..i]] + rest)[1..] == rest;
      assert s == s[..i] + ", " + s[i + 2..];
  }

  /** `key=value` parts, each with a word key and no comma, split back out of their ", " join. */
  lemma {:induction false} SplitPartsOfJoin(parts: seq<string>)
    requires |parts| >= 1
    requires forall p :: p in parts ==> ',' !in p
    requires forall k :: 1 <= k < |parts| ==> WordKeyed(parts[k])
    ensures SplitParts(JoinWith(parts, ", ")) == parts
    decreases |parts|
  {
    var first := parts[0];
    assert ',' !in first by { assert first in parts; }
    if |parts| == 1 {
      SplitPartsWithoutComma(first);
    } else {
      var rest := JoinWith(parts[1..], ", ");
      RestStartsKeyed(parts[1..]);
      SplitPartsAtFirst(first, rest);
      SplitPartsOfJoin(parts[1..]);
      assert parts == [first] + parts[1..];
    }
  }

  /** A text without a comma is not cut. */
  lemma SplitPartsWithoutComma(s: string)
    requires ',' !in s
    ensures SplitParts(s) == [s]
  {
    forall k | 0 <= k ensures !CutAt(s, k) {
      if k < |s| { assert s[k] in s; }
    }
  }

  /** A comma-free first part before ", " and a keyed rest is cut exactly there. */
  lemma SplitPartsAtFirst(first: string, rest: string)
    requires ',' !in first && WordKeyed(rest)
    ensures SplitParts(first + ", " + rest) == [first] + SplitParts(rest)
  {
    var s := first + ", " + rest;
    forall k | 0 <= k < |first| ensures !CutAt(s, k) {
      assert s[k] == first[k];
      assert first[k] in first;
    }
    assert s[|first| + 2..] == rest;
    assert CutAt(s, |first|);
    assert NextCut(s, 0) == Some(|first|);
    assert s[..|first|] == first;
  }

  /** A join whose first part starts with a word and "=" starts with them too. */
  lemma RestStartsKeyed(parts: seq<string>)
    requires |parts| >= 1 && WordKeyed(parts[0])
    ensures WordKeyed(JoinWith(parts, ", "))
  {
    var p := parts[0];
    var j := JoinWith(parts, ", ");
    var n := WordRun(p, 0);
    assert j[..|p|] == p by {
      if |parts| > 1 { assert j == p + ", " + JoinWith(parts[1..], ", "); }
    }
    assert forall k :: 0 <= k <= n ==> j[k] == p[k] by {
      forall k | 0 <= k <= n ensures j[k] == p[k] { assert j[..|p|][k] == p[k]; }
    }
    WordRunIs(j, 0, n);
  }

  /** Only the first part can lack "=": every later part has one right after its leading word. */
  lemma LaterPartsHaveEquals(s: string)
    ensures forall k :: 1 <= k < |SplitParts(s)| ==> Contains(SplitParts(s)[k], "=")
  {
    var parts := SplitParts(s);
    forall k | 1 <= k < |parts| ensures Contains(parts[k], "=") {
      var n := WordRun(parts[k], 0);
      assert WordKeyed(parts[k]);
      OccursAtChar(parts[k], '=', n);
      ContainsIff(parts[k], "=");
    }
  }

  // ---------------------------------------------------------------------------
  // Lazy groups `open(.*?)close`
  // ---------------------------------------------------------------------------

  /**
    The lazy group after `open` at index p: the text up to the first following `close`,
    provided no line break comes before it.
  */
  function LazyAt(s: string, p: nat, open: string, close: string): (g: Option<string>)
    requires OccursAt(s, open, p)
    ensures g.Some? ==>
              var q := p + |open|;
              && q + |g.value| <= |s| && s[q..q + |g.value|] == g.value
              && OccursAt(s, close, q + |g.value|)
              && (forall k :: q <= k < q + |g.value| ==> !OccursAt(s, close, k))
              && '\n' !in g.value
  {
    var q := p + |open|;
    match FindFrom(s, close, q)
    case None => None
    case Some(k) => if '\n' in s[q..k] then None else Some(s[q..k])
  }

  /** `re.match(open + "(.*?)" + close, s)` for literal `open` and `close`. */
  function MatchLazy(s: string, open: string, close: string): Option<string> {
    if OccursAt(s, open, 0) then LazyAt(s, 0, open, close) else None
  }

  /** `re.search(open + "(.*?)" + close, s)` from index `from`: the leftmost `open` whose group closes. */
  function SearchFrom(s: string, open: string, close: string, from: nat): (g: Option<string>)
    requires |open| > 0
    decreases |s| - from
    ensures g.Some? ==> '\n' !in g.value
  {
    match FindFrom(s, open, from)
    case None => None
    case Some(p) =>
      match LazyAt(s, p, open, close)
      case Some(g) => Some(g)
      case None => SearchFrom(s, open, close, p + 1)
  }

  function SearchLazy(s: string, open: string, close: string): Option<string>
    requires |open| > 0
  {
    SearchFrom(s, open, close, 0)
  }

  /** A text that starts with `open`, then a group free of line breaks and of `close`'s first character, then `close`. */
  lemma LazyOfWritten(open: string, g: string, close: string, rest: string)
    requires |close| > 0 && close[0] !in g && '\n' !in g
    ensures OccursAt(open + g + close + rest, open, 0)
    ensures LazyAt(open + g + close + rest, 0, open, close) == Some(g)
  {
    var s := open + g + close + rest;
    var q := |open|;
    assert s[..|open|] == open;
    assert OccursAt(s, close, q + |g|) by { assert s[q + |g|..q + |g| + |close|] == close; }
    forall k | q <= k < q + |g| ensures !OccursAt(s, close, k) {
      assert s[k] == g[k - q];
      assert g[k - q] in g;
      assert k + |close| <= |s| ==> s[k..k + |close|][0] == s[k];
    }
    var f := FindFrom(s, close, q);
    assert f == Some(q + |g|);
    assert s[q..q + |g|] == g;
  }

  /** The same text found by a search, which tries the leftmost `open` first. */
  lemma SearchOfWritten(open: string, g: string, close: string, rest: string)
    requires |open| > 0 && |close| > 0 && close[0] !in g && '\n' !in g
    ensures SearchLazy(open + g + close + rest, open, close) == Some(g)
  {
    var s := open + g + close + rest;
    LazyOfWritten(open, g, close, rest);
    assert FindFrom(s, open, 0) == Some(0);
  }

  // ---------------------------------------------------------------------------
  // The loops that assign into a dict
  // ---------------------------------------------------------------------------

  /** What the loop body makes of one item: an entry to assign, nothing, or an exception. */
  type EntryOf = string -> Result<Option<(string, Json)>, ExplainError>

  /** The entries a loop over `items` assigns, in order, or the first exception its body raises. */
  function Entries(items: seq<string>, entry: EntryOf): (r: Result<seq<(string, Json)>, ExplainError>)
    decreases |items|
  {
    if |items| == 0 then Success([])
    else
      match Entries(items[..|items| - 1], entry)
      case Failure(e) => Failure(e)
      case Success(ps) =>
        match entry(items[|items| - 1])
        case Failure(e) => Failure(e)
        case Success(None) => Success(ps)
        case Success(Some(kv)) => Success(ps + [kv])
  }

  /** The dict the loop leaves: each entry assigned in turn into an empty dict. */
  function Assigned(items: seq<string>, entry: EntryOf): Result<Dict, ExplainError> {
    match Entries(items, entry)
    case Failure(e) => Failure(e)
    case Success(ps) => Success(DictFrom(ps))
  }

  /** The loop raises exactly when its body raises on some item, and then with the first such exception. */
  lemma {:induction false} EntriesFailure(items: seq<string>, entry: EntryOf)
    ensures Entries(items, entry).Failure? <==> exists i :: 0 <= i < |items| && entry(items[i]).Failure?
    ensures Entries(items, entry).Failure? ==>
              exists i :: 0 <= i < |items| && entry(items[i]) == Failure(Entries(items, entry).error)
                          && forall j :: 0 <= j < i ==> entry(items[j]).Success?
    decreases |items|
  {
    if |items| > 0 {
      var init := items[..|items| - 1];
      EntriesFailure(init, entry);
      assert forall i :: 0 <= i < |init| ==> init[i] == items[i];
    }
  }

  /** Once a prefix of the loop has raised, the whole loop raises the same exception. */
  lemma {:induction false} EntriesKeepFailure(items: seq<string>, entry: EntryOf, n: nat)
    requires n <= |items| && Entries(items[..n], entry).Failure?
    ensures Entries(items, entry) == Entries(items[..n], entry)
    decreases |items| - n
  {
    if n < |items| {
      assert items[..n + 1][..n] == items[..n];
      EntriesKeepFailure(items, entry, n + 1);
    } else {
      assert items[..n] == items;
    }
  }

  /** A loop whose body gives an entry for every item assigns exactly those entries, in order. */
  lemma {:induction false} EntriesOfAll(items: seq<string>, entry: EntryOf, pairs: seq<(string, Json)>)
    requires |items| == |pairs|
    requires forall i :: 0 <= i < |items| ==> entry(items[i]) == Success(Some(pairs[i]))
    ensures Entries(items, entry) == Success(pairs)
    decreases |items|
  {
    if |items| > 0 {
      var n := |items| - 1;
      EntriesOfAll(items[..n], entry, pairs[..n]);
      assert pairs == pairs[..n] + [pairs[n]];
    }
  }

  /** The loop `for item in items: ... d[key] = value` over an initially empty dict. */
  method AssignAll(items: seq<string>, entry: EntryOf) returns (r: Result<Dict, ExplainError>)
    ensures r == Assigned(items, entry)
  {
    var d: Dict := [];
    ghost var pairs: seq<(string, Json)> := [];
    for i := 0 to |items|
      invariant Entries(items[..i], entry) == Success(pairs)
      invariant d == DictFrom(pairs)
    {
      assert items[..i + 1][..i] == items[..i];
      match entry(items[i]) {
        case Failure(e) =>
          EntriesKeepFailure(items, entry, i + 1);
          return Failure(e);
        case Success(None) =>
        case Success(Some(kv)) =>
          assert (pairs + [kv])[..|pairs|] == pairs;
          d := Put(d, kv.0, kv.1);
          pairs := pairs + [kv];
      }
    }
    assert items[..|items|] == items;
    r := Success(d);
  }

  // ---------------------------------------------------------------------------
  // Request parts
  // ---------------------------------------------------------------------------

  /** A sourceBuilder part whose value does not decode. */
  predicate UndecodableSource(part: string, decode: string -> Option<Json>) {
    Contains(part, "=") && SplitOnce(part, "=").0 == "sourceBuilder" && decode(SplitOnce(part, "=").1).None?
  }

  /**
    The entry one request part gives: the text before its first "=" as key and the rest as value,
    decoded when the key is `sourceBuilder`. A legacy plan raises on a part without "=" and on an
    undecodable sourceBuilder; a Calcite plan skips the first and keeps the text of the second.
  */
  function PartEntry(engine: Engine, decode: string -> Option<Json>, part: string): (r: Result<Option<(string, Json)>, ExplainError>)
    ensures r.Failure? <==> engine == Legacy && (!Contains(part, "=") || UndecodableSource(part, decode))
    ensures r.Success? && r.value.None? <==> engine == Calcite && !Contains(part, "=")
    ensures r.Success? && r.value.Some? ==>
              var key := r.value.value.0;
              var value := r.value.value.1;
              && Contains(part, "=") && key + "=" + SplitOnce(part, "=").1 == part && !Contains(key, "=")
              && (key != "sourceBuilder" ==> value == JStr(SplitOnce(part, "=").1))
              && (key == "sourceBuilder" ==>
                    if UndecodableSource(part, decode) then value == JStr(SplitOnce(part, "=").1)
                    else Some(value) == decode(SplitOnce(part, "=").1))
  {
    if !Contains(part, "=") then
      if engine.Legacy? then Failure(UnpackError(part)) else Success(None)
    else
      var (key, raw) := SplitOnce(part, "=");
      if key != "sourceBuilder" then Success(Some((key, JStr(raw))))
      else match decode(raw)
        case Some(v) => Success(Some((key, v)))
        case None => if engine.Legacy? then Failure(DecodeError(raw)) else Success(Some((key, JStr(raw))))
  }

  /** The loop body over request parts of one engine. */
  function PartEntries(engine: Engine, decode: string -> Option<Json>): EntryOf {
    part => PartEntry(engine, decode, part)
  }

  /** The request object a list of parts becomes. */
  function RequestObject(engine: Engine, decode: string -> Option<Json>, parts: seq<string>): Result<Dict, ExplainError> {
    Assigned(parts, PartEntries(engine, decode))
  }

  /** A Calcite plan never raises on its request parts. */
  lemma CalciteRequestSucceeds(decode: string -> Option<Json>, parts: seq<string>)
    ensures RequestObject(Calcite, decode, parts).Success?
  {
    EntriesFailure(parts, PartEntries(Calcite, decode));
  }

  /** A legacy plan raises exactly when some part has no "=" or an undecodable sourceBuilder. */
  lemma LegacyRequestRaises(decode: string -> Option<Json>, parts: seq<string>)
    ensures RequestObject(Legacy, decode, parts).Failure? <==>
            exists i :: 0 <= i < |parts| && (!Contains(parts[i], "=") || UndecodableSource(parts[i], decode))
  {
    EntriesFailure(parts, PartEntries(Legacy, decode));
  }

  // ---------------------------------------------------------------------------
  // explain_legacy
  // ---------------------------------------------------------------------------

  const FieldsPath := [Field("root"), Field("description"), Field("fields")]
  const RequestPath := [Field("root"), Field("children"), Element(0), Field("description"), Field("request")]

  /** The object a legacy request string becomes, or None when it is not of the form `Word(...)`. */
  function LegacyRequest(text: string, decode: string -> Option<Json>): Result<Option<Json>, ExplainError> {
    match MatchCall(text)
    case None => Success(None)
    case Some((kind, inner)) =>
      match RequestObject(Legacy, decode, SplitParts(inner))
      case Failure(e) => Failure(e)
      case Success(obj) => Success(Some(JObj([(kind, JObj(obj))])))
  }

  /** The document `explain_legacy` serialises, or the exception it raises. */
  function LegacyExplained(data: Json, decode: string -> Option<Json>): Result<Json, ExplainError> {
    match Get(data, FieldsPath)
    case Some(JStr(fieldsText)) => RequestExplained(Set(data, FieldsPath, JList(Strs(FieldList(fieldsText)))), decode)
    case _ => Failure(ShapeError)
  }

  /** The second half of `explain_legacy`: the request string, once the field list is in place. */
  function RequestExplained(withFields: Json, decode: string -> Option<Json>): Result<Json, ExplainError> {
    match Get(withFields, RequestPath)
    case Some(JStr(requestText)) =>
      (match LegacyRequest(requestText, decode)
       case Failure(e) => Failure(e)
       case Success(None) => Success(withFields)
       case Success(Some(request)) => Success(Set(withFields, RequestPath, request)))
    case _ => Failure(ShapeError)
  }

  /** `ExplainResults.explain_legacy` on the decoded document. */
  method ExplainLegacy(data: Json, decode: string -> Option<Json>) returns (r: Result<Json, ExplainError>)
    ensures r == LegacyExplained(data, decode)
  {
    var fields := Get(data, FieldsPath);
    if !(fields.Some? && fields.value.JStr?) {
      return Failure(ShapeError);
    }
    var out := Set(data, FieldsPath, JList(Strs(FieldList(fields.value.s))));
    r := ExplainRequest(out, decode);
  }

  /** The request half of `explain_legacy`: the request string replaced by the object it describes. */
  method ExplainRequest(withFields: Json, decode: string -> Option<Json>) returns (r: Result<Json, ExplainError>)
    ensures r == RequestExplained(withFields, decode)
  {
    var request := Get(withFields, RequestPath);
    if !(request.Some? && request.value.JStr?) {
      return Failure(ShapeError);
    }
    var call := MatchCall(request.value.s);
    if call.None? {
      return Success(withFields);
    }
    var obj := AssignAll(SplitParts(call.value.1), PartEntries(Legacy, decode));
    if obj.Failure? {
      return Failure(obj.error);
    }
    return Success(Set(withFields, RequestPath, JObj([(call.value.0, JObj(obj.value))])));
  }

  /** Everything outside the field list and the request is left as it was. */
  lemma LegacyTouchesOnlyFieldsAndRequest(data: Json, decode: string -> Option<Json>, q: seq<PathStep>)
    requires LegacyExplained(data, decode).Success?
    requires Diverge(FieldsPath, q) && Diverge(RequestPath, q)
    ensures Get(LegacyExplained(data, decode).value, q) == Get(data, q)
  {
    var fieldsText := Get(data, FieldsPath).value.s;
    var withFields := Set(data, FieldsPath, JList(Strs(FieldList(fieldsText))));
    SetElsewhere(data, FieldsPath, JList(Strs(FieldList(fieldsText))), q);
    var requestText := Get(withFields, RequestPath).value.s;
    match LegacyRequest(requestText, decode)
    case Success(None) =>
    case Success(Some(request)) =>
      SetElsewhere(withFields, RequestPath, request, q);
  }

  /** On success the fields string has become the list of its non-empty, comma-free fields. */
  lemma LegacyFieldsListed(data: Json, decode: string -> Option<Json>)
    requires LegacyExplained(data, decode).Success?
    ensures Get(data, FieldsPath).Some? && Get(data, FieldsPath).value.JStr?
    ensures Get(LegacyExplained(data, decode).value, FieldsPath)
            == Some(JList(Strs(FieldList(Get(data, FieldsPath).value.s))))
  {
    var fieldsText := Get(data, FieldsPath).value.s;
    var withFields := Set(data, FieldsPath, JList(Strs(FieldList(fieldsText))));
    var requestText := Get(withFields, RequestPath).value.s;
    match LegacyRequest(requestText, decode)
    case Success(None) =>
    case Success(Some(request)) =>
      assert Diverge(RequestPath, FieldsPath);
      SetElsewhere(withFields, RequestPath, request, FieldsPath);
  }

  /** A request string that is not of the form `Word(...)` is left as it was, and nothing raises after the field list. */
  lemma LegacyUnmatchedRequestKept(data: Json, decode: string -> Option<Json>)
    requires Get(data, FieldsPath).Some? && Get(data, FieldsPath).value.JStr?
    requires Get(data, RequestPath).Some? && Get(data, RequestPath).value.JStr?
    requires MatchCall(Get(data, RequestPath).value.s).None?
    ensures LegacyExplained(data, decode).Success?
    ensures Get(LegacyExplained(data, decode).value, RequestPath) == Get(data, RequestPath)
  {
    var fields := JList(Strs(FieldList(Get(data, FieldsPath).value.s)));
    var withFields := Set(data, FieldsPath, fields);
    FieldsKeepRequest(data, fields);
    UnmatchedRequestExplained(withFields, decode);
    assert LegacyExplained(data, decode) == RequestExplained(withFields, decode);
  }

  /** A request string that is not of the form `Word(...)` leaves the document as it is. */
  lemma UnmatchedRequestExplained(withFields: Json, decode: string -> Option<Json>)
    requires Get(withFields, RequestPath).Some? && Get(withFields, RequestPath).value.JStr?
    requires MatchCall(Get(withFields, RequestPath).value.s).None?
    ensures RequestExplained(withFields, decode) == Success(withFields)
  {
  }

  /** Replacing the field list leaves the request where it was. */
  lemma FieldsKeepRequest(data: Json, fields: Json)
    requires Get(data, FieldsPath).Some?
    ensures Get(Set(data, FieldsPath, fields), RequestPath) == Get(data, RequestPath)
  {
    assert Diverge(FieldsPath, RequestPath);
    SetElsewhere(data, FieldsPath, fields, RequestPath);
  }

  /** `key=value` text with a word key: the part a request object entry is printed as. */
  function KeyValue(key: string, value: string): string {
    key + "=" + value
  }

  /** The (key, raw value) entries as the request object holds them, none of them sourceBuilder. */
  function RawEntries(keys: seq<string>, values: seq<string>): (r: seq<(string, Json)>)
    requires |keys| == |values|
    ensures |r| == |keys|
    ensures forall i :: 0 <= i < |keys| ==> r[i] == (keys[i], JStr(values[i]))
  {
    seq(|keys|, i requires 0 <= i < |keys| => (keys[i], JStr(values[i])))
  }

  /** The parts `k1=v1`, `k2=v2`, ... */
  function KeyValues(keys: seq<string>, values: seq<string>): (r: seq<string>)
    requires |keys| == |values|
    ensures |r| == |keys|
    ensures forall i :: 0 <= i < |keys| ==> r[i] == KeyValue(keys[i], values[i])
  {
    seq(|keys|, i requires 0 <= i < |keys| => KeyValue(keys[i], values[i]))
  }

  /** The request printed as `kind(k1=v1, k2=v2, ...)`. */
  function PrintedRequest(kind: string, keys: seq<string>, values: seq<string>): string
    requires |keys| == |values|
  {
    kind + "(" + JoinWith(KeyValues(keys, values), ", ") + ")"
  }

  /** A word made of word characters only. */
  predicate IsWord(w: string) {
    w != [] && forall k :: 0 <= k < |w| ==> IsWordChar(w[k])
  }

  /**
    Parsing a printed legacy request gives its kind and the object of its entries, when keys are
    words other than sourceBuilder and values hold no comma and no line break. Values may hold "=".
  */
  lemma LegacyRequestRoundTrip(kind: string, keys: seq<string>, values: seq<string>, decode: string -> Option<Json>)
    requires |keys| == |values| >= 1
    requires IsWord(kind)
    requires forall i :: 0 <= i < |keys| ==> IsWord(keys[i]) && keys[i] != "sourceBuilder"
    requires forall i :: 0 <= i < |values| ==> ',' !in values[i] && '\n' !in values[i]
    ensures LegacyRequest(PrintedRequest(kind, keys, values), decode)
            == Success(Some(JObj([(kind, JObj(DictFrom(RawEntries(keys, values))))])))
  {
    var parts := KeyValues(keys, values);
    var inner := JoinWith(parts, ", ");
    PrintedPartsPlain(keys, values);
    JoinNoChar(parts, ", ", '\n');
    MatchCallOfCall(kind, inner);
    SplitPartsOfJoin(parts);
    PartsEntries(keys, values, decode);
    assert RequestObject(Legacy, decode, parts) == Success(DictFrom(RawEntries(keys, values)));
  }

  /** Printed parts hold no comma and no line break, and each starts with its key and "=". */
  lemma PrintedPartsPlain(keys: seq<string>, values: seq<string>)
    requires |keys| == |values|
    requires forall i :: 0 <= i < |keys| ==> IsWord(keys[i])
    requires forall i :: 0 <= i < |values| ==> ',' !in values[i] && '\n' !in values[i]
    ensures forall p :: p in KeyValues(keys, values) ==> ',' !in p && '\n' !in p
    ensures forall i :: 0 <= i < |keys| ==> WordKeyed(KeyValues(keys, values)[i])
  {
    var parts := KeyValues(keys, values);
    forall p | p in parts ensures ',' !in p && '\n' !in p {
      var i :| 0 <= i < |parts| && parts[i] == p;
      WordNoPunctuation(keys[i]);
    }
    forall i | 0 <= i < |parts| ensures WordKeyed(parts[i]) {
      WordRunIs(parts[i], 0, |keys[i]|);
    }
  }

  /** A word holds no comma, no line break and no "=". */
  lemma WordNoPunctuation(w: string)
    requires IsWord(w)
    ensures ',' !in w && '\n' !in w && '=' !in w
  {
    assert forall k :: 0 <= k < |w| ==> w[k] != ',' && w[k] != '\n' && w[k] != '=';
  }

  /** Each printed part gives its raw entry. */
  lemma PartsEntries(keys: seq<string>, values: seq<string>, decode: string -> Option<Json>)
    requires |keys| == |values|
    requires forall i :: 0 <= i < |keys| ==> IsWord(keys[i]) && keys[i] != "sourceBuilder"
    ensures Entries(KeyValues(keys, values), PartEntries(Legacy, decode)) == Success(RawEntries(keys, values))
  {
    var parts := KeyValues(keys, values);
    var entries := RawEntries(keys, values);
    forall i | 0 <= i < |parts| ensures PartEntries(Legacy, decode)(parts[i]) == Success(Some(entries[i])) {
      var key := keys[i];
      WordNoPunctuation(key);
      assert !Contains(key, "=") by { ContainsChar(key, '='); }
      SplitOnceUnique(key, "=", values[i]);
    }
    EntriesOfAll(parts, PartEntries(Legacy, decode), entries);
  }

  /** A join of parts without a character, with a separator without it, lacks it. */
  lemma {:induction false} JoinNoChar(parts: seq<string>, sep: string, c: char)
    requires c !in sep && forall p :: p in parts ==> c !in p
    ensures c !in JoinWith(parts, sep)
    decreases |parts|
  {
    if |parts| > 1 {
      JoinNoChar(parts[1..], sep, c);
      assert parts[0] in parts;
    } else if |parts| == 1 {
      assert parts[0] in parts;
    }
  }

  /** A request part without "=" makes the legacy formatter raise: there is no fallback. */
  lemma LegacyBarePartRaises(text: string, decode: string -> Option<Json>, i: nat)
    requires MatchCall(text).Some?
    requires i < |SplitParts(MatchCall(text).value.1)|
    requires !Contains(SplitParts(MatchCall(text).value.1)[i], "=")
    ensures LegacyRequest(text, decode).Failure?
  {
    LegacyRequestRaises(decode, SplitParts(MatchCall(text).value.1));
  }

  // ---------------------------------------------------------------------------
  // explain_calcite
  // ---------------------------------------------------------------------------

  const LogicalPath := [Field("calcite"), Field("logical")]
  const PhysicalPath := [Field("calcite"), Field("physical")]

  /** `name, pos = pair.split("=")`: exactly one "=", or ValueError. */
  function ProjectEntry(pair: string): (r: Result<Option<(string, Json)>, ExplainError>)
    ensures r.Success? <==> |Split(pair, "=")| == 2
    ensures r.Success? ==>
              r.value.Some? && '=' !in r.value.value.0
              && exists pos :: r.value.value == (r.value.value.0, JStr(pos))
                               && r.value.value.0 + "=" + pos == pair && '=' !in pos
  {
    var pieces := Split(pair, "=");
    if |pieces| == 2 then
      SplitThenJoin(pair, "=");
      SplitPiecesAvoidSep(pair, "=");
      assert pieces[0] in pieces && pieces[1] in pieces;
      ContainsChar(pieces[0], '=');
      ContainsChar(pieces[1], '=');
      assert [pieces[0], pieces[1]][1..] == [pieces[1]];
      assert pieces == [pieces[0], pieces[1]];
      Success(Some((pieces[0], JStr(pieces[1]))))
    else Failure(UnpackError(pair))
  }

  /** The name-to-position object of a `LogicalProject(...)` inner text. */
  function ProjectFields(inner: string): Result<Dict, ExplainError> {
    Assigned(Split(inner, ", "), ProjectEntry)
  }

  /** The group of `\s*CalciteLogicalIndexScan\(table=\[\[(.*?)\]\]\)` matched at the start of a line. */
  function ScanTable(line: string): Option<string> {
    MatchLazy(LStrip(line, IsSpace), "CalciteLogicalIndexScan(table=[[", "]])")
  }

  /** The logical plan object: a LogicalProject from the first line and a CalciteLogicalIndexScan from the second. */
  function LogicalStructured(logical: string): Result<Dict, ExplainError> {
    var lines := Split(Strip(logical), "\n");
    match LogicalProjectPart(lines[0])
    case Failure(e) => Failure(e)
    case Success(d) => Success(LogicalScanPart(d, lines))
  }

  /** The LogicalProject entry taken from the first plan line, none when the line does not match. */
  function LogicalProjectPart(line: string): Result<Dict, ExplainError> {
    if Contains(line, "LogicalProject") then
      match MatchLazy(line, "LogicalProject(", ")")
      case None => Success([])
      case Some(inner) =>
        (match ProjectFields(inner)
         case Failure(e) => Failure(e)
         case Success(fields) => Success(Put([], "LogicalProject", JObj(fields))))
    else Success([])
  }

  /** `d` with the CalciteLogicalIndexScan entry taken from the second plan line, when it matches. */
  function LogicalScanPart(d: Dict, lines: seq<string>): Dict {
    if |lines| > 1 && Contains(lines[1], "CalciteLogicalIndexScan") then
      match ScanTable(lines[1])
      case None => d
      case Some(g) => Put(d, "CalciteLogicalIndexScan", JObj([("table", JList(Strs(Split(g, ", "))))]))
    else d
  }

  /** `[f.strip() for f in pieces]`. */
  function StripEach(pieces: seq<string>): (r: seq<string>)
    ensures |r| == |pieces|
    ensures forall i :: 0 <= i < |pieces| ==> r[i] == Strip(pieces[i])
  {
    seq(|pieces|, i requires 0 <= i < |pieces| => Strip(pieces[i]))
  }

  /** The fields after `PROJECT->[`: the group split on "," and stripped, or none when the group is missing or blank. */
  function ProjectedFields(physical: string): seq<string> {
    match SearchLazy(physical, "PROJECT->[", "]")
    case Some(g) => if Strip(g) != "" then StripEach(Split(g, ",")) else []
    case None => []
  }

  /** The request object of `OpenSearchRequestBuilder(...)])`, None when the pattern does not match. */
  function RequestBuilder(physical: string, decode: string -> Option<Json>): Option<Dict> {
    match SearchLazy(physical, "OpenSearchRequestBuilder(", ")])")
    case None => None
    case Some(inner) =>
      CalciteRequestSucceeds(decode, SplitParts(inner));
      Some(RequestObject(Calcite, decode, SplitParts(inner)).value)
  }

  /** The PushDownContext list: the PROJECT-> element, then the request builder when it matched. */
  function PushDownContext(physical: string, decode: string -> Option<Json>): seq<Json> {
    var project := JObj([("PROJECT->", JList(Strs(ProjectedFields(physical))))]);
    match RequestBuilder(physical, decode)
    case None => [project]
    case Some(obj) => [project, JObj([("OpenSearchRequestBuilder", JObj(obj))])]
  }

  /** The CalciteEnumerableIndexScan object: its table names and, when present, its PushDownContext. */
  function EnumerableScan(physical: string, decode: string -> Option<Json>): Dict {
    var scan: Dict :=
      match SearchLazy(physical, "table=[[", "]]")
      case Some(g) => Put([], "table", JList(Strs(Split(g, ", "))))
      case None => [];
    if Contains(physical, "PushDownContext=") then Put(scan, "PushDownContext", JList(PushDownContext(physical, decode)))
    else scan
  }

  /** The document `explain_calcite` serialises, or the exception it raises. */
  function CalciteExplained(data: Json, decode: string -> Option<Json>): Result<Json, ExplainError> {
    match Get(data, LogicalPath)
    case Some(JStr(logical)) => CalciteWithLogical(data, LogicalStructured(logical), decode)
    case _ => Failure(ShapeError)
  }

  /** The rest of `explain_calcite` once the logical plan has been structured (or has raised). */
  function CalciteWithLogical(data: Json, logical: Result<Dict, ExplainError>, decode: string -> Option<Json>): Result<Json, ExplainError>
    requires Get(data, LogicalPath).Some?
  {
    match logical
    case Failure(e) => Failure(e)
    case Success(logicalObj) =>
      (match Get(data, PhysicalPath)
       case Some(JStr(physical)) => Success(PlansReplaced(data, logicalObj, physical, decode))
       case _ => Failure(ShapeError))
  }

  /** The document with the logical plan replaced by its object, then the physical plan by its object. */
  function PlansReplaced(data: Json, logicalObj: Dict, physical: string, decode: string -> Option<Json>): Json
    requires Get(data, LogicalPath).Some? && Get(data, PhysicalPath).Some?
  {
    var withLogical := Set(data, LogicalPath, JObj(logicalObj));
    PlansApart(data, JObj(logicalObj));
    Set(withLogical, PhysicalPath, JObj([("CalciteEnumerableIndexScan", JObj(EnumerableScan(physical, decode)))]))
  }

  /** `ExplainResults.explain_calcite` on the decoded document. */
  method ExplainCalcite(data: Json, decode: string -> Option<Json>) returns (r: Result<Json, ExplainError>)
    ensures r == CalciteExplained(data, decode)
  {
    var logical := Get(data, LogicalPath);
    if !(logical.Some? && logical.value.JStr?) {
      return Failure(ShapeError);
    }
    var structured := StructureLogical(logical.value.s);
    r := PlacePlans(data, structured, decode);
  }

  /** The rest of `explain_calcite`: raise what the logical plan raised, else read the physical plan and put both plans in. */
  method PlacePlans(data: Json, logical: Result<Dict, ExplainError>, decode: string -> Option<Json>) returns (r: Result<Json, ExplainError>)
    requires Get(data, LogicalPath).Some?
    ensures r == CalciteWithLogical(data, logical, decode)
  {
    if logical.Failure? {
      return Failure(logical.error);
    }
    var physical := Get(data, PhysicalPath);
    if !(physical.Some? && physical.value.JStr?) {
      return Failure(ShapeError);
    }
    var out := ReplacePlans(data, logical.value, physical.value.s, decode);
    return Success(out);
  }

  /** The two assignments of `explain_calcite` that put the structured plans into the document. */
  method ReplacePlans(data: Json, logicalObj: Dict, physical: string, decode: string -> Option<Json>) returns (out: Json)
    requires Get(data, LogicalPath).Some? && Get(data, PhysicalPath).Some?
    ensures out == PlansReplaced(data, logicalObj, physical, decode)
  {
    var scan := StructurePhysical(physical, decode);
    out := Set(data, LogicalPath, JObj(logicalObj));
    PlansApart(data, JObj(logicalObj));
    out := Set(out, PhysicalPath, JObj([("CalciteEnumerableIndexScan", JObj(scan))]));
  }

  /** Replacing the logical plan leaves the physical plan where it was. */
  lemma PlansApart(data: Json, logical: Json)
    requires Get(data, LogicalPath).Some?
    ensures Get(Set(data, LogicalPath, logical), PhysicalPath) == Get(data, PhysicalPath)
  {
    assert Diverge(LogicalPath, PhysicalPath);
    SetElsewhere(data, LogicalPath, logical, PhysicalPath);
  }

  /** The logical plan part of `explain_calcite`: the first two lines of the plan, structured. */
  method StructureLogical(logical: string) returns (r: Result<Dict, ExplainError>)
    ensures r == LogicalStructured(logical)
  {
    var lines := Split(Strip(logical), "\n");
    var project := StructureProject(lines[0]);
    if project.Failure? {
      return Failure(project.error);
    }
    var obj := project.value;
    if |lines| > 1 && Contains(lines[1], "CalciteLogicalIndexScan") {
      var table := ScanTable(lines[1]);
      if table.Some? {
        obj := Put(obj, "CalciteLogicalIndexScan", JObj([("table", JList(Strs(Split(table.value, ", "))))]));
      }
    }
    return Success(obj);
  }

  /** The LogicalProject entry of the first plan line, or the exception its field list raises. */
  method StructureProject(line: string) returns (r: Result<Dict, ExplainError>)
    ensures r == LogicalProjectPart(line)
  {
    var obj: Dict := [];
    if Contains(line, "LogicalProject") {
      var inner := MatchLazy(line, "LogicalProject(", ")");
      if inner.Some? {
        var fields := AssignAll(Split(inner.value, ", "), ProjectEntry);
        if fields.Failure? {
          return Failure(fields.error);
        }
        obj := Put(obj, "LogicalProject", JObj(fields.value));
      }
    }
    return Success(obj);
  }

  /** The physical plan part of `explain_calcite`: the table names and the PushDownContext. */
  method StructurePhysical(physical: string, decode: string -> Option<Json>) returns (scan: Dict)
    ensures scan == EnumerableScan(physical, decode)
  {
    scan := [];
    var table := SearchLazy(physical, "table=[[", "]]");
    if table.Some? {
      scan := Put(scan, "table", JList(Strs(Split(table.value, ", "))));
    }
    if Contains(physical, "PushDownContext=") {
      var context := BuildPushDownContext(physical, decode);
      scan := Put(scan, "PushDownContext", JList(context));
    }
  }

  /** The PushDownContext list, built by appending the PROJECT-> element and then the request builder. */
  method BuildPushDownContext(physical: string, decode: string -> Option<Json>) returns (context: seq<Json>)
    ensures context == PushDownContext(physical, decode)
  {
    context := [];
    var group := SearchLazy(physical, "PROJECT->[", "]");
    if group.Some? && Strip(group.value) != "" {
      context := context + [JObj([("PROJECT->", JList(Strs(StripEach(Split(group.value, ",")))))])];
    } else {
      context := context + [JObj([("PROJECT->", JList([]))])];
    }
    ghost var projected := context;
    var request := SearchLazy(physical, "OpenSearchRequestBuilder(", ")])");
    if request.Some? {
      var obj := AssignAll(SplitParts(request.value), PartEntries(Calcite, decode));
      CalciteRequestSucceeds(decode, SplitParts(request.value));
      context := context + [JObj([("OpenSearchRequestBuilder", JObj(obj.value))])];
    }
    PushDownContextOf(physical, decode, projected, context[|projected|..]);
  }

  /** The context list is the PROJECT-> element followed by the request builder element when there is one. */
  lemma PushDownContextOf(physical: string, decode: string -> Option<Json>, projected: seq<Json>, built: seq<Json>)
    requires projected == [JObj([("PROJECT->", JList(Strs(ProjectedFields(physical))))])]
    requires built == match RequestBuilder(physical, decode)
                      case None => []
                      case Some(obj) => [JObj([("OpenSearchRequestBuilder", JObj(obj))])]
    ensures projected + built == PushDownContext(physical, decode)
  {
  }

  /** Everything in the document other than the two plans is left as it was. */
  lemma CalciteTouchesOnlyPlans(data: Json, decode: string -> Option<Json>, q: seq<PathStep>)
    requires CalciteExplained(data, decode).Success?
    requires Diverge(LogicalPath, q) && Diverge(PhysicalPath, q)
    ensures Get(CalciteExplained(data, decode).value, q) == Get(data, q)
  {
    var logicalObj := LogicalStructured(Get(data, LogicalPath).value.s).value;
    var physical := Get(data, PhysicalPath).value.s;
    var physicalObj := JObj([("CalciteEnumerableIndexScan", JObj(EnumerableScan(physical, decode)))]);
    var withLogical := Set(data, LogicalPath, JObj(logicalObj));
    PlansApart(data, JObj(logicalObj));
    assert CalciteExplained(data, decode).value == PlansReplaced(data, logicalObj, physical, decode);
    SetElsewhere(data, LogicalPath, JObj(logicalObj), q);
    SetElsewhere(withLogical, PhysicalPath, physicalObj, q);
  }

  /**
    The PushDownContext is present exactly when the plan mentions it; its first element is always
    the PROJECT-> element, and a second, the request builder, comes only when that pattern matches.
  */
  lemma PushDownShape(physical: string, decode: string -> Option<Json>)
    ensures Lookup(EnumerableScan(physical, decode), "PushDownContext").Some? <==> Contains(physical, "PushDownContext=")
    ensures Contains(physical, "PushDownContext=") ==>
              var ctx := PushDownContext(physical, decode);
              && Lookup(EnumerableScan(physical, decode), "PushDownContext") == Some(JList(ctx))
              && 1 <= |ctx| <= 2
              && ctx[0] == JObj([("PROJECT->", JList(Strs(ProjectedFields(physical))))])
              && (|ctx| == 2 <==> SearchLazy(physical, "OpenSearchRequestBuilder(", ")])").Some?)
  {
    var scan: Dict :=
      match SearchLazy(physical, "table=[[", "]]")
      case Some(g) => Put([], "table", JList(Strs(Split(g, ", "))))
      case None => [];
    assert Lookup(scan, "PushDownContext").None?;
  }

  /** With no PROJECT-> group, or a blank one, the PROJECT-> element holds an empty list. */
  lemma ProjectedFieldsBlank(physical: string)
    requires SearchLazy(physical, "PROJECT->[", "]").None?
             || Strip(SearchLazy(physical, "PROJECT->[", "]").value) == ""
    ensures ProjectedFields(physical) == []
  {
  }

  /** Names without a comma, "]" or line break, written as `table=[[a, b, ...]]`, are read back as the table list. */
  lemma PhysicalTableOfWritten(names: seq<string>, rest: string, decode: string -> Option<Json>)
    requires |names| >= 1
    requires forall n :: n in names ==> ',' !in n && ']' !in n && '\n' !in n
    ensures var physical := "table=[[" + JoinWith(names, ", ") + "]]" + rest;
            Lookup(EnumerableScan(physical, decode), "table") == Some(JList(Strs(names)))
  {
    TableNamesJoined(names);
    ScanTableOfJoined(JoinWith(names, ", "), rest, decode, names);
  }

  /** Table names without ",", "]" or line breaks, joined with ", ", hold neither of the latter two and split back. */
  lemma TableNamesJoined(names: seq<string>)
    requires |names| >= 1
    requires forall n :: n in names ==> ',' !in n && ']' !in n && '\n' !in n
    ensures var joined := JoinWith(names, ", ");
            ']' !in joined && '\n' !in joined && Split(joined, ", ") == names
  {
    var sep := ", ";
    assert sep[0] == ',' && ']' !in sep && '\n' !in sep;
    JoinNoChar(names, sep, ']');
    JoinNoChar(names, sep, '\n');
    JoinThenSplit(names, sep);
  }

  /** The physical scan's table entry for a group written from names that split back to `names`. */
  lemma ScanTableOfJoined(joined: string, rest: string, decode: string -> Option<Json>, names: seq<string>)
    requires ']' !in joined && '\n' !in joined && Split(joined, ", ") == names
    ensures Lookup(EnumerableScan("table=[[" + joined + "]]" + rest, decode), "table") == Some(JList(Strs(names)))
  {
    PhysicalGroupOfWritten(joined, rest);
    ScanTableEntry("table=[[" + joined + "]]" + rest, decode, joined);
  }

  /** A physical plan that starts with `table=[[g]]` gives the group g. */
  lemma PhysicalGroupOfWritten(g: string, rest: string)
    requires ']' !in g && '\n' !in g
    ensures SearchLazy("table=[[" + g + "]]" + rest, "table=[[", "]]") == Some(g)
  {
    var close := "]]";
    assert close[0] == ']';
    SearchOfWritten("table=[[", g, close, rest);
  }

  /** The table names of the scan are the `table=[[...]]` group split on ", ", whatever else the plan holds. */
  lemma ScanTableEntry(physical: string, decode: string -> Option<Json>, g: string)
    requires SearchLazy(physical, "table=[[", "]]") == Some(g)
    ensures Lookup(EnumerableScan(physical, decode), "table") == Some(JList(Strs(Split(g, ", "))))
  {
    var scan := Put([], "table", JList(Strs(Split(g, ", "))));
    assert "table" != "PushDownContext";
    if Contains(physical, "PushDownContext=") {
      assert EnumerableScan(physical, decode) == Put(scan, "PushDownContext", JList(PushDownContext(physical, decode)));
    } else {
      assert EnumerableScan(physical, decode) == scan;
    }
  }

  /** Without a `table=[[...]]` group the scan has no table entry. */
  lemma NoScanTable(physical: string, decode: string -> Option<Json>)
    requires SearchLazy(physical, "table=[[", "]]").None?
    ensures Lookup(EnumerableScan(physical, decode), "table").None?
  {
    assert "table" != "PushDownContext";
    if Contains(physical, "PushDownContext=") {
      assert EnumerableScan(physical, decode) == Put([], "PushDownContext", JList(PushDownContext(physical, decode)));
    } else {
      assert EnumerableScan(physical, decode) == [];
    }
  }

  /** The same for the logical plan's second line, after any indentation. */
  lemma LogicalTableOfWritten(indent: string, names: seq<string>, rest: string)
    requires forall c :: c in indent ==> IsSpace(c)
    requires |names| >= 1
    requires forall n :: n in names ==> ',' !in n && ']' !in n && '\n' !in n
    ensures ScanTable(indent + "CalciteLogicalIndexScan(table=[[" + JoinWith(names, ", ") + "]])" + rest) == Some(JoinWith(names, ", "))
    ensures Split(JoinWith(names, ", "), ", ") == names
  {
    TableNamesJoined(names);
    ScanTableOfWritten(indent, JoinWith(names, ", "), rest);
  }

  /** An indented scan line whose group holds no "]" and no line break matches with that group. */
  lemma ScanTableOfWritten(indent: string, g: string, rest: string)
    requires forall c :: c in indent ==> IsSpace(c)
    requires ']' !in g && '\n' !in g
    ensures ScanTable(indent + "CalciteLogicalIndexScan(table=[[" + g + "]])" + rest) == Some(g)
  {
    var open := "CalciteLogicalIndexScan(table=[[";
    var close := "]])";
    assert open[0] == 'C' && !IsSpace(open[0]);
    assert close[0] == ']';
    IndentedLine(indent, open, g, close, rest);
  }

  /** Leading blanks are stripped before an anchored lazy match. */
  lemma IndentedLine(indent: string, open: string, g: string, close: string, rest: string)
    requires forall c :: c in indent ==> IsSpace(c)
    requires |open| > 0 && !IsSpace(open[0])
    requires |close| > 0 && close[0] !in g && '\n' !in g
    ensures MatchLazy(LStrip(indent + open + g + close + rest, IsSpace), open, close) == Some(g)
  {
    var line := open + g + close + rest;
    assert indent + open + g + close + rest == indent + line;
    assert line[0] == open[0];
    LStripExact(indent, line, IsSpace);
    LazyOfWritten(open, g, close, rest);
  }

  /** `name=position` pairs with neither "=" nor "," in their halves. */
  predicate PlainPairs(names: seq<string>, positions: seq<string>) {
    && |names| == |positions| >= 1
    && (forall i :: 0 <= i < |names| ==> '=' !in names[i] && ',' !in names[i])
    && (forall i :: 0 <= i < |positions| ==> '=' !in positions[i] && ',' !in positions[i])
  }

  /**
    `LogicalProject(a=0, b=1, ...)` read back: each name maps to its position, and a name written
    twice maps to the position written last.
  */
  lemma ProjectFieldsOfWritten(names: seq<string>, positions: seq<string>)
    requires PlainPairs(names, positions)
    ensures ProjectFields(JoinWith(KeyValues(names, positions), ", ")) == Success(DictFrom(RawEntries(names, positions)))
    ensures forall name :: Lookup(DictFrom(RawEntries(names, positions)), name) == LastFor(RawEntries(names, positions), name)
  {
    var pairs := KeyValues(names, positions);
    var entries := RawEntries(names, positions);
    PairsSplitBack(names, positions);
    PairsEntries(names, positions);
    EntriesOfAll(pairs, ProjectEntry, entries);
    forall name {
      DictFromLastWins(entries, name);
    }
  }

  /** The pairs joined with ", " split back into the pairs. */
  lemma PairsSplitBack(names: seq<string>, positions: seq<string>)
    requires PlainPairs(names, positions)
    ensures Split(JoinWith(KeyValues(names, positions), ", "), ", ") == KeyValues(names, positions)
  {
    var pairs := KeyValues(names, positions);
    forall p | p in pairs ensures ',' !in p {
      var i :| 0 <= i < |pairs| && pairs[i] == p;
      assert pairs[i] == names[i] + "=" + positions[i];
    }
    var sep := ", ";
    assert sep[0] == ',';
    JoinThenSplit(pairs, sep);
  }

  /** Each pair reads back as its name and position. */
  lemma PairsEntries(names: seq<string>, positions: seq<string>)
    requires PlainPairs(names, positions)
    ensures var pairs := KeyValues(names, positions);
            var entries := RawEntries(names, positions);
            forall i :: 0 <= i < |pairs| ==> ProjectEntry(pairs[i]) == Success(Some(entries[i]))
  {
    var pairs := KeyValues(names, positions);
    var entries := RawEntries(names, positions);
    forall i | 0 <= i < |pairs| ensures ProjectEntry(pairs[i]) == Success(Some(entries[i])) {
      SplitCharCons(names[i], '=', positions[i]);
      SplitCharNone(positions[i], '=');
      assert pairs[i] == names[i] + ['='] + positions[i];
    }
  }

  /** A LogicalProject pair that does not split into exactly a name and a position makes the formatter raise. */
  lemma ProjectFieldsRaises(inner: string)
    ensures ProjectFields(inner).Failure? <==>
            exists i :: 0 <= i < |Split(inner, ", ")| && |Split(Split(inner, ", ")[i], "=")| != 2
  {
    var pairs := Split(inner, ", ");
    EntriesFailure(pairs, ProjectEntry);
    forall i | 0 <= i < |pairs| ensures ProjectEntry(pairs[i]).Failure? <==> |Split(pairs[i], "=")| != 2 {
    }
  }
}
