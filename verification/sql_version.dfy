/**
  Selection of the SQL plugin version the gateway runs (sql/sql_version.py). A requested version
  is checked against the pattern `^[0-9]+(\.[0-9]+)*$`, padded with "0" parts to four parts,
  looked up textually in the list of available versions, and, when the matching jar is missing
  or a rebuild is asked for, built by a gradle task named after the version.

  The file system and the build are parameters: whether the jar exists before and after the
  build is passed in, and the build command is returned instead of run.
*/
module SqlVersionSelection {
  import opened Base
  import opened Text

  const DefaultVersion := "3.1.0.0"
  const AvailableVersions := ["3.1.0.0", "2.19.0.0"]

  // ---------------------------------------------------------------------------
  // The version pattern
  // ---------------------------------------------------------------------------

  /** Every dot-separated piece is a non-empty run of decimal digits: `[0-9]+(\.[0-9]+)*`. */
  predicate DottedNumeric(s: string) {
    forall p :: p in Split(s, ".") ==> IsDecimal(p)
  }

  /** `re.match(r"^[0-9]+(\.[0-9]+)*$", s)`; Python's `$` also matches just before a final newline. */
  predicate MatchesVersionPattern(s: string) {
    || DottedNumeric(s)
    || (|s| > 0 && s[|s| - 1] == '\n' && DottedNumeric(s[..|s| - 1]))
  }

  /**
    The pattern read character by character: digits and dots only, neither first nor last a dot,
    and no two dots in a row.
  */
  predicate DigitsAndSingleDots(s: string) {
    && |s| > 0
    && (forall i :: 0 <= i < |s| ==> IsDigit(s[i]) || s[i] == '.')
    && s[0] != '.' && s[|s| - 1] != '.'
    && (forall i :: 0 <= i < |s| - 1 ==> !(s[i] == '.' && s[i + 1] == '.'))
  }

  /** The piece-wise and the character-wise reading of the pattern agree. */
  lemma {:induction false} DottedNumericIff(s: string)
    ensures DottedNumeric(s) <==> DigitsAndSingleDots(s)
    decreases |s|
  {
    match FindFrom(s, ".", 0)
    case None =>
      ContainsChar(s, '.');
      SplitCharNone(s, '.');
      DigitsNoDot(s);
    case Some(i) =>
      OccursAtChar(s, '.', i);
      PrefixBeforeFirstLacks(s, ".", i);
      var head, rest := s[..i], s[i + 1..];
      ContainsChar(head, '.');
      assert s == head + "." + rest;
      DottedNumericCons(head, rest);
      DottedNumericIff(rest);
      DigitsCons(head, rest);
  }

  /** Before the first dot there is one piece, which must be digits, and the rest is read the same way. */
  lemma DottedNumericCons(head: string, rest: string)
    requires '.' !in head
    ensures DottedNumeric(head + "." + rest) <==> IsDecimal(head) && DottedNumeric(rest)
  {
    SplitCharCons(head, '.', rest);
    assert Split(head + "." + rest, ".") == [head] + Split(rest, ".");
  }

  lemma DigitsNoDot(s: string)
    requires '.' !in s
    ensures DigitsAndSingleDots(s) <==> IsDecimal(s)
  {
    if IsDecimal(s) {
      assert forall i :: 0 <= i < |s| ==> s[i] in s;
    }
    if DigitsAndSingleDots(s) {
      forall c | c in s ensures IsDigit(c) {
        var i :| 0 <= i < |s| && s[i] == c;
      }
    }
  }

  lemma DigitsCons(head: string, rest: string)
    requires '.' !in head
    ensures DigitsAndSingleDots(head + "." + rest) <==> IsDecimal(head) && DigitsAndSingleDots(rest)
  {
    if DigitsAndSingleDots(head + "." + rest) {
      DigitsConsSplits(head, rest);
    }
    if IsDecimal(head) && DigitsAndSingleDots(rest) {
      DigitsConsJoins(head, rest);
    }
  }

  /** A well-formed version with a first dot: digits before it and a well-formed rest after it. */
  lemma DigitsConsSplits(head: string, rest: string)
    requires '.' !in head && DigitsAndSingleDots(head + "." + rest)
    ensures IsDecimal(head) && DigitsAndSingleDots(rest)
  {
    var s := head + "." + rest;
    var n := |head|;
    assert s[n] == '.';
    assert n > 0;
    forall c | c in head ensures IsDigit(c) {
      var k :| 0 <= k < n && head[k] == c;
      assert s[k] == c;
    }
    assert |rest| > 0;
    assert rest[0] == s[n + 1];
    assert rest[|rest| - 1] == s[|s| - 1];
    forall k | 0 <= k < |rest| ensures IsDigit(rest[k]) || rest[k] == '.' {
      assert rest[k] == s[n + 1 + k];
    }
    forall k | 0 <= k < |rest| - 1 ensures !(rest[k] == '.' && rest[k + 1] == '.') {
      assert rest[k] == s[n + 1 + k] && rest[k + 1] == s[n + 1 + k + 1];
    }
  }

  /** Digits, a dot and a well-formed rest make a well-formed version. */
  lemma DigitsConsJoins(head: string, rest: string)
    requires IsDecimal(head) && DigitsAndSingleDots(rest)
    ensures DigitsAndSingleDots(head + "." + rest)
  {
    var s := head + "." + rest;
    var n := |head|;
    assert forall k :: 0 <= k < n ==> s[k] == head[k] && head[k] in head;
    assert s[n] == '.';
    forall k | 0 <= k < |s| ensures IsDigit(s[k]) || s[k] == '.' {
      if k > n { assert s[k] == rest[k - n - 1]; }
    }
    forall k | 0 <= k < |s| - 1 ensures !(s[k] == '.' && s[k + 1] == '.') {
      if k > n { assert s[k] == rest[k - n - 1] && s[k + 1] == rest[k - n]; }
    }
  }


  // ---------------------------------------------------------------------------
  // Padding, trimming and the names derived from a version
  // ---------------------------------------------------------------------------

  /** The parts followed by "0" parts up to four parts in all; never shorter than the parts given. */
  function Padded(parts: seq<string>): (r: seq<string>)
    decreases 4 - |parts|
    ensures |r| == if |parts| < 4 then 4 else |parts|
    ensures r[..|parts|] == parts
    ensures forall i :: |parts| <= i < |r| ==> r[i] == "0"
  {
    if |parts| >= 4 then parts else Padded(parts + ["0"])
  }

  /** `while len(parts) < 4: parts.append("0")`. */
  method PadToFour(parts: seq<string>) returns (padded: seq<string>)
    ensures padded == Padded(parts)
  {
    padded := parts;
    while |padded| < 4
      invariant Padded(padded) == Padded(parts)
      decreases 4 - |padded|
    {
      padded := padded + ["0"];
    }
  }

  /** The version a requested string becomes: its dot-separated parts padded and joined again. */
  function PaddedVersion(requested: string): string {
    JoinWith(Padded(Split(requested, ".")), ".")
  }

  /** The parts with every trailing "0" part removed. */
  function Trimmed(parts: seq<string>): (kept: seq<string>)
    decreases |parts|
    ensures |kept| <= |parts| && kept == parts[..|kept|]
    ensures kept == [] || kept[|kept| - 1] != "0"
    ensures forall i :: |kept| <= i < |parts| ==> parts[i] == "0"
  {
    if |parts| > 0 && parts[|parts| - 1] == "0" then Trimmed(parts[..|parts| - 1]) else parts
  }

  /** `while v_parts and v_parts[-1] == "0": v_parts.pop()`. */
  method TrimZeros(parts: seq<string>) returns (kept: seq<string>)
    ensures kept == Trimmed(parts)
  {
    kept := parts;
    while |kept| > 0 && kept[|kept| - 1] == "0"
      invariant Trimmed(kept) == Trimmed(parts)
      decreases |kept|
    {
      kept := kept[..|kept| - 1];
    }
  }

  /** The version as it is shown to users. */
  function DisplayVersion(v: string): string {
    JoinWith(Trimmed(Split(v, ".")), ".")
  }

  /** The gradle task that builds a version's jar, e.g. "v2_19_1_0". */
  function GradleTask(parts: seq<string>): (task: string)
    requires |parts| >= 4
    ensures task == "v" + JoinWith(parts[..4], "_")
  {
    assert parts[..4] == [parts[0], parts[1], parts[2], parts[3]];
    JoinFour(parts[0], parts[1], parts[2], parts[3], "_");
    "v" + parts[0] + "_" + parts[1] + "_" + parts[2] + "_" + parts[3]
  }

  /** `os.path.join(a, b)`: an absolute `b` replaces `a`; otherwise a "/" is added unless `a` is empty or ends in one. */
  function PathJoin(a: string, b: string): string {
    if |b| > 0 && b[0] == '/' then b
    else if a == "" || a[|a| - 1] == '/' then a + b
    else a + "/" + b
  }

  /** The file name of a version's jar. */
  function JarName(version: string): string {
    "opensearchsql-v" + version + ".jar"
  }

  /** `os.path.join(project_root, "build", "libs", f"opensearchsql-v{version}.jar")`. */
  function JarPath(projectRoot: string, version: string): (path: string)
    ensures projectRoot != "" && projectRoot[|projectRoot| - 1] != '/'
            ==> path == projectRoot + "/" + "build" + "/" + "libs" + "/" + JarName(version)
    ensures projectRoot == "" || projectRoot[|projectRoot| - 1] == '/'
            ==> path == projectRoot + "build" + "/" + "libs" + "/" + JarName(version)
  {
    var build := PathJoin(projectRoot, "build");
    var libs := PathJoin(build, "libs");
    var jar := JarName(version);
    assert "build"[0] == 'b' && "libs"[0] == 'l' && jar[0] == 'o';
    assert build[|build| - 1] == 'd' && libs[|libs| - 1] == 's';
    PathJoin(libs, jar)
  }

  // ---------------------------------------------------------------------------
  // The version manager
  // ---------------------------------------------------------------------------

  /** `SqlVersion`: the selected version and the versions that can be selected. */
  class SqlVersion {
    var version: string
    const availableVersions: seq<string>

    constructor ()
      ensures version == DefaultVersion && availableVersions == AvailableVersions
    {
      version := DefaultVersion;
      availableVersions := AvailableVersions;
    }

    /** The available versions as shown in the "not supported" notice. */
    method DisplayVersions() returns (shown: seq<string>)
      ensures |shown| == |availableVersions|
      ensures forall i :: 0 <= i < |shown| ==> shown[i] == DisplayVersion(availableVersions[i])
    {
      shown := [];
      for i := 0 to |availableVersions|
        invariant |shown| == i
        invariant forall k :: 0 <= k < i ==> shown[k] == DisplayVersion(availableVersions[k])
      {
        var kept := TrimZeros(Split(availableVersions[i], "."));
        shown := shown + [JoinWith(kept, ".")];
      }
    }

    /** `get_jar_path`: the jar of the selected version under the project root. */
    function GetJarPath(projectRoot: string): (path: string)
      reads this
      ensures projectRoot <= path
      ensures var jar := JarName(version);
              |jar| < |path| && path[|path| - |jar|..] == jar && path[|path| - |jar| - 1] == '/'
    {
      JarPath(projectRoot, version)
    }

    /**
      `set_version`. `jarExists` is whether the jar is there when first looked for and `jarBuilt`
      whether it is there after the build. Returns the verdict, the gradle command that was run
      (if any) and the "Available versions" notice printed for a rejected version.
    */
    method SetVersion(requested: string, rebuild: bool, projectRoot: string, jarExists: bool, jarBuilt: bool)
      returns (ok: bool, build: Option<seq<string>>, notice: Option<string>)
      modifies this
      ensures !MatchesVersionPattern(requested) ==> version == old(version)
      ensures MatchesVersionPattern(requested) ==> version == PaddedVersion(requested)
      ensures var supported := MatchesVersionPattern(requested) && PaddedVersion(requested) in availableVersions;
              && (notice.Some? <==> !supported)
              && (build.Some? <==> supported && (rebuild || !jarExists))
              && (ok <==> supported && (build.None? || jarBuilt))
      ensures notice.Some? ==> build.None? && notice.value == "Available versions: " + JoinWith(AllDisplayed(availableVersions), ", ")
      ensures build.Some? ==> |Split(version, ".")| >= 4 && build.value == ["./gradlew", GradleTask(Split(version, "."))]
      ensures ok ==> version in availableVersions
    {
      var supported := false;
      if MatchesVersionPattern(requested) {
        var padded := PadToFour(Split(requested, "."));
        version := JoinWith(padded, ".");
        supported := version in availableVersions;
      }
      if !supported {
        var shown := DisplayVersions();
        assert shown == AllDisplayed(availableVersions);
        return false, None, Some("Available versions: " + JoinWith(shown, ", "));
      }
      PaddedVersionParts(requested);
      var versionParts := Split(version, ".");
      var task := GradleTask(versionParts);
      build := None;
      if rebuild || !jarExists {
        build := Some(["./gradlew", task]);
        if !jarBuilt {
          return false, build, None;
        }
      }
      return true, build, None;
    }
  }

  /** The display form of each version, in order. */
  function AllDisplayed(versions: seq<string>): (shown: seq<string>)
    ensures |shown| == |versions|
    ensures forall i :: 0 <= i < |versions| ==> shown[i] == DisplayVersion(versions[i])
  {
    seq(|versions|, i requires 0 <= i < |versions| => DisplayVersion(versions[i]))
  }

  // ---------------------------------------------------------------------------
  // Properties
  // ---------------------------------------------------------------------------

  /**
    A well-formed request becomes a version of at least four parts whose first parts are the
    requested ones in order, every added part being "0".
  */
  lemma PaddedVersionParts(requested: string)
    ensures var parts := Split(requested, ".");
            && Split(PaddedVersion(requested), ".") == Padded(parts)
            && |Split(PaddedVersion(requested), ".")| >= 4
            && Split(PaddedVersion(requested), ".")[..|parts|] == parts
  {
    var parts := Split(requested, ".");
    SplitPiecesAvoidSep(requested, ".");
    forall p | p in Padded(parts) ensures '.' !in p {
      var i :| 0 <= i < |Padded(parts)| && Padded(parts)[i] == p;
      if i < |parts| {
        assert p == parts[i];
        ContainsChar(p, '.');
      }
    }
    JoinThenSplit(Padded(parts), ".");
  }

  /** The padded version starts with the text requested: padding only appends ".0" parts. */
  lemma PaddedVersionExtends(requested: string)
    ensures |requested| <= |PaddedVersion(requested)|
    ensures PaddedVersion(requested)[..|requested|] == requested
  {
    var parts := Split(requested, ".");
    SplitThenJoin(requested, ".");
    JoinOfPrefix(parts, Padded(parts));
  }

  /** Joining a longer list that starts with the parts extends the join of the parts. */
  lemma {:induction false} JoinOfPrefix(parts: seq<string>, acc: seq<string>)
    requires |parts| >= 1 && |acc| >= |parts| && acc[..|parts|] == parts
    ensures var j := JoinWith(parts, ".");
            |j| <= |JoinWith(acc, ".")| && JoinWith(acc, ".")[..|j|] == j
    decreases |acc|
  {
    if |acc| > |parts| {
      var init := acc[..|acc| - 1];
      assert acc == init + [acc[|acc| - 1]];
      assert init[..|parts|] == parts;
      JoinAppend(init, ".", acc[|acc| - 1]);
      JoinOfPrefix(parts, init);
    } else {
      assert acc == parts;
    }
  }

  /** "3.1" is well formed and selects the default version. */
  lemma ShortFormThreeOne()
    ensures MatchesVersionPattern("3.1") && PaddedVersion("3.1") == "3.1.0.0"
    ensures PaddedVersion("3.1") in AvailableVersions
  {
    var a, b := "3", "1";
    TwoPartVersion(a, b);
    assert a + "." + b == "3.1";
    assert a + "." + b + ".0.0" == AvailableVersions[0];
  }

  /** "2.19" is well formed and selects the other available version. */
  lemma ShortFormTwoNineteen()
    ensures MatchesVersionPattern("2.19") && PaddedVersion("2.19") == "2.19.0.0"
    ensures PaddedVersion("2.19") in AvailableVersions
  {
    var a, b := "2", "19";
    TwoPartVersion(a, b);
    assert a + "." + b == "2.19";
    assert a + "." + b + ".0.0" == AvailableVersions[1];
  }

  /** A version starting with neither '3' nor '2' is not one of the available versions. */
  lemma NotAvailable(v: string)
    requires |v| > 0 && v[0] != '3' && v[0] != '2'
    ensures v !in AvailableVersions
  {
    var v0, v1 := AvailableVersions[0], AvailableVersions[1];
    assert v0[0] == '3' && v1[0] == '2';
  }

  /** "4.0" is well formed but pads to a version that is not available. */
  lemma UnavailableFourZero()
    ensures MatchesVersionPattern("4.0") && PaddedVersion("4.0") == "4.0.0.0"
    ensures PaddedVersion("4.0") !in AvailableVersions
  {
    var a, b := "4", "0";
    TwoPartVersion(a, b);
    assert a + "." + b == "4.0";
    var p := a + "." + b + ".0.0";
    assert p == "4.0.0.0";
    NotAvailable(p);
  }

  /**
    Support is textual: "03.1" is well formed and names the same number as "3.1", yet it pads
    to "03.1.0.0", which is not in the list.
  */
  lemma LeadingZeroRejected()
    ensures MatchesVersionPattern("03.1")
    ensures PaddedVersion("03.1") == "03.1.0.0" && PaddedVersion("03.1") !in AvailableVersions
  {
    var a, b := "03", "1";
    TwoPartVersion(a, b);
    assert a + "." + b == "03.1";
    var p := a + "." + b + ".0.0";
    assert p == "03.1.0.0";
    NotAvailable(p);
  }

  /** A word is not a version: "invalid" does not match the pattern. */
  lemma WordRejected()
    ensures !MatchesVersionPattern("invalid")
  {
    var w := "invalid";
    assert '.' !in w;
    SplitCharNone(w, '.');
    assert w in Split(w, ".");
    assert w[0] in w && !IsDigit(w[0]);
    assert w[|w| - 1] != '\n';
  }

  /** "3.1.0.0" is displayed as "3.1". */
  lemma DisplayedThreeOne()
    ensures DisplayVersion("3.1.0.0") == "3.1"
  {
    var a, b := "3", "1";
    DisplayOfPadded(a, b);
    assert a + "." + b + ".0.0" == "3.1.0.0";
    assert a + "." + b == "3.1";
  }

  /** "2.19.0.0" is displayed as "2.19". */
  lemma DisplayedTwoNineteen()
    ensures DisplayVersion("2.19.0.0") == "2.19"
  {
    var a, b := "2", "19";
    DisplayOfPadded(a, b);
    assert a + "." + b + ".0.0" == "2.19.0.0";
    assert a + "." + b == "2.19";
  }

  /** For the list a manager starts with, the notice lists the available versions as "3.1" and "2.19". */
  lemma DisplayedDefaults(versions: seq<string>)
    requires versions == AvailableVersions
    ensures AllDisplayed(versions) == ["3.1", "2.19"]
  {
    DisplayedThreeOne();
    DisplayedTwoNineteen();
    DisplayedPair(versions, "3.1.0.0", "2.19.0.0");
  }

  /** A list of two versions is displayed element by element. */
  lemma DisplayedPair(versions: seq<string>, v0: string, v1: string)
    requires versions == [v0, v1]
    ensures AllDisplayed(versions) == [DisplayVersion(v0), DisplayVersion(v1)]
  {
  }

  /** The gradle task of each available version. */
  lemma TaskNames()
    ensures GradleTask(["3", "1", "0", "0"]) == "v3_1_0_0"
    ensures GradleTask(["2", "19", "0", "0"]) == "v2_19_0_0"
  {
  }

  /** A two-part numeric request is well formed and pads with two "0" parts. */
  lemma TwoPartVersion(a: string, b: string)
    requires IsDecimal(a) && IsDecimal(b)
    ensures MatchesVersionPattern(a + "." + b)
    ensures PaddedVersion(a + "." + b) == a + "." + b + ".0.0"
  {
    assert '.' !in a && '.' !in b;
    SplitCharCons(a, '.', b);
    SplitCharNone(b, '.');
    assert Split(a + "." + b, ".") == [a, b];
    var r := Padded([a, b]);
    assert r[..2] == [a, b];
    assert r == [a, b, "0", "0"];
    JoinFour(a, b, "0", "0", ".");
  }

  /** A version written as two parts and two "0" parts is displayed as its two parts. */
  lemma DisplayOfPadded(a: string, b: string)
    requires '.' !in a && '.' !in b && b != "0"
    ensures DisplayVersion(a + "." + b + ".0.0") == a + "." + b
  {
    var p := [a, b, "0", "0"];
    JoinFour(a, b, "0", "0", ".");
    assert a + "." + b + "." + "0" + "." + "0" == a + "." + b + ".0.0";
    JoinThenSplit(p, ".");
    assert Split(a + "." + b + ".0.0", ".") == p;
    var t := Trimmed(p);
    assert |t| == 2;
    assert t == [a, b];
    assert [a, b][1..] == [b];
    assert JoinWith([a, b], ".") == a + "." + b;
  }
}
