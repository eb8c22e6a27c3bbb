// Names of rollback version files and of the context directories that hold them.

module Versions {
  import opened Options
  import opened Text

  const PY := ".py"
  const EXECUTED := ".executed"
  const SUFFIX_LENGTH := 8

  /** `Version`: timestamp and suffix are evaluated once, when the class is defined. */
  datatype Version = Version(scenarioType: string, timestamp: nat, hashSuffix: string)

  predicate WellFormed(v: Version)
  {
    |v.hashSuffix| == SUFFIX_LENGTH && IsAlnum(v.hashSuffix)
  }

  function FileName(v: Version): string
  {
    v.scenarioType + "_" + Decimal(v.timestamp) + "_" + v.hashSuffix + PY
  }

  function ContextDirectory(timestamp: nat, runUuid: string): string
  {
    Decimal(timestamp) + "-" + runUuid
  }

  /** An absent or empty expectation filters nothing, as Python's truth test has it. */
  predicate Filtered(expected: Option<string>, actual: string)
  {
    expected.Some? && expected.value != "" && actual != expected.value
  }

  predicate IsVersionFile(name: string, expectedType: Option<string>)
  {
    if !EndsWith(name, PY) then false
    else
      var parts := Split(name, '_');
      if |parts| < 3 then false
      else
        var scenarioType := Join(parts[..|parts| - 2], '_');
        var timestamp := parts[|parts| - 2];
        var suffix := DropLast(parts[|parts| - 1], 3);
        if Filtered(expectedType, scenarioType) then false
        else if !IsDigits(timestamp) then false
        else if |suffix| != SUFFIX_LENGTH || !IsAlnum(suffix) then false
        else true
  }

  predicate IsContextDirectory(name: string, expectedUuid: Option<string>)
  {
    var parts := SplitOnce(name, '-');
    if |parts| != 2 then false
    else if !IsDigits(parts[0]) then false
    else if Filtered(expectedUuid, parts[1]) then false
    else true
  }

  /** `get_rollback_timestamp` on a base name; 0 stands for the swallowed parse errors. */
  function SortKey(name: string): nat
  {
    var parts := RSplit(name, '_', 2);
    if |parts| < 2 || !IsDigits(parts[|parts| - 2]) then 0 else Parse(parts[|parts| - 2])
  }

  // ---- What the formats mean, independently of how they are parsed

  /** The text of a version file name, taken apart. */
  ghost predicate Spells(name: string, scenarioType: string, digits: string, suffix: string)
  {
    && name == scenarioType + "_" + digits + "_" + suffix + ".py"
    && IsDigits(digits)
    && |suffix| == 8
    && IsAlnum(suffix)
  }

  lemma SpelledParts(name: string, scenarioType: string, digits: string, suffix: string)
    requires Spells(name, scenarioType, digits, suffix)
    ensures Split(name, '_') == Split(scenarioType, '_') + [digits, suffix + PY]
    ensures EndsWith(name, PY)
  {
    SplitTwoTails(scenarioType, digits, suffix + PY, '_');
    assert name == scenarioType + ['_'] + digits + ['_'] + (suffix + PY);
  }

  lemma SpelledIsAccepted(name: string, scenarioType: string, digits: string, suffix: string,
                          expected: Option<string>)
    requires Spells(name, scenarioType, digits, suffix)
    ensures IsVersionFile(name, expected) <==> !Filtered(expected, scenarioType)
    ensures SortKey(name) == Parse(digits)
  {
    SpelledParts(name, scenarioType, digits, suffix);
    var typeParts, parts := Split(scenarioType, '_'), Split(name, '_');
    assert parts[..|parts| - 2] == typeParts;
    assert DropLast(suffix + PY, 3) == suffix;
    RSplitIsTailOfSplit(name, '_', 2);
  }

  lemma AcceptedIsSpelled(name: string, expected: Option<string>)
      returns (scenarioType: string, digits: string, suffix: string)
    requires IsVersionFile(name, expected)
    ensures Spells(name, scenarioType, digits, suffix) && !Filtered(expected, scenarioType)
  {
    var parts := Split(name, '_');
    var init, last := parts[..|parts| - 2], parts[|parts| - 1];
    digits := parts[|parts| - 2];
    scenarioType, suffix := Join(init, '_'), DropLast(last, 3);
    assert parts == init + [digits, last];
    JoinAround(init, [digits, last], '_');
    assert Join([digits, last], '_') == digits + "_" + last;
    assert name == scenarioType + "_" + digits + "_" + last;
    assert last == suffix + PY by {
      assert |last| == 3 + |suffix|;
      assert last[|last| - 3..] == name[|name| - 3..];
    }
  }

  /** The validator accepts exactly the names with the documented shape. */
  lemma VersionFormatMeansShape(name: string, expected: Option<string>)
    ensures IsVersionFile(name, expected) <==>
            exists t, d, s :: Spells(name, t, d, s) && !Filtered(expected, t)
  {
    if IsVersionFile(name, expected) {
      var t, d, s := AcceptedIsSpelled(name, expected);
    }
    forall t, d, s | Spells(name, t, d, s) && !Filtered(expected, t)
      ensures IsVersionFile(name, expected)
    {
      SpelledIsAccepted(name, t, d, s, expected);
    }
  }

  /** A name has at most one reading, whatever underscores its type contains. */
  lemma ReadingIsUnique(name: string, t: string, d: string, s: string, t': string, d': string, s': string)
    requires Spells(name, t, d, s) && Spells(name, t', d', s')
    ensures t == t' && d == d' && s == s'
  {
    SpelledParts(name, t, d, s);
    SpelledParts(name, t', d', s');
    var parts := Split(name, '_');
    var n := |parts|;
    assert parts[n - 2] == d == d' && parts[n - 1] == s + PY == s' + PY;
    assert s == (s + PY)[..8] && s' == (s' + PY)[..8];
    assert parts[..n - 2] == Split(t, '_') == Split(t', '_');
  }

  /** Printing a version and parsing it back loses nothing, and only its own type claims it. */
  lemma VersionRoundTrip(v: Version, expected: Option<string>)
    requires WellFormed(v)
    ensures IsVersionFile(FileName(v), expected) <==>
            (expected.None? || expected.value == "" || expected.value == v.scenarioType)
    ensures SortKey(FileName(v)) == v.timestamp
  {
    SpelledIsAccepted(FileName(v), v.scenarioType, Decimal(v.timestamp), v.hashSuffix, expected);
    ParseDecimal(v.timestamp);
  }

  /** Two versions never share a name unless they are the same version. */
  lemma FileNameInjective(v: Version, w: Version)
    requires WellFormed(v) && WellFormed(w) && FileName(v) == FileName(w)
    ensures v == w
  {
    ReadingIsUnique(FileName(v), v.scenarioType, Decimal(v.timestamp), v.hashSuffix,
                    w.scenarioType, Decimal(w.timestamp), w.hashSuffix);
    ParseDecimal(v.timestamp);
    ParseDecimal(w.timestamp);
  }

  /** The key `rsplit` sorts by is the timestamp the validator read with `split`. */
  lemma SortKeyIsValidatedTimestamp(name: string, expected: Option<string>)
    requires IsVersionFile(name, expected)
    ensures var parts := Split(name, '_');
            IsDigits(parts[|parts| - 2]) && SortKey(name) == Parse(parts[|parts| - 2])
  {
    hide Split, Join, RSplit;
    RSplitIsTailOfSplit(name, '_', 2);
  }

  /** A directory belongs to a run exactly when it reads `<digits>-<run_uuid>`;
      dashes inside the uuid are harmless because only the first one cuts. */
  lemma ContextFormatMeansShape(name: string, expected: Option<string>)
    ensures IsContextDirectory(name, expected) <==>
            exists d, u :: IsDigits(d) && name == d + ['-'] + u && !Filtered(expected, u)
  {
    if IsContextDirectory(name, expected) {
      var parts := SplitOnce(name, '-');
      assert name == parts[0] + ['-'] + parts[1];
    }
    forall d, u | IsDigits(d) && name == d + ['-'] + u && !Filtered(expected, u)
      ensures IsContextDirectory(name, expected)
    {
      IndexAround(d, u, '-');
      assert name[..|d|] == d && name[|d| + 1..] == u;
    }
  }

  /** A printed context directory decodes to its own run and to no other nonempty one. */
  lemma ContextRoundTrip(timestamp: nat, uuid: string, expected: Option<string>)
    ensures IsContextDirectory(ContextDirectory(timestamp, uuid), expected) <==>
            (expected.None? || expected.value == "" || expected.value == uuid)
    ensures SplitOnce(ContextDirectory(timestamp, uuid), '-') == [Decimal(timestamp), uuid]
  {
    var d := Decimal(timestamp);
    var name := ContextDirectory(timestamp, uuid);
    assert name == d + ['-'] + uuid;
    IndexAround(d, uuid, '-');
    assert name[..|d|] == d && name[|d| + 1..] == uuid;
  }

  /** Once a file carries the `.executed` mark no search can take it for pending. */
  lemma ExecutedIsNeverPending(name: string, expected: Option<string>)
    ensures EndsWith(name + EXECUTED, ".executed") && !IsVersionFile(name + EXECUTED, expected)
  {
    var marked := name + EXECUTED;
    assert marked[|marked| - 3..] != PY by {
      assert marked[|marked| - 3..][2] == 'd';
    }
  }
}
