/** Data source names: `driver://rest`, or a bare SQLite path (database/dsn.go). */
module Dsn {

  import opened Prelude

  /** The scheme separator. */
  const Separator: string := "://"

  /** The driver of a DSN that has no scheme. */
  const DefaultDriver: string := "sqlite"

  /** `sep` occurs in `s` starting at index `i`. */
  predicate OccursAt(s: string, sep: string, i: int)
  {
    0 <= i && i + |sep| <= |s| && s[i..i + |sep|] == sep
  }

  /** `strings.Contains(s, sep)`. */
  predicate Contains(s: string, sep: string)
  {
    exists i | 0 <= i <= |s| :: OccursAt(s, sep, i)
  }

  /** `strings.Index(s, sep)` for a non-empty `sep`, searching from `from`: the first index of `sep`. */
  function IndexFrom(s: string, sep: string, from: nat): (r: Option<nat>)
    requires |sep| > 0
    requires from <= |s|
    ensures r.Some? ==> from <= r.value && OccursAt(s, sep, r.value)
    ensures r.Some? ==> forall j :: from <= j < r.value ==> !OccursAt(s, sep, j)
    ensures r.None? ==> forall j :: from <= j ==> !OccursAt(s, sep, j)
    decreases |s| - from
  {
    if from + |sep| > |s| then None
    else if s[from..from + |sep|] == sep then Some(from)
    else IndexFrom(s, sep, from + 1)
  }

  /**
   * ParseDSN: split at the first `://` into driver and the rest;
   * without a `://` the driver is `sqlite` and the DSN is returned unchanged.
   */
  function ParseDSN(dsn: string): (r: (string, string))
    ensures !Contains(dsn, Separator) ==> r == (DefaultDriver, dsn)
    ensures Contains(dsn, Separator) ==>
              dsn == r.0 + Separator + r.1 && !Contains(r.0, Separator)
  {
    match IndexFrom(dsn, Separator, 0)
    case None => (DefaultDriver, dsn)
    case Some(i) =>
      var driver := dsn[..i];
      assert dsn == driver + Separator + dsn[i + 3..];
      assert !Contains(driver, Separator) by {
        forall j | OccursAt(driver, Separator, j) ensures false {
          assert OccursAt(dsn, Separator, j);
        }
      }
      (driver, dsn[i + 3..])
  }

  /** FormatDSN: `driver://dsn`. */
  function FormatDSN(driver: string, dsn: string): (r: string)
    ensures |r| == |driver| + |Separator| + |dsn|
    ensures r[..|driver|] == driver && r[|driver| + |Separator|..] == dsn
    ensures OccursAt(r, Separator, |driver|)
  {
    driver + Separator + dsn
  }

  /**
   * In `driver + "://" + dsn`, when `driver` has no `://` of its own, the first
   * `://` is the one just after the driver: no occurrence starts inside the
   * driver, not even one that overlaps the separator.
   */
  lemma FirstSeparatorAfterDriver(driver: string, dsn: string)
    requires !Contains(driver, Separator)
    ensures IndexFrom(FormatDSN(driver, dsn), Separator, 0) == Some(|driver|)
  {
    var s := FormatDSN(driver, dsn);
    forall j | 0 <= j < |driver| ensures !OccursAt(s, Separator, j) {
      if j + 3 <= |driver| {
        assert s[j..j + 3] == driver[j..j + 3];
        assert !OccursAt(driver, Separator, j);
      } else if j + 3 <= |s| {
        // the window reaches the separator's ':' where it needs a '/'
        assert s[j..j + 3][|driver| - j] == s[|driver|] == ':';
        assert Separator[|driver| - j] == '/';
      }
    }
  }

  /** Parsing a formatted DSN gives back the driver and the DSN, whatever the DSN holds. */
  lemma ParseFormatRoundTrip(driver: string, dsn: string)
    requires !Contains(driver, Separator)
    ensures ParseDSN(FormatDSN(driver, dsn)) == (driver, dsn)
  {
    FirstSeparatorAfterDriver(driver, dsn);
    var s := FormatDSN(driver, dsn);
    assert s[..|driver|] == driver;
    assert s[|driver| + 3..] == dsn;
  }

  /** Formatting a parsed DSN that has a scheme gives back the DSN. */
  lemma FormatParseRoundTrip(dsn: string)
    requires Contains(dsn, Separator)
    ensures FormatDSN(ParseDSN(dsn).0, ParseDSN(dsn).1) == dsn
  {
  }

  /** A DSN without a scheme parses to `sqlite` and itself, and formats with the `sqlite://` scheme. */
  lemma BareDsnGetsSqliteScheme(dsn: string)
    requires !Contains(dsn, Separator)
    ensures ParseDSN(dsn) == ("sqlite", dsn)
    ensures FormatDSN(ParseDSN(dsn).0, ParseDSN(dsn).1) == "sqlite://" + dsn
  {
  }

  /**
   * For every DSN, with or without a scheme: formatting what ParseDSN returns
   * and parsing again gives the same driver and DSN.
   */
  lemma ParseFormatParseStable(dsn: string)
    ensures ParseDSN(FormatDSN(ParseDSN(dsn).0, ParseDSN(dsn).1)) == ParseDSN(dsn)
  {
    if !Contains(dsn, Separator) {
      NoSlashNoSeparator(DefaultDriver);
    }
    ParseFormatRoundTrip(ParseDSN(dsn).0, ParseDSN(dsn).1);
  }

  /** A text without `/` has no `://`. */
  lemma NoSlashNoSeparator(s: string)
    requires forall i :: 0 <= i < |s| ==> s[i] != '/'
    ensures !Contains(s, Separator)
  {
    forall j | 0 <= j <= |s| ensures !OccursAt(s, Separator, j) {
      if j + 3 <= |s| {
        assert Separator[1] == '/';
        assert s[j..j + 3][1] == s[j + 1] != '/';
        assert s[j..j + 3] != Separator;
      }
    }
  }

  /** An example with a scheme, from database/dsn.go and its tests. */
  lemma InMemoryWithSchemeExample()
    ensures FormatDSN("sqlite", ":memory:") == "sqlite://:memory:"
    ensures ParseDSN("sqlite://:memory:") == ("sqlite", ":memory:")
  {
    NoSlashNoSeparator("sqlite");
    ParseFormatRoundTrip("sqlite", ":memory:");
  }

  /** An example with a scheme and colons in the rest, from database/dsn_test.go. */
  lemma ComplexWithSchemeExample()
    ensures FormatDSN("sqlite", "file::memory:?cache=shared") == "sqlite://file::memory:?cache=shared"
    ensures ParseDSN("sqlite://file::memory:?cache=shared") == ("sqlite", "file::memory:?cache=shared")
  {
    var dsn := "file::memory:?cache=shared";
    assert FormatDSN("sqlite", dsn) == "sqlite://file::memory:?cache=shared" by {
      assert |FormatDSN("sqlite", dsn)| == 35;
      forall i | 0 <= i < 35 ensures FormatDSN("sqlite", dsn)[i] == "sqlite://file::memory:?cache=shared"[i] {
        if i < 9 {
          assert FormatDSN("sqlite", dsn)[i] == "sqlite://"[i];
        } else {
          assert FormatDSN("sqlite", dsn)[i] == dsn[i - 9];
        }
      }
    }
    NoSlashNoSeparator("sqlite");
    ParseFormatRoundTrip("sqlite", dsn);
  }

  /** The examples without a scheme, from database/dsn.go and its tests. */
  lemma BareExamples()
    ensures ParseDSN(":memory:") == ("sqlite", ":memory:")
    ensures ParseDSN("file::memory:?cache=shared") == ("sqlite", "file::memory:?cache=shared")
  {
    NoSlashNoSeparator(":memory:");
    NoSlashNoSeparator("file::memory:?cache=shared");
  }
}
