/** The census as it is written to its file: the sets become sorted lists. */
module WrittenCensus {
  import opened TestEvents
  import opened Census
  import opened Listing
  import Text

  datatype Written = Written(
    events: nat,
    nonJSON: nat,
    unterminatedPackages: seq<string>,
    unterminatedTests: seq<Key>,
    packages: map<string, Action>,
    failedPackages: seq<string>,
    namedFailures: seq<Key>,
    packageOnlyFailures: seq<string>,
    passedTests: nat,
    failedTests: nat,
    testExecutions: nat,
    unmetSkips: seq<Key>,
    otherSkips: nat,
    passedPackages: nat,
    skippedPackages: nat,
    builds: map<string, bool>,
    failedBuilds: map<string, string>)

  ghost predicate SameFigures(w: Written, c: Summary) {
    && w.events == c.events && w.nonJSON == c.nonJSON && w.packages == c.packages
    && w.passedTests == c.passedTests && w.failedTests == c.failedTests && w.testExecutions == c.testExecutions
    && w.unmetSkips == c.unmetSkips && w.otherSkips == c.otherSkips
    && w.passedPackages == c.passedPackages && w.skippedPackages == c.skippedPackages
    && w.builds == c.builds && w.failedBuilds == c.failedBuilds
  }

  /** The written form of a census: the same figures, the sets as sorted lists. */
  ghost predicate Writes(w: Written, c: Summary) {
    && SameFigures(w, c)
    && Lists(w.unterminatedPackages, c.unterminatedPackages, Text.Before)
    && Lists(w.unterminatedTests, c.unterminatedTests, Text.PairBefore)
    && Lists(w.failedPackages, c.failedPackages, Text.Before)
    && Lists(w.namedFailures, c.namedFailures, Text.PairBefore)
    && Lists(w.packageOnlyFailures, c.packageOnlyFailures, Text.Before)
  }

  method WriteOut(c: Summary) returns (w: Written)
    ensures Writes(w, c)
  {
    Text.NamesAreOrdered();
    var openPackages := SortedListing(c.unterminatedPackages, Text.Before);
    var openTests := SortedListing(c.unterminatedTests, Text.PairBefore);
    var failedPackages := SortedListing(c.failedPackages, Text.Before);
    var named := SortedListing(c.namedFailures, Text.PairBefore);
    var packageOnly := SortedListing(c.packageOnlyFailures, Text.Before);
    w := Written(c.events, c.nonJSON, openPackages, openTests, c.packages, failedPackages, named, packageOnly,
                 c.passedTests, c.failedTests, c.testExecutions, c.unmetSkips, c.otherSkips,
                 c.passedPackages, c.skippedPackages, c.builds, c.failedBuilds);
  }

  /** Two censuses are written alike exactly when they are the same. */
  lemma WrittenAlikeExactly(w: Written, x: Written, c: Summary, d: Summary)
    requires Writes(w, c) && Writes(x, d)
    ensures w == x <==> c == d
  {
    Text.NamesAreOrdered();
    ListingsTellTheSets(w.unterminatedPackages, x.unterminatedPackages,
                        c.unterminatedPackages, d.unterminatedPackages, Text.Before);
    ListingsTellTheSets(w.unterminatedTests, x.unterminatedTests,
                        c.unterminatedTests, d.unterminatedTests, Text.PairBefore);
    ListingsTellTheSets(w.failedPackages, x.failedPackages, c.failedPackages, d.failedPackages, Text.Before);
    ListingsTellTheSets(w.namedFailures, x.namedFailures, c.namedFailures, d.namedFailures, Text.PairBefore);
    ListingsTellTheSets(w.packageOnlyFailures, x.packageOnlyFailures,
                        c.packageOnlyFailures, d.packageOnlyFailures, Text.Before);
  }
}
