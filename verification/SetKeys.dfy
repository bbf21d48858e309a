/** The object keys of a backup set. */
module SetKeys {

  /** A set's moment as it is written into keys, and its id in hex: fixed-width texts. */
  datatype Moment = Moment(day: string, stamp: string)

  predicate IsDigit(c: char) {
    '0' <= c <= '9'
  }

  /** `%Y/%m/%d` and `%Y%m%dT%H%M%SZ` of a four-digit year. */
  predicate WellFormed(m: Moment) {
    |m.day| == 10 && IsDigit(m.day[0]) && |m.stamp| == 16
  }

  function SetRoot(prefix: string, m: Moment, hex: string): string {
    prefix + "/" + m.day + "/" + m.stamp + "-" + hex
  }

  function GlobalsKey(prefix: string, m: Moment, hex: string): string {
    SetRoot(prefix, m, hex) + "/globals.sql.gz.enc"
  }

  function DumpKey(prefix: string, m: Moment, hex: string, database: string, driver: string, compressed: bool): string {
    SetRoot(prefix, m, hex) + "/" + database + "." + driver + (if compressed then ".dump" else ".dump.gz") + ".enc"
  }

  function ManifestKey(prefix: string, hex: string): string {
    prefix + "/manifests/" + hex + ".json.enc"
  }

  /** Any key the set writes: under its root, or its manifest. */
  ghost predicate IsKeyOf(key: string, prefix: string, hex: string) {
    || (exists m: Moment, rest: string :: WellFormed(m) && key == SetRoot(prefix, m, hex) + "/" + rest)
    || key == ManifestKey(prefix, hex)
  }

  lemma SetKeysAreItsOwn(prefix: string, m: Moment, hex: string, database: string, driver: string, compressed: bool)
    requires WellFormed(m)
    ensures IsKeyOf(GlobalsKey(prefix, m, hex), prefix, hex)
    ensures IsKeyOf(DumpKey(prefix, m, hex, database, driver, compressed), prefix, hex)
    ensures IsKeyOf(ManifestKey(prefix, hex), prefix, hex)
  {
    var root := SetRoot(prefix, m, hex);
    assert GlobalsKey(prefix, m, hex) == root + "/" + "globals.sql.gz.enc";
    DumpKeyEnds(prefix, m, hex, database, driver, compressed);
    DumpKeyNames(root, database, driver, DumpEnding(compressed));
  }

  lemma TailAt(head: string, tail: string, k: nat)
    requires k < |tail|
    ensures (head + tail)[|head + tail| - 1 - k] == tail[|tail| - 1 - k]
  {
  }

  /** The fifth or eighth letter from the end tells a dump's key from the globals'. */
  lemma NotGlobals(root: string, name: string, compressed: bool)
    ensures name + DumpEnding(compressed) != root + "/globals.sql.gz.enc"
  {
    var k := if compressed then 4 else 7;
    TailAt(name, DumpEnding(compressed), k);
    TailAt(root, "/globals.sql.gz.enc", k);
  }

  lemma SameMiddle(root: string, a: string, b: string, tail: string)
    requires root + a + tail == root + b + tail
    ensures a == b
  {
    assert (root + a + tail)[|root|..|root| + |a|] == a;
    assert (root + b + tail)[|root|..|root| + |b|] == b;
  }

  function DumpEnding(compressed: bool): string {
    if compressed then ".dump.enc" else ".dump.gz.enc"
  }

  lemma DumpKeyEnds(prefix: string, m: Moment, hex: string, database: string, driver: string, compressed: bool)
    ensures DumpKey(prefix, m, hex, database, driver, compressed)
         == (SetRoot(prefix, m, hex) + "/" + database + "." + driver) + DumpEnding(compressed)
  {
    var name, suffix := SetRoot(prefix, m, hex) + "/" + database + "." + driver, if compressed then ".dump" else ".dump.gz";
    assert (name + suffix) + ".enc" == name + (suffix + ".enc");
    assert suffix + ".enc" == DumpEnding(compressed);
  }

  lemma DumpKeyNames(root: string, database: string, driver: string, ending: string)
    ensures (root + "/" + database + "." + driver) + ending == (root + "/") + database + ("." + driver + ending)
    ensures (root + "/" + database + "." + driver) + ending == (root + "/") + (database + "." + driver + ending)
  {
  }

  /** A dump never overwrites the globals, the manifest, or the dump of another database. */
  lemma DumpsKeepApart(prefix: string, m: Moment, hex: string, driver: string, compressed: bool, a: string, b: string)
    requires WellFormed(m) && |hex| == 32
    ensures DumpKey(prefix, m, hex, a, driver, compressed) != GlobalsKey(prefix, m, hex)
    ensures DumpKey(prefix, m, hex, a, driver, compressed) != ManifestKey(prefix, hex)
    ensures DumpKey(prefix, m, hex, a, driver, compressed) == DumpKey(prefix, m, hex, b, driver, compressed) ==> a == b
  {
    var root, ending := SetRoot(prefix, m, hex), DumpEnding(compressed);
    DumpKeyEnds(prefix, m, hex, a, driver, compressed);
    DumpKeyEnds(prefix, m, hex, b, driver, compressed);
    DumpKeyNames(root, a, driver, ending);
    DumpKeyNames(root, b, driver, ending);
    NotGlobals(root, root + "/" + a + "." + driver, compressed);
    if DumpKey(prefix, m, hex, a, driver, compressed) == DumpKey(prefix, m, hex, b, driver, compressed) {
      SameMiddle(root + "/", a, b, "." + driver + ending);
    }
    IdUnderRoot(prefix, m, hex, a + "." + driver + ending);
    IdInManifestKey(prefix, hex);
  }

  /** Where the id sits in a key under a set's root. */
  lemma IdUnderRoot(prefix: string, m: Moment, hex: string, rest: string)
    requires WellFormed(m) && |hex| == 32
    ensures var key := SetRoot(prefix, m, hex) + "/" + rest;
      && |key| >= |prefix| + 61
      && key[|prefix| + 29..|prefix| + 61] == hex
      && key[|prefix| + 1] == m.day[0]
  {
    var head := prefix + "/" + m.day + "/" + m.stamp + "-";
    assert |head| == |prefix| + 29;
    var key := SetRoot(prefix, m, hex) + "/" + rest;
    assert key == head + hex + "/" + rest;
    assert key[|prefix| + 1] == head[|prefix| + 1];
  }

  lemma IdInManifestKey(prefix: string, hex: string)
    requires |hex| == 32
    ensures var key := ManifestKey(prefix, hex);
      && |key| >= |prefix| + 43 && key[|prefix| + 11..|prefix| + 43] == hex && key[|prefix| + 1] == 'm'
  {
    var head := prefix + "/manifests/";
    assert ManifestKey(prefix, hex) == head + hex + ".json.enc";
    assert |head| == |prefix| + 11;
  }

  /** Sets with different ids never share a key, whatever their moments, databases and drivers:
      the whole id is in every key, at a fixed place. */
  lemma DifferentSetsShareNoKey(key: string, prefix: string, hex: string, other: string)
    requires |hex| == 32 && |other| == 32
    requires IsKeyOf(key, prefix, hex) && IsKeyOf(key, prefix, other)
    ensures hex == other
  {
    if key == ManifestKey(prefix, hex) {
      IdInManifestKey(prefix, hex);
      if key != ManifestKey(prefix, other) { UnderRoot(key, prefix, other); }
      IdInManifestKey(prefix, other);
    } else {
      UnderRoot(key, prefix, hex);
      if key == ManifestKey(prefix, other) { IdInManifestKey(prefix, other); } else { UnderRoot(key, prefix, other); }
    }
  }

  lemma UnderRoot(key: string, prefix: string, hex: string)
    requires |hex| == 32 && IsKeyOf(key, prefix, hex) && key != ManifestKey(prefix, hex)
    ensures |key| >= |prefix| + 61 && key[|prefix| + 29..|prefix| + 61] == hex && IsDigit(key[|prefix| + 1])
  {
    var m: Moment, rest: string :| WellFormed(m) && key == SetRoot(prefix, m, hex) + "/" + rest;
    IdUnderRoot(prefix, m, hex, rest);
  }
}
