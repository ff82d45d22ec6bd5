/**
 Backup and restore on values: a data directory is a map from relative paths to contents,
 an archive a list of named entries in the order in which they were added.
 */
module BackupModel {
  import opened Options

  type Bytes = seq<nat>

  datatype Entry = Entry(name: string, content: Bytes)

  const BACKUPS := "backups/"
  const DATA := "data/"
  const MAIN := "remotty.yaml"
  const CONFIG := "config.yaml"
  const SHORT := "remotty.yml"
  const COMMON := [MAIN, CONFIG, SHORT]

  /** Where a backup is taken: the data directory, its files, the configuration path and what is found there. */
  datatype Site = Site(dataDir: string, files: map<string, Bytes>, configPath: string, config: Option<Bytes>)

  /** An empty configuration path names no file. */
  ghost predicate Wellformed(s: Site) {
    s.configPath == "" ==> s.config == None
  }

  predicate HasPrefix(s: string, prefix: string) {
    |prefix| <= |s| && s[..|prefix|] == prefix
  }

  function Get(files: map<string, Bytes>, name: string): Option<Bytes> {
    if name in files then Some(files[name]) else None
  }

  /** The order in which a walk visits the files: each once. */
  ghost predicate Visits(order: seq<string>, files: map<string, Bytes>) {
    && (forall p :: p in order <==> p in files)
    && (forall i, j | 0 <= i < j < |order| :: order[i] != order[j])
  }

  // ---- Creating ----

  function ConfigEntries(s: Site): seq<Entry> {
    if s.config.Some? then [Entry(CONFIG, s.config.value)] else []
  }

  /** A common configuration file that exists and is not the one already added. */
  predicate Offered(s: Site, name: string) {
    s.dataDir + "/" + name != s.configPath && name in s.files
  }

  function FirstOffered(s: Site, names: seq<string>): Option<string> {
    if names == [] then None
    else if Offered(s, names[0]) then Some(names[0])
    else FirstOffered(s, names[1..])
  }

  function CommonEntries(s: Site, names: seq<string>): seq<Entry>
  {
    var f := FirstOffered(s, names);
    if f.Some? && f.value in s.files then [Entry(f.value, s.files[f.value])] else []
  }

  function DataEntries(files: map<string, Bytes>, order: seq<string>): seq<Entry> {
    if order == [] then []
    else
      var p := order[|order| - 1];
      DataEntries(files, order[..|order| - 1])
      + if p in files && !HasPrefix(p, BACKUPS) then [Entry(DATA + p, files[p])] else []
  }

  function Archive(s: Site, order: seq<string>): seq<Entry> {
    ConfigEntries(s) + CommonEntries(s, COMMON) + DataEntries(s.files, order)
  }

  // ---- Restoring ----

  function Target(name: string): string {
    if name == CONFIG then MAIN
    else if HasPrefix(name, DATA) then name[|DATA|..]
    else name
  }

  function Restored(into: map<string, Bytes>, entries: seq<Entry>): map<string, Bytes> {
    if entries == [] then into
    else
      var e := entries[|entries| - 1];
      Restored(into, entries[..|entries| - 1])[Target(e.name) := e.content]
  }

  /** How many entries come before the first whose target is refused. */
  function Accepted(entries: seq<Entry>, refused: set<string>): (n: nat)
    ensures n <= |entries|
    ensures forall i | 0 <= i < n :: Target(entries[i].name) !in refused
    ensures n < |entries| ==> Target(entries[n].name) in refused
  {
    if entries == [] || Target(entries[0].name) in refused then 0 else 1 + Accepted(entries[1..], refused)
  }

  lemma {:induction false} RestoredConcat(into: map<string, Bytes>, a: seq<Entry>, b: seq<Entry>)
    ensures Restored(into, a + b) == Restored(Restored(into, a), b)
  {
    if b == [] {
      assert a + b == a;
    } else {
      var n := |b| - 1;
      assert (a + b)[..|a + b| - 1] == a + b[..n];
      RestoredConcat(into, a, b[..n]);
    }
  }

  /** What a backup keeps of the data directory. */
  function Kept(files: map<string, Bytes>): map<string, Bytes> {
    map p | p in files && !HasPrefix(p, BACKUPS) :: files[p]
  }

  lemma DataTarget(p: string)
    ensures Target(DATA + p) == p
  {
    assert (DATA + p)[0] == 'd';
    assert (DATA + p)[..|DATA|] == DATA && (DATA + p)[|DATA|..] == p;
  }

  /** The kept files among those visited. */
  function Picked(files: map<string, Bytes>, order: seq<string>): map<string, Bytes> {
    map p | p in order && p in Kept(files) :: files[p]
  }

  lemma OneMore(files: map<string, Bytes>, order: seq<string>, p: string)
    ensures Picked(files, order + [p]) == if p in Kept(files) then Picked(files, order)[p := files[p]]
              else Picked(files, order)
  {
    assert forall q :: q in order + [p] <==> q in order || q == p;
  }

  lemma LayOver(into: map<string, Bytes>, over: map<string, Bytes>, p: string, v: Bytes)
    ensures (into + over)[p := v] == into + over[p := v]
  {
  }

  lemma {:induction false} RestoredData(into: map<string, Bytes>, files: map<string, Bytes>, order: seq<string>)
    ensures Restored(into, DataEntries(files, order)) == into + Picked(files, order)
  {
    if order == [] {
      assert Picked(files, order) == map[];
    } else {
      var n := |order| - 1;
      var p := order[n];
      var before := DataEntries(files, order[..n]);
      RestoredData(into, files, order[..n]);
      assert order == order[..n] + [p];
      OneMore(files, order[..n], p);
      if p in Kept(files) {
        RestoredConcat(into, before, [Entry(DATA + p, files[p])]);
        RestoredOne(Restored(into, before), [Entry(DATA + p, files[p])]);
        DataTarget(p);
        LayOver(into, Picked(files, order[..n]), p, files[p]);
      } else {
        assert before + [] == before;
      }
    }
  }

  /** Restoring the data entries lays the kept files over what was there. */
  lemma DataWins(into: map<string, Bytes>, files: map<string, Bytes>, order: seq<string>)
    requires Visits(order, files)
    ensures Restored(into, DataEntries(files, order)) == into + Kept(files)
  {
    RestoredData(into, files, order);
    assert Picked(files, order) == Kept(files);
  }

  /**
   The one file a restore may add: remotty.yaml, when the data directory has none. It is
   the data directory's own config.yaml, if that is not the configuration path itself,
   and otherwise the configuration file.
   */
  function Extra(s: Site): map<string, Bytes> {
    if MAIN in s.files then map[]
    else if CONFIG in s.files && s.dataDir + "/" + CONFIG != s.configPath then
      map[MAIN := s.files[CONFIG]]
    else if s.config.Some? then map[MAIN := s.config.value]
    else map[]
  }

  lemma PlainNames()
    ensures Target(CONFIG) == MAIN && Target(MAIN) == MAIN && Target(SHORT) == SHORT
    ensures !HasPrefix(MAIN, BACKUPS) && !HasPrefix(SHORT, BACKUPS) && !HasPrefix(CONFIG, BACKUPS)
    ensures MAIN != CONFIG && SHORT != MAIN && SHORT != CONFIG
  {
    assert MAIN[0] == 'r' && SHORT[0] == 'r' && CONFIG[0] == 'c' && DATA[0] == 'd' && BACKUPS[0] == 'b';
    assert |MAIN| != |SHORT|;
  }

  lemma FirstOfCommon(s: Site)
    ensures FirstOffered(s, COMMON)
            == if Offered(s, MAIN) then Some(MAIN)
               else if Offered(s, CONFIG) then Some(CONFIG)
               else if Offered(s, SHORT) then Some(SHORT)
               else None
  {
    var c1, c2, c3 := [CONFIG, SHORT], [SHORT], [];
    assert COMMON[0] == MAIN && COMMON[1..] == c1;
    assert c1[0] == CONFIG && c1[1..] == c2;
    assert c2[0] == SHORT && c2[1..] == c3;
    assert FirstOffered(s, c3) == None;
    assert FirstOffered(s, c2) == if Offered(s, SHORT) then Some(SHORT) else None;
  }

  lemma Covered(m: map<string, Bytes>, p: string, v: Bytes, over: map<string, Bytes>)
    requires p in over
    ensures m[p := v] + over == m + over
  {
  }

  /** What the configuration entry writes. */
  function WithConfig(s: Site, into: map<string, Bytes>): map<string, Bytes> {
    if s.config.Some? then into[MAIN := s.config.value] else into
  }

  /** What the entry of the first common file writes. */
  function WithCommon(s: Site, into: map<string, Bytes>): map<string, Bytes> {
    if Offered(s, MAIN) then into[MAIN := s.files[MAIN]]
    else if Offered(s, CONFIG) then into[MAIN := s.files[CONFIG]]
    else if Offered(s, SHORT) then into[SHORT := s.files[SHORT]]
    else into
  }

  lemma EarlyWrites(s: Site, into: map<string, Bytes>)
    ensures Restored(into, ConfigEntries(s) + CommonEntries(s, COMMON)) == WithCommon(s, WithConfig(s, into))
  {
    PlainNames();
    FirstOfCommon(s);
    var a, b := ConfigEntries(s), CommonEntries(s, COMMON);
    RestoredConcat(into, a, b);
    RestoredOne(into, a);
    RestoredOne(WithConfig(s, into), b);
  }

  lemma EarlyCovered(s: Site, into: map<string, Bytes>)
    requires MAIN in s.files
    ensures WithCommon(s, WithConfig(s, into)) + Kept(s.files) == into + Kept(s.files)
  {
    PlainNames();
    var kept := Kept(s.files);
    var m := WithConfig(s, into);
    assert MAIN in kept && (SHORT in s.files ==> SHORT in kept);
    assert m + kept == into + kept;
    assert WithCommon(s, m) + kept == m + kept;
  }

  lemma EarlyExtra(s: Site, into: map<string, Bytes>)
    requires MAIN !in s.files
    ensures WithCommon(s, WithConfig(s, into)) + Kept(s.files) == into + Extra(s) + Kept(s.files)
  {
    PlainNames();
    var m := WithConfig(s, into);
    if Offered(s, CONFIG) {
      assert m[MAIN := s.files[CONFIG]] == into + Extra(s);
    } else {
      assert m == into + Extra(s);
      if Offered(s, SHORT) {
        Covered(m, SHORT, s.files[SHORT], Kept(s.files));
      }
    }
  }

  /** Before the data entries, a restore writes at most remotty.yaml and files that the data entries write again. */
  lemma EarlyEntries(s: Site, into: map<string, Bytes>)
    ensures Restored(into, ConfigEntries(s) + CommonEntries(s, COMMON)) + Kept(s.files)
              == into + Extra(s) + Kept(s.files)
  {
    EarlyWrites(s, into);
    if MAIN in s.files {
      EarlyCovered(s, into);
      assert into + map[] == into;
    } else {
      EarlyExtra(s, into);
    }
  }

  lemma RestoredOne(into: map<string, Bytes>, a: seq<Entry>)
    requires |a| <= 1
    ensures Restored(into, a) == if a == [] then into else into[Target(a[0].name) := a[0].content]
  {
    if a != [] {
      assert a[..0] == [];
    }
  }

  /**
   Restoring a backup, into any directory, lays over it exactly the data directory without
   its backups, and under that at most one extra file.
   */
  lemma RestoreAfterCreate(s: Site, order: seq<string>, into: map<string, Bytes>)
    requires Visits(order, s.files)
    ensures Restored(into, Archive(s, order)) == into + Extra(s) + Kept(s.files)
  {
    var early := ConfigEntries(s) + CommonEntries(s, COMMON);
    RestoredConcat(into, early, DataEntries(s.files, order));
    DataWins(Restored(into, early), s.files, order);
    EarlyEntries(s, into);
  }

  /** So into an empty directory it gives the data directory without its backups exactly when no extra file applies. */
  lemma RestoreIsExact(s: Site, order: seq<string>)
    requires Visits(order, s.files)
    ensures Restored(map[], Archive(s, order)) == Kept(s.files)
            <==> (|| MAIN in s.files
                  || (s.config.None? && (CONFIG in s.files ==> s.dataDir + "/" + CONFIG == s.configPath)))
  {
    RestoreAfterCreate(s, order, map[]);
    if MAIN in Extra(s) {
      assert MAIN in map[] + Extra(s) + Kept(s.files) && MAIN !in Kept(s.files);
    } else {
      assert Extra(s) == map[];
      assert map[] + Extra(s) + Kept(s.files) == Kept(s.files);
    }
  }

  lemma KeptOfRestored(s: Site)
    ensures var files := map[] + Extra(s) + Kept(s.files);
      Kept(files) == files && Extra(s.(files := files)) == map[]
  {
    PlainNames();
    var files := map[] + Extra(s) + Kept(s.files);
    assert forall p | p in files :: !HasPrefix(p, BACKUPS);
    assert Kept(files) == files;
    if MAIN !in s.files {
      assert Extra(s) == map[] ==> files == Kept(s.files);
      assert CONFIG in files <==> CONFIG in s.files;
    }
  }

  /** Backing up and restoring what was restored, with the same configuration, changes nothing more. */
  lemma SecondRoundTripIsExact(s: Site, order: seq<string>, again: seq<string>)
    requires Visits(order, s.files)
    requires Visits(again, Restored(map[], Archive(s, order)))
    ensures var files := Restored(map[], Archive(s, order));
      Restored(map[], Archive(s.(files := files), again)) == files
  {
    RestoreAfterCreate(s, order, map[]);
    var files := Restored(map[], Archive(s, order));
    RestoreAfterCreate(s.(files := files), again, map[]);
    KeptOfRestored(s);
    assert map[] + map[] + files == files;
  }

  /** There is nothing to back up exactly when there is no configuration file and no file outside the backups. */
  lemma NothingToBackUp(s: Site, order: seq<string>)
    requires Visits(order, s.files)
    ensures Archive(s, order) == [] <==> s.config.None? && Kept(s.files) == map[]
  {
    RestoreAfterCreate(s, order, map[]);
    if Archive(s, order) == [] {
      assert ConfigEntries(s) == [];
      assert map[] + Extra(s) + Kept(s.files) == map[];
      assert Kept(s.files).Keys == {};
    } else if s.config.None? && Kept(s.files) == map[] {
      PlainNames();
      forall p | p in s.files ensures HasPrefix(p, BACKUPS) {
        assert p !in Kept(s.files);
      }
      FirstOfCommon(s);
      NoDataEntries(s.files, order);
      assert false;
    }
  }

  lemma {:induction false} NoDataEntries(files: map<string, Bytes>, order: seq<string>)
    requires forall p | p in files :: HasPrefix(p, BACKUPS)
    ensures DataEntries(files, order) == []
  {
    if order != [] {
      NoDataEntries(files, order[..|order| - 1]);
    }
  }

  // ---- In terms of the directory alone ----

  lemma StartsWith(p: string, prefix: string)
    ensures HasPrefix(p, prefix) <==> exists x: string :: p == prefix + x
  {
    if HasPrefix(p, prefix) {
      assert p == prefix + p[|prefix|..];
    }
  }

  /**
   What a restore of a backup leaves at a path of an empty directory: the file of the data
   directory, unless it is under backups/; and at remotty.yaml, when there is none, the data
   directory's config.yaml unless it is the configuration file, and else the configuration.
   */
  lemma RestoredAt(s: Site, order: seq<string>, p: string)
    requires Visits(order, s.files)
    ensures var r := Get(Restored(map[], Archive(s, order)), p);
      if p in s.files && !(exists x: string :: p == "backups/" + x) then r == Some(s.files[p])
      else if p != "remotty.yaml" then r == None
      else if "config.yaml" in s.files && s.dataDir + "/" + "config.yaml" != s.configPath
      then r == Some(s.files["config.yaml"])
      else r == s.config
  {
    RestoreAfterCreate(s, order, map[]);
    StartsWith(p, BACKUPS);
    PlainNames();
    StartsWith(MAIN, BACKUPS);
  }

  /** The archive names the configuration config.yaml and puts each kept file under data/. */
  lemma {:induction false} ArchiveNames(s: Site, order: seq<string>, p: string)
    ensures s.config.Some? ==> Archive(s, order) != [] && Archive(s, order)[0] == Entry("config.yaml", s.config.value)
    ensures p in order && p in s.files && !(exists x: string :: p == "backups/" + x) ==>
              Entry("data/" + p, s.files[p]) in Archive(s, order)
  {
    StartsWith(p, BACKUPS);
    if p in order && p in s.files && !HasPrefix(p, BACKUPS) {
      DataEntryIn(s.files, order, p);
    }
  }

  /**
   Beside the configuration, the archive holds one common file under its own name: the first of
   remotty.yaml, config.yaml and remotty.yml that exists and is not the configuration itself.
   */
  lemma CommonFile(s: Site, order: seq<string>)
    ensures var yaml := "remotty.yaml" in s.files && s.dataDir + "/" + "remotty.yaml" != s.configPath;
      var config := "config.yaml" in s.files && s.dataDir + "/" + "config.yaml" != s.configPath;
      var yml := "remotty.yml" in s.files && s.dataDir + "/" + "remotty.yml" != s.configPath;
      && (yaml ==> Entry("remotty.yaml", s.files["remotty.yaml"]) in Archive(s, order))
      && (!yaml && config ==> Entry("config.yaml", s.files["config.yaml"]) in Archive(s, order))
      && (!yaml && !config && yml ==> Entry("remotty.yml", s.files["remotty.yml"]) in Archive(s, order))
  {
    FirstOfCommon(s);
    var b := CommonEntries(s, COMMON);
    assert b != [] ==> b[0] in b && b[0] in Archive(s, order);
  }

  lemma {:induction false} DataEntryIn(files: map<string, Bytes>, order: seq<string>, p: string)
    requires p in order && p in files && !HasPrefix(p, BACKUPS)
    ensures Entry(DATA + p, files[p]) in DataEntries(files, order)
  {
    var n := |order| - 1;
    assert order == order[..n] + [order[n]];
    if order[n] != p {
      DataEntryIn(files, order[..n], p);
    }
  }
}
