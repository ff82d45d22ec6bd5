/** Creating, restoring, listing and cleaning up backups, over directories that change in place. */
module BackupObjects {
  import opened Options
  import opened BackupModel
  import opened RetentionModel

  /**
   The entries of the archive of a site, None when there is nothing to back up. `order` is
   the order in which the walk visits the files.
   */
  method Create(s: Site, order: seq<string>) returns (r: Option<seq<Entry>>)
    requires Wellformed(s) && Visits(order, s.files)
    ensures r == if Archive(s, order) == [] then None else Some(Archive(s, order))
    ensures r == None <==> s.config.None? && Kept(s.files) == map[]
    ensures r.Some? ==> forall into :: Restored(into, r.value) == into + Extra(s) + Kept(s.files)
  {
    var entries: seq<Entry> := [];
    var added := false;
    if s.configPath != "" && s.config.Some? {
      entries := entries + [Entry(CONFIG, s.config.value)];
      added := true;
    }
    assert entries == ConfigEntries(s);
    var common := AddCommon(s);
    if common != [] {
      added := true;
    }
    entries := entries + common;
    for n := 0 to |order|
      invariant entries == ConfigEntries(s) + CommonEntries(s, COMMON) + DataEntries(s.files, order[..n])
      invariant added <==> entries != []
    {
      assert order[..n + 1][..n] == order[..n];
      var rel := order[n];
      assert rel in order;
      if HasPrefix(rel, BACKUPS) {
        assert DataEntries(s.files, order[..n]) + [] == DataEntries(s.files, order[..n]);
        continue;
      }
      entries := entries + [Entry(DATA + rel, s.files[rel])];
      added := true;
    }
    assert order[..|order|] == order;
    NothingToBackUp(s, order);
    forall into ensures Restored(into, Archive(s, order)) == into + Extra(s) + Kept(s.files) {
      RestoreAfterCreate(s, order, into);
    }
    if !added {
      return None;
    }
    return Some(entries);
  }

  /** The first common configuration file that exists, skipping the one already added. */
  method AddCommon(s: Site) returns (entries: seq<Entry>)
    ensures entries == CommonEntries(s, COMMON)
  {
    entries := [];
    for n := 0 to |COMMON|
      invariant entries == []
      invariant FirstOffered(s, COMMON) == FirstOffered(s, COMMON[n..])
    {
      assert COMMON[n..][1..] == COMMON[n + 1..];
      var name := COMMON[n];
      if s.dataDir + "/" + name == s.configPath {
        continue;
      }
      if name in s.files {
        entries := entries + [Entry(name, s.files[name])];
        break;
      }
    }
  }

  class Directory {
    var files: map<string, Bytes>

    constructor ()
      ensures files == map[]
    {
      files := map[];
    }

    /**
     `complete` is false when the archive turns out to be unreadable after the given entries;
     `refused` are the targets that the path check turns away, the first of which ends the restore.
     */
    method Restore(entries: seq<Entry>, complete: bool, refused: set<string>) returns (ok: bool)
      modifies this
      ensures files == Restored(old(files), entries[..Accepted(entries, refused)])
      ensures ok <==> complete && forall i | 0 <= i < |entries| :: Target(entries[i].name) !in refused
    {
      ghost var all := Accepted(entries, refused);
      for n := 0 to |entries|
        invariant n <= all
        invariant files == Restored(old(files), entries[..n])
      {
        assert entries[..n + 1][..n] == entries[..n];
        var e := entries[n];
        var target := e.name;
        if e.name == CONFIG {
          target := MAIN;
        } else if HasPrefix(e.name, DATA) {
          target := e.name[|DATA|..];
        }
        if target in refused {
          return false;
        }
        files := files[target := e.content];
      }
      return complete;
    }
  }

  /** Newest first; equally old backups keep the order they came in. */
  method SortNewestFirst(list: seq<Backup>) returns (sorted: seq<Backup>)
    ensures NewestFirst(sorted) && multiset(sorted) == multiset(list)
  {
    sorted := [];
    for n := 0 to |list|
      invariant NewestFirst(sorted) && multiset(sorted) == multiset(list[..n])
    {
      assert list[..n + 1] == list[..n] + [list[n]];
      sorted := Insert(sorted, list[n]);
    }
    assert list[..|list|] == list;
  }

  method Insert(list: seq<Backup>, b: Backup) returns (r: seq<Backup>)
    requires NewestFirst(list)
    ensures NewestFirst(r) && multiset(r) == multiset(list) + multiset{b}
  {
    var at := |list|;
    while at > 0 && list[at - 1].created < b.created
      invariant 0 <= at <= |list|
      invariant forall i | at <= i < |list| :: list[i].created < b.created
    {
      at := at - 1;
    }
    r := list[..at] + [b] + list[at..];
    Inserted(list, at, b);
    InsertedBag(list, at, b);
  }

  lemma InsertedBag(list: seq<Backup>, at: nat, b: Backup)
    requires at <= |list|
    ensures multiset(list[..at] + [b] + list[at..]) == multiset(list) + multiset{b}
  {
    assert list == list[..at] + list[at..];
  }

  lemma Inserted(list: seq<Backup>, at: nat, b: Backup)
    requires NewestFirst(list) && at <= |list|
    requires at > 0 ==> list[at - 1].created >= b.created
    requires forall i | at <= i < |list| :: list[i].created < b.created
    ensures NewestFirst(list[..at] + [b] + list[at..])
  {
    var r := list[..at] + [b] + list[at..];
    forall i, j | 0 <= i < j < |r| ensures r[i].created >= r[j].created {
      var p, q := if i < at then i else i - 1, if j < at then j else j - 1;
      if i == at {
        assert r[j] == list[q];
      } else if j == at {
        assert r[i] == list[p] && (p < at - 1 ==> list[p].created >= list[at - 1].created);
      } else {
        assert r[i] == list[p] && r[j] == list[q];
      }
    }
  }

  ghost predicate SameBackups(files: map<string, File>, list: seq<Backup>, names: seq<string>) {
    && Distinct(Names(list))
    && (forall i | 0 <= i < |list| ::
          && list[i].name in names && IsBackup(files, list[i].name)
          && list[i].created == files[list[i].name].created)
    && (forall name | IsBackup(files, name) && name in names :: name in NameSet(list))
  }

  lemma OneMoreBackup(files: map<string, File>, list: seq<Backup>, names: seq<string>, name: string)
    requires SameBackups(files, list, names) && name !in names
    ensures IsBackup(files, name) ==> SameBackups(files, list + [Backup(name, files[name].created)], names + [name])
    ensures !IsBackup(files, name) ==> SameBackups(files, list, names + [name])
  {
    if IsBackup(files, name) {
      var b := Backup(name, files[name].created);
      var more := list + [b];
      assert forall i | 0 <= i < |list| :: Names(more)[i] == Names(list)[i] == list[i].name;
      forall x | IsBackup(files, x) && x in names + [name] ensures x in NameSet(more) {
        if x == name {
          assert more[|list|] == b;
        } else {
          var i := NameAt(list, x);
          assert more[i] == list[i];
        }
      }
    }
  }

  lemma {:induction false} SortedNames(a: seq<Backup>, b: seq<Backup>)
    requires multiset(a) == multiset(b) && Distinct(Names(a))
    ensures Distinct(Names(b)) && forall x :: x in a <==> x in b
  {
    forall x ensures x in a <==> x in b {
      assert x in multiset(a) <==> x in multiset(b);
    }
    forall i, j | 0 <= i < j < |b| ensures Names(b)[i] != Names(b)[j] {
      if Names(b)[i] == Names(b)[j] {
        assert b[i] in a && b[j] in a;
        var p: nat :| p < |a| && a[p] == b[i];
        var q: nat :| q < |a| && a[q] == b[j];
        SamePlace(a, p, q);
        assert multiset(a)[b[i]] == multiset(b)[b[i]];
        TwiceInList(b, i, j);
        OnceInList(a, p);
        assert false;
      }
    }
  }

  lemma TwiceInList(s: seq<Backup>, i: nat, j: nat)
    requires i < j < |s| && s[i] == s[j]
    ensures multiset(s)[s[i]] >= 2
  {
    assert s == s[..i] + [s[i]] + s[i + 1..j] + [s[j]] + s[j + 1..];
  }

  lemma OnceInList(s: seq<Backup>, p: nat)
    requires Distinct(Names(s)) && p < |s|
    ensures multiset(s)[s[p]] == 1
  {
    assert s == s[..p] + [s[p]] + s[p + 1..];
    if s[p] in s[..p] {
      var q: nat :| q < p && s[..p][q] == s[p];
      SamePlace(s, q, p);
    }
    if s[p] in s[p + 1..] {
      var q: nat :| q < |s| - p - 1 && s[p + 1..][q] == s[p];
      SamePlace(s, p + 1 + q, p);
    }
  }

  class BackupDir {
    var files: map<string, File>

    /** `names` is what reading the directory gives, in whatever order. */
    method List(names: seq<string>) returns (backups: seq<Backup>)
      requires Distinct(names) && forall name :: name in names <==> name in files
      ensures Lists(files, backups)
    {
      var found: seq<Backup> := [];
      for n := 0 to |names|
        invariant SameBackups(files, found, names[..n])
      {
        assert names[..n + 1] == names[..n] + [names[n]];
        var name := names[n];
        assert name in names;
        OneMoreBackup(files, found, names[..n], name);
        if !IsBackup(files, name) {
          continue;
        }
        found := found + [Backup(name, files[name].created)];
      }
      assert names[..|names|] == names;
      backups := SortNewestFirst(found);
      SortedNames(found, backups);
      SortedLists(files, found, backups, names);
    }

    /** Goes through a listing and removes what is condemned in it, but for the files in `stuck`. */
    method RemoveCondemned(list: seq<Backup>, limit: nat, cutoff: int, stuck: set<string>) returns (removed: nat)
      modifies this
      ensures files == Cleaned(old(files), list, limit, cutoff, stuck)
      ensures removed == |Removed(list, |list|, limit, cutoff, stuck)|
    {
      removed := 0;
      assert Without(files, []) == files;
      for i := 0 to |list|
        invariant files == Without(old(files), Removed(list, i, limit, cutoff, stuck))
        invariant removed == |Removed(list, i, limit, cutoff, stuck)|
      {
        OneMoreRemoved(old(files), list, i, limit, cutoff, stuck);
        if i >= limit || list[i].created < cutoff {
          if list[i].name in stuck {
            continue;
          }
          files := files - {list[i].name};
          removed := removed + 1;
        }
      }
    }

    /** Removes from a listing what is beyond the limit or too old, with the defaults for limit and age. */
    method CleanupListed(backups: seq<Backup>, maxKeep: int, maxAge: int, now: int, stuck: set<string>)
      returns (removed: nat)
      modifies this
      ensures files == Cleaned(old(files), backups, KeepLimit(maxKeep), Cutoff(now, maxAge), stuck)
      ensures removed == |Removed(backups, |backups|, KeepLimit(maxKeep), Cutoff(now, maxAge), stuck)|
    {
      var limit, age := maxKeep, maxAge;
      if limit <= 0 {
        limit := MAX_BACKUPS;
      }
      if age <= 0 {
        age := MAX_AGE;
      }
      removed := RemoveCondemned(backups, limit, now - age, stuck);
    }

    /** Lists the backups and removes those beyond the limit or too old; `list` is the listing it went by. */
    method Cleanup(names: seq<string>, maxKeep: int, maxAge: int, now: int, stuck: set<string>)
      returns (removed: nat, ghost list: seq<Backup>)
      requires Distinct(names) && forall name :: name in names <==> name in files
      modifies this
      ensures Lists(old(files), list)
      ensures files == Cleaned(old(files), list, KeepLimit(maxKeep), Cutoff(now, maxAge), stuck)
      ensures removed == |Removed(list, |list|, KeepLimit(maxKeep), Cutoff(now, maxAge), stuck)|
      ensures CleanedUp(old(files), files, maxKeep, maxAge, now, stuck)
    {
      var backups := List(names);
      list := backups;
      removed := CleanupListed(backups, maxKeep, maxAge, now, stuck);
      CleanupMeaning(old(files), list, maxKeep, maxAge, now, stuck);
    }
  }

  lemma SortedLists(files: map<string, File>, found: seq<Backup>, sorted: seq<Backup>, names: seq<string>)
    requires SameBackups(files, found, names) && forall name :: name in names <==> name in files
    requires NewestFirst(sorted) && Distinct(Names(sorted)) && forall x :: x in found <==> x in sorted
    ensures Lists(files, sorted)
  {
    forall i | 0 <= i < |sorted|
      ensures IsBackup(files, sorted[i].name) && sorted[i].created == files[sorted[i].name].created
    {
      assert sorted[i] in found;
    }
    forall name | IsBackup(files, name) ensures name in NameSet(sorted) {
      var i := NameAt(found, name);
      assert found[i] in sorted;
    }
  }

  lemma OneMoreRemoved(files: map<string, File>, list: seq<Backup>, i: nat, limit: nat, cutoff: int, stuck: set<string>)
    requires i < |list|
    ensures var before, after := Removed(list, i, limit, cutoff, stuck), Removed(list, i + 1, limit, cutoff, stuck);
      if (i >= limit || list[i].created < cutoff) && list[i].name !in stuck
      then |after| == |before| + 1 && Without(files, after) == Without(files, before) - {list[i].name}
      else after == before
  {
    var before := Removed(list, i, limit, cutoff, stuck);
    var name := list[i].name;
    assert Without(files, before + [name]) == Without(files, before) - {name};
    assert before + [] == before;
  }
}
