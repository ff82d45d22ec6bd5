/** Retention of backups on values: which files of the backup directory are listed, and which of those are removed. */
module RetentionModel {
  import opened Numbers

  /** A directory entry; times in nanoseconds. */
  datatype File = File(isDir: bool, created: int)

  datatype Backup = Backup(name: string, created: int)

  const PREFIX := "remotty_backup_"
  const SUFFIX := ".tar.gz"
  const MAX_BACKUPS: nat := 10
  const MAX_AGE: nat := 30 * 24 * 3600 * 1_000_000_000

  predicate IsBackup(files: map<string, File>, name: string) {
    && name in files && !files[name].isDir
    && |PREFIX| <= |name| && name[..|PREFIX|] == PREFIX
    && |SUFFIX| <= |name| && name[|name| - |SUFFIX|..] == SUFFIX
  }

  ghost predicate Distinct(s: seq<string>) {
    forall i, j | 0 <= i < j < |s| :: s[i] != s[j]
  }

  ghost predicate NewestFirst(list: seq<Backup>) {
    forall i, j | 0 <= i < j < |list| :: list[i].created >= list[j].created
  }

  function Names(list: seq<Backup>): seq<string> {
    seq(|list|, i requires 0 <= i < |list| => list[i].name)
  }

  function NameSet(list: seq<Backup>): set<string> {
    set b | b in list :: b.name
  }

  /** A listing names each backup of the directory once, newest first; equally old ones in any order. */
  ghost predicate Lists(files: map<string, File>, list: seq<Backup>) {
    && NewestFirst(list) && Distinct(Names(list))
    && (forall i | 0 <= i < |list| :: IsBackup(files, list[i].name) && list[i].created == files[list[i].name].created)
    && (forall name | IsBackup(files, name) :: name in NameSet(list))
  }

  function KeepLimit(maxKeep: int): nat {
    if maxKeep <= 0 then MAX_BACKUPS else maxKeep
  }

  function Cutoff(now: int, maxAge: int): int {
    now - (if maxAge <= 0 then MAX_AGE else maxAge)
  }

  /** Whether the backup at place i of the listing is to go. */
  predicate Condemned(list: seq<Backup>, i: nat, limit: nat, cutoff: int)
    requires i < |list|
  {
    i >= limit || list[i].created < cutoff
  }

  /** The names removed among the first n of the listing, when those in `stuck` cannot be. */
  function Removed(list: seq<Backup>, n: nat, limit: nat, cutoff: int, stuck: set<string>): seq<string>
    requires n <= |list|
  {
    if n == 0 then []
    else
      Removed(list, n - 1, limit, cutoff, stuck)
      + if Condemned(list, n - 1, limit, cutoff) && list[n - 1].name !in stuck then [list[n - 1].name] else []
  }

  function Without(files: map<string, File>, names: seq<string>): map<string, File> {
    map name | name in files && name !in names :: files[name]
  }

  // ---- The survivors ----

  /** How long the prefix is that is neither too long nor too old. */
  function KeepCount(list: seq<Backup>, limit: nat, cutoff: int): (k: nat)
    ensures k <= |list|
  {
    if list == [] || limit == 0 || list[0].created < cutoff then 0
    else 1 + KeepCount(list[1..], limit - 1, cutoff)
  }

  /** In a list that is newest first, exactly the entries from that prefix on are condemned. */
  lemma {:induction false} CondemnedIsASuffix(list: seq<Backup>, limit: nat, cutoff: int, i: nat)
    requires NewestFirst(list) && i < |list|
    ensures Condemned(list, i, limit, cutoff) <==> i >= KeepCount(list, limit, cutoff)
    decreases |list|
  {
    if limit > 0 && list[0].created >= cutoff && i > 0 {
      CondemnedIsASuffix(list[1..], limit - 1, cutoff, i - 1);
    }
  }

  lemma {:induction false} RemovedMeaning(list: seq<Backup>, n: nat, limit: nat, cutoff: int, stuck: set<string>,
                                          name: string)
    requires n <= |list|
    ensures name in Removed(list, n, limit, cutoff, stuck)
            <==> exists i: nat :: i < n && list[i].name == name && Condemned(list, i, limit, cutoff) && name !in stuck
  {
    if n > 0 {
      RemovedMeaning(list, n - 1, limit, cutoff, stuck, name);
      if name == list[n - 1].name && Condemned(list, n - 1, limit, cutoff) && name !in stuck {
        assert name in Removed(list, n, limit, cutoff, stuck);
      }
    }
  }

  lemma {:induction false} RemovedCount(list: seq<Backup>, n: nat, limit: nat, cutoff: int)
    requires n <= |list| && NewestFirst(list)
    ensures |Removed(list, n, limit, cutoff, {})| == Max(0, n - KeepCount(list, limit, cutoff))
  {
    if n > 0 {
      RemovedCount(list, n - 1, limit, cutoff);
      CondemnedIsASuffix(list, limit, cutoff, n - 1);
    }
  }

  /** The directory after a cleanup over a listing of it. */
  function Cleaned(files: map<string, File>, list: seq<Backup>, limit: nat, cutoff: int, stuck: set<string>)
    : map<string, File> {
    Without(files, Removed(list, |list|, limit, cutoff, stuck))
  }

  lemma NameAt(list: seq<Backup>, name: string) returns (i: nat)
    requires name in NameSet(list)
    ensures i < |list| && list[i].name == name
  {
    var b :| b in list && b.name == name;
    i :| i < |list| && list[i] == b;
  }

  lemma SamePlace(list: seq<Backup>, i: nat, j: nat)
    requires Distinct(Names(list)) && i < |list| && j < |list| && list[i].name == list[j].name
    ensures i == j
  {
    assert Names(list)[i] == list[i].name && Names(list)[j] == list[j].name;
  }

  /** A name of the listing survives exactly when it lies in the kept prefix, unless its removal failed. */
  lemma SurvivesIff(files: map<string, File>, list: seq<Backup>, limit: nat, cutoff: int, stuck: set<string>, i: nat)
    requires Lists(files, list) && i < |list|
    ensures list[i].name in Cleaned(files, list, limit, cutoff, stuck)
            <==> i < KeepCount(list, limit, cutoff) || list[i].name in stuck
  {
    var name := list[i].name;
    RemovedMeaning(list, |list|, limit, cutoff, stuck, name);
    CondemnedIsASuffix(list, limit, cutoff, i);
    forall j: nat | j < |list| && list[j].name == name ensures j == i {
      SamePlace(list, i, j);
    }
  }

  lemma KeptBounds(list: seq<Backup>, limit: nat, cutoff: int)
    requires NewestFirst(list)
    ensures var k := KeepCount(list, limit, cutoff);
      && k <= limit && (forall i | 0 <= i < k :: list[i].created >= cutoff)
      && (k < |list| ==> k == limit || list[k].created < cutoff)
  {
    var k := KeepCount(list, limit, cutoff);
    forall i: nat | i < |list| ensures Condemned(list, i, limit, cutoff) <==> i >= k {
      CondemnedIsASuffix(list, limit, cutoff, i);
    }
    assert limit < k ==> Condemned(list, limit, limit, cutoff);
    assert k < |list| ==> Condemned(list, k, limit, cutoff);
    forall i | 0 <= i < k ensures list[i].created >= cutoff {
      assert !Condemned(list, i, limit, cutoff);
    }
  }

  /**
   When every removal succeeds, the backups left are exactly a prefix of the listing: at most
   the limit, none older than the cutoff, and as long as those two allow. Each is at least as
   new as every one removed, and the number reported is the number that is gone.
   */
  lemma SurvivorsAreAPrefix(files: map<string, File>, list: seq<Backup>, limit: nat, cutoff: int)
    requires Lists(files, list)
    ensures var k := KeepCount(list, limit, cutoff);
      && Lists(Cleaned(files, list, limit, cutoff, {}), list[..k])
      && k <= limit
      && (forall i | 0 <= i < k :: list[i].created >= cutoff)
      && (forall i, j | 0 <= i < k <= j < |list| :: list[i].created >= list[j].created)
      && (k < |list| ==> k == limit || list[k].created < cutoff)
      && |Removed(list, |list|, limit, cutoff, {})| + k == |list|
  {
    var k := KeepCount(list, limit, cutoff);
    var after := Cleaned(files, list, limit, cutoff, {});
    forall i: nat | i < |list| ensures list[i].name in after <==> i < k {
      SurvivesIff(files, list, limit, cutoff, {}, i);
    }
    KeptBounds(list, limit, cutoff);
    RemovedCount(list, |list|, limit, cutoff);
    PrefixLists(files, after, list, k);
  }

  lemma PrefixLists(files: map<string, File>, after: map<string, File>, list: seq<Backup>, k: nat)
    requires Lists(files, list) && k <= |list|
    requires forall name | name in after :: name in files && after[name] == files[name]
    requires forall i: nat | i < |list| :: list[i].name in after <==> i < k
    ensures Lists(after, list[..k])
  {
    var kept := list[..k];
    assert Distinct(Names(kept)) by {
      assert forall i | 0 <= i < k :: Names(kept)[i] == Names(list)[i];
    }
    forall name | IsBackup(after, name) ensures name in NameSet(kept) {
      assert IsBackup(files, name);
      var i := NameAt(list, name);
      assert kept[i] == list[i] && kept[i] in kept;
    }
  }

  /** A file that is not a backup is never touched, and a backup that should stay never goes, whatever fails. */
  lemma OnlyCondemnedBackupsGo(files: map<string, File>, list: seq<Backup>, limit: nat, cutoff: int,
                               stuck: set<string>, name: string)
    requires Lists(files, list) && name in files && name !in Cleaned(files, list, limit, cutoff, stuck)
    ensures IsBackup(files, name) && name !in stuck
    ensures files[name].created < cutoff || exists s: set<string> ::
              && |s| == limit && s <= NameSet(list)
              && forall x | x in s :: x in files && files[x].created >= files[name].created
  {
    RemovedMeaning(list, |list|, limit, cutoff, stuck, name);
    var i: nat :| i < |list| && list[i].name == name && Condemned(list, i, limit, cutoff) && name !in stuck;
    if i >= limit {
      FirstNames(list, limit);
      var s := NameSet(list[..limit]);
      forall x | x in s ensures x in NameSet(list) && x in files && files[x].created >= files[name].created {
        var j := NameAt(list[..limit], x);
        assert list[j] in list;
      }
    }
  }

  function Elements<T>(s: seq<T>): set<T> {
    set x | x in s
  }

  /** A list without repetitions has as many elements as places. */
  lemma {:induction false} DistinctElements<T>(s: seq<T>)
    requires forall i, j | 0 <= i < j < |s| :: s[i] != s[j]
    ensures |Elements(s)| == |s|
  {
    if s != [] {
      var n := |s| - 1;
      DistinctElements(s[..n]);
      assert s == s[..n] + [s[n]];
      assert Elements(s) == Elements(s[..n]) + {s[n]};
    }
  }

  lemma NamesAreElements(list: seq<Backup>)
    ensures NameSet(list) == Elements(Names(list))
  {
    forall name ensures name in NameSet(list) <==> name in Elements(Names(list)) {
      if name in NameSet(list) {
        var i := NameAt(list, name);
        assert Names(list)[i] == name;
      }
      if name in Elements(Names(list)) {
        var i: nat :| i < |list| && Names(list)[i] == name;
        assert list[i] in list;
      }
    }
  }

  lemma FirstNames(list: seq<Backup>, n: nat)
    requires Distinct(Names(list)) && n <= |list|
    ensures |NameSet(list[..n])| == n
  {
    NamesAreElements(list[..n]);
    FirstDistinct(list, n);
    DistinctElements(Names(list[..n]));
  }

  lemma FirstDistinct(list: seq<Backup>, n: nat)
    requires Distinct(Names(list)) && n <= |list|
    ensures Distinct(Names(list[..n]))
  {
    assert forall i | 0 <= i < n :: Names(list[..n])[i] == Names(list)[i];
  }

  lemma {:induction false} KeepsAll(list: seq<Backup>, limit: nat, cutoff: int)
    requires |list| <= limit && forall i | 0 <= i < |list| :: list[i].created >= cutoff
    ensures KeepCount(list, limit, cutoff) == |list|
  {
    if list != [] {
      KeepsAll(list[1..], limit - 1, cutoff);
    }
  }

  /** Two listings of one directory name the same backups, so what holds of all in one holds of all in the other. */
  lemma AllKeptAgain(files: map<string, File>, list: seq<Backup>, again: seq<Backup>, limit: nat, cutoff: int)
    requires Lists(files, list) && Lists(files, again)
    requires |list| <= limit && forall i | 0 <= i < |list| :: list[i].created >= cutoff
    ensures |again| == |list| && forall i | 0 <= i < |again| :: again[i].created >= cutoff
  {
    FirstNames(list, |list|);
    FirstNames(again, |again|);
    assert list[..|list|] == list && again[..|again|] == again;
    forall name ensures name in NameSet(list) <==> name in NameSet(again) {
      if name in NameSet(list) {
        var i := NameAt(list, name);
      }
      if name in NameSet(again) {
        var i := NameAt(again, name);
      }
    }
    assert NameSet(list) == NameSet(again);
    forall i | 0 <= i < |again| ensures again[i].created >= cutoff {
      assert again[i] in again;
      var j := NameAt(list, again[i].name);
    }
  }

  /** Cleaning up again with the same limit and cutoff, over any listing of what is left, removes nothing. */
  lemma CleanupIsIdempotent(files: map<string, File>, list: seq<Backup>, again: seq<Backup>, limit: nat, cutoff: int,
                            stuck: set<string>)
    requires Lists(files, list)
    requires Lists(Cleaned(files, list, limit, cutoff, {}), again)
    ensures Removed(again, |again|, limit, cutoff, stuck) == []
  {
    var k := KeepCount(list, limit, cutoff);
    SurvivorsAreAPrefix(files, list, limit, cutoff);
    AllKeptAgain(Cleaned(files, list, limit, cutoff, {}), list[..k], again, limit, cutoff);
    KeepsAll(again, limit, cutoff);
    NothingRemoved(again, |again|, limit, cutoff, stuck);
  }

  lemma {:induction false} NothingRemoved(list: seq<Backup>, n: nat, limit: nat, cutoff: int, stuck: set<string>)
    requires n <= |list| && NewestFirst(list) && KeepCount(list, limit, cutoff) == |list|
    ensures Removed(list, n, limit, cutoff, stuck) == []
  {
    if n > 0 {
      CondemnedIsASuffix(list, limit, cutoff, n - 1);
      NothingRemoved(list, n - 1, limit, cutoff, stuck);
    }
  }

  // ---- In terms of the directory alone ----

  /** A backup is a file whose name is the prefix, anything, and the suffix. */
  lemma BackupNames(files: map<string, File>, name: string)
    ensures IsBackup(files, name)
            <==> name in files && !files[name].isDir && exists x: string :: name == "remotty_backup_" + x + ".tar.gz"
  {
    if IsBackup(files, name) {
      NoOverlap(name);
      var x := name[|PREFIX|..|name| - |SUFFIX|];
      assert name == name[..|PREFIX|] + x + name[|name| - |SUFFIX|..];
    }
    forall x: string | name == "remotty_backup_" + x + ".tar.gz"
      ensures name[..|PREFIX|] == PREFIX && name[|name| - |SUFFIX|..] == SUFFIX
    {
    }
  }

  /** The suffix starts with a character that the prefix does not contain. */
  lemma NoOverlap(name: string)
    requires |PREFIX| <= |name| && name[..|PREFIX|] == PREFIX
    requires |SUFFIX| <= |name| && name[|name| - |SUFFIX|..] == SUFFIX
    ensures |name| >= |PREFIX| + |SUFFIX|
  {
    var i := |name| - |SUFFIX|;
    assert name[i] == name[i..][0] == '.';
    assert forall k | 0 <= k < |PREFIX| :: name[k] == PREFIX[k] != '.';
  }

  /** The names of the backups. */
  ghost function BackupSet(files: map<string, File>): set<string> {
    set name | name in files && IsBackup(files, name)
  }

  /** The names of those no older than a moment. */
  ghost function NotOlder(files: map<string, File>, moment: int): set<string> {
    set name | name in files && IsBackup(files, name) && files[name].created >= moment
  }

  lemma ListedSet(files: map<string, File>, list: seq<Backup>)
    requires Lists(files, list)
    ensures NameSet(list) == BackupSet(files) && |BackupSet(files)| == |list|
  {
    FirstNames(list, |list|);
    assert list[..|list|] == list;
    forall name ensures name in NameSet(list) <==> name in BackupSet(files) {
      if name in NameSet(list) {
        var i := NameAt(list, name);
      }
    }
  }

  /** The backups that are not too old are those of a prefix of the listing. */
  lemma NotOlderAt(files: map<string, File>, list: seq<Backup>, cutoff: int, name: string)
    requires Lists(files, list)
    ensures name in NotOlder(files, cutoff) <==> name in NameSet(list[..KeepCount(list, |list|, cutoff)])
  {
    var n := KeepCount(list, |list|, cutoff);
    if name in NameSet(list[..n]) {
      var i := NameAt(list[..n], name);
      KeptBounds(list, |list|, cutoff);
      assert list[i].created >= cutoff;
    }
    if name in NotOlder(files, cutoff) {
      var i := NameAt(list, name);
      CondemnedIsASuffix(list, |list|, cutoff, i);
      assert list[..n][i] == list[i];
    }
  }

  lemma NotOlderIsAPrefix(files: map<string, File>, list: seq<Backup>, cutoff: int)
    requires Lists(files, list)
    ensures |NotOlder(files, cutoff)| == KeepCount(list, |list|, cutoff)
  {
    var n := KeepCount(list, |list|, cutoff);
    forall name ensures name in NotOlder(files, cutoff) <==> name in NameSet(list[..n]) {
      NotOlderAt(files, list, cutoff, name);
    }
    assert NotOlder(files, cutoff) == NameSet(list[..n]);
    FirstNames(list, n);
  }

  /** A limit cuts that prefix. */
  lemma {:induction false} LimitCuts(list: seq<Backup>, limit: nat, cutoff: int)
    ensures KeepCount(list, limit, cutoff) == Min(limit, KeepCount(list, |list|, cutoff))
  {
    if list != [] && limit > 0 && list[0].created >= cutoff {
      LimitCuts(list[1..], limit - 1, cutoff);
    }
  }

  /** The prefix that is kept is as long as the limit or, if shorter, as the backups that are not too old. */
  lemma KeptNumber(files: map<string, File>, list: seq<Backup>, limit: nat, cutoff: int)
    requires Lists(files, list)
    ensures KeepCount(list, limit, cutoff) == Min(limit, |NotOlder(files, cutoff)|)
  {
    NotOlderIsAPrefix(files, list, cutoff);
    LimitCuts(list, limit, cutoff);
  }

  /**
   What a cleanup may make of a directory, with the defaults written out. Let the limit be
   maxKeep, or 10 if that is not positive, and the cutoff maxAge before now, or thirty days if
   that is not positive. A backup older than the cutoff goes unless it is stuck; one no older
   stays when there are no more backups than the limit; nothing but a backup goes; and when
   nothing is stuck the number left is the limit or, if less, the number of backups that are
   not too old.
   */
  ghost predicate CleanedUp(files: map<string, File>, after: map<string, File>, maxKeep: int, maxAge: int, now: int,
                            stuck: set<string>)
  {
    CleanedWith(files, after, if maxKeep > 0 then maxKeep else 10,
                now - (if maxAge > 0 then maxAge else 30 * 24 * 3600 * 1_000_000_000), stuck)
  }

  ghost predicate CleanedWith(files: map<string, File>, after: map<string, File>, limit: int, cutoff: int,
                              stuck: set<string>)
  {
    && (forall name | name in files && !IsBackup(files, name) :: name in after)
    && (forall name | name in after :: name in files && after[name] == files[name])
    && (forall name | IsBackup(files, name) && files[name].created < cutoff :: name in after <==> name in stuck)
    && (|BackupSet(files)| <= limit ==>
          forall name | IsBackup(files, name) && files[name].created >= cutoff :: name in after)
    && (stuck == {} ==> |BackupSet(after)| == Min(limit, |NotOlder(files, cutoff)|))
  }

  /** And so it does, for any listing it went by. */
  lemma CleanupMeaning(files: map<string, File>, list: seq<Backup>, maxKeep: int, maxAge: int, now: int,
                       stuck: set<string>)
    requires Lists(files, list)
    ensures CleanedUp(files, Cleaned(files, list, KeepLimit(maxKeep), Cutoff(now, maxAge), stuck),
                      maxKeep, maxAge, now, stuck)
  {
    CleanedWithMeaning(files, list, KeepLimit(maxKeep), Cutoff(now, maxAge), stuck);
  }

  lemma CleanedWithMeaning(files: map<string, File>, list: seq<Backup>, limit: nat, cutoff: int, stuck: set<string>)
    requires Lists(files, list)
    ensures CleanedWith(files, Cleaned(files, list, limit, cutoff, stuck), limit, cutoff, stuck)
  {
    ListedSet(files, list);
    forall name | name in files ensures CleanedAt(files, list, limit, cutoff, stuck, name) {
      CleanedName(files, list, limit, cutoff, stuck, name);
    }
    if stuck == {} {
      LeftNumber(files, list, limit, cutoff);
    }
  }

  /** What a cleanup does with one file. */
  ghost predicate CleanedAt(files: map<string, File>, list: seq<Backup>, limit: nat, cutoff: int, stuck: set<string>,
                            name: string)
    requires name in files
  {
    var kept := name in Cleaned(files, list, limit, cutoff, stuck);
    if !IsBackup(files, name) then kept
    else if files[name].created < cutoff then kept <==> name in stuck
    else |list| <= limit ==> kept
  }

  lemma CleanedName(files: map<string, File>, list: seq<Backup>, limit: nat, cutoff: int, stuck: set<string>,
                    name: string)
    requires Lists(files, list) && name in files
    ensures CleanedAt(files, list, limit, cutoff, stuck, name)
  {
    KeptBounds(list, limit, cutoff);
    if IsBackup(files, name) {
      var i := NameAt(list, name);
      SurvivesIff(files, list, limit, cutoff, stuck, i);
    } else if name !in Cleaned(files, list, limit, cutoff, stuck) {
      OnlyCondemnedBackupsGo(files, list, limit, cutoff, stuck, name);
      assert false;
    }
  }

  lemma LeftNumber(files: map<string, File>, list: seq<Backup>, limit: nat, cutoff: int)
    requires Lists(files, list)
    ensures |BackupSet(Cleaned(files, list, limit, cutoff, {}))| == Min(limit, |NotOlder(files, cutoff)|)
  {
    SurvivorsAreAPrefix(files, list, limit, cutoff);
    ListedSet(Cleaned(files, list, limit, cutoff, {}), list[..KeepCount(list, limit, cutoff)]);
    KeptNumber(files, list, limit, cutoff);
  }
}
