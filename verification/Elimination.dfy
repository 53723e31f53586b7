/**
 The periodic elimination of old log files: newest first, sizes are added up, and every log file at
 which the sum is over the limit is removed.
 */
module Elimination {
  datatype Meta = Meta(size: nat, time: int)

  type Directory = map<string, Meta>

  /** The file name's extension is .log; a name that begins with its only dot has no extension. */
  predicate IsLog(name: string) {
    |name| > 4 && name[|name| - 4..] == ".log"
  }

  /** The text before the extension .log. */
  ghost predicate IsStem(stem: string, name: string) {
    stem != [] && name == stem + ".log"
  }

  lemma IsLogIff(name: string)
    ensures IsLog(name) <==> exists stem :: IsStem(stem, name)
    ensures IsLog(name) <==> exists stem: string :: stem != [] && name == stem + ".log"
  {
    if IsLog(name) {
      assert IsStem(name[..|name| - 4], name);
      assert name == name[..|name| - 4] + ".log";
    }
    if stem :| IsStem(stem, name) {
      assert name[|name| - 4..] == ".log";
    }
  }

  /** A name that the sink gives its files: of the first file of a second, or of a later one. */
  function SinkFile(prefix: string, datetime: string): string {
    prefix + "_" + datetime + ".log"
  }

  function SinkFileAt(prefix: string, datetime: string, index: string): string {
    prefix + "_" + datetime + "_" + index + ".log"
  }

  /** Every file the sink writes may be removed, and neither of its caches. */
  lemma SinkFilesAreLogs(prefix: string, datetime: string, index: string)
    ensures IsLog(SinkFile(prefix, datetime)) && IsLog(SinkFileAt(prefix, datetime, index))
    ensures !IsLog("master_cache") && !IsLog("slave_cache")
  {
    IsLogIff(SinkFile(prefix, datetime));
    IsLogIff(SinkFileAt(prefix, datetime, index));
    assert IsStem(prefix + "_" + datetime, SinkFile(prefix, datetime));
    assert IsStem(prefix + "_" + datetime + "_" + index, SinkFileAt(prefix, datetime, index));
    hide IsStem;
  }

  function LogNames(dir: Directory): set<string> {
    set name | name in dir && IsLog(name)
  }

  // ---- Orders and sums ----

  predicate NoDuplicates(order: seq<string>) {
    forall i, j :: 0 <= i < j < |order| ==> order[i] != order[j]
  }

  predicate AllIn(dir: Directory, order: seq<string>) {
    forall i :: 0 <= i < |order| ==> order[i] in dir
  }

  predicate Sorted(dir: Directory, order: seq<string>)
    requires AllIn(dir, order)
  {
    forall i, j :: 0 <= i < j < |order| ==> dir[order[i]].time >= dir[order[j]].time
  }

  /** Some enumeration of the log files, newest first; files of the same age come in any order. */
  ghost predicate NewestFirst(dir: Directory, order: seq<string>) {
    && AllIn(dir, order) && NoDuplicates(order)
    && (forall name :: name in order <==> name in LogNames(dir))
    && Sorted(dir, order)
  }

  /** Cumulative size of the first k files of an order. */
  function Used(dir: Directory, order: seq<string>, k: nat): nat
    requires k <= |order| && AllIn(dir, order)
  {
    if k == 0 then 0 else Used(dir, order, k - 1) + dir[order[k - 1]].size
  }

  lemma {:induction false} UsedIsMonotone(dir: Directory, order: seq<string>, j: nat, k: nat)
    requires j <= k <= |order| && AllIn(dir, order)
    ensures Used(dir, order, j) <= Used(dir, order, k)
  {
    if j == k {
    } else {
      UsedIsMonotone(dir, order, j, k - 1);
    }
  }

  /** Total size of some files. */
  ghost function SizeOf(dir: Directory, names: set<string>): nat
    requires forall name :: name in names ==> name in dir
  {
    if names == {} then 0
    else
      var name :| name in names;
      dir[name].size + SizeOf(dir, names - {name})
  }

  lemma {:induction false} SizeWithout(dir: Directory, names: set<string>, name: string)
    requires name in names && forall n :: n in names ==> n in dir
    ensures SizeOf(dir, names) == dir[name].size + SizeOf(dir, names - {name})
    decreases |names|
  {
    var first :| first in names && SizeOf(dir, names) == dir[first].size + SizeOf(dir, names - {first});
    if first == name {
    } else {
      SizeWithout(dir, names - {first}, name);
      SizeWithout(dir, names - {name}, first);
      assert names - {first} - {name} == names - {name} - {first};
    }
  }

  function Names(order: seq<string>): set<string> {
    set i | 0 <= i < |order| :: order[i]
  }

  lemma NamesAre(order: seq<string>)
    ensures forall n :: n in Names(order) <==> n in order
  {
  }

  lemma NamesStep(order: seq<string>, k: nat)
    requires 1 <= k <= |order| && NoDuplicates(order)
    ensures order[k - 1] in Names(order[..k])
    ensures Names(order[..k]) - {order[k - 1]} == Names(order[..k - 1])
  {
    assert order[..k] == order[..k - 1] + [order[k - 1]];
    NamesAre(order[..k]);
    NamesAre(order[..k - 1]);
    assert order[k - 1] !in order[..k - 1];
  }

  /** The cumulative size does not depend on the order. */
  lemma {:induction false} UsedIsSize(dir: Directory, order: seq<string>, k: nat)
    requires k <= |order| && NoDuplicates(order) && AllIn(dir, order)
    ensures Used(dir, order, k) == SizeOf(dir, Names(order[..k]))
  {
    if k == 0 {
      assert Names(order[..0]) == {};
    } else {
      UsedIsSize(dir, order, k - 1);
      var names := Names(order[..k]);
      assert order[..k][k - 1] == order[k - 1];
      NamesStep(order, k);
      SizeWithout(dir, names, order[k - 1]);
    }
  }

  // ---- What elimination keeps ----

  /** k is the length of the longest prefix whose total is within the limit. */
  ghost predicate Longest(dir: Directory, order: seq<string>, k: nat, total: nat)
    requires AllIn(dir, order)
  {
    k <= |order| && forall j :: 0 <= j <= |order| ==> (Used(dir, order, j) <= total <==> j <= k)
  }

  /** All other files, and the first k of the log files. */
  function Kept(dir: Directory, order: seq<string>, k: nat): Directory
    requires k <= |order|
  {
    map name | name in dir && (!IsLog(name) || name in order[..k]) :: dir[name]
  }

  lemma KeptLogs(dir: Directory, order: seq<string>, k: nat)
    requires NewestFirst(dir, order) && k <= |order|
    ensures LogNames(Kept(dir, order, k)) == Names(order[..k])
    ensures forall name :: name in LogNames(dir) && name !in Kept(dir, order, k) <==> name in order[k..]
  {
    NamesAre(order[..k]);
    forall name | name in order[..k]
      ensures name in LogNames(dir)
    {
      assert name in order;
    }
    forall name | name in LogNames(dir) && name !in Kept(dir, order, k)
      ensures name in order[k..]
    {
      assert name in order && name !in order[..k];
      assert order == order[..k] + order[k..];
    }
    forall name | name in order[k..]
      ensures name in LogNames(dir) && name !in order[..k]
    {
      var i :| 0 <= i < |order| - k && order[k..][i] == name;
      assert order[k + i] == name;
    }
  }

  /** The bytes of log files in a directory. */
  ghost function LogSize(dir: Directory): nat {
    SizeOf(dir, LogNames(dir))
  }

  lemma {:induction false} SameSizes(a: Directory, b: Directory, names: set<string>)
    requires forall n :: n in names ==> n in a && n in b && a[n] == b[n]
    ensures SizeOf(a, names) == SizeOf(b, names)
    decreases |names|
  {
    if names == {} {
    } else {
      var first :| first in names && SizeOf(a, names) == a[first].size + SizeOf(a, names - {first});
      SameSizes(a, b, names - {first});
      SizeWithout(b, names, first);
    }
  }

  lemma KeptSize(dir: Directory, order: seq<string>, k: nat)
    requires NewestFirst(dir, order) && k <= |order|
    ensures LogSize(Kept(dir, order, k)) == Used(dir, order, k)
  {
    KeptLogs(dir, order, k);
    UsedIsSize(dir, order, k);
    SameSizes(dir, Kept(dir, order, k), Names(order[..k]));
  }

  /**
   The kept log files are within the limit, none is older than a removed one, and with the newest
   removed one they would be over the limit. All other files stay as they are.
   */
  lemma KeepsNewestWithinLimit(dir: Directory, order: seq<string>, k: nat, total: nat)
    requires NewestFirst(dir, order) && Longest(dir, order, k, total)
    ensures var kept := Kept(dir, order, k);
      && LogSize(kept) <= total
      && (forall here, gone :: here in LogNames(kept) && gone in LogNames(dir) && gone !in kept ==>
            dir[here].time >= dir[gone].time)
      && (k < |order| ==>
            && order[k] in LogNames(dir) && order[k] !in kept
            && (forall gone :: gone in LogNames(dir) && gone !in kept ==> dir[order[k]].time >= dir[gone].time)
            && LogSize(kept) + dir[order[k]].size > total)
      && (forall name :: name in dir && !IsLog(name) ==> name in kept && kept[name] == dir[name])
      && (forall name :: name in kept ==> name in dir && kept[name] == dir[name])
  {
    var kept := Kept(dir, order, k);
    KeptLogs(dir, order, k);
    KeptSize(dir, order, k);
    assert Used(dir, order, k) <= total;
    forall gone | gone in LogNames(dir) && gone !in kept
      ensures exists j :: k <= j < |order| && order[j] == gone
    {
      var i :| 0 <= i < |order| - k && order[k..][i] == gone;
      assert order[k + i] == gone;
    }
    forall here, gone | here in LogNames(kept) && gone in LogNames(dir) && gone !in kept
      ensures dir[here].time >= dir[gone].time
    {
      var i :| 0 <= i < k && order[..k][i] == here;
      var j :| k <= j < |order| && order[j] == gone;
      assert order[i] == here;
    }
    if k < |order| {
      assert order[k..][0] == order[k];
      assert !(Used(dir, order, k + 1) <= total);
    }
  }

  /** Nothing is removed exactly when all log files together are within the limit. */
  lemma NothingRemovedIff(dir: Directory, order: seq<string>, k: nat, total: nat)
    requires NewestFirst(dir, order) && Longest(dir, order, k, total)
    ensures Kept(dir, order, k) == dir <==> LogSize(dir) <= total
  {
    KeptLogs(dir, order, k);
    KeptLogs(dir, order, |order|);
    UsedIsSize(dir, order, |order|);
    assert LogNames(dir) == Names(order[..|order|]);
    if k < |order| {
      assert order[k..][0] == order[k];
    } else {
      assert order[..k] == order;
    }
  }

  /** The log files at least as new as a given one. */
  ghost function AtLeastAsNew(dir: Directory, name: string): set<string>
    requires name in dir
  {
    set n | n in LogNames(dir) && dir[n].time >= dir[name].time
  }

  /**
   Whatever order files of the same age come in: a log file whose age no other shares is kept exactly
   when the log files at least as new as it are, together, within the limit.
   */
  lemma KeptIff(dir: Directory, order: seq<string>, k: nat, total: nat, name: string)
    requires NewestFirst(dir, order) && Longest(dir, order, k, total)
    requires name in LogNames(dir)
    requires forall other :: other in LogNames(dir) && other != name ==> dir[other].time != dir[name].time
    ensures name in Kept(dir, order, k) <==> SizeOf(dir, AtLeastAsNew(dir, name)) <= total
  {
    var i :| 0 <= i < |order| && order[i] == name;
    AsNewIsPrefix(dir, order, i);
    KeptAt(dir, order, k, i);
    UsedIsSize(dir, order, i + 1);
  }

  lemma AsNewIsPrefix(dir: Directory, order: seq<string>, i: nat)
    requires NewestFirst(dir, order) && i < |order|
    requires forall other :: other in LogNames(dir) && other != order[i] ==> dir[other].time != dir[order[i]].time
    ensures AtLeastAsNew(dir, order[i]) == Names(order[..i + 1])
  {
    hide IsLog;
    NamesAre(order[..i + 1]);
    forall n | n in AtLeastAsNew(dir, order[i])
      ensures n in order[..i + 1]
    {
      var j :| 0 <= j < |order| && order[j] == n;
      if j <= i {
        assert order[..i + 1][j] == n;
      }
    }
    forall n | n in order[..i + 1]
      ensures n in AtLeastAsNew(dir, order[i])
    {
      var j :| 0 <= j < i + 1 && order[..i + 1][j] == n;
      assert order[j] == n;
    }
  }

  lemma KeptAt(dir: Directory, order: seq<string>, k: nat, i: nat)
    requires NewestFirst(dir, order) && k <= |order| && i < |order|
    ensures order[i] in Kept(dir, order, k) <==> i < k
  {
    assert order[i] in LogNames(dir);
    if i < k {
      assert order[..k][i] == order[i];
    } else {
      assert order[i] !in order[..k];
    }
  }

  // ---- The operation ----

  /** Files without the extension .log are all still there, the two caches among them, and none is new. */
  ghost predicate OthersStay(before: Directory, after: Directory) {
    && (forall name :: name in before && !(exists stem :: IsStem(stem, name)) ==>
          name in after && after[name] == before[name])
    && (forall name | name in {"master_cache", "slave_cache"} :: name in before ==>
          name in after && after[name] == before[name])
    && (forall name :: name in after ==> name in before && after[name] == before[name])
  }

  class LogDirectory {
    var files: Directory

    constructor (files: Directory)
      ensures this.files == files
    {
      this.files := files;
    }

    /** Keeps the longest newest-first prefix of the log files whose total size is within the limit. */
    method ElimateFiles(totalBytes: nat) returns (ghost order: seq<string>, ghost k: nat)
      modifies this
      ensures NewestFirst(old(files), order)
      ensures Longest(old(files), order, k, totalBytes)
      ensures files == Kept(old(files), order, k)
      ensures OthersStay(old(files), files)
    {
      hide NewestFirst, LogNames, IsLog, OthersStay, Sorted, Kept, Longest, Without;
      ghost var dir := files;
      var names := CollectLogs();
      CollectedAreIn(dir, names);
      var sorted := SortNewestFirst(files, names);
      order := sorted;
      EnumeratesLogs(dir, order);
      k := RemoveBeyond(sorted, totalBytes);
      LongestPrefix(dir, order, k, totalBytes);
      KeptIsRest(dir, order, k);
      OnlyLogsGo(dir, order, k);
    }

    /** Adds up the sizes in the order given, and removes every file at which the sum is over the limit. */
    method RemoveBeyond(sorted: seq<string>, totalBytes: nat) returns (ghost k: nat)
      requires AllIn(files, sorted) && NoDuplicates(sorted)
      modifies this
      ensures k <= |sorted| && Used(old(files), sorted, k) <= totalBytes
      ensures k < |sorted| ==> Used(old(files), sorted, k + 1) > totalBytes
      ensures files == Without(old(files), sorted, k, |sorted|)
    {
      hide AllIn, NoDuplicates, Without;
      ghost var dir := files;
      WithoutNone(dir, sorted);
      var used := 0;
      k := 0;
      for i := 0 to |sorted|
        invariant used == Used(dir, sorted, i)
        invariant k <= i && Used(dir, sorted, k) <= totalBytes
        invariant k < i ==> Used(dir, sorted, k + 1) > totalBytes
        invariant files == Without(dir, sorted, k, i)
      {
        WithoutStep(dir, sorted, k, i);
        used := used + files[sorted[i]].size;
        if used > totalBytes {
          files := files - {sorted[i]};
        } else {
          if k < i {
            UsedIsMonotone(dir, sorted, k + 1, i);
          }
          k := k + 1;
        }
      }
    }

    /** The log files, in whatever order the directory is read. */
    method CollectLogs() returns (names: seq<string>)
      ensures NoDuplicates(names)
      ensures forall name :: name in names <==> name in LogNames(files)
      ensures forall name ::
        name in names <==> name in files && exists stem: string :: stem != [] && name == stem + ".log"
    {
      names := [];
      var todo := files.Keys;
      while todo != {}
        invariant todo <= files.Keys
        invariant NoDuplicates(names)
        invariant forall name :: name in names <==> name in LogNames(files) && name !in todo
        decreases |todo|
      {
        var name :| name in todo;
        todo := todo - {name};
        if IsLog(name) {
          names := names + [name];
        }
      }
      forall name
        ensures name in LogNames(files) <==> name in files && exists stem: string :: stem != [] && name == stem + ".log"
      {
        IsLogIff(name);
      }
    }
  }

  lemma OnlyLogsGo(dir: Directory, order: seq<string>, k: nat)
    requires k <= |order|
    ensures OthersStay(dir, Kept(dir, order, k))
  {
    SinkFilesAreLogs("", "", "");
    forall name
      ensures IsLog(name) <==> exists stem :: IsStem(stem, name)
    {
      IsLogIff(name);
    }
    hide IsStem, IsLog;
  }

  lemma LongestPrefix(dir: Directory, order: seq<string>, k: nat, total: nat)
    requires k <= |order| && AllIn(dir, order)
    requires Used(dir, order, k) <= total && (k < |order| ==> Used(dir, order, k + 1) > total)
    ensures Longest(dir, order, k, total)
  {
    forall j | 0 <= j <= |order|
      ensures Used(dir, order, j) <= total <==> j <= k
    {
      if j <= k {
        UsedIsMonotone(dir, order, j, k);
      } else {
        UsedIsMonotone(dir, order, k + 1, j);
      }
    }
  }

  lemma CollectedAreIn(dir: Directory, names: seq<string>)
    requires forall name :: name in names <==> name in LogNames(dir)
    ensures forall name :: name in names ==> name in dir
  {
  }

  lemma EnumeratesLogs(dir: Directory, order: seq<string>)
    requires AllIn(dir, order) && NoDuplicates(order) && Sorted(dir, order)
    requires forall name :: name in order <==> name in LogNames(dir)
    ensures NewestFirst(dir, order)
  {
  }

  /** The directory after the files from position k up to i have been removed. */
  ghost function Without(dir: Directory, order: seq<string>, k: nat, i: nat): Directory
    requires k <= i <= |order|
  {
    map name | name in dir && name !in order[k..i] :: dir[name]
  }

  lemma WithoutNone(dir: Directory, order: seq<string>)
    ensures Without(dir, order, 0, 0) == dir
  {
  }

  lemma WithoutStep(dir: Directory, order: seq<string>, k: nat, i: nat)
    requires k <= i < |order| && AllIn(dir, order) && NoDuplicates(order)
    ensures order[i] in Without(dir, order, k, i) && Without(dir, order, k, i)[order[i]] == dir[order[i]]
    ensures Without(dir, order, k, i + 1) == Without(dir, order, k, i) - {order[i]}
    ensures k == i ==> Without(dir, order, k + 1, i + 1) == Without(dir, order, k, i)
  {
    assert order[k..i + 1] == order[k..i] + [order[i]];
    assert order[i] !in order[k..i];
  }

  lemma KeptIsRest(dir: Directory, order: seq<string>, k: nat)
    requires NewestFirst(dir, order) && k <= |order|
    ensures Without(dir, order, k, |order|) == Kept(dir, order, k)
  {
    assert order[k..|order|] == order[k..];
    KeptLogs(dir, order, k);
  }

  /** Puts a name behind all that are at least as new. */
  method InsertNewest(dir: Directory, order: seq<string>, name: string) returns (r: seq<string>)
    requires name in dir && name !in order && NoDuplicates(order)
    requires AllIn(dir, order) && Sorted(dir, order)
    ensures AllIn(dir, r) && NoDuplicates(r)
    ensures forall n :: n in r <==> n in order || n == name
    ensures Sorted(dir, r)
  {
    var i := 0;
    while i < |order| && dir[order[i]].time >= dir[name].time
      invariant i <= |order|
      invariant forall j :: 0 <= j < i ==> dir[order[j]].time >= dir[name].time
    {
      i := i + 1;
    }
    Inserted(dir, order, name, i);
    r := order[..i] + [name] + order[i..];
  }

  lemma Inserted(dir: Directory, order: seq<string>, name: string, i: nat)
    requires name in dir && name !in order && NoDuplicates(order) && i <= |order|
    requires AllIn(dir, order) && Sorted(dir, order)
    requires forall j :: 0 <= j < i ==> dir[order[j]].time >= dir[name].time
    requires i < |order| ==> dir[order[i]].time < dir[name].time
    ensures var r := order[..i] + [name] + order[i..];
      && AllIn(dir, r) && NoDuplicates(r) && Sorted(dir, r)
      && forall n :: n in r <==> n in order || n == name
  {
    var r := order[..i] + [name] + order[i..];
    assert forall j :: 0 <= j < |r| ==> r[j] == if j < i then order[j] else if j == i then name else order[j - 1];
    assert AllIn(dir, r);
    assert NoDuplicates(r);
    assert Sorted(dir, r);
    assert order == order[..i] + order[i..];
  }

  method SortNewestFirst(dir: Directory, names: seq<string>) returns (order: seq<string>)
    requires NoDuplicates(names) && forall name :: name in names ==> name in dir
    ensures AllIn(dir, order) && NoDuplicates(order)
    ensures forall name :: name in order <==> name in names
    ensures Sorted(dir, order)
  {
    order := [];
    for i := 0 to |names|
      invariant AllIn(dir, order) && NoDuplicates(order)
      invariant forall name :: name in order <==> name in names[..i]
      invariant Sorted(dir, order)
    {
      order := InsertNewest(dir, order, names[i]);
      assert names[..i + 1] == names[..i] + [names[i]];
    }
    assert names[..|names|] == names;
  }
}
