/**
 * Log retention: RemoveExpired drops files by age, PruneToTotalLimit drops the
 * oldest files until the rest fits.
 */
module Retention {

  datatype LogFile = LogFile(path: string, size: nat, modTime: int)

  datatype Outcome = Removed(paths: seq<string>) | BadArgument | RemoveFailed(paths: seq<string>)

  function Total(files: seq<LogFile>): nat {
    if files == [] then 0 else files[0].size + Total(files[1..])
  }

  function Paths(files: seq<LogFile>): (r: seq<string>)
    ensures |r| == |files|
  {
    seq(|files|, i requires 0 <= i < |files| => files[i].path)
  }

  predicate OldestFirst(files: seq<LogFile>) {
    forall i, j | 0 <= i < j < |files| :: files[i].modTime <= files[j].modTime
  }

  lemma {:induction false} TotalAppend(a: seq<LogFile>, b: seq<LogFile>)
    ensures Total(a + b) == Total(a) + Total(b)
  {
    if a == [] {
      assert a + b == b;
    } else {
      TotalAppend(a[1..], b);
      assert (a + b)[1..] == a[1..] + b;
    }
  }

  lemma TotalSplit(files: seq<LogFile>, n: nat)
    requires n <= |files|
    ensures Total(files) == Total(files[..n]) + Total(files[n..])
  {
    TotalAppend(files[..n], files[n..]);
    assert files[..n] + files[n..] == files;
  }

  // ---------- sort.Slice: some arrangement with the oldest first ----------

  function Place(sorted: seq<LogFile>, i: nat, file: LogFile): seq<LogFile>
    requires i <= |sorted|
  {
    sorted[..i] + [file] + sorted[i..]
  }

  lemma TotalOne(file: LogFile)
    ensures Total([file]) == file.size
  {
  }

  lemma PlaceKeeps(sorted: seq<LogFile>, i: nat, file: LogFile)
    requires i <= |sorted|
    ensures multiset(Place(sorted, i, file)) == multiset(sorted) + multiset{file}
    ensures Total(Place(sorted, i, file)) == Total(sorted) + file.size
  {
    hide Total;
    assert sorted == sorted[..i] + sorted[i..];
    TotalSplit(sorted, i);
    TotalAppend(sorted[..i] + [file], sorted[i..]);
    TotalAppend(sorted[..i], [file]);
    TotalOne(file);
  }

  lemma PlaceOrdered(sorted: seq<LogFile>, i: nat, file: LogFile)
    requires i <= |sorted| && OldestFirst(sorted)
    requires forall j | 0 <= j < i :: sorted[j].modTime < file.modTime
    requires i < |sorted| ==> file.modTime <= sorted[i].modTime
    ensures OldestFirst(Place(sorted, i, file))
  {
  }

  method InsertByAge(sorted: seq<LogFile>, file: LogFile) returns (r: seq<LogFile>)
    requires OldestFirst(sorted)
    ensures OldestFirst(r) && multiset(r) == multiset(sorted) + multiset{file}
    ensures Total(r) == Total(sorted) + file.size
  {
    var i := 0;
    while i < |sorted| && sorted[i].modTime < file.modTime
      invariant 0 <= i <= |sorted|
      invariant forall j | 0 <= j < i :: sorted[j].modTime < file.modTime
    {
      i := i + 1;
    }
    hide Total, Place;
    PlaceKeeps(sorted, i, file);
    PlaceOrdered(sorted, i, file);
    r := Place(sorted, i, file);
  }

  method SortByAge(files: seq<LogFile>) returns (r: seq<LogFile>)
    ensures OldestFirst(r) && multiset(r) == multiset(files) && Total(r) == Total(files)
  {
    r := [];
    for i := 0 to |files|
      invariant OldestFirst(r) && multiset(r) == multiset(files[..i]) && Total(r) == Total(files[..i])
    {
      r := InsertByAge(r, files[i]);
      assert files[..i + 1] == files[..i] + [files[i]];
      TotalAppend(files[..i], [files[i]]);
      TotalOne(files[i]);
    }
    assert files[..|files|] == files;
  }

  // ---------- PruneToTotalLimit ----------

  lemma NoFiles()
    ensures Total([]) == 0 && Paths([]) == []
  {
  }

  lemma OneFileLess(files: seq<LogFile>, i: nat)
    requires i < |files|
    ensures Total(files[i..]) == files[i].size + Total(files[i + 1..])
    ensures Paths(files[..i + 1]) == Paths(files[..i]) + [files[i].path]
  {
  }

  lemma PathsAre(files: seq<LogFile>, n: nat)
    requires n <= |files|
    ensures |Paths(files[..n])| == n && forall i | 0 <= i < n :: Paths(files[..n])[i] == files[i].path
  {
  }

  lemma TailIsLess(files: seq<LogFile>, i: nat, n: nat)
    requires i <= n <= |files|
    ensures Total(files[n..]) <= Total(files[i..])
  {
    TotalSplit(files[i..], n - i);
    assert files[i..][n - i..] == files[n..];
  }

  method SumSizes(files: seq<LogFile>) returns (total: nat)
    ensures total == Total(files)
  {
    total := 0;
    for i := 0 to |files|
      invariant total == Total(files[..i])
    {
      assert files[..i + 1] == files[..i] + [files[i]];
      TotalAppend(files[..i], [files[i]]);
      total := total + files[i].size;
    }
    assert files[..|files|] == files;
  }

  /**
   * The directory after a run: which files remain, oldest first, and how many
   * of the sorted files were removed. `removable` says which removals succeed.
   */
  method PruneToTotalLimit(files: seq<LogFile>, maxBytes: int, removable: set<LogFile>)
      returns (outcome: Outcome, remaining: seq<LogFile>, ghost sorted: seq<LogFile>, ghost gone: nat)
    ensures maxBytes <= 0 <==> outcome == BadArgument
    ensures outcome == BadArgument ==> remaining == files
    ensures gone <= |sorted|
    ensures outcome != BadArgument ==>
              multiset(sorted) == multiset(files) && OldestFirst(sorted) && remaining == sorted[gone..]
    ensures outcome.Removed? ==> outcome.paths == Paths(sorted[..gone]) && Total(remaining) <= maxBytes
    ensures outcome != BadArgument ==>
              |outcome.paths| == gone && forall i | 0 <= i < gone :: outcome.paths[i] == sorted[i].path
    ensures outcome.RemoveFailed? ==>
              outcome.paths == Paths(sorted[..gone]) && gone < |sorted| && sorted[gone] !in removable
    // No removal was unnecessary: stopping one file earlier would still exceed the limit.
    ensures outcome != BadArgument ==> forall n | 0 <= n < gone :: Total(sorted[n..]) > maxBytes
    ensures outcome.RemoveFailed? ==> Total(remaining) > maxBytes
    ensures outcome != BadArgument ==> Total(sorted) == Total(files)
    // It succeeds exactly if every file it needs to remove can be removed.
    ensures maxBytes > 0 ==>
              (outcome.Removed? <==> forall n | 0 <= n < |sorted| && Total(sorted[n..]) > maxBytes :: sorted[n] in removable)
  {
    hide Total, Paths, OldestFirst;
    sorted, gone, remaining := files, 0, files;
    if maxBytes <= 0 {
      return BadArgument, remaining, sorted, gone;
    }
    NoFiles();
    var order := SortByAge(files);
    sorted := order;
    var total := SumSizes(files);
    var removed: seq<string> := [];
    var i := 0;
    while i < |order|
      invariant 0 <= i <= |order| && gone == i
      invariant total == Total(order[i..]) && removed == Paths(order[..i])
      invariant forall n | 0 <= n < i :: Total(order[n..]) > maxBytes && order[n] in removable
    {
      if total <= maxBytes {
        break;
      }
      var file := order[i];
      if file !in removable {
        PathsAre(order, i);
        return RemoveFailed(removed), order[i..], sorted, gone;
      }
      OneFileLess(order, i);
      total := total - file.size;
      removed := removed + [file.path];
      i := i + 1;
      gone := i;
    }
    assert i == |order| ==> order[i..] == [];
    forall n | i <= n < |order|
      ensures Total(order[n..]) <= maxBytes
    {
      TailIsLess(order, i, n);
    }
    PathsAre(order, i);
    return Removed(removed), order[i..], sorted, gone;
  }

  lemma KeptAreYounger(sorted: seq<LogFile>, gone: nat)
    requires OldestFirst(sorted) && gone <= |sorted|
    ensures forall x, y | x in sorted[..gone] && y in sorted[gone..] :: x.modTime <= y.modTime
  {
  }

  // Nothing is lost on the way: what was there is what went plus what stayed,
  // and nothing that stayed is older than something that went.
  lemma PruneConserves(files: seq<LogFile>, sorted: seq<LogFile>, gone: nat)
    requires multiset(sorted) == multiset(files) && OldestFirst(sorted) && gone <= |sorted|
    ensures multiset(sorted[..gone]) + multiset(sorted[gone..]) == multiset(files)
    ensures Total(sorted) == Total(sorted[..gone]) + Total(sorted[gone..])
    ensures forall x, y | x in sorted[..gone] && y in sorted[gone..] :: x.modTime <= y.modTime
  {
    hide Total, OldestFirst;
    TotalSplit(sorted, gone);
    assert sorted == sorted[..gone] + sorted[gone..];
    KeptAreYounger(sorted, gone);
  }

  // ---------- RemoveExpired ----------

  function Unexpired(files: seq<LogFile>, cutoff: int): seq<LogFile> {
    if files == [] then []
    else
      var kept := Unexpired(files[..|files| - 1], cutoff);
      if files[|files| - 1].modTime < cutoff then kept else kept + [files[|files| - 1]]
  }

  lemma UnexpiredSnoc(files: seq<LogFile>, f: LogFile, cutoff: int)
    ensures Unexpired(files + [f], cutoff) ==
            if f.modTime < cutoff then Unexpired(files, cutoff) else Unexpired(files, cutoff) + [f]
  {
  }

  lemma {:induction false} UnexpiredMembers(files: seq<LogFile>, cutoff: int, f: LogFile)
    ensures f in Unexpired(files, cutoff) <==> f in files && f.modTime >= cutoff
  {
    if files != [] {
      UnexpiredMembers(files[..|files| - 1], cutoff, f);
      assert files == files[..|files| - 1] + [files[|files| - 1]];
    }
  }

  function Expired(files: seq<LogFile>, cutoff: int): seq<LogFile> {
    if files == [] then []
    else
      var gone := Expired(files[..|files| - 1], cutoff);
      if files[|files| - 1].modTime < cutoff then gone + [files[|files| - 1]] else gone
  }

  lemma ExpiredSnoc(files: seq<LogFile>, f: LogFile, cutoff: int)
    ensures Expired(files + [f], cutoff) ==
            if f.modTime < cutoff then Expired(files, cutoff) + [f] else Expired(files, cutoff)
  {
  }

  lemma {:induction false} FilesSplit(files: seq<LogFile>, cutoff: int)
    ensures multiset(Expired(files, cutoff)) + multiset(Unexpired(files, cutoff)) == multiset(files)
  {
    if files != [] {
      hide Expired, Unexpired;
      var init, last := files[..|files| - 1], files[|files| - 1];
      assert files == init + [last];
      FilesSplit(init, cutoff);
      UnexpiredSnoc(init, last, cutoff);
      ExpiredSnoc(init, last, cutoff);
    }
  }

  lemma {:induction false} BytesSplit(files: seq<LogFile>, cutoff: int)
    ensures Total(Expired(files, cutoff)) + Total(Unexpired(files, cutoff)) == Total(files)
  {
    if files != [] {
      hide Expired, Unexpired, Total;
      var init, last := files[..|files| - 1], files[|files| - 1];
      assert files == init + [last];
      BytesSplit(init, cutoff);
      UnexpiredSnoc(init, last, cutoff);
      ExpiredSnoc(init, last, cutoff);
      TotalOne(last);
      TotalAppend(init, [last]);
      TotalAppend(if last.modTime < cutoff then Expired(init, cutoff) else Unexpired(init, cutoff), [last]);
    }
  }

  // Every file is either removed or kept, and so is every byte.
  lemma ExpirySplits(files: seq<LogFile>, cutoff: int)
    ensures multiset(Expired(files, cutoff)) + multiset(Unexpired(files, cutoff)) == multiset(files)
    ensures Total(Expired(files, cutoff)) + Total(Unexpired(files, cutoff)) == Total(files)
  {
    hide Expired, Unexpired, Total;
    FilesSplit(files, cutoff);
    BytesSplit(files, cutoff);
  }

  lemma PathsSnoc(files: seq<LogFile>, f: LogFile)
    ensures Paths(files + [f]) == Paths(files) + [f.path]
  {
  }

  // What a pass has done when it could not remove file k.
  predicate StoppedAt(files: seq<LogFile>, cutoff: int, removable: set<LogFile>, k: nat, paths: seq<string>, remaining: seq<LogFile>) {
    && k < |files| && files[k].modTime < cutoff && files[k] !in removable
    && paths == Paths(Expired(files[..k], cutoff))
    && remaining == Unexpired(files[..k], cutoff) + files[k..]
  }

  // ---------- sort.Strings ----------

  // Byte order, the shorter of two texts with a common start first.
  predicate NotAfter(a: string, b: string) {
    a == "" || (b != "" && (a[0] < b[0] || (a[0] == b[0] && NotAfter(a[1..], b[1..]))))
  }

  lemma {:induction false} NotAfterTotal(a: string, b: string)
    ensures NotAfter(a, b) || NotAfter(b, a)
  {
    if a != "" && b != "" {
      NotAfterTotal(a[1..], b[1..]);
    }
  }

  lemma {:induction false} NotAfterTransitive(a: string, b: string, c: string)
    requires NotAfter(a, b) && NotAfter(b, c)
    ensures NotAfter(a, c)
  {
    if a != "" && a[0] == b[0] && b[0] == c[0] {
      NotAfterTransitive(a[1..], b[1..], c[1..]);
    }
  }

  // The first difference decides; a text comes before what it starts.
  lemma {:induction false} NotAfterIs(common: string, a: string, b: string)
    ensures NotAfter(common + a, common + b) <==>
            a == "" || (b != "" && if a[0] == b[0] then NotAfter(a[1..], b[1..]) else a[0] < b[0])
    ensures NotAfter(common, common + b) && (NotAfter(common + a, common) <==> a == "")
  {
    if common == "" {
      assert common + a == a && common + b == b;
    } else {
      assert (common + a)[1..] == common[1..] + a && (common + b)[1..] == common[1..] + b;
      NotAfterIs(common[1..], a, b);
    }
  }

  predicate InByteOrder(paths: seq<string>) {
    forall i, j | 0 <= i < j < |paths| :: NotAfter(paths[i], paths[j])
  }

  method InsertPath(sorted: seq<string>, path: string) returns (r: seq<string>)
    requires InByteOrder(sorted)
    ensures InByteOrder(r) && multiset(r) == multiset(sorted) + multiset{path}
  {
    hide NotAfter;
    var i := 0;
    while i < |sorted| && NotAfter(sorted[i], path)
      invariant 0 <= i <= |sorted|
      invariant forall j | 0 <= j < i :: NotAfter(sorted[j], path)
    {
      i := i + 1;
    }
    forall j | i <= j < |sorted|
      ensures NotAfter(path, sorted[j])
    {
      NotAfterTotal(sorted[i], path);
      if j > i {
        NotAfterTransitive(path, sorted[i], sorted[j]);
      }
    }
    r := sorted[..i] + [path] + sorted[i..];
    assert sorted == sorted[..i] + sorted[i..];
  }

  lemma NoPaths()
    ensures InByteOrder([])
  {
  }

  method SortStrings(paths: seq<string>) returns (r: seq<string>)
    ensures InByteOrder(r) && multiset(r) == multiset(paths)
  {
    hide InByteOrder;
    r := [];
    assert InByteOrder([]) by { NoPaths(); }
    for i := 0 to |paths|
      invariant InByteOrder(r) && multiset(r) == multiset(paths[..i])
    {
      r := InsertPath(r, paths[i]);
      assert paths[..i + 1] == paths[..i] + [paths[i]];
    }
    assert paths[..|paths|] == paths;
  }

  lemma NothingToExpire(cutoff: int)
    ensures Paths(Expired([], cutoff)) == [] && Unexpired([], cutoff) == []
  {
  }

  // On success the paths come back sorted by name.
  method RemoveExpired(files: seq<LogFile>, retention: int, now: int, removable: set<LogFile>)
      returns (outcome: Outcome, remaining: seq<LogFile>, ghost stopped: nat)
    ensures outcome == BadArgument <==> retention <= 0
    ensures outcome == BadArgument ==> remaining == files
    ensures outcome.Removed? ==>
              && remaining == Unexpired(files, now - retention)
              && multiset(outcome.paths) == multiset(Paths(Expired(files, now - retention)))
              && InByteOrder(outcome.paths)
    ensures outcome.RemoveFailed? ==>
              StoppedAt(files, now - retention, removable, stopped, outcome.paths, remaining)
    // It succeeds exactly if every expired file can be removed.
    ensures retention > 0 ==>
              (outcome.Removed? <==> forall f | f in files && f.modTime < now - retention :: f in removable)
  {
    hide Paths;
    remaining, stopped := files, 0;
    if retention <= 0 {
      return BadArgument, files, 0;
    }
    hide Expired, Unexpired, InByteOrder;
    var cutoff := now - retention;
    var kept: seq<LogFile> := [];
    var removed: seq<string> := [];
    NothingToExpire(cutoff);
    for i := 0 to |files|
      invariant kept == Unexpired(files[..i], cutoff)
      invariant removed == Paths(Expired(files[..i], cutoff))
      invariant forall j | 0 <= j < i && files[j].modTime < cutoff :: files[j] in removable
    {
      var file := files[i];
      assert files[..i + 1] == files[..i] + [file];
      UnexpiredSnoc(files[..i], file, cutoff);
      ExpiredSnoc(files[..i], file, cutoff);
      PathsSnoc(Expired(files[..i], cutoff), file);
      if file.modTime < cutoff {
        if file !in removable {
          return RemoveFailed(removed), kept + files[i..], i;
        }
        removed := removed + [file.path];
      } else {
        kept := kept + [file];
      }
    }
    assert files[..|files|] == files;
    removed := SortStrings(removed);
    return Removed(removed), kept, 0;
  }

  const DEFAULT_TOTAL_LIMIT_BYTES: int := 5 * 1024 * 1024 * 1024

  // int64(TotalLimitMB) * 1024 * 1024, with the machine's wrap-around.
  function LimitBytes(totalLimitMb: int): int {
    var product := totalLimitMb * 1024 * 1024;
    var wrapped := (product + 0x8000_0000_0000_0000) % 0x1_0000_0000_0000_0000 - 0x8000_0000_0000_0000;
    if wrapped <= 0 then DEFAULT_TOTAL_LIMIT_BYTES else wrapped
  }

  lemma YoungOnly(files: seq<LogFile>, cutoff: int)
    ensures forall f | f in Unexpired(files, cutoff) :: f in files && f.modTime >= cutoff
  {
  }

  lemma LimitIsPositive(totalLimitMb: int)
    ensures LimitBytes(totalLimitMb) > 0
  {
  }

  lemma Multiple(q: int)
    ensures q * 0x1_0000_0000_0000_0000 % 0x1_0000_0000_0000_0000 == 0
  {
  }

  // Megabytes as bytes wherever that fits 64 bits, and otherwise with a multiple
  // of 2 to the 64th taken off; five gigabytes if that is not positive.
  lemma LimitIs(totalLimitMb: int) returns (bytes: int)
    ensures 0 < totalLimitMb <= 8_796_093_022_207 ==> LimitBytes(totalLimitMb) == totalLimitMb * 1_048_576
    ensures -8_796_093_022_208 <= totalLimitMb <= 0 ==> LimitBytes(totalLimitMb) == 5_368_709_120
    ensures -0x8000_0000_0000_0000 <= bytes <= 0x7fff_ffff_ffff_ffff
    ensures (bytes - totalLimitMb * 1_048_576) % 0x1_0000_0000_0000_0000 == 0
    ensures LimitBytes(totalLimitMb) == if bytes > 0 then bytes else 5_368_709_120
  {
    var m := totalLimitMb * 1_048_576 + 0x8000_0000_0000_0000;
    var q := m / 0x1_0000_0000_0000_0000;
    bytes := m % 0x1_0000_0000_0000_0000 - 0x8000_0000_0000_0000;
    assert bytes - totalLimitMb * 1_048_576 == -q * 0x1_0000_0000_0000_0000;
    Multiple(-q);
  }

  lemma RemainAreSome(files: seq<LogFile>, sorted: seq<LogFile>, gone: nat)
    requires multiset(sorted) == multiset(files) && gone <= |sorted|
    ensures forall f | f in sorted[gone..] :: f in files
  {
    forall f | f in sorted[gone..]
      ensures f in files
    {
      assert f in multiset(sorted);
    }
  }

  // Which young files a pass over them has dropped: `gone` of them, oldest
  // first, each while what was left still exceeded the limit.
  ghost predicate PrunedTo(young: seq<LogFile>, limit: int, sorted: seq<LogFile>, gone: nat, remaining: seq<LogFile>) {
    && gone <= |sorted| && multiset(sorted) == multiset(young) && OldestFirst(sorted)
    && remaining == sorted[gone..] && forall n | 0 <= n < gone :: Total(sorted[n..]) > limit
  }

  // Every expired file can be removed.
  predicate CanExpire(files: seq<LogFile>, cutoff: int, removable: set<LogFile>) {
    forall f | f in files && f.modTime < cutoff :: f in removable
  }

  // enforceLogStorageLimits: when both passes succeed, every survivor is young
  // enough and the survivors fit the limit. The young files dropped are the
  // shortest oldest-first part that makes the rest fit, and the only failures
  // are removals that were needed.
  method EnforceLogStorageLimits(files: seq<LogFile>, retention: int, totalLimitMb: int, now: int, removable: set<LogFile>)
      returns (ok: bool, remaining: seq<LogFile>, ghost sorted: seq<LogFile>, ghost gone: nat)
    ensures ok ==> Total(remaining) <= LimitBytes(totalLimitMb)
    ensures ok && 0 < totalLimitMb <= 8_796_093_022_207 ==> Total(remaining) <= totalLimitMb * 1_048_576
    ensures ok && -8_796_093_022_208 <= totalLimitMb <= 0 ==> Total(remaining) <= 5_368_709_120
    ensures ok ==> forall f | f in remaining :: f in files && f.modTime >= now - retention
    // Nothing young is dropped while everything young fits.
    ensures ok && Total(Unexpired(files, now - retention)) <= LimitBytes(totalLimitMb) ==>
              multiset(remaining) == multiset(Unexpired(files, now - retention))
    ensures ok && 0 < totalLimitMb <= 8_796_093_022_207
            && Total(Unexpired(files, now - retention)) <= totalLimitMb * 1_048_576 ==>
              multiset(remaining) == multiset(Unexpired(files, now - retention))
    ensures retention > 0 && CanExpire(files, now - retention, removable) ==>
              PrunedTo(Unexpired(files, now - retention), LimitBytes(totalLimitMb), sorted, gone, remaining)
    ensures ok <==>
              && retention > 0 && CanExpire(files, now - retention, removable)
              && forall n | 0 <= n < |sorted| && Total(sorted[n..]) > LimitBytes(totalLimitMb) :: sorted[n] in removable
    ensures retention > 0 && (forall f | f in files :: f in removable) ==> ok
  {
    hide Total, Expired, Unexpired, LimitBytes, OldestFirst, Paths, StoppedAt;
    sorted, gone := [], 0;
    var outcome, young;
    ghost var stopped;
    outcome, young, stopped := RemoveExpired(files, retention, now, removable);
    if !outcome.Removed? {
      return false, young, sorted, gone;
    }
    YoungOnly(files, now - retention);
    LimitIsPositive(totalLimitMb);
    ghost var bytes := LimitIs(totalLimitMb);
    outcome, remaining, sorted, gone := PruneToTotalLimit(young, LimitBytes(totalLimitMb), removable);
    RemainAreSome(young, sorted, gone);
    RemainAreSome(young, sorted, 0);
    assert gone > 0 ==> Total(sorted[0..]) > LimitBytes(totalLimitMb);
    assert sorted[0..] == sorted;
    return outcome.Removed?, remaining, sorted, gone;
  }
}
