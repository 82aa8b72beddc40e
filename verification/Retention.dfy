/** Log retention: files past the age limit go first, then the oldest ones until the rest fits the size limit. */
module Retention {
  import opened Text

  datatype LogFile = LogFile(path: string, size: nat, mtime: int)

  /** A directory entry; `info` is `None` for one that cannot be examined, `age` is its age when it is looked at. */
  datatype Entry = Entry(isDir: bool, info: Option<LogFile>, age: int)

  predicate Eligible(e: Entry) {
    !e.isDir && e.info.Some?
  }

  /** The files within the age limit, in directory order. */
  function Unexpired(es: seq<Entry>, maxAge: int): seq<LogFile> {
    if es == [] then []
    else
      var n := |es| - 1;
      Unexpired(es[..n], maxAge) + if Eligible(es[n]) && es[n].age <= maxAge then [es[n].info.value] else []
  }

  /** Where in the directory the file is listed and within the age limit. */
  ghost function Places(es: seq<Entry>, maxAge: int, f: LogFile): set<nat> {
    set i: nat | i < |es| && !es[i].isDir && es[i].info == Some(f) && es[i].age <= maxAge
  }

  lemma PlacesStep(es: seq<Entry>, maxAge: int, f: LogFile)
    requires es != []
    ensures var n := |es| - 1;
            |Places(es, maxAge, f)| ==
            |Places(es[..n], maxAge, f)| + if !es[n].isDir && es[n].info == Some(f) && es[n].age <= maxAge then 1 else 0
  {
    var n := |es| - 1;
    assert Places(es, maxAge, f) == Places(es[..n], maxAge, f) + if n in Places(es, maxAge, f) then {n} else {};
  }

  /** A file counts as often as it is listed and within the age limit, so never once it has expired. */
  lemma {:induction false} UnexpiredPlaces(es: seq<Entry>, maxAge: int, f: LogFile)
    ensures multiset(Unexpired(es, maxAge))[f] == |Places(es, maxAge, f)|
  {
    hide Places;
    if es == [] {
      NoPlaces(maxAge, f);
    } else {
      UnexpiredPlaces(es[..|es| - 1], maxAge, f);
      PlacesStep(es, maxAge, f);
    }
  }

  lemma NoPlaces(maxAge: int, f: LogFile)
    ensures Places([], maxAge, f) == {}
  {
  }

  /** The paths past the age limit that could be removed. */
  function ExpiredGone(es: seq<Entry>, maxAge: int, removable: string -> bool): set<string> {
    set e | e in es && Eligible(e) && e.age > maxAge && removable(e.info.value.path) :: e.info.value.path
  }

  function Sum(fs: seq<LogFile>): nat {
    if fs == [] then 0 else fs[0].size + Sum(fs[1..])
  }

  lemma {:induction false} SumConcat(a: seq<LogFile>, b: seq<LogFile>)
    ensures Sum(a + b) == Sum(a) + Sum(b)
  {
    if a == [] {
      assert a + b == b;
    } else {
      assert (a + b)[1..] == a[1..] + b;
      SumConcat(a[1..], b);
    }
  }

  lemma {:induction false} SumPermuted(a: seq<LogFile>, b: seq<LogFile>)
    requires multiset(a) == multiset(b)
    ensures Sum(a) == Sum(b)
    decreases |a|
  {
    if a == [] {
      assert |multiset(b)| == 0;
    } else {
      var i := PermutedRest(a, b);
      SumPermuted(a[1..], b[..i] + b[i + 1..]);
      hide *;
      SumWithout(b, i);
      SumWithout(a, 0);
      assert a[..0] + a[1..] == a[1..];
    }
  }

  lemma PermutedRest(a: seq<LogFile>, b: seq<LogFile>) returns (i: nat)
    requires multiset(a) == multiset(b) && a != []
    ensures i < |b| && b[i] == a[0] && multiset(a[1..]) == multiset(b[..i] + b[i + 1..])
  {
    assert a[0] in multiset(b);
    i :| 0 <= i < |b| && b[i] == a[0];
    var rest := b[..i] + b[i + 1..];
    assert a == [a[0]] + a[1..];
    CountWithout(b, i);
    Cancel(multiset(a[1..]), multiset(rest), a[0]);
  }

  lemma CountWithout(b: seq<LogFile>, i: nat)
    requires i < |b|
    ensures multiset(b) == multiset{b[i]} + multiset(b[..i] + b[i + 1..])
  {
    assert b == b[..i] + ([b[i]] + b[i + 1..]);
  }

  lemma Cancel(a: multiset<LogFile>, b: multiset<LogFile>, x: LogFile)
    requires multiset{x} + a == multiset{x} + b
    ensures a == b
  {
    assert multiset{x} + a - multiset{x} == a && multiset{x} + b - multiset{x} == b;
  }

  lemma SumWithout(b: seq<LogFile>, i: nat)
    requires i < |b|
    ensures Sum(b) == b[i].size + Sum(b[..i] + b[i + 1..])
  {
    hide Sum;
    var pre, post := b[..i], b[i + 1..];
    assert b == pre + ([b[i]] + post);
    SumConcat(pre, post);
    SumConcat(pre, [b[i]] + post);
    SumCons(b[i], post);
  }

  lemma SumCons(f: LogFile, fs: seq<LogFile>)
    ensures Sum([f] + fs) == f.size + Sum(fs)
  {
    assert ([f] + fs)[1..] == fs;
  }

  ghost predicate OldestFirst(fs: seq<LogFile>) {
    forall i, j | 0 <= i < j < |fs| :: fs[i].mtime <= fs[j].mtime
  }

  /** Some order by time; among files of the same time the order is left open. */
  method SortByTime(files: seq<LogFile>) returns (r: seq<LogFile>)
    ensures OldestFirst(r) && multiset(r) == multiset(files)
  {
    hide OldestFirst;
    r := [];
    NothingSorted();
    for i := 0 to |files|
      invariant OldestFirst(r) && multiset(r) == multiset(files[..i])
    {
      r := InsertByTime(r, files[i]);
      assert files[..i + 1] == files[..i] + [files[i]];
    }
    assert files[..|files|] == files;
  }

  lemma SortedByTime(fs: seq<LogFile>)
    requires OldestFirst(fs)
    ensures forall i, j | 0 <= i < j < |fs| :: fs[i].mtime <= fs[j].mtime
  {
  }

  lemma NothingSorted()
    ensures OldestFirst([])
  {
  }

  method InsertByTime(fs: seq<LogFile>, f: LogFile) returns (r: seq<LogFile>)
    requires OldestFirst(fs)
    ensures OldestFirst(r) && multiset(r) == multiset(fs) + multiset{f}
  {
    var k := |fs|;
    while k > 0 && fs[k - 1].mtime > f.mtime
      invariant 0 <= k <= |fs|
      invariant forall j | k <= j < |fs| :: f.mtime < fs[j].mtime
    {
      k := k - 1;
    }
    r := fs[..k] + [f] + fs[k..];
    InsertedSorted(fs, f, k);
    InsertedCount(fs, f, k);
  }

  lemma InsertedCount(fs: seq<LogFile>, f: LogFile, k: nat)
    requires k <= |fs|
    ensures multiset(fs[..k] + [f] + fs[k..]) == multiset(fs) + multiset{f}
  {
    assert fs == fs[..k] + fs[k..];
  }

  lemma InsertedSorted(fs: seq<LogFile>, f: LogFile, k: nat)
    requires OldestFirst(fs) && k <= |fs| && (k > 0 ==> fs[k - 1].mtime <= f.mtime)
    requires forall j | k <= j < |fs| :: f.mtime <= fs[j].mtime
    ensures OldestFirst(fs[..k] + [f] + fs[k..])
  {
    var r := fs[..k] + [f] + fs[k..];
    assert forall i | 0 <= i < k :: r[i] == fs[i] && fs[i].mtime <= f.mtime;
    assert r[k] == f;
    assert forall i | k < i < |r| :: r[i] == fs[i - 1];
  }

  /** The files among the first `n` that could not be removed, and all behind them. */
  function Left(fs: seq<LogFile>, n: nat, removable: string -> bool): seq<LogFile>
    requires n <= |fs|
  {
    if n == 0 then fs
    else Kept(fs[..n], removable) + fs[n..]
  }

  function Kept(fs: seq<LogFile>, removable: string -> bool): seq<LogFile> {
    if fs == [] then []
    else
      var n := |fs| - 1;
      Kept(fs[..n], removable) + if removable(fs[n].path) then [] else [fs[n]]
  }

  function Gone(fs: seq<LogFile>, removable: string -> bool): set<string> {
    set f | f in fs && removable(f.path) :: f.path
  }

  lemma LeftStep(fs: seq<LogFile>, n: nat, removable: string -> bool)
    requires n < |fs|
    ensures Sum(Left(fs, n, removable)) ==
            Sum(Left(fs, n + 1, removable)) + if removable(fs[n].path) then fs[n].size else 0
  {
    var k, k1 := Kept(fs[..n], removable), Kept(fs[..n + 1], removable);
    assert fs[..n + 1][..n] == fs[..n] && fs[n..] == [fs[n]] + fs[n + 1..];
    assert fs[..0] == [] && (n == 0 ==> k + fs[n..] == fs);
    assert Left(fs, n, removable) == k + fs[n..];
    SumConcat(k, fs[n..]);
    SumConcat(k1, fs[n + 1..]);
    SumConcat(k, [fs[n]]);
    assert k + [] == k;
  }

  class LogServer {
    var disk: set<string>
    const maxAge: int
    const maxBytes: int

    constructor (disk: set<string>, maxAge: int, maxBytes: int)
      ensures this.disk == disk && this.maxAge == maxAge && this.maxBytes == maxBytes
    {
      this.disk, this.maxAge, this.maxBytes := disk, maxAge, maxBytes;
    }

    method Remove(path: string, removable: string -> bool) returns (ok: bool)
      modifies this`disk
      ensures ok == removable(path) && disk == old(disk) - (if ok then {path} else {})
    {
      ok := removable(path);
      if ok { disk := disk - {path}; }
    }

    method Scan(entries: seq<Entry>, removable: string -> bool) returns (files: seq<LogFile>, total: int)
      modifies this`disk
      ensures files == Unexpired(entries, maxAge) && total == Sum(files)
      ensures disk == old(disk) - ExpiredGone(entries, maxAge, removable)
    {
      files, total := [], 0;
      for i := 0 to |entries|
        invariant files == Unexpired(entries[..i], maxAge) && total == Sum(files)
        invariant disk == old(disk) - ExpiredGone(entries[..i], maxAge, removable)
      {
        var e := entries[i];
        assert entries[..i + 1][..i] == entries[..i];
        ExpiredStep(entries, i, maxAge, removable);
        if e.isDir || e.info.None? { continue; }
        var f := e.info.value;
        if e.age > maxAge {
          var _ := Remove(f.path, removable);
          continue;
        }
        SumConcat(files, [f]);
        files := files + [f];
        total := total + f.size;
      }
      assert entries[..|entries|] == entries;
    }

    /** The running total is always the unexpired bytes still on disk; the loop ends within the limit, or with every
        unexpired file tried; exactly the removable files that were tried, and the removable expired ones, are gone. */
    method ApplyRetention(entries: seq<Entry>, removable: string -> bool)
      returns (total: int, ghost sorted: seq<LogFile>, ghost tried: nat)
      modifies this`disk
      ensures OldestFirst(sorted) && multiset(sorted) == multiset(Unexpired(entries, maxAge)) && tried <= |sorted|
      ensures forall i, j | 0 <= i < j < |sorted| :: sorted[i].mtime <= sorted[j].mtime
      ensures forall f :: multiset(sorted)[f] == |Places(entries, maxAge, f)|
      ensures total == Sum(Left(sorted, tried, removable))
      ensures total <= maxBytes || tried == |sorted|
      ensures forall k | 0 <= k < tried :: Sum(Left(sorted, k, removable)) > maxBytes
      ensures disk == old(disk) - ExpiredGone(entries, maxAge, removable) - Gone(sorted[..tried], removable)
      ensures maxBytes >= 0 && (forall f | f in sorted :: removable(f.path)) ==>
                forall k | 0 <= k <= |sorted| :: Sum(sorted[k..]) <= maxBytes <==> k >= tried
    {
      hide Left, Gone, Unexpired, ExpiredGone, OldestFirst, Places;
      forall f ensures multiset(Unexpired(entries, maxAge))[f] == |Places(entries, maxAge, f)| {
        UnexpiredPlaces(entries, maxAge, f);
      }
      var files;
      files, total := Scan(entries, removable);
      ghost var scanned := disk;
      var queue := SortByTime(files);
      SumPermuted(files, queue);
      sorted, tried := queue, 0;
      assert sorted[0..] == sorted;
      NothingTried(sorted, removable);
      while total > maxBytes && |queue| > 0
        invariant tried <= |sorted| && queue == sorted[tried..]
        invariant total == Sum(Left(sorted, tried, removable))
        invariant forall k | 0 <= k < tried :: Sum(Left(sorted, k, removable)) > maxBytes
        invariant disk == scanned - Gone(sorted[..tried], removable)
        decreases |queue|
      {
        var f := queue[0];
        queue := queue[1..];
        LeftStep(sorted, tried, removable);
        GoneStep(sorted, tried, removable);
        var ok := Remove(f.path, removable);
        if ok {
          total := total - f.size;
        }
        tried := tried + 1;
      }
      SortedByTime(sorted);
      if maxBytes >= 0 && forall f | f in sorted :: removable(f.path) {
        KeepsLongestFitting(sorted, tried, removable, maxBytes, total);
      }
    }
  }

  lemma NothingTried(fs: seq<LogFile>, removable: string -> bool)
    ensures Left(fs, 0, removable) == fs && Gone(fs[..0], removable) == {}
  {
  }

  lemma ExpiredStep(es: seq<Entry>, i: nat, maxAge: int, removable: string -> bool)
    requires i < |es|
    ensures ExpiredGone(es[..i + 1], maxAge, removable) ==
            ExpiredGone(es[..i], maxAge, removable) +
            if Eligible(es[i]) && es[i].age > maxAge && removable(es[i].info.value.path) then {es[i].info.value.path} else {}
  {
    assert es[..i + 1] == es[..i] + [es[i]];
  }

  lemma GoneStep(fs: seq<LogFile>, n: nat, removable: string -> bool)
    requires n < |fs|
    ensures Gone(fs[..n + 1], removable) == Gone(fs[..n], removable) + if removable(fs[n].path) then {fs[n].path} else {}
  {
    assert fs[..n + 1] == fs[..n] + [fs[n]];
  }

  // ---- what is kept when every removal succeeds ----

  lemma {:induction false} KeptNone(fs: seq<LogFile>, removable: string -> bool)
    requires forall f | f in fs :: removable(f.path)
    ensures Kept(fs, removable) == []
  {
    if fs != [] { KeptNone(fs[..|fs| - 1], removable); }
  }

  lemma LeftIsSuffix(fs: seq<LogFile>, n: nat, removable: string -> bool)
    requires n <= |fs| && forall f | f in fs :: removable(f.path)
    ensures Left(fs, n, removable) == fs[n..]
  {
    KeptNone(fs[..n], removable);
  }

  lemma {:induction false} SuffixSmaller(fs: seq<LogFile>, i: nat, j: nat)
    requires i <= j <= |fs|
    ensures Sum(fs[j..]) <= Sum(fs[i..])
    decreases j - i
  {
    if i < j {
      assert fs[i..] == [fs[i]] + fs[i + 1..];
      SuffixSmaller(fs, i + 1, j);
    }
  }

  /** If every removal succeeds and the limit is not negative, the files kept are exactly the longest newest-first part
      of the unexpired files that fits: it fits, and a part from any place fits only if it starts no earlier. */
  lemma KeepsLongestFitting(sorted: seq<LogFile>, tried: nat, removable: string -> bool, maxBytes: int, total: int)
    requires tried <= |sorted| && maxBytes >= 0 && forall f | f in sorted :: removable(f.path)
    requires total == Sum(Left(sorted, tried, removable)) && (total <= maxBytes || tried == |sorted|)
    requires forall k | 0 <= k < tried :: Sum(Left(sorted, k, removable)) > maxBytes
    ensures Left(sorted, tried, removable) == sorted[tried..]
    ensures forall k | 0 <= k <= |sorted| :: Sum(sorted[k..]) <= maxBytes <==> k >= tried
  {
    forall k | 0 <= k <= |sorted| ensures Sum(sorted[k..]) <= maxBytes <==> k >= tried {
      LeftIsSuffix(sorted, k, removable);
      LeftIsSuffix(sorted, tried, removable);
      if k >= tried {
        SuffixSmaller(sorted, tried, k);
      }
    }
    LeftIsSuffix(sorted, tried, removable);
  }
}
