/** The disk cache: stale and corrupt entries read as absent, and a store evicts the oldest files
    until the rest fit. */
module CacheDisk {
  import opened Basics

  /** One file: its payload, unless corrupt, when it was created and last touched, and its size. */
  datatype File = File(key: string, payload: Option<string>, created: nat, touched: nat, size: nat)

  function Total(files: seq<File>): nat { if files == [] then 0 else files[0].size + Total(files[1..]) }

  /** Before the files touched as late or later; equals keep their order. */
  function Insert(f: File, files: seq<File>): (r: seq<File>)
    ensures |r| == |files| + 1
  {
    if files == [] || f.touched <= files[0].touched then [f] + files else [files[0]] + Insert(f, files[1..])
  }

  /** Oldest first. */
  function ByAge(files: seq<File>): (r: seq<File>)
    ensures |r| == |files|
  {
    if files == [] then [] else Insert(files[0], ByAge(files[1..]))
  }

  /** What is left of files, oldest first and total in all, when the oldest go until the cap is met. */
  function Survivors(files: seq<File>, total: int, cap: nat): seq<File> {
    if total <= cap || files == [] then files else Survivors(files[1..], total - files[0].size, cap)
  }

  function Evicted(files: seq<File>, cap: nat): seq<File> {
    if Total(files) <= cap then files else Survivors(ByAge(files), Total(files), cap)
  }

  // ---- sorting ---------------------------------------------------------------------------------------

  predicate Ascending(files: seq<File>) { forall i, j :: 0 <= i < j < |files| ==> files[i].touched <= files[j].touched }

  function Times(f: File, files: seq<File>): nat { if files == [] then 0 else (if files[0] == f then 1 else 0) + Times(f, files[1..]) }

  lemma {:induction false} InsertIs(f: File, files: seq<File>, g: File)
    ensures Times(g, Insert(f, files)) == Times(g, files) + if g == f then 1 else 0
    ensures Total(Insert(f, files)) == Total(files) + f.size
  {
    if files == [] || f.touched <= files[0].touched {
      assert ([f] + files)[1..] == files;
    } else {
      var rest := Insert(f, files[1..]);
      InsertIs(f, files[1..], g);
      assert ([files[0]] + rest)[1..] == rest;
    }
  }

  lemma {:induction false} InsertAscending(f: File, files: seq<File>)
    requires Ascending(files)
    ensures Ascending(Insert(f, files))
    ensures Insert(f, files) != [] && (Insert(f, files)[0] == f || (files != [] && Insert(f, files)[0] == files[0]))
  {
    if files != [] && f.touched > files[0].touched {
      var rest := Insert(f, files[1..]);
      InsertAscending(f, files[1..]);
      AscendingCons(files[0], rest);
    } else if files != [] {
      AscendingCons(f, files);
    }
  }

  lemma {:induction false} AscendingCons(f: File, rest: seq<File>)
    requires Ascending(rest) && (rest != [] ==> f.touched <= rest[0].touched)
    ensures Ascending([f] + rest)
  {
    var all := [f] + rest;
    forall i, j | 0 <= i < j < |all| ensures all[i].touched <= all[j].touched {
      if i == 0 && j > 1 { assert rest[0].touched <= rest[j - 1].touched; }
    }
  }

  /** Sorting reorders and loses nothing. */
  lemma {:induction false} ByAgeIs(files: seq<File>, g: File)
    ensures Ascending(ByAge(files)) && Times(g, ByAge(files)) == Times(g, files)
    ensures Total(ByAge(files)) == Total(files)
  {
    if files != [] {
      ByAgeIs(files[1..], g);
      InsertIs(files[0], ByAge(files[1..]), g);
      InsertAscending(files[0], ByAge(files[1..]));
    }
  }

  // ---- eviction ---------------------------------------------------------------------------------------

  lemma {:induction false} TotalSuffix(files: seq<File>, k: nat)
    requires k <= |files|
    ensures Total(files[k..]) <= Total(files)
    ensures k < |files| ==> Total(files[k..]) == files[k].size + Total(files[k + 1..])
  {
    if k > 0 {
      assert files[1..][k - 1..] == files[k..];
      TotalSuffix(files[1..], k - 1);
      if k < |files| { assert files[1..][k..] == files[k + 1..]; }
    }
  }

  /** What survives is the longest newest part that fits. */
  lemma {:induction false} SurvivorsAre(files: seq<File>, cap: nat)
    ensures var s := Survivors(files, Total(files), cap);
            && |s| <= |files| && s == files[|files| - |s|..] && Total(s) <= cap
            && forall k :: 0 <= k < |files| - |s| ==> Total(files[k..]) > cap
  {
    if Total(files) <= cap || files == [] {
      assert files[0..] == files;
    } else {
      SurvivorsAre(files[1..], cap);
      var s := Survivors(files[1..], Total(files[1..]), cap);
      assert files[1..][|files| - 1 - |s|..] == files[|files| - |s|..];
      forall k | 0 <= k < |files| - |s| ensures Total(files[k..]) > cap {
        if k > 0 { assert files[1..][k - 1..] == files[k..]; } else { assert files[0..] == files; }
      }
    }
  }

  /** After eviction the files fit; nothing went if they fitted before; else exactly the oldest
      went, and keeping one more would not have fitted. */
  lemma {:induction false} EvictsOldest(files: seq<File>, cap: nat)
    ensures var kept := Evicted(files, cap);
            && Total(kept) <= cap
            && (Total(files) <= cap ==> kept == files)
            && (Total(files) > cap ==>
                  |kept| < |files| && kept == ByAge(files)[|files| - |kept|..]
                  && Total(ByAge(files)[|files| - |kept| - 1..]) > cap)
  {
    if Total(files) > cap {
      ByAgeIs(files, files[0]);
      SurvivorsAre(ByAge(files), cap);
      assert ByAge(files)[0..] == ByAge(files);
    }
  }

  lemma {:induction false} InsertLast(f: File, files: seq<File>, last: File)
    requires f.touched <= last.touched
    ensures Insert(f, files + [last]) == Insert(f, files) + [last]
  {
    if files == [] {
      assert [last][0] == last && [] + [last] == [last];
    } else if f.touched > files[0].touched {
      assert (files + [last])[1..] == files[1..] + [last];
      InsertLast(f, files[1..], last);
    }
  }

  lemma {:induction false} InsertIn(f: File, files: seq<File>, g: File)
    ensures g in Insert(f, files) <==> g == f || g in files
  {
    if files != [] && f.touched > files[0].touched { InsertIn(f, files[1..], g); }
  }

  lemma {:induction false} ByAgeIn(files: seq<File>, g: File)
    ensures g in ByAge(files) <==> g in files
  {
    if files != [] {
      InsertIn(files[0], ByAge(files[1..]), g);
      ByAgeIn(files[1..], g);
    }
  }

  lemma {:induction false} InsertNewest(f: File, files: seq<File>)
    requires forall g :: g in files ==> g.touched < f.touched
    ensures Insert(f, files) == files + [f]
  {
    if files != [] {
      assert files[0] in files && forall g :: g in files[1..] ==> g in files;
      InsertNewest(f, files[1..]);
    }
  }

  /** The file touched latest sorts last, wherever the directory lists it. */
  lemma {:induction false} NewestLast(a: seq<File>, f: File, b: seq<File>)
    requires forall g :: g in a + b ==> g.touched < f.touched
    ensures ByAge(a + [f] + b) == ByAge(a + b) + [f]
  {
    if a == [] {
      assert a + [f] + b == [f] + b && a + b == b && ([f] + b)[1..] == b;
      forall g | g in ByAge(b) ensures g.touched < f.touched { ByAgeIn(b, g); }
      InsertNewest(f, ByAge(b));
    } else {
      assert (a + [f] + b)[1..] == a[1..] + [f] + b && (a + b)[1..] == a[1..] + b && a[0] in a + b;
      assert forall g :: g in a[1..] + b ==> g in a + b;
      NewestLast(a[1..], f, b);
      InsertLast(a[0], ByAge(a[1..] + b), f);
    }
  }

  lemma {:induction false} LastSurvives(front: seq<File>, f: File, cap: nat)
    ensures var s := Survivors(front + [f], Total(front + [f]), cap); (f.size <= cap ==> f in s) && (f.size > cap ==> s == [])
  {
    var all := front + [f];
    TotalLast(front, f);
    if front == [] {
      assert all == [f] && [f][1..] == [];
    } else {
      assert all[1..] == front[1..] + [f];
      LastSurvives(front[1..], f, cap);
    }
  }

  /** A new file, younger than all others and wherever listed, survives its own store exactly if it
      fits alone; one that does not fit empties the cache. */
  lemma {:induction false} NewFileSurvives(a: seq<File>, f: File, b: seq<File>, cap: nat)
    requires forall g :: g in a + b ==> g.touched < f.touched
    ensures f.size <= cap ==> f in Evicted(a + [f] + b, cap)
    ensures f.size > cap ==> Evicted(a + [f] + b, cap) == []
  {
    hide ByAge, Survivors, Total;
    var all := a + [f] + b;
    NewestLast(a, f, b);
    ByAgeIs(all, f);
    LastSurvives(ByAge(a + b), f, cap);
    TotalLast(ByAge(a + b), f);
    assert all[|a|] == f;
  }

  lemma {:induction false} TotalLast(files: seq<File>, f: File)
    ensures Total(files + [f]) == Total(files) + f.size
  {
    if files == [] {
      assert files + [f] == [f] && [f][1..] == [];
    } else {
      assert (files + [f])[1..] == files[1..] + [f];
      TotalLast(files[1..], f);
    }
  }

  // ---- the cache -----------------------------------------------------------------------------------------

  function Without(files: seq<File>, key: string): (r: seq<File>)
    ensures forall f :: f in r ==> f in files && f.key != key
  {
    if files == [] then [] else (if files[0].key == key then [] else [files[0]]) + Without(files[1..], key)
  }

  function Find(files: seq<File>, key: string): Option<File> {
    if files == [] then None else if files[0].key == key then Some(files[0]) else Find(files[1..], key)
  }

  function Touched(files: seq<File>, key: string, now: nat): seq<File> {
    if files == [] then []
    else [if files[0].key == key then files[0].(touched := now) else files[0]] + Touched(files[1..], key, now)
  }

  class DiskLRUCache {
    const maxBytes: nat
    const ttl: nat
    var files: seq<File>

    constructor (maxBytes: nat, ttl: nat)
      ensures this.maxBytes == maxBytes && this.ttl == ttl && files == []
    {
      this.maxBytes, this.ttl := maxBytes, ttl;
      files := [];
    }

    /** A hit is of an entry that is whole and not stale, and counts as a use; a corrupt or stale one is dropped. */
    method Get(key: string, now: nat) returns (hit: Option<string>)
      modifies this
      ensures var f := old(Find(files, key));
              if f.None? then hit == None && files == old(files)
              else if f.value.payload.None? || now - f.value.created > ttl then hit == None && files == Without(old(files), key)
              else hit == f.value.payload && files == Touched(old(files), key, now)
    {
      var f := Find(files, key);
      if f.None? { return None; }
      if f.value.payload.None? || now - f.value.created > ttl {
        files := Without(files, key);
        return None;
      }
      files := Touched(files, key, now);
      hit := f.value.payload;
    }

    /** The directory lists the new file behind the first `at` others. */
    method Put(key: string, payload: string, size: nat, now: nat, at: nat)
      requires at <= |Without(files, key)|
      modifies this
      ensures var w := old(Without(files, key));
              files == Evicted(w[..at] + [File(key, Some(payload), now, now, size)] + w[at..], maxBytes)
    {
      var w := Without(files, key);
      files := w[..at] + [File(key, Some(payload), now, now, size)] + w[at..];
      Evict();
    }

    /** Oldest first, until the rest fit. */
    method Evict()
      modifies this
      ensures files == Evicted(old(files), maxBytes)
    {
      var total: int := SumSizes();
      if total <= maxBytes { return; }
      var sorted := ByAge(files);
      ByAgeIs(files, files[0]);
      var i := 0;
      while i < |sorted| && total > maxBytes
        invariant 0 <= i <= |sorted| && files == old(files)
        invariant Survivors(sorted, Total(sorted), maxBytes) == Survivors(sorted[i..], total, maxBytes)
      {
        assert sorted[i..][1..] == sorted[i + 1..];
        total := total - sorted[i].size;
        i := i + 1;
      }
      files := sorted[i..];
    }

    method SumSizes() returns (total: nat)
      ensures total == Total(files)
    {
      total := 0;
      for i := 0 to |files|
        invariant total + Total(files[i..]) == Total(files)
      {
        assert files[i..][1..] == files[i + 1..];
        total := total + files[i].size;
      }
    }
  }
}
