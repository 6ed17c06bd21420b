// The local cache: one host's files, and oldest-first eviction.
module Cache {
  import opened Storage

  datatype File = File(content: Blob, size: nat, mtime: int)

  function ContentsOf(files: map<string, File>): map<string, Blob> {
    map p | p in files :: files[p].content
  }

  /** The files under the cache root of one host. */
  class LocalDisk {
    var files: map<string, File>

    constructor ()
      ensures files == map[]
    {
      files := map[];
    }

    function Contents(): map<string, Blob>
      reads this
    {
      ContentsOf(files)
    }

    method Store(path: string, content: Blob, size: nat, now: int)
      modifies this
      ensures files == old(files)[path := File(content, size, now)]
      ensures Contents() == old(Contents())[path := content]
    {
      files := files[path := File(content, size, now)];
    }
  }

  // ------------------------------------------------------------------ total bytes

  ghost function TotalBytes(files: map<string, File>): nat
    decreases |files|
  {
    if files == map[] then 0 else
      var p :| p in files;
      files[p].size + TotalBytes(files - {p})
  }

  /** The sum does not depend on the order of the walk. */
  lemma {:induction false} TotalWithout(files: map<string, File>, p: string)
    requires p in files
    ensures TotalBytes(files) == files[p].size + TotalBytes(files - {p})
    decreases |files|
  {
    var q :| q in files && TotalBytes(files) == files[q].size + TotalBytes(files - {q});
    if q != p {
      TotalWithout(files - {q}, p);
      TotalWithout(files - {p}, q);
      assert files - {q} - {p} == files - {p} - {q};
    }
  }

  /** A listing of a directory walk: every file once. */
  ghost predicate Lists(order: seq<string>, files: map<string, File>) {
    && (forall i, j | 0 <= i < j < |order| :: order[i] != order[j])
    && (forall p :: p in order <==> p in files)
  }

  method Walk(disk: LocalDisk) returns (walk: seq<string>)
    ensures Lists(walk, disk.files)
  {
    walk := [];
    var left := disk.files.Keys;
    while left != {}
      invariant forall p :: p in walk <==> p in disk.files && p !in left
      invariant left <= disk.files.Keys
      invariant forall i, j | 0 <= i < j < |walk| :: walk[i] != walk[j]
      decreases left
    {
      var p :| p in left;
      walk := walk + [p];
      left := left - {p};
    }
  }

  /** total_bytes: the sum over a walk is the size of the cache. */
  method TotalBytesOf(disk: LocalDisk, walk: seq<string>) returns (total: nat)
    requires Lists(walk, disk.files)
    ensures total == TotalBytes(disk.files)
  {
    total := 0;
    ghost var rest := disk.files;
    for i := 0 to |walk|
      invariant rest.Keys == set k | i <= k < |walk| :: walk[k]
      invariant forall p | p in rest :: p in disk.files && rest[p] == disk.files[p]
      invariant total + TotalBytes(rest) == TotalBytes(disk.files)
    {
      TotalWithout(rest, walk[i]);
      total := total + disk.files[walk[i]].size;
      rest := rest - {walk[i]};
    }
  }

  // ------------------------------------------------------------------- the eviction

  function Age(files: map<string, File>): string -> int {
    p => if p in files then files[p].mtime else 0
  }

  ghost predicate Ascending<T>(s: seq<T>, key: T -> int) {
    forall i, j | 0 <= i < j < |s| :: s[i] != s[j] && key(s[i]) <= key(s[j])
  }

  ghost predicate MtimeOrder(order: seq<string>, files: map<string, File>) {
    Ascending(order, Age(files))
  }

  /** The files whose unlink succeeded among the first k. */
  function Unlinked(order: seq<string>, fails: nat -> bool, k: nat): set<string>
    requires k <= |order|
  {
    set i | 0 <= i < k && !fails(i) :: order[i]
  }

  /** list.sort(key=...), by insertion. */
  method SortBy<T(==)>(walk: seq<T>, key: T -> int) returns (order: seq<T>)
    requires forall i, j | 0 <= i < j < |walk| :: walk[i] != walk[j]
    ensures Ascending(order, key)
    ensures forall x :: x in order <==> x in walk
  {
    order := [];
    for i := 0 to |walk|
      invariant forall x :: x in order <==> x in walk[..i]
      invariant Ascending(order, key)
    {
      assert walk[i] !in walk[..i];
      assert walk[..i + 1] == walk[..i] + [walk[i]];
      order := InsertBy(order, walk[i], key);
    }
    assert walk[..|walk|] == walk;
  }

  method InsertBy<T(==)>(order: seq<T>, x: T, key: T -> int) returns (r: seq<T>)
    requires x !in order && Ascending(order, key)
    ensures Ascending(r, key)
    ensures forall y :: y in r <==> y in order || y == x
  {
    var at := |order|;
    while at > 0 && key(order[at - 1]) > key(x)
      invariant 0 <= at <= |order|
      invariant forall k | at <= k < |order| :: key(order[k]) > key(x)
    {
      at := at - 1;
    }
    r := order[..at] + [x] + order[at..];
    InsertedAt(order, at, x, key, r);
    assert order == order[..at] + order[at..];
  }

  lemma InsertedAt<T>(order: seq<T>, at: nat, x: T, key: T -> int, r: seq<T>)
    requires Ascending(order, key) && at <= |order| && x !in order
    requires forall k | at <= k < |order| :: key(order[k]) > key(x)
    requires at > 0 ==> key(order[at - 1]) <= key(x)
    requires |r| == |order| + 1 && r[at] == x
    requires forall i | 0 <= i < at :: r[i] == order[i]
    requires forall i | at < i < |r| :: r[i] == order[i - 1]
    ensures Ascending(r, key)
  {
    forall k | 0 <= k < at ensures key(order[k]) <= key(x) {
      assert k < at - 1 ==> key(order[k]) <= key(order[at - 1]);
    }
  }

  /** What the loop has done when it has tried the first k files. */
  ghost predicate Tried(files: map<string, File>, files': map<string, File>, maxBytes: int,
                        order: seq<string>, fails: nat -> bool, k: nat) {
    && k <= |order|
    && files' == files - Unlinked(order, fails, k)
    && (forall m | 0 <= m < k :: TotalBytes(files - Unlinked(order, fails, m)) > maxBytes)
  }

  /** One eviction, from the files before to the files after. */
  ghost predicate Evicted(files: map<string, File>, files': map<string, File>, maxBytes: int, fails: nat -> bool) {
    exists order, k: nat :: Lists(order, files) && MtimeOrder(order, files) && Tried(files, files', maxBytes, order, fails, k)
                    && (k < |order| ==> TotalBytes(files') <= maxBytes)
  }

  /**
   * evict_if_over. k is how far the loop got: each file before it was tried
   * while the cache was still over the cap, and what could be unlinked is gone;
   * the loop stops as soon as the remaining bytes fit.
   */
  method EvictIfOver(disk: LocalDisk, maxBytes: int, walk: seq<string>, fails: nat -> bool)
    returns (evicted: nat, ghost order: seq<string>, ghost k: nat)
    requires Lists(walk, disk.files)
    modifies disk
    ensures Lists(order, old(disk.files)) && MtimeOrder(order, old(disk.files))
    ensures Tried(old(disk.files), disk.files, maxBytes, order, fails, k)
    ensures evicted == |old(disk.files)| - |disk.files|
    ensures maxBytes <= 0 ==> disk.files == old(disk.files)
    ensures maxBytes > 0 && k < |order| ==> TotalBytes(disk.files) <= maxBytes
    ensures maxBytes > 0 && (forall i | 0 <= i < |order| :: !fails(i)) ==> TotalBytes(disk.files) <= maxBytes
  {
    var sorted := SortBy(walk, Age(disk.files));
    order := sorted;
    if maxBytes <= 0 {
      evicted, k := 0, 0;
      assert disk.files - Unlinked(order, fails, 0) == disk.files;
      return;
    }
    var total := TotalBytesOf(disk, walk);
    evicted, k := EvictInOrder(disk, maxBytes, sorted, fails, total);
    if k == |order| { AllUnlinked(old(disk.files), order, fails); }
  }

  /** path.unlink(): the file goes, or an OSError is raised. */
  method Unlink(disk: LocalDisk, path: string, fails: bool) returns (ok: bool)
    modifies disk
    ensures ok <==> !fails
    ensures disk.files == if ok then old(disk.files) - {path} else old(disk.files)
  {
    ok := !fails;
    if ok {
      disk.files := disk.files - {path};
    }
  }

  method EvictInOrder(disk: LocalDisk, maxBytes: nat, order: seq<string>, fails: nat -> bool, before: nat)
    returns (evicted: nat, ghost k: nat)
    requires Lists(order, disk.files) && before == TotalBytes(disk.files)
    modifies disk
    ensures Tried(old(disk.files), disk.files, maxBytes, order, fails, k)
    ensures evicted == |old(disk.files)| - |disk.files|
    ensures k < |order| ==> TotalBytes(disk.files) <= maxBytes
  {
    evicted := 0;
    var total, i := before, 0;
    assert disk.files - Unlinked(order, fails, 0) == disk.files;
    while i < |order| && total > maxBytes
      invariant 0 <= i <= |order|
      invariant Tried(old(disk.files), disk.files, maxBytes, order, fails, i)
      invariant total == TotalBytes(disk.files)
      invariant evicted == |old(disk.files)| - |disk.files|
    {
      TriedNext(old(disk.files), disk.files, maxBytes, order, fails, i);
      TotalWithout(disk.files, order[i]);
      var size := disk.files[order[i]].size;
      var ok := Unlink(disk, order[i], fails(i));
      if ok {
        total := total - size;
        evicted := evicted + 1;
      }
      i := i + 1;
    }
    k := i;
  }

  lemma AllUnlinked(files: map<string, File>, order: seq<string>, fails: nat -> bool)
    requires Lists(order, files)
    ensures (forall i | 0 <= i < |order| :: !fails(i)) ==> files - Unlinked(order, fails, |order|) == map[]
  {
    if forall i | 0 <= i < |order| :: !fails(i) {
      forall p | p in files ensures p in Unlinked(order, fails, |order|) {
        assert p in order;
      }
    }
  }

  lemma TriedNext(files: map<string, File>, files': map<string, File>, maxBytes: int,
                  order: seq<string>, fails: nat -> bool, i: nat)
    requires Lists(order, files) && i < |order|
    requires Tried(files, files', maxBytes, order, fails, i) && TotalBytes(files') > maxBytes
    ensures order[i] in files' && |files' - {order[i]}| == |files'| - 1
    ensures Tried(files, if fails(i) then files' else files' - {order[i]}, maxBytes, order, fails, i + 1)
  {
    UnlinkedNext(order, fails, i, files);
    MinusOne(files, Unlinked(order, fails, i), order[i]);
  }

  lemma MinusOne(files: map<string, File>, gone: set<string>, p: string)
    requires p in files && p !in gone
    ensures files - (gone + {p}) == files - gone - {p}
    ensures p in files - gone && |files - gone - {p}| == |files - gone| - 1
  {
    assert (files - gone - {p}).Keys == (files - gone).Keys - {p};
  }

  lemma UnlinkedNext(order: seq<string>, fails: nat -> bool, i: nat, files: map<string, File>)
    requires Lists(order, files) && i < |order|
    ensures Unlinked(order, fails, i + 1) == Unlinked(order, fails, i) + if fails(i) then {} else {order[i]}
    ensures order[i] in files && order[i] !in Unlinked(order, fails, i)
  {
    assert order[i] in order;
  }

  lemma OldestGoFirst(files: map<string, File>, order: seq<string>, fails: nat -> bool, k: nat, gone: string, kept: string)
    requires Lists(order, files) && MtimeOrder(order, files) && k <= |order|
    requires gone in Unlinked(order, fails, k) && kept in files && kept !in Unlinked(order, fails, k)
    ensures files[gone].mtime <= files[kept].mtime || exists i: nat :: i < k && order[i] == kept && fails(i)
  {
    var i :| 0 <= i < k && !fails(i) && order[i] == gone;
    assert kept in order;
    var j :| 0 <= j < |order| && order[j] == kept;
    if j < k {
      assert fails(j) && order[j] == kept;
    }
  }

  /** The youngest of the evicted files. */
  ghost predicate LastToGo(files: map<string, File>, files': map<string, File>, p: string) {
    && p in files && p !in files'
    && forall q | q in files && q !in files' :: files[q].mtime <= files[p].mtime
  }

  /**
   * LRU, and no more than needed. When every unlink works, an eviction leaves a
   * cache that fits; whatever went is no younger than whatever stayed; and if
   * anything went, the youngest of it would not have fitted beside what stayed.
   */
  lemma EvictsNoMoreThanNeeded(files: map<string, File>, files': map<string, File>, maxBytes: nat, fails: nat -> bool)
    requires Evicted(files, files', maxBytes, fails) && forall i :: !fails(i)
    ensures TotalBytes(files') <= maxBytes
    ensures forall p, q | p in files && p !in files' && q in files' :: files[p].mtime <= files[q].mtime
    ensures files' != files ==>
              exists p :: LastToGo(files, files', p) && TotalBytes(files') + files[p].size > maxBytes
  {
    var order, k: nat :| Lists(order, files) && MtimeOrder(order, files) && Tried(files, files', maxBytes, order, fails, k)
                         && (k < |order| ==> TotalBytes(files') <= maxBytes);
    if k == |order| { AllUnlinked(files, order, fails); }
    forall p, q | p in files && p !in files' && q in files' ensures files[p].mtime <= files[q].mtime {
      OldestGoFirst(files, order, fails, k, p, q);
    }
    if k == 0 {
      assert files' == files;
    } else {
      LastDidNotFit(files, files', maxBytes, order, fails, k);
      LastIsYoungest(files, files', order, fails, k);
    }
  }

  lemma LastDidNotFit(files: map<string, File>, files': map<string, File>, maxBytes: nat,
                      order: seq<string>, fails: nat -> bool, k: nat)
    requires Lists(order, files) && 0 < k && Tried(files, files', maxBytes, order, fails, k) && !fails(k - 1)
    ensures order[k - 1] in files && TotalBytes(files') + files[order[k - 1]].size > maxBytes
  {
    var p, gone := order[k - 1], Unlinked(order, fails, k - 1);
    var m := k - 1;
    assert TotalBytes(files - Unlinked(order, fails, m)) > maxBytes;
    UnlinkedNext(order, fails, m, files);
    MinusOne(files, gone, p);
    TotalWithout(files - gone, p);
    assert files' == files - gone - {p} && (files - gone)[p] == files[p];
  }

  lemma LastIsYoungest(files: map<string, File>, files': map<string, File>, order: seq<string>, fails: nat -> bool, k: nat)
    requires Lists(order, files) && MtimeOrder(order, files) && 0 < k <= |order| && !fails(k - 1)
    requires files' == files - Unlinked(order, fails, k)
    ensures LastToGo(files, files', order[k - 1])
  {
    var last := order[k - 1];
    assert last in order && last in Unlinked(order, fails, k);
    forall q | q in files && q !in files' ensures files[q].mtime <= files[last].mtime {
      var i :| 0 <= i < k && order[i] == q;
      if i < k - 1 { assert Age(files)(order[i]) <= Age(files)(order[k - 1]); }
    }
  }
}
