// File names and paths: snapshot_<id>.parquet, the local cache path, and the
// iRODS target built by the writer and rebuilt by the reader.
module Names {

  const PENDING := "pending"
  const FAILED := "failed"

  function Decimal(n: nat): (s: string)
    ensures s != []
  {
    if n < 10 then [(n + 48) as char] else Decimal(n / 10) + [(n % 10 + 48) as char]
  }

  lemma {:induction false} DecimalInjective(m: nat, n: nat)
    requires Decimal(m) == Decimal(n)
    ensures m == n
  {
    var s, t := Decimal(m), Decimal(n);
    assert m >= 10 ==> s[..|s| - 1] == Decimal(m / 10);
    assert n >= 10 ==> t[..|t| - 1] == Decimal(n / 10);
    assert s[|s| - 1] == t[|t| - 1];
    if m >= 10 && n >= 10 {
      DecimalInjective(m / 10, n / 10);
    }
  }

  lemma {:induction false} DecimalHasNoSlash(n: nat)
    ensures '/' !in Decimal(n)
  {
    if n >= 10 {
      DecimalHasNoSlash(n / 10);
    }
  }

  predicate Digit(c: char) {
    '0' <= c <= '9'
  }

  /** int(), on a run of digits. */
  function Number(digits: string): nat
    requires forall i | 0 <= i < |digits| :: Digit(digits[i])
  {
    if digits == "" then 0 else
      assert Digit(digits[|digits| - 1]);
      10 * Number(digits[..|digits| - 1]) + (digits[|digits| - 1] as int - 48)
  }

  /** A decimal reads back as its number, and is written without leading zeros. */
  lemma {:induction false} DecimalDigits(n: nat)
    ensures forall i | 0 <= i < |Decimal(n)| :: Digit(Decimal(n)[i])
    ensures Number(Decimal(n)) == n
    ensures Decimal(n)[0] == '0' ==> Decimal(n) == "0"
  {
    if n >= 10 {
      DecimalDigits(n / 10);
      var s := Decimal(n);
      assert s[..|s| - 1] == Decimal(n / 10);
      assert "0"[..0] == "" && Number("0") == 0;
    } else {
      assert Decimal(n)[..0] == "";
    }
  }

  /** The relative name stored in the catalog once a snapshot is committed. */
  function SnapshotFile(sid: nat): string {
    "snapshot_" + Decimal(sid) + ".parquet"
  }

  /** Distinct snapshots have distinct file names, and no name is a sentinel. */
  lemma SnapshotFileInjective(m: nat, n: nat)
    ensures SnapshotFile(m) == SnapshotFile(n) ==> m == n
    ensures SnapshotFile(m) != PENDING && SnapshotFile(m) != FAILED
    ensures '/' !in SnapshotFile(m)
  {
    DecimalHasNoSlash(m);
    var s, t := SnapshotFile(m), SnapshotFile(n);
    assert s[0] == 's' && PENDING[0] == 'p' && FAILED[0] == 'f';
    if s == t {
      assert s[9..|s| - 8] == Decimal(m) && t[9..|t| - 8] == Decimal(n);
      DecimalInjective(m, n);
    }
  }

  /** The name is snapshot_<id>.parquet, with the id in decimal. */
  lemma SnapshotFileReadsBack(sid: nat) returns (digits: string)
    ensures SnapshotFile(sid) == "snapshot_" + digits + ".parquet"
    ensures digits != "" && (forall i | 0 <= i < |digits| :: Digit(digits[i])) && (digits[0] == '0' ==> digits == "0")
    ensures Number(digits) == sid
  {
    digits := Decimal(sid);
    DecimalDigits(sid);
  }

  /** rstrip("/"). */
  function StripSlashes(s: string): string {
    if s != [] && s[|s| - 1] == '/' then StripSlashes(s[..|s| - 1]) else s
  }

  /** The iRODS object of a snapshot, under the project's ducklake path. */
  function Target(ducklakePath: string, file: string): string {
    StripSlashes(ducklakePath) + "/" + file
  }

  /** dir is p without the slashes at its end. */
  predicate IsStripped(p: string, dir: string) {
    && |dir| <= |p| && p[..|dir|] == dir
    && (forall i | |dir| <= i < |p| :: p[i] == '/')
    && (dir == "" || dir[|dir| - 1] != '/')
  }

  lemma {:induction false} StripSlashesMeans(p: string, dir: string)
    ensures IsStripped(p, dir) <==> dir == StripSlashes(p)
  {
    if p == "" || p[|p| - 1] != '/' {
      assert p[..|p|] == p;
    } else {
      var front := p[..|p| - 1];
      StripSlashesMeans(front, dir);
      if IsStripped(p, dir) {
        assert |dir| < |p| by { assert |dir| == |p| ==> dir == p; }
        assert front[..|dir|] == dir;
        assert IsStripped(front, dir);
      }
      if IsStripped(front, dir) {
        assert p[..|dir|] == front[..|dir|];
        assert IsStripped(p, dir);
      }
    }
  }

  /**
   * The object is <ducklake_path>/<file>, in the project's collection, whether
   * or not the path is written with slashes at its end.
   */
  lemma TargetSpells(lake: string, file: string)
    ensures lake != "" && lake[|lake| - 1] != '/' ==> Target(lake, file) == lake + "/" + file
    ensures Target(lake + "/", file) == Target(lake, file)
    ensures exists dir :: IsStripped(lake, dir) && Target(lake, file) == dir + "/" + file
  {
    StripSlashesMeans(lake, StripSlashes(lake));
    assert (lake + "/")[..|lake|] == lake;
  }

  /** The cached copy of a snapshot on the host whose cache root is given. */
  function LocalPath(root: string, project: string, file: string): string {
    root + "/" + project + "/" + file
  }

  /** The last component of a path (pathlib's .name). */
  function BaseName(p: string): string {
    if p == [] || p[|p| - 1] == '/' then [] else BaseName(p[..|p| - 1]) + [p[|p| - 1]]
  }

  lemma {:induction false} BaseNameOfJoin(dir: string, file: string)
    requires '/' !in file
    ensures BaseName(dir + "/" + file) == file
  {
    var p := dir + "/" + file;
    if file != [] {
      var shorter := file[..|file| - 1];
      assert p[..|p| - 1] == dir + "/" + shorter;
      BaseNameOfJoin(dir, shorter);
    }
  }

  /**
   * Addressing: the name is recovered from the path the writer stored, and two
   * snapshots never share a target or a cached path, whatever their projects,
   * ducklake paths and cache roots are.
   */
  lemma Addressing(root: string, project: string, lake: string, m: nat,
                   root': string, project': string, lake': string, n: nat)
    ensures BaseName(LocalPath(root, project, SnapshotFile(m))) == SnapshotFile(m)
    ensures BaseName(Target(lake, SnapshotFile(m))) == SnapshotFile(m)
    ensures Target(lake, SnapshotFile(m)) == Target(lake', SnapshotFile(n)) ==> m == n
    ensures LocalPath(root, project, SnapshotFile(m)) == LocalPath(root', project', SnapshotFile(n)) ==> m == n
  {
    SnapshotFileInjective(m, n);
    SnapshotFileInjective(n, m);
    BaseNameOfJoin(root + "/" + project, SnapshotFile(m));
    BaseNameOfJoin(root' + "/" + project', SnapshotFile(n));
    BaseNameOfJoin(StripSlashes(lake), SnapshotFile(m));
    BaseNameOfJoin(StripSlashes(lake'), SnapshotFile(n));
  }
}
