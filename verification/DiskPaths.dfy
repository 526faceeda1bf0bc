/** Where a storage node keeps a chunk. */
module DiskPaths {

  datatype StoreError = InvalidChunkId | MissingChunk | InsufficientSpace | VerifyFailed | IoError

  predicate HasDotDot(s: string) {
    exists i :: 0 <= i < |s| - 1 && s[i] == '.' && s[i + 1] == '.'
  }

  /** Non-empty, long enough for its shard directories, and unable to leave its directory. */
  predicate ValidId(splitLevel: nat, id: string) {
    id != "" && 2 * splitLevel <= |id| && '/' !in id && '\\' !in id && !HasDotDot(id)
  }

  /** One two-character directory per level. */
  function ShardDir(id: string, levels: nat): (dir: string)
    requires 2 * levels <= |id|
    ensures |dir| == 3 * levels
  {
    if levels == 0 then "" else ShardDir(id, levels - 1) + id[2 * levels - 2..2 * levels] + "/"
  }

  /** Level `k` is named by the `k`-th pair of characters of the id. */
  lemma {:induction false} ShardLevel(id: string, levels: nat, k: nat)
    requires 2 * levels <= |id| && k < levels
    ensures var dir := ShardDir(id, levels);
            dir[3 * k..3 * k + 2] == id[2 * k..2 * k + 2] && dir[3 * k + 2] == '/'
  {
    var init := ShardDir(id, levels - 1);
    assert ShardDir(id, levels) == init + id[2 * levels - 2..2 * levels] + "/";
    if k < levels - 1 {
      ShardLevel(id, levels - 1, k);
      assert ShardDir(id, levels)[3 * k..3 * k + 2] == init[3 * k..3 * k + 2];
    }
  }

  /** The path of a valid id stays below the root: its directories and its file name are single names, none of them the
      parent directory. */
  lemma StaysBelowRoot(splitLevel: nat, id: string, k: nat)
    requires ValidId(splitLevel, id) && k < splitLevel
    ensures var name := ShardDir(id, splitLevel)[3 * k..3 * k + 2];
            name != ".." && '/' !in name && '\\' !in name && ShardDir(id, splitLevel)[3 * k + 2] == '/'
    ensures '/' !in id + ".chunk" && '\\' !in id + ".chunk" && id + ".chunk" != ".."
  {
    ShardLevel(id, splitLevel, k);
    var pair := id[2 * k..2 * k + 2];
    assert forall c :: c in pair ==> c in id;
    assert !(id[2 * k] == '.' && id[2 * k + 1] == '.');
    assert pair[0] == id[2 * k] && pair[1] == id[2 * k + 1];
  }

  function ChunkPath(root: string, splitLevel: nat, id: string): string
    requires 2 * splitLevel <= |id|
  {
    root + "/" + ShardDir(id, splitLevel) + id + ".chunk"
  }

  function TempPath(tempDir: string, id: string): string {
    tempDir + "/" + id + "..tmp"
  }

  /** Different chunks live in different files. */
  lemma PathsDistinct(root: string, splitLevel: nat, a: string, b: string)
    requires 2 * splitLevel <= |a| && 2 * splitLevel <= |b|
    requires ChunkPath(root, splitLevel, a) == ChunkPath(root, splitLevel, b)
    ensures a == b
  {
    var p, q := ChunkPath(root, splitLevel, a), ChunkPath(root, splitLevel, b);
    var k := |root| + 1 + 3 * splitLevel;
    assert p[k..k + |a|] == a && q[k..k + |b|] == b;
  }

  lemma TempPathsDistinct(tempDir: string, a: string, b: string)
    requires TempPath(tempDir, a) == TempPath(tempDir, b)
    ensures a == b
  {
    var p, q, k := TempPath(tempDir, a), TempPath(tempDir, b), |tempDir| + 1;
    assert p[k..k + |a|] == a && q[k..k + |b|] == b;
  }

  /** A temporary file is never a chunk file, whatever the two directories are. */
  lemma TempIsNoChunkPath(root: string, splitLevel: nat, tempDir: string, a: string, b: string)
    requires 2 * splitLevel <= |b|
    ensures TempPath(tempDir, a) != ChunkPath(root, splitLevel, b)
  {
    var p, q := TempPath(tempDir, a), ChunkPath(root, splitLevel, b);
    assert p[|p| - 1] == 'p' && q[|q| - 1] == 'k';
  }

  /** The shard directory, built piece by piece; refused when the id is empty or too short. */
  method GetDirForChunkId(id: string, shardLevel: nat) returns (ok: bool, dir: string)
    ensures ok <==> id != "" && 2 * shardLevel <= |id|
    ensures ok ==> dir == ShardDir(id, shardLevel)
  {
    if id == "" || |id| < 2 * shardLevel { return false, ""; }
    dir := "";
    for i := 0 to shardLevel
      invariant dir == ShardDir(id, i)
    {
      dir := dir + id[i * 2..i * 2 + 2];
      dir := dir + "/";
    }
    ok := true;
  }

  method ContainsDotDot(s: string) returns (found: bool)
    ensures found == HasDotDot(s)
  {
    for i := 0 to |s|
      invariant forall k :: 0 <= k < i && k < |s| - 1 ==> !(s[k] == '.' && s[k + 1] == '.')
    {
      if i < |s| - 1 && s[i] == '.' && s[i + 1] == '.' { return true; }
    }
    return false;
  }
}
