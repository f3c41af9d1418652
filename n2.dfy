/**
 * The last draft of the finder (n2.py): every stage goes through the one
 * grouping routine, which skips empty files whatever the key, and the
 * cascade appends every checksum group of every size group.
 */
module N2 {
  import opened Files
  import opened Grouping

  /** The checksum stage delegates to group_files_by_key, so it skips empty files too. */
  function ChecksumWalk(fs: FileSystem, digest: Content -> string): Walk<string>
  {
    Walk(fs, digest, true)
  }

  /** group_files_by_key: the key is a parameter; empty files are skipped before it is computed. */
  method GroupFilesByKey<K(==)>(fs: FileSystem, paths: seq<Path>, findKey: Content -> K)
    returns (groups: seq<seq<Path>>)
    requires Listed(fs, paths)
    ensures groups == Walk(fs, findKey, true).Groups(paths)
  {
    groups := Grouping.GroupFilesByKey(Walk(fs, findKey, true), paths);
  }

  method GroupFilesBySize(fs: FileSystem, paths: seq<Path>) returns (groups: seq<seq<Path>>)
    requires Listed(fs, paths)
    ensures groups == SizeWalk(fs).Groups(paths)
  {
    groups := GroupFilesByKey(fs, paths, SizeOf);
  }

  method GroupFilesByChecksum(fs: FileSystem, paths: seq<Path>, digest: Content -> string)
    returns (groups: seq<seq<Path>>)
    requires Listed(fs, paths)
    ensures groups == ChecksumWalk(fs, digest).Groups(paths)
  {
    groups := GroupFilesByKey(fs, paths, digest);
  }

  /** Unlike n.py, the checksum stage passes over empty files. */
  lemma ChecksumGroupsSkipEmptyFiles(fs: FileSystem, paths: seq<Path>, digest: Content -> string)
    requires Listed(fs, paths)
    ensures forall g | g in ChecksumWalk(fs, digest).Groups(paths) :: forall p | p in g :: p in fs && |fs[p]| > 0
  {
    SkippedFilesAbsent(ChecksumWalk(fs, digest), paths);
  }

  /** The result of find_duplicate_files: every checksum group of every size group, in order. */
  function Duplicates(fs: FileSystem, paths: seq<Path>, digest: Content -> string): seq<seq<Path>>
    requires Listed(fs, paths)
  {
    GroupsListed(SizeWalk(fs), paths);
    Regroup(ChecksumWalk(fs, digest), SizeWalk(fs).Groups(paths))
  }

  method FindDuplicateFiles(fs: FileSystem, paths: seq<Path>, digest: Content -> string)
    returns (result: seq<seq<Path>>)
    requires Listed(fs, paths)
    ensures result == Duplicates(fs, paths, digest)
  {
    result := [];
    var groups := GroupFilesBySize(fs, paths);
    GroupsListed(SizeWalk(fs), paths);
    ghost var cw := ChecksumWalk(fs, digest);
    assert AllListed(fs, groups[..0]);
    for i := 0 to |groups|
      invariant AllListed(fs, groups[..i])
      invariant result == Regroup(cw, groups[..i])
    {
      RegroupStep(cw, groups, i);
      var duplicatedFiles := GroupFilesByChecksum(fs, groups[i], digest);
      result := AppendGroups(result, duplicatedFiles);
    }
    assert groups[..|groups|] == groups;
  }

  /**
   * Every reported group holds at least two input files of one non-zero size
   * and one checksum.
   */
  lemma DuplicatesAgree(fs: FileSystem, paths: seq<Path>, digest: Content -> string)
    requires Listed(fs, paths)
    ensures forall g | g in Duplicates(fs, paths, digest) ::
      |g| >= 2 && g[0] in fs && |fs[g[0]]| > 0 &&
      forall p | p in g :: p in paths && p in fs && |fs[p]| == |fs[g[0]]| && digest(fs[p]) == digest(fs[g[0]])
  {
    var sw, cw := SizeWalk(fs), ChecksumWalk(fs, digest);
    var sizeGroups := sw.Groups(paths);
    GroupsListed(sw, paths);
    GroupsAreDuplicates(sw, paths);
    RegroupRefines(cw, sizeGroups);
    forall h | h in Duplicates(fs, paths, digest)
      ensures |h| >= 2 && h[0] in fs && |fs[h[0]]| > 0
      ensures forall p | p in h :: p in paths && p in fs && |fs[p]| == |fs[h[0]]| && digest(fs[p]) == digest(fs[h[0]])
    {
      var g :| g in sizeGroups && forall p | p in h :: p in g;
      assert h[0] in g;
    }
  }

  /**
   * Two different input files of one non-zero size and one checksum are
   * reported together in some group.
   */
  lemma DuplicatesComplete(fs: FileSystem, paths: seq<Path>, digest: Content -> string, i: nat, j: nat)
    requires Listed(fs, paths)
    requires i < |paths| && j < |paths| && paths[i] != paths[j]
    requires |fs[paths[i]]| == |fs[paths[j]]| > 0 && digest(fs[paths[i]]) == digest(fs[paths[j]])
    ensures exists g | g in Duplicates(fs, paths, digest) :: paths[i] in g && paths[j] in g
  {
    var sw, cw := SizeWalk(fs), ChecksumWalk(fs, digest);
    var sizeGroups := sw.Groups(paths);
    GroupsListed(sw, paths);
    GroupsAreComplete(sw, paths, i, j);
    var s :| 0 <= s < |sizeGroups| && paths[i] in sizeGroups[s] && paths[j] in sizeGroups[s];
    var g := sizeGroups[s];
    var x :| 0 <= x < |g| && g[x] == paths[i];
    var y :| 0 <= y < |g| && g[y] == paths[j];
    GroupsAreComplete(cw, g, x, y);
    var t :| 0 <= t < |cw.Groups(g)| && g[x] in cw.Groups(g)[t] && g[y] in cw.Groups(g)[t];
    RegroupContains(cw, sizeGroups, s, cw.Groups(g)[t]);
  }

  /** No file is reported in two groups. */
  lemma DuplicatesDisjoint(fs: FileSystem, paths: seq<Path>, digest: Content -> string)
    requires Listed(fs, paths)
    ensures PairwiseDisjoint(Duplicates(fs, paths, digest))
  {
    GroupsListed(SizeWalk(fs), paths);
    GroupsHaveDistinctKeys(SizeWalk(fs), paths);
    RegroupDisjoint(ChecksumWalk(fs, digest), SizeWalk(fs).Groups(paths));
  }

  /**
   * Four files of one size forming two pairs of equal content (with different
   * checksums) are reported as two groups.
   */
  lemma TwoPairsGiveTwoGroups(fs: FileSystem, a: Path, b: Path, c: Path, d: Path, digest: Content -> string)
    requires a in fs && b in fs && c in fs && d in fs
    requires fs[a] == fs[b] && fs[c] == fs[d] && |fs[a]| == |fs[c]| > 0
    requires digest(fs[a]) != digest(fs[c])
    ensures Listed(fs, [a, b, c, d])
    ensures Duplicates(fs, [a, b, c, d], digest) == [[a, b], [c, d]]
  {
    var ps := [a, b, c, d];
    OneKeyOneGroup(SizeWalk(fs), ps, |fs[a]|);
    PairedKeysTwoGroups(ChecksumWalk(fs, digest), a, b, c, d, digest(fs[a]), digest(fs[c]));
    assert [ps][..0] == [];
    GroupsListed(SizeWalk(fs), ps);
    assert Regroup(ChecksumWalk(fs, digest), [ps]) == ChecksumWalk(fs, digest).Groups(ps);
  }
}
