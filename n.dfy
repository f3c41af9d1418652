/**
 * The first corrected draft of the finder (n.py). Size grouping goes through
 * group_files_by_key, which skips empty files; the checksum grouping is its
 * own loop, which does not. The cascade appends every checksum group of
 * every size group.
 */
module N {
  import opened Files
  import opened Grouping
  import N2

  /** group_files_by_checksum has no size test: empty files get a checksum too. */
  function ChecksumWalk(fs: FileSystem, digest: Content -> string): Walk<string>
  {
    Walk(fs, digest, false)
  }

  /** group_files_by_key: empty files are skipped before the key is computed. */
  method GroupFilesByKey<K(==)>(fs: FileSystem, paths: seq<Path>, findKey: Content -> K)
    returns (groups: seq<seq<Path>>)
    requires Listed(fs, paths)
    ensures groups == Walk(fs, findKey, true).Groups(paths)
  {
    groups := Grouping.GroupFilesByKey(Walk(fs, findKey, true), paths);
  }

  method GroupFilesBySize(fs: FileSystem, paths: seq<Path>) returns (groups: seq<seq<Path>>)
    requires Listed(fs, paths)
    ensures groups == SizeWalk(fs).Groups(paths)
  {
    groups := GroupFilesByKey(fs, paths, SizeOf);
  }

  /** The same bucket walk as group_files_by_key, without the size test. */
  method GroupFilesByChecksum(fs: FileSystem, paths: seq<Path>, digest: Content -> string)
    returns (groups: seq<seq<Path>>)
    requires Listed(fs, paths)
    ensures groups == ChecksumWalk(fs, digest).Groups(paths)
  {
    groups := Grouping.GroupFilesByKey(ChecksumWalk(fs, digest), paths);
  }

  /** The result of find_duplicate_files: every checksum group of every size group, in order. */
  function Duplicates(fs: FileSystem, paths: seq<Path>, digest: Content -> string): seq<seq<Path>>
    requires Listed(fs, paths)
  {
    GroupsListed(SizeWalk(fs), paths);
    Regroup(ChecksumWalk(fs, digest), SizeWalk(fs).Groups(paths))
  }

  method FindDuplicateFiles(fs: FileSystem, paths: seq<Path>, digest: Content -> string)
    returns (result: seq<seq<Path>>)
    requires Listed(fs, paths)
    ensures result == Duplicates(fs, paths, digest)
  {
    result := [];
    var groups := GroupFilesBySize(fs, paths);
    GroupsListed(SizeWalk(fs), paths);
    ghost var cw := ChecksumWalk(fs, digest);
    assert AllListed(fs, groups[..0]);
    for i := 0 to |groups|
      invariant AllListed(fs, groups[..i])
      invariant result == Regroup(cw, groups[..i])
    {
      RegroupStep(cw, groups, i);
      var duplicatedFiles := GroupFilesByChecksum(fs, groups[i], digest);
      result := AppendGroups(result, duplicatedFiles);
    }
    assert groups[..|groups|] == groups;
  }

  /**
   * Called on its own, group_files_by_checksum puts two empty files in one
   * group (they share the checksum of the empty string).
   */
  lemma ChecksumGroupsKeepEmptyFiles(fs: FileSystem, paths: seq<Path>, digest: Content -> string, i: nat, j: nat)
    requires Listed(fs, paths)
    requires i < |paths| && j < |paths| && i != j
    requires |fs[paths[i]]| == 0 && |fs[paths[j]]| == 0
    ensures exists k | 0 <= k < |ChecksumWalk(fs, digest).Groups(paths)| ::
      paths[i] in ChecksumWalk(fs, digest).Groups(paths)[k] && paths[j] in ChecksumWalk(fs, digest).Groups(paths)[k]
  {
    GroupsAreComplete(ChecksumWalk(fs, digest), paths, i, j);
  }

  /**
   * Inside the cascade the difference does not show: size groups hold no empty
   * file, so n.py and n2.py report the same groups on every input.
   */
  lemma SameAsN2(fs: FileSystem, paths: seq<Path>, digest: Content -> string)
    requires Listed(fs, paths)
    ensures Duplicates(fs, paths, digest) == N2.Duplicates(fs, paths, digest)
  {
    var sw := SizeWalk(fs);
    var sizeGroups := sw.Groups(paths);
    var w1, w2 := ChecksumWalk(fs, digest), N2.ChecksumWalk(fs, digest);
    GroupsListed(sw, paths);
    GroupsAreDuplicates(sw, paths);
    forall i | 0 <= i < |sizeGroups|
      ensures w1.Groups(sizeGroups[i]) == w2.Groups(sizeGroups[i])
    {
      var g := sizeGroups[i];
      assert g in sizeGroups;
      forall k | 0 <= k < |g|
        ensures w1.KeyOf(g[k]) == w2.KeyOf(g[k])
      {
        assert g[k] in g;
      }
      SameKeysSameGroups(w1, w2, g);
    }
    RegroupAgree(w1, w2, sizeGroups);
  }

  /**
   * Two different input files of one non-zero size and one checksum are
   * reported together in some group.
   */
  lemma DuplicatesComplete(fs: FileSystem, paths: seq<Path>, digest: Content -> string, i: nat, j: nat)
    requires Listed(fs, paths)
    requires i < |paths| && j < |paths| && paths[i] != paths[j]
    requires |fs[paths[i]]| == |fs[paths[j]]| > 0 && digest(fs[paths[i]]) == digest(fs[paths[j]])
    ensures exists g | g in Duplicates(fs, paths, digest) :: paths[i] in g && paths[j] in g
  {
    SameAsN2(fs, paths, digest);
    N2.DuplicatesComplete(fs, paths, digest, i, j);
  }

  /**
   * Every reported group holds at least two input files of one non-zero size
   * and one checksum.
   */
  lemma DuplicatesAgree(fs: FileSystem, paths: seq<Path>, digest: Content -> string)
    requires Listed(fs, paths)
    ensures forall g | g in Duplicates(fs, paths, digest) ::
      |g| >= 2 && g[0] in fs && |fs[g[0]]| > 0 &&
      forall p | p in g :: p in paths && p in fs && |fs[p]| == |fs[g[0]]| && digest(fs[p]) == digest(fs[g[0]])
  {
    SameAsN2(fs, paths, digest);
    N2.DuplicatesAgree(fs, paths, digest);
  }

  /** No file is reported in two groups. */
  lemma DuplicatesDisjoint(fs: FileSystem, paths: seq<Path>, digest: Content -> string)
    requires Listed(fs, paths)
    ensures PairwiseDisjoint(Duplicates(fs, paths, digest))
  {
    SameAsN2(fs, paths, digest);
    N2.DuplicatesDisjoint(fs, paths, digest);
  }

  /**
   * Four files of one size forming two pairs of equal content (with different
   * checksums) are reported as two groups.
   */
  lemma TwoPairsGiveTwoGroups(fs: FileSystem, a: Path, b: Path, c: Path, d: Path, digest: Content -> string)
    requires a in fs && b in fs && c in fs && d in fs
    requires fs[a] == fs[b] && fs[c] == fs[d] && |fs[a]| == |fs[c]| > 0
    requires digest(fs[a]) != digest(fs[c])
    ensures Listed(fs, [a, b, c, d])
    ensures Duplicates(fs, [a, b, c, d], digest) == [[a, b], [c, d]]
  {
    N2.TwoPairsGiveTwoGroups(fs, a, b, c, d, digest);
    SameAsN2(fs, [a, b, c, d], digest);
  }
}
