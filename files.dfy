/**
 * The filesystem as the duplicate finder sees it: a snapshot mapping each
 * absolute path to the bytes the file holds. Size, the 8-byte prefix and
 * the checksum are all derived from those bytes.
 */
module Files {
  newtype Byte = b: int | 0 <= b < 256

  type Content = seq<Byte>

  /** An absolute path as produced by the directory walk. */
  type Path = string

  type FileSystem = map<Path, Content>

  /** The number of bytes read for the prefix key ("content" option). */
  const PrefixLength: nat := 8

  /** Every listed path names a file of the snapshot. */
  predicate Listed(fs: FileSystem, paths: seq<Path>)
  {
    forall i | 0 <= i < |paths| :: paths[i] in fs
  }

  /** `os.path.getsize`: the number of bytes of the file. */
  function SizeOf(c: Content): nat
  {
    |c|
  }

  /** Every file of every group is a file of the snapshot. */
  predicate AllListed(fs: FileSystem, groups: seq<seq<Path>>)
  {
    forall i | 0 <= i < |groups| :: Listed(fs, groups[i])
  }

  /** The bytes `read(8)` returns on a freshly opened file. */
  function Prefix(c: Content): (r: Content)
    ensures |r| <= PrefixLength
    ensures r <= c
    ensures |r| < PrefixLength ==> r == c
  {
    if |c| <= PrefixLength then c else c[..PrefixLength]
  }

  /**
   * Two files get the same prefix key exactly when they are equal or both
   * are at least 8 bytes long and agree on their first 8 bytes; a file
   * shorter than 8 bytes shares its key only with an identical file.
   */
  lemma PrefixAgreement(c: Content, d: Content)
    ensures Prefix(c) == Prefix(d) <==>
      c == d || (|c| >= PrefixLength && |d| >= PrefixLength && c[..PrefixLength] == d[..PrefixLength])
  {
  }

  /** No member of `a` is a member of `b`. */
  predicate Disjoint<T(==)>(a: seq<T>, b: seq<T>)
  {
    forall p | p in a :: p !in b
  }

  /** No two groups of `gs` share a member. */
  predicate PairwiseDisjoint<T(==)>(gs: seq<seq<T>>)
  {
    forall i, j | 0 <= i < |gs| && 0 <= j < |gs| && i != j :: Disjoint(gs[i], gs[j])
  }

  /** Every file that occurs in some group of `gs`. */
  function Members<T>(gs: seq<seq<T>>): set<T>
  {
    set g, p | g in gs && p in g :: p
  }

  predicate Distinct<T(==)>(s: seq<T>)
  {
    forall i, j | 0 <= i < j < |s| :: s[i] != s[j]
  }

  /** `x` occurs in `s` at an earlier position than `y`. */
  predicate Before<T(==)>(s: seq<T>, x: T, y: T)
  {
    exists a, b | 0 <= a < b < |s| :: s[a] == x && s[b] == y
  }

  /** `a` is obtained from `b` by deleting elements, so it keeps the order of `b`. */
  predicate Subsequence<T(==)>(a: seq<T>, b: seq<T>)
    decreases |b|
  {
    if b == [] then a == []
    else
      Subsequence(a, b[..|b| - 1])
      || (a != [] && a[|a| - 1] == b[|b| - 1] && Subsequence(a[..|a| - 1], b[..|b| - 1]))
  }
}
