/**
 * The released finder (find_duplicate_files.py). One grouping routine keyed
 * by an option string (size, first eight bytes, or checksum); a cascade that
 * groups by size, optionally by prefix, then by checksum. The cascade is
 * modelled as it is written: the checksum step returns from inside its loop,
 * so it keeps at most one checksum group, and it returns None when it finds
 * none, after which the next append raises.
 */
module FindDuplicateFiles {
  import opened Wrappers
  import opened Files
  import opened Grouping

  /** The option strings group_files_by_key is called with. */
  datatype KeyOption = SizeOption | ContentOption | ChecksumOption

  /** A dictionary key: a size, the first eight bytes, or a hex digest. */
  datatype Key = SizeKey(size: nat) | PrefixKey(prefix: Content) | ChecksumKey(digest: string)

  /** The key group_files_by_key computes for a file of content `c`. */
  function KeyFor(option: KeyOption, md5: Content -> string, c: Content): Key
  {
    match option
    case SizeOption => SizeKey(SizeOf(c))
    case ContentOption => PrefixKey(Prefix(c))
    case ChecksumOption => ChecksumKey(md5(c))
  }

  /** Only the size option skips empty files. */
  function OptionWalk(fs: FileSystem, md5: Content -> string, option: KeyOption): Walk<Key>
  {
    Walk(fs, c => KeyFor(option, md5, c), option == SizeOption)
  }

  function SizeGroups(fs: FileSystem, md5: Content -> string, paths: seq<Path>): seq<seq<Path>>
    requires Listed(fs, paths)
  {
    OptionWalk(fs, md5, SizeOption).Groups(paths)
  }

  function ContentGroups(fs: FileSystem, md5: Content -> string, paths: seq<Path>): seq<seq<Path>>
    requires Listed(fs, paths)
  {
    OptionWalk(fs, md5, ContentOption).Groups(paths)
  }

  function ChecksumGroups(fs: FileSystem, md5: Content -> string, paths: seq<Path>): seq<seq<Path>>
    requires Listed(fs, paths)
  {
    OptionWalk(fs, md5, ChecksumOption).Groups(paths)
  }

  // ---------------------------------------------------------------------
  // Reading files

  const DefaultChunkSize: int := 1024

  /** What `read(size)` returns from the unread bytes `rest`: `size` of them, or all when fewer remain or `size` is negative. */
  function ReadOf(rest: Content, size: int): (chunk: Content)
    ensures chunk <= rest
    ensures size >= 0 ==> |chunk| == if size < |rest| then size else |rest|
    ensures size < 0 ==> chunk == rest
  {
    if 0 <= size < |rest| then rest[..size] else rest
  }

  /** An open binary file: its bytes and the read position. */
  class FileReader {
    const data: Content
    var pos: nat

    ghost predicate Valid()
      reads this
    {
      pos <= |data|
    }

    constructor (content: Content)
      ensures Valid() && data == content && pos == 0
    {
      data := content;
      pos := 0;
    }

    /** The bytes not read yet. */
    function Remaining(): Content
      reads this
      requires Valid()
    {
      data[pos..]
    }

    /** file.read(size): at most `size` bytes, or all the rest when `size` is negative. */
    method Read(size: int) returns (chunk: Content)
      requires Valid()
      modifies this
      ensures Valid()
      ensures chunk == ReadOf(old(Remaining()), size)
      ensures Remaining() == old(Remaining())[|chunk|..]
    {
      var n := if 0 <= size <= |data| - pos then size else |data| - pos;
      chunk := data[pos..pos + n];
      pos := pos + n;
    }
  }

  /** The bytes of a list of chunks, one after the other. */
  function Concat(chunks: seq<Content>): Content
    decreases |chunks|
  {
    if chunks == [] then [] else Concat(chunks[..|chunks| - 1]) + chunks[|chunks| - 1]
  }

  /**
   * The shape of what chunk_file yields: no chunk is empty, none is longer
   * than a positive `chunkSize`, and all but the last are exactly that long.
   */
  predicate WellChunked(chunks: seq<Content>, chunkSize: int)
  {
    (forall i | 0 <= i < |chunks| :: 0 < |chunks[i]| && (chunkSize > 0 ==> |chunks[i]| <= chunkSize)) &&
    (chunkSize > 0 ==> forall i | 0 <= i < |chunks| - 1 :: |chunks[i]| == chunkSize)
  }

  lemma ConcatSnoc(chunks: seq<Content>, chunk: Content)
    ensures Concat(chunks + [chunk]) == Concat(chunks) + chunk
  {
    assert (chunks + [chunk])[..|chunks|] == chunks;
  }

  /** What the read loop of chunk_file keeps: the chunks so far followed by the unread rest make up `whole`. */
  predicate ReadSoFar(chunks: seq<Content>, rest: Content, chunkSize: int, whole: Content)
  {
    WellChunked(chunks, chunkSize) && Concat(chunks) + rest == whole &&
    (chunkSize == 0 ==> chunks == []) &&
    (chunkSize > 0 && chunks != [] && |chunks[|chunks| - 1]| < chunkSize ==> rest == []) &&
    (chunkSize < 0 && chunks != [] ==> |chunks| == 1 && rest == [])
  }

  /** A non-empty read extends the chunks and shortens the rest. */
  lemma ReadStep(chunks: seq<Content>, rest: Content, chunkSize: int, whole: Content)
    requires ReadSoFar(chunks, rest, chunkSize, whole) && ReadOf(rest, chunkSize) != []
    ensures ReadSoFar(chunks + [ReadOf(rest, chunkSize)], rest[|ReadOf(rest, chunkSize)|..], chunkSize, whole)
    ensures |rest[|ReadOf(rest, chunkSize)|..]| < |rest|
  {
    var chunk := ReadOf(rest, chunkSize);
    var c := chunks + [chunk];
    assert rest == chunk + rest[|chunk|..];
    ConcatSnoc(chunks, chunk);
    assert forall i | 0 <= i < |chunks| :: c[i] == chunks[i];
    assert WellChunked(c, chunkSize);
  }

  /** An empty read ends the loop with the whole file cut into chunks. */
  lemma ReadEnd(chunks: seq<Content>, rest: Content, chunkSize: int, whole: Content)
    requires ReadSoFar(chunks, rest, chunkSize, whole) && ReadOf(rest, chunkSize) == []
    ensures chunkSize != 0 ==> Concat(chunks) == whole
    ensures chunkSize == 0 ==> chunks == [] && rest == whole
    ensures chunkSize < 0 ==> |chunks| <= 1
  {
  }

  /**
   * chunk_file: reads `chunkSize` bytes at a time until a read comes back
   * empty. A size of 0 yields nothing; a negative size yields the rest in one
   * chunk.
   */
  method ChunkFile(file: FileReader, chunkSize: int) returns (chunks: seq<Content>)
    requires file.Valid()
    modifies file
    ensures file.Valid() && WellChunked(chunks, chunkSize)
    ensures chunkSize != 0 ==> Concat(chunks) == old(file.Remaining()) && file.Remaining() == []
    ensures chunkSize == 0 ==> chunks == [] && file.Remaining() == old(file.Remaining())
    ensures chunkSize < 0 ==> |chunks| <= 1
  {
    ghost var whole := file.Remaining();
    chunks := [];
    while true
      invariant file.Valid() && ReadSoFar(chunks, file.Remaining(), chunkSize, whole)
      decreases |file.Remaining()|
    {
      ghost var rest := file.Remaining();
      var chunk := file.Read(chunkSize);
      if chunk == [] {
        ReadEnd(chunks, rest, chunkSize, whole);
        return;
      }
      ReadStep(chunks, rest, chunkSize, whole);
      chunks := chunks + [chunk];
    }
  }

  /**
   * get_file_checksum: feeds the chunks of the file to one md5 object. An md5
   * object fed several chunks ends in the digest of their concatenation, so
   * the object is modelled by the bytes it has absorbed.
   */
  method GetFileChecksum(fs: FileSystem, md5: Content -> string, file: Path) returns (digest: string)
    requires file in fs
    ensures digest == md5(fs[file])
  {
    var f := new FileReader(fs[file]);
    var chunks := ChunkFile(f, DefaultChunkSize);
    var absorbed: Content := [];
    for i := 0 to |chunks|
      invariant absorbed == Concat(chunks[..i])
    {
      assert chunks[..i + 1][..i] == chunks[..i];
      absorbed := absorbed + chunks[i];
    }
    assert chunks[..|chunks|] == chunks;
    digest := md5(absorbed);
  }

  // ---------------------------------------------------------------------
  // Grouping

  /** group_files_by_key: one dictionary walk; the key is chosen by `option`. */
  method GroupFilesByKey(fs: FileSystem, md5: Content -> string, paths: seq<Path>, option: KeyOption)
    returns (groups: seq<seq<Path>>)
    requires Listed(fs, paths)
    ensures groups == OptionWalk(fs, md5, option).Groups(paths)
  {
    ghost var w := OptionWalk(fs, md5, option);
    var order: seq<Key> := [];
    var buckets: map<Key, seq<Path>> := map[];
    for i := 0 to |paths|
      invariant order == w.FirstSeen(paths[..i])
      invariant forall k :: k in buckets <==> k in order
      invariant forall k | k in buckets :: buckets[k] == w.Bucket(paths[..i], k)
    {
      var file := paths[i];
      assert paths[..i + 1][..i] == paths[..i];
      var key;
      match option {
        case SizeOption =>
          if |fs[file]| == 0 {
            assert w.KeyOf(file) == None;
            continue;
          }
          key := SizeKey(|fs[file]|);
        case ChecksumOption =>
          var digest := GetFileChecksum(fs, md5, file);
          key := ChecksumKey(digest);
        case ContentOption =>
          var f := new FileReader(fs[file]);
          var first8Bytes := f.Read(PrefixLength);
          key := PrefixKey(first8Bytes);
      }
      assert w.KeyOf(file) == Some(key);
      if key !in buckets {
        BucketSeen(w, paths[..i], key);
        order := order + [key];
        buckets := buckets[key := [file]];
      } else {
        buckets := buckets[key := buckets[key] + [file]];
      }
    }
    assert paths[..|paths|] == paths;
    LongGroupsAgree(order, buckets, w.BucketMap(paths));
    groups := LongGroups(order, buckets);
  }

  method GroupFilesBySize(fs: FileSystem, md5: Content -> string, paths: seq<Path>) returns (groups: seq<seq<Path>>)
    requires Listed(fs, paths)
    ensures groups == SizeGroups(fs, md5, paths)
  {
    groups := GroupFilesByKey(fs, md5, paths, SizeOption);
  }

  method GroupFilesByContent(fs: FileSystem, md5: Content -> string, paths: seq<Path>) returns (groups: seq<seq<Path>>)
    requires Listed(fs, paths)
    ensures groups == ContentGroups(fs, md5, paths)
  {
    groups := GroupFilesByKey(fs, md5, paths, ContentOption);
  }

  method GroupFilesByChecksum(fs: FileSystem, md5: Content -> string, paths: seq<Path>) returns (groups: seq<seq<Path>>)
    requires Listed(fs, paths)
    ensures groups == ChecksumGroups(fs, md5, paths)
  {
    groups := GroupFilesByKey(fs, md5, paths, ChecksumOption);
  }

  /** Size groups hold no empty file. */
  lemma SizeGroupsSkipEmptyFiles(fs: FileSystem, md5: Content -> string, paths: seq<Path>)
    requires Listed(fs, paths)
    ensures forall g | g in SizeGroups(fs, md5, paths) :: forall p | p in g :: p in fs && |fs[p]| > 0
  {
    GroupsAreDuplicates(OptionWalk(fs, md5, SizeOption), paths);
  }

  /** The content and checksum options do not skip empty files: two of them share a group. */
  lemma EmptyFilesGroupedTogether(fs: FileSystem, md5: Content -> string, paths: seq<Path>, option: KeyOption, i: nat, j: nat)
    requires Listed(fs, paths) && option != SizeOption
    requires i < |paths| && j < |paths| && i != j
    requires |fs[paths[i]]| == 0 && |fs[paths[j]]| == 0
    ensures exists k | 0 <= k < |OptionWalk(fs, md5, option).Groups(paths)| ::
      paths[i] in OptionWalk(fs, md5, option).Groups(paths)[k] && paths[j] in OptionWalk(fs, md5, option).Groups(paths)[k]
  {
    assert fs[paths[i]] == fs[paths[j]];
    GroupsAreComplete(OptionWalk(fs, md5, option), paths, i, j);
  }

  // ---------------------------------------------------------------------
  // The cascade as written

  /** A Python value that is a list of groups or None. */
  datatype ListOrNone = NoneValue | List(groups: seq<seq<Path>>)

  /** How a call ends: it returns, or `None.append` raises AttributeError. */
  datatype Outcome = Return(value: ListOrNone) | AttributeError

  /**
   * find_dup_files_by_size_and_checksum: the first checksum group is appended
   * and returned from inside the loop; with no checksum group control falls
   * off the end and the call returns None.
   */
  function ChecksumStage(fs: FileSystem, md5: Content -> string, groupBySize: seq<Path>, result: ListOrNone): Outcome
    requires Listed(fs, groupBySize)
  {
    var found := ChecksumGroups(fs, md5, groupBySize);
    if found == [] then Return(NoneValue)
    else if result.NoneValue? then AttributeError
    else Return(List(result.groups + [found[0]]))
  }

  /** The loop over the prefix groups: each call's value is passed to the next. */
  function ChecksumStages(fs: FileSystem, md5: Content -> string, groups: seq<seq<Path>>, result: ListOrNone): Outcome
    requires AllListed(fs, groups)
    decreases |groups|
  {
    if groups == [] then Return(result)
    else
      match ChecksumStage(fs, md5, groups[0], result)
      case AttributeError => AttributeError
      case Return(next) => ChecksumStages(fs, md5, groups[1..], next)
  }

  /** find_dup_files_by_size_and_content_and_checksum. */
  function ContentStage(fs: FileSystem, md5: Content -> string, groupBySize: seq<Path>, result: ListOrNone): Outcome
    requires Listed(fs, groupBySize)
  {
    GroupsListed(OptionWalk(fs, md5, ContentOption), groupBySize);
    ChecksumStages(fs, md5, ContentGroups(fs, md5, groupBySize), result)
  }

  /** The loop of find_duplicate_files over the size groups. */
  function SizeStages(fs: FileSystem, md5: Content -> string, groups: seq<seq<Path>>, usePrefix: bool, result: ListOrNone): Outcome
    requires AllListed(fs, groups)
    decreases |groups|
  {
    if groups == [] then Return(result)
    else
      var step := if usePrefix then ContentStage(fs, md5, groups[0], result) else ChecksumStage(fs, md5, groups[0], result);
      match step
      case AttributeError => AttributeError
      case Return(next) => SizeStages(fs, md5, groups[1..], usePrefix, next)
  }

  /** What find_duplicate_files returns or raises; the prefix stage runs when `usePrefix`. */
  function Cascade(fs: FileSystem, md5: Content -> string, paths: seq<Path>, usePrefix: bool): Outcome
    requires Listed(fs, paths)
  {
    GroupsListed(OptionWalk(fs, md5, SizeOption), paths);
    SizeStages(fs, md5, SizeGroups(fs, md5, paths), usePrefix, List([]))
  }

  /** The `chunks` argument: a Python bool or a string. */
  datatype ChunksArg = PyBool(b: bool) | PyStr(s: string)

  /** The argument main passes: the string "chunk" when -c is given, otherwise the default True. */
  function MainChunksArgument(dashC: bool): (chunks: ChunksArg)
    ensures UsesPrefixStage(chunks) <==> !dashC
  {
    if dashC then PyStr("chunk") else PyBool(true)
  }

  /** The argument the -c help text calls for: the prefix stage exactly when -c is given. */
  function IntendedChunksArgument(dashC: bool): (chunks: ChunksArg)
    ensures UsesPrefixStage(chunks) <==> dashC
  {
    PyBool(dashC)
  }

  /** `chunks is True` holds only for the bool True itself. */
  predicate UsesPrefixStage(chunks: ChunksArg)
  {
    chunks == PyBool(true)
  }

  method FindDupFilesBySizeAndChecksum(fs: FileSystem, md5: Content -> string, groupBySize: seq<Path>, result: ListOrNone)
    returns (outcome: Outcome)
    requires Listed(fs, groupBySize)
    ensures outcome == ChecksumStage(fs, md5, groupBySize, result)
  {
    var groupsByChecksum := GroupFilesByChecksum(fs, md5, groupBySize);
    for k := 0 to |groupsByChecksum|
      invariant k == 0
    {
      if result.NoneValue? {
        return AttributeError;
      }
      return Return(List(result.groups + [groupsByChecksum[k]]));
    }
    outcome := Return(NoneValue);
  }

  method FindDupFilesBySizeAndContentAndChecksum(fs: FileSystem, md5: Content -> string, groupBySize: seq<Path>, result: ListOrNone)
    returns (outcome: Outcome)
    requires Listed(fs, groupBySize)
    ensures outcome == ContentStage(fs, md5, groupBySize, result)
  {
    var groupsByContent := GroupFilesByContent(fs, md5, groupBySize);
    GroupsListed(OptionWalk(fs, md5, ContentOption), groupBySize);
    var current := result;
    for i := 0 to |groupsByContent|
      invariant ChecksumStages(fs, md5, groupsByContent, result) == ChecksumStages(fs, md5, groupsByContent[i..], current)
    {
      assert groupsByContent[i..][1..] == groupsByContent[i + 1..];
      var step := FindDupFilesBySizeAndChecksum(fs, md5, groupsByContent[i], current);
      if step.AttributeError? {
        return AttributeError;
      }
      current := step.value;
    }
    outcome := Return(current);
  }

  method FindDuplicateFiles(fs: FileSystem, md5: Content -> string, paths: seq<Path>, chunks: ChunksArg)
    returns (outcome: Outcome)
    requires Listed(fs, paths)
    ensures outcome == Cascade(fs, md5, paths, UsesPrefixStage(chunks))
  {
    var result := List([]);
    var groupsBySize := GroupFilesBySize(fs, md5, paths);
    GroupsListed(OptionWalk(fs, md5, SizeOption), paths);
    ghost var usePrefix := UsesPrefixStage(chunks);
    for i := 0 to |groupsBySize|
      invariant Cascade(fs, md5, paths, usePrefix) == SizeStages(fs, md5, groupsBySize[i..], usePrefix, result)
    {
      assert groupsBySize[i..][1..] == groupsBySize[i + 1..];
      var step;
      if chunks == PyBool(true) {
        step := FindDupFilesBySizeAndContentAndChecksum(fs, md5, groupsBySize[i], result);
      } else {
        step := FindDupFilesBySizeAndChecksum(fs, md5, groupsBySize[i], result);
      }
      if step.AttributeError? {
        return AttributeError;
      }
      result := step.value;
    }
    outcome := Return(result);
  }

  // ---------------------------------------------------------------------
  // What the cascade reports

  /** A group handed to the checksum step: files of `paths` of one non-zero size (and one prefix when `samePrefix`). */
  predicate Candidates(fs: FileSystem, paths: seq<Path>, samePrefix: bool, group: seq<Path>)
  {
    group != [] && group[0] in fs && |fs[group[0]]| > 0 &&
    forall p | p in group ::
      p in paths && p in fs && |fs[p]| == |fs[group[0]]| &&
      (samePrefix ==> Prefix(fs[p]) == Prefix(fs[group[0]]))
  }

  /** A reported group: two or more files of `paths` of one non-zero size and one checksum. */
  predicate DuplicateGroup(fs: FileSystem, md5: Content -> string, paths: seq<Path>, samePrefix: bool, g: seq<Path>)
  {
    |g| >= 2 && g[0] in fs && |fs[g[0]]| > 0 &&
    forall p | p in g ::
      p in paths && p in fs && |fs[p]| == |fs[g[0]]| && md5(fs[p]) == md5(fs[g[0]]) &&
      (samePrefix ==> Prefix(fs[p]) == Prefix(fs[g[0]]))
  }

  predicate Reported(fs: FileSystem, md5: Content -> string, paths: seq<Path>, samePrefix: bool, v: ListOrNone)
  {
    v.List? ==> forall g | g in v.groups :: DuplicateGroup(fs, md5, paths, samePrefix, g)
  }

  lemma ChecksumStageSound(fs: FileSystem, md5: Content -> string, paths: seq<Path>, samePrefix: bool, group: seq<Path>, result: ListOrNone)
    requires Listed(fs, group) && Candidates(fs, paths, samePrefix, group)
    requires Reported(fs, md5, paths, samePrefix, result)
    ensures ChecksumStage(fs, md5, group, result).Return? ==> Reported(fs, md5, paths, samePrefix, ChecksumStage(fs, md5, group, result).value)
  {
    var w := OptionWalk(fs, md5, ChecksumOption);
    var found := w.Groups(group);
    if found != [] && result.List? {
      GroupsAreDuplicates(w, group);
      var g := found[0];
      assert g in found;
      assert g[0] in group;
      forall p | p in g
        ensures p in paths && p in fs && |fs[p]| == |fs[g[0]]| && md5(fs[p]) == md5(fs[g[0]])
        ensures samePrefix ==> Prefix(fs[p]) == Prefix(fs[g[0]])
      {
        assert w.KeyOf(p) == w.KeyOf(g[0]);
      }
      assert DuplicateGroup(fs, md5, paths, samePrefix, g);
    }
  }

  lemma {:induction false} ChecksumStagesSound(fs: FileSystem, md5: Content -> string, paths: seq<Path>, samePrefix: bool, groups: seq<seq<Path>>, result: ListOrNone)
    requires AllListed(fs, groups)
    requires forall i | 0 <= i < |groups| :: Candidates(fs, paths, samePrefix, groups[i])
    requires Reported(fs, md5, paths, samePrefix, result)
    ensures ChecksumStages(fs, md5, groups, result).Return? ==> Reported(fs, md5, paths, samePrefix, ChecksumStages(fs, md5, groups, result).value)
    decreases |groups|
  {
    if groups != [] {
      ChecksumStageSound(fs, md5, paths, samePrefix, groups[0], result);
      var step := ChecksumStage(fs, md5, groups[0], result);
      if step.Return? {
        assert forall i | 0 <= i < |groups[1..]| :: groups[1..][i] == groups[i + 1];
        ChecksumStagesSound(fs, md5, paths, samePrefix, groups[1..], step.value);
      }
    }
  }

  /** Prefix groups of a size group hold files of one size and one prefix. */
  lemma ContentGroupsAreCandidates(fs: FileSystem, md5: Content -> string, paths: seq<Path>, group: seq<Path>)
    requires Listed(fs, group) && Candidates(fs, paths, false, group)
    ensures forall i | 0 <= i < |ContentGroups(fs, md5, group)| :: Candidates(fs, paths, true, ContentGroups(fs, md5, group)[i])
  {
    var w := OptionWalk(fs, md5, ContentOption);
    GroupsAreDuplicates(w, group);
    forall i | 0 <= i < |w.Groups(group)|
      ensures Candidates(fs, paths, true, w.Groups(group)[i])
    {
      var h := w.Groups(group)[i];
      assert h in w.Groups(group);
      assert h[0] in group;
      forall p | p in h
        ensures p in paths && p in fs && |fs[p]| == |fs[h[0]]| && Prefix(fs[p]) == Prefix(fs[h[0]])
      {
        assert w.KeyOf(p) == w.KeyOf(h[0]);
      }
    }
  }

  lemma ContentStageSound(fs: FileSystem, md5: Content -> string, paths: seq<Path>, group: seq<Path>, result: ListOrNone)
    requires Listed(fs, group) && Candidates(fs, paths, false, group)
    requires Reported(fs, md5, paths, true, result)
    ensures ContentStage(fs, md5, group, result).Return? ==> Reported(fs, md5, paths, true, ContentStage(fs, md5, group, result).value)
  {
    GroupsListed(OptionWalk(fs, md5, ContentOption), group);
    ContentGroupsAreCandidates(fs, md5, paths, group);
    ChecksumStagesSound(fs, md5, paths, true, ContentGroups(fs, md5, group), result);
  }

  lemma {:induction false} SizeStagesSound(fs: FileSystem, md5: Content -> string, paths: seq<Path>, groups: seq<seq<Path>>, usePrefix: bool, result: ListOrNone)
    requires AllListed(fs, groups)
    requires forall i | 0 <= i < |groups| :: Candidates(fs, paths, false, groups[i])
    requires Reported(fs, md5, paths, usePrefix, result)
    ensures SizeStages(fs, md5, groups, usePrefix, result).Return? ==> Reported(fs, md5, paths, usePrefix, SizeStages(fs, md5, groups, usePrefix, result).value)
    decreases |groups|
  {
    if groups != [] {
      if usePrefix {
        ContentStageSound(fs, md5, paths, groups[0], result);
      } else {
        ChecksumStageSound(fs, md5, paths, false, groups[0], result);
      }
      var step := if usePrefix then ContentStage(fs, md5, groups[0], result) else ChecksumStage(fs, md5, groups[0], result);
      if step.Return? {
        assert forall i | 0 <= i < |groups[1..]| :: groups[1..][i] == groups[i + 1];
        SizeStagesSound(fs, md5, paths, groups[1..], usePrefix, step.value);
      }
    }
  }

  /**
   * When find_duplicate_files returns a list, every group in it holds two or
   * more of the given files, all of one non-zero size and one checksum, and
   * of one first-eight-bytes prefix when the prefix stage ran.
   */
  lemma CascadeSound(fs: FileSystem, md5: Content -> string, paths: seq<Path>, usePrefix: bool)
    requires Listed(fs, paths)
    ensures Cascade(fs, md5, paths, usePrefix).Return? && Cascade(fs, md5, paths, usePrefix).value.List? ==>
      forall g | g in Cascade(fs, md5, paths, usePrefix).value.groups :: DuplicateGroup(fs, md5, paths, usePrefix, g)
  {
    var w := OptionWalk(fs, md5, SizeOption);
    var groups := w.Groups(paths);
    GroupsListed(w, paths);
    GroupsAreDuplicates(w, paths);
    forall i | 0 <= i < |groups|
      ensures Candidates(fs, paths, false, groups[i])
    {
      var g := groups[i];
      assert g in groups;
      forall p | p in g
        ensures p in paths && p in fs && |fs[p]| == |fs[g[0]]|
      {
        assert w.KeyOf(p) == w.KeyOf(g[0]);
      }
    }
    SizeStagesSound(fs, md5, paths, groups, usePrefix, List([]));
  }

  /** Once a step has produced None, the cascade never returns a list again. */
  lemma {:induction false} NoneIsFinal(fs: FileSystem, md5: Content -> string, groups: seq<seq<Path>>, usePrefix: bool)
    requires AllListed(fs, groups)
    ensures SizeStages(fs, md5, groups, usePrefix, NoneValue) == AttributeError || SizeStages(fs, md5, groups, usePrefix, NoneValue) == Return(NoneValue)
    decreases |groups|
  {
    if groups != [] {
      if usePrefix {
        GroupsListed(OptionWalk(fs, md5, ContentOption), groups[0]);
        ChecksumStagesNoneIsFinal(fs, md5, ContentGroups(fs, md5, groups[0]));
      }
      NoneIsFinal(fs, md5, groups[1..], usePrefix);
    }
  }

  lemma {:induction false} ChecksumStagesNoneIsFinal(fs: FileSystem, md5: Content -> string, groups: seq<seq<Path>>)
    requires AllListed(fs, groups)
    ensures ChecksumStages(fs, md5, groups, NoneValue) == AttributeError || ChecksumStages(fs, md5, groups, NoneValue) == Return(NoneValue)
    decreases |groups|
  {
    if groups != [] {
      ChecksumStagesNoneIsFinal(fs, md5, groups[1..]);
    }
  }

  /**
   * Without the prefix stage, a returned list holds exactly one group per
   * size group: one checksum group is kept from each, whatever the others.
   */
  lemma {:induction false} DirectPathOneGroupPerSize(fs: FileSystem, md5: Content -> string, groups: seq<seq<Path>>, result: seq<seq<Path>>)
    requires AllListed(fs, groups)
    ensures SizeStages(fs, md5, groups, false, List(result)).Return? && SizeStages(fs, md5, groups, false, List(result)).value.List? ==>
      |SizeStages(fs, md5, groups, false, List(result)).value.groups| == |result| + |groups|
    decreases |groups|
  {
    if groups != [] {
      var step := ChecksumStage(fs, md5, groups[0], List(result));
      if step == Return(NoneValue) {
        NoneIsFinal(fs, md5, groups[1..], false);
      } else if step.Return? {
        DirectPathOneGroupPerSize(fs, md5, groups[1..], step.value.groups);
      }
    }
  }

  lemma CascadeOneGroupPerSize(fs: FileSystem, md5: Content -> string, paths: seq<Path>)
    requires Listed(fs, paths)
    ensures Cascade(fs, md5, paths, false).Return? && Cascade(fs, md5, paths, false).value.List? ==>
      |Cascade(fs, md5, paths, false).value.groups| == |SizeGroups(fs, md5, paths)|
  {
    GroupsListed(OptionWalk(fs, md5, SizeOption), paths);
    DirectPathOneGroupPerSize(fs, md5, SizeGroups(fs, md5, paths), []);
  }

  // ---------------------------------------------------------------------
  // Inputs that show the early return

  lemma ChecksumStagesOfOne(fs: FileSystem, md5: Content -> string, g: seq<Path>, result: ListOrNone)
    requires Listed(fs, g)
    ensures AllListed(fs, [g])
    ensures ChecksumStages(fs, md5, [g], result) == ChecksumStage(fs, md5, g, result)
  {
    assert [g][0] == g && [g][1..] == [];
  }

  lemma SizeStagesOfOne(fs: FileSystem, md5: Content -> string, g: seq<Path>, usePrefix: bool, result: ListOrNone)
    requires Listed(fs, g)
    ensures AllListed(fs, [g])
    ensures SizeStages(fs, md5, [g], usePrefix, result) ==
      if usePrefix then ContentStage(fs, md5, g, result) else ChecksumStage(fs, md5, g, result)
  {
    assert [g][0] == g && [g][1..] == [];
  }

  /** A size group whose files share one prefix goes through the prefix stage unchanged. */
  lemma OnePrefixStep(fs: FileSystem, md5: Content -> string, ps: seq<Path>, usePrefix: bool, result: ListOrNone)
    requires Listed(fs, ps) && |ps| >= 2
    requires usePrefix ==> forall i | 0 <= i < |ps| :: Prefix(fs[ps[i]]) == Prefix(fs[ps[0]])
    ensures (if usePrefix then ContentStage(fs, md5, ps, result) else ChecksumStage(fs, md5, ps, result)) ==
      ChecksumStage(fs, md5, ps, result)
  {
    if usePrefix {
      var w := OptionWalk(fs, md5, ContentOption);
      var k := PrefixKey(Prefix(fs[ps[0]]));
      forall i | 0 <= i < |ps|
        ensures w.KeyOf(ps[i]) == Some(k)
      {
      }
      OneKeyOneGroup(w, ps, k);
      ChecksumStagesOfOne(fs, md5, ps, result);
    }
  }

  /**
   * Four files of one size in two pairs of equal content: only the first pair
   * is reported, with or without the prefix stage (the pairs share their
   * first eight bytes).
   */
  lemma EarlyReturnDropsSecondPair(fs: FileSystem, md5: Content -> string, a: Path, b: Path, c: Path, d: Path, usePrefix: bool)
    requires a in fs && b in fs && c in fs && d in fs
    requires fs[a] == fs[b] && fs[c] == fs[d] && |fs[a]| == |fs[c]| > 0
    requires md5(fs[a]) != md5(fs[c])
    requires usePrefix ==> Prefix(fs[a]) == Prefix(fs[c])
    ensures Listed(fs, [a, b, c, d])
    ensures Cascade(fs, md5, [a, b, c, d], usePrefix) == Return(List([[a, b]]))
  {
    var ps := [a, b, c, d];
    OneKeyOneGroup(OptionWalk(fs, md5, SizeOption), ps, SizeKey(|fs[a]|));
    PairedKeysTwoGroups(OptionWalk(fs, md5, ChecksumOption), a, b, c, d, ChecksumKey(md5(fs[a])), ChecksumKey(md5(fs[c])));
    assert ChecksumGroups(fs, md5, ps)[0] == [a, b];
    assert [] + [[a, b]] == [[a, b]];
    OnePrefixStep(fs, md5, ps, usePrefix, List([]));
    SizeStagesOfOne(fs, md5, ps, usePrefix, List([]));
  }

  /** Two files of one size and different checksums: the call returns None instead of a list. */
  lemma NoChecksumGroupGivesNone(fs: FileSystem, md5: Content -> string, a: Path, b: Path, usePrefix: bool)
    requires a in fs && b in fs
    requires |fs[a]| == |fs[b]| > 0 && md5(fs[a]) != md5(fs[b])
    requires usePrefix ==> Prefix(fs[a]) == Prefix(fs[b])
    ensures Listed(fs, [a, b])
    ensures Cascade(fs, md5, [a, b], usePrefix) == Return(NoneValue)
  {
    var ps := [a, b];
    OneKeyOneGroup(OptionWalk(fs, md5, SizeOption), ps, SizeKey(|fs[a]|));
    UnequalPairStep(fs, md5, a, b, usePrefix, List([]));
    SizeStagesOfOne(fs, md5, ps, usePrefix, List([]));
  }

  /** A pair of one size and different checksums makes the step return None. */
  lemma UnequalPairStep(fs: FileSystem, md5: Content -> string, a: Path, b: Path, usePrefix: bool, result: ListOrNone)
    requires a in fs && b in fs
    requires |fs[a]| == |fs[b]| && md5(fs[a]) != md5(fs[b])
    requires usePrefix ==> Prefix(fs[a]) == Prefix(fs[b])
    ensures Listed(fs, [a, b])
    ensures (if usePrefix then ContentStage(fs, md5, [a, b], result) else ChecksumStage(fs, md5, [a, b], result)) == Return(NoneValue)
  {
    TwoKeysNoGroup(OptionWalk(fs, md5, ChecksumOption), a, b);
    OnePrefixStep(fs, md5, [a, b], usePrefix, result);
  }

  /** A pair of equal files makes the step raise once `result` is None. */
  lemma EqualPairStepRaises(fs: FileSystem, md5: Content -> string, c: Path, d: Path, usePrefix: bool)
    requires c in fs && d in fs && fs[c] == fs[d]
    ensures Listed(fs, [c, d])
    ensures (if usePrefix then ContentStage(fs, md5, [c, d], NoneValue) else ChecksumStage(fs, md5, [c, d], NoneValue)) == AttributeError
  {
    OneKeyOneGroup(OptionWalk(fs, md5, ChecksumOption), [c, d], ChecksumKey(md5(fs[c])));
    OnePrefixStep(fs, md5, [c, d], usePrefix, NoneValue);
  }

  /**
   * A size group with no checksum group followed by one with a checksum
   * group: the None left by the first makes the second raise AttributeError.
   */
  lemma NoneThenGroupRaises(fs: FileSystem, md5: Content -> string, a: Path, b: Path, c: Path, d: Path, usePrefix: bool)
    requires a in fs && b in fs && c in fs && d in fs
    requires |fs[a]| == |fs[b]| > 0 && md5(fs[a]) != md5(fs[b])
    requires usePrefix ==> Prefix(fs[a]) == Prefix(fs[b])
    requires fs[c] == fs[d] && |fs[c]| > 0 && |fs[c]| != |fs[a]|
    ensures Listed(fs, [a, b, c, d])
    ensures Cascade(fs, md5, [a, b, c, d], usePrefix) == AttributeError
  {
    var first, second := [a, b], [c, d];
    PairedKeysTwoGroups(OptionWalk(fs, md5, SizeOption), a, b, c, d, SizeKey(|fs[a]|), SizeKey(|fs[c]|));
    UnequalPairStep(fs, md5, a, b, usePrefix, List([]));
    EqualPairStepRaises(fs, md5, c, d, usePrefix);
    SizeStagesOfOne(fs, md5, second, usePrefix, NoneValue);
    assert [first, second][0] == first && [first, second][1..] == [second];
  }

  /** One file-content pair forms one checksum group, which the step appends. */
  lemma PairStep(fs: FileSystem, md5: Content -> string, a: Path, b: Path, result: seq<seq<Path>>)
    requires a in fs && b in fs && fs[a] == fs[b]
    ensures Listed(fs, [a, b])
    ensures ChecksumStage(fs, md5, [a, b], List(result)) == Return(List(result + [[a, b]]))
  {
    OneKeyOneGroup(OptionWalk(fs, md5, ChecksumOption), [a, b], ChecksumKey(md5(fs[a])));
  }

  /**
   * When the two pairs differ in their first eight bytes, the prefix stage
   * splits them before the checksum step and both are reported, so whether
   * the prefix stage runs changes the result.
   */
  lemma PrefixStageKeepsBothPairs(fs: FileSystem, md5: Content -> string, a: Path, b: Path, c: Path, d: Path)
    requires a in fs && b in fs && c in fs && d in fs
    requires fs[a] == fs[b] && fs[c] == fs[d] && |fs[a]| == |fs[c]| > 0
    requires Prefix(fs[a]) != Prefix(fs[c])
    ensures Listed(fs, [a, b, c, d])
    ensures Cascade(fs, md5, [a, b, c, d], true) == Return(List([[a, b], [c, d]]))
  {
    var ps := [a, b, c, d];
    OneKeyOneGroup(OptionWalk(fs, md5, SizeOption), ps, SizeKey(|fs[a]|));
    PairedKeysTwoGroups(OptionWalk(fs, md5, ContentOption), a, b, c, d, PrefixKey(Prefix(fs[a])), PrefixKey(Prefix(fs[c])));
    PairsStages(fs, md5, a, b, c, d);
    SizeStagesOfOne(fs, md5, ps, true, List([]));
  }

  /** The checksum steps on two pairs of equal files append both pairs. */
  lemma PairsStages(fs: FileSystem, md5: Content -> string, a: Path, b: Path, c: Path, d: Path)
    requires a in fs && b in fs && c in fs && d in fs
    requires fs[a] == fs[b] && fs[c] == fs[d]
    ensures AllListed(fs, [[a, b], [c, d]])
    ensures ChecksumStages(fs, md5, [[a, b], [c, d]], List([])) == Return(List([[a, b], [c, d]]))
  {
    var first, second := [a, b], [c, d];
    PairStep(fs, md5, a, b, []);
    PairStep(fs, md5, c, d, [first]);
    assert [] + [first] == [first] && [first] + [second] == [first, second];
    ChecksumStagesOfOne(fs, md5, second, List([first]));
    assert [first, second][0] == first && [first, second][1..] == [second];
  }
}
