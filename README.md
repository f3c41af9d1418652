# Duplicate files finder, modelled in Dafny

The finder takes a list of file paths and reports groups of files that are
duplicates of each other. It works as a cascade:

1. It groups files by byte size. Empty files are skipped.
2. Optionally, it groups each size group by the file's first eight bytes.
3. It groups by an MD5 checksum of the whole content.

A group with a single file is dropped at every stage.

The repository holds three versions, and each has its own module:

- `find_duplicate_files.py` (module `FindDuplicateFiles`) is the released
  finder.
  - One `group_files_by_key` is steered by an option string: `"size"`,
    `"content"` or `"checksum"`.
  - Checksums are computed over 1024-byte chunks read by `chunk_file`.
  - The prefix stage is selected by a `chunks` argument.
  - The cascade is modelled exactly as written, defects included. See
    Findings.
- `n.py` (module `N`) and `n2.py` (module `N2`) are two drafts whose
  cascades append every checksum group of every size group.
  - Their `group_files_by_key` takes the key as a function and always skips
    empty files.
  - In `n.py` the checksum grouping is its own loop, which does not skip
    empty files. `n2.py` delegates the checksum grouping to
    `group_files_by_key`.

The shared pieces are:

- Module `Files`: the file model. A snapshot maps each path to its bytes.
  - The size is the length of the content.
  - The prefix is the first `min(8, size)` bytes.
  - The checksum is a function parameter `Content -> string`. Nothing is
    assumed of it, not even injectivity.
- Module `Grouping`: the grouping engine. Python's insertion-ordered
  dictionary becomes the sequence of keys in first-seen order plus a
  `map` from key to bucket.
  - A `Walk` is one grouping pass: a snapshot, a key function, and whether
    empty files are skipped.
  - `Walk.Groups` specifies what the pass returns.
  - `Regroup` specifies a second stage applied to each group of a first
    stage.
- Module `Wrappers`: a stock `Option` datatype.

The bytes of a file, its size and its prefix are all read from the snapshot.
Four things are modelled in the source's own form:
- the first eight bytes come from a `FileReader` object's `Read(8)`;
- `chunk_file` repeatedly calls `Read` on such an object;
- `get_file_checksum` is modelled by the bytes the md5 object has absorbed,
  which arrive chunk by chunk;
- the Python `None` result and the `AttributeError` raised by `None.append`
  are the datatypes `ListOrNone` and `Outcome`.

`find_duplicate_files.py` departs in three places from its own help text or
from the two drafts `n.py` and `n2.py`. The model follows
`find_duplicate_files.py` in each:
- **Zero-size skipping.** Both drafts skip empty files whatever the key
  (`n.py:38-40`, `n2.py:30-32`). `find_duplicate_files.py` skips them only
  under the `"size"` option (lines 77-81).
- **Prefix-stage default.** The help text of `-c` says the flag turns the
  prefix stage on (lines 19-21). In the code the stage runs by default, and
  `-c` turns it off (lines 155 and 175-178).
- **Groups appended.** Both drafts append every checksum group of a size
  group (`n.py:83-84`, `n2.py:58-59`). `find_duplicate_files.py` appends at
  most one per size group (lines 134-136).

## Model

| member | source | states |
|---|---|---|
| Files.Prefix | find_duplicate_files.py:85-88 | the 8-byte read key has at most 8 bytes, begins the content, and is the whole content when the file is shorter |
| Files.PrefixAgreement | find_duplicate_files.py:85-88 | for contents of any length, equal prefix keys exactly when the contents are equal or both are at least 8 bytes long with the same first 8 bytes (so a file shorter than 8 bytes shares its key only with an identical file) |
| Grouping.LongKeys | find_duplicate_files.py:90 | the kept keys are exactly the dictionary keys whose bucket holds more than one file |
| Grouping.LongGroups | find_duplicate_files.py:90 | every returned group holds more than one file |
| Grouping.GroupFilesByKey | n.py:35-43 | the setdefault/append loop with a key function (skipping empty files when the walk says so) returns exactly the specified groups of the walk |
| Grouping.GroupsAreDuplicates | find_duplicate_files.py:82-90 | every group has at least two files, all of them input files with one and the same (not skipped) key |
| Grouping.GroupsHaveDistinctKeys | find_duplicate_files.py:89-90 | different groups have different keys and share no file |
| Grouping.GroupsAreComplete | find_duplicate_files.py:76-90 | any two input positions whose files carry the same kept key lie together in one group |
| Grouping.GroupsKeepInputOrder | find_duplicate_files.py:89 | each group is a subsequence of the input list |
| Grouping.GroupsInFirstSeenOrder | find_duplicate_files.py:89-90 | for groups i < j, every file with group j's key is preceded in the input by a file with group i's key |
| Grouping.SkippedFilesAbsent | n.py:37-41 | a walk that skips empty files puts no empty file in any group |
| Grouping.SameKeysSameGroups | n.py:35-43 | two walks that give every input file the same key (or skip the same files) return the same groups |
| Grouping.RegroupRefines | n2.py:56-59 | every second-stage group has two or more files of one key and lies inside one first-stage group |
| Grouping.RegroupDisjoint | n2.py:56-59 | regrouping pairwise disjoint groups gives pairwise disjoint groups |
| Grouping.RegroupAgree | n.py:81-84 | two walks that regroup every first-stage group alike give the same cascade result |
| Grouping.RegroupContains | n2.py:56-59 | every group found inside any first-stage group appears in the cascade result |
| Grouping.AppendGroups | n2.py:58-59 | the inner append loop leaves the result extended by all found groups, in order |
| Grouping.OneKeyOneGroup | find_duplicate_files.py:89-90 | two or more files that all share one key form one group, the whole input |
| Grouping.TwoKeysNoGroup | find_duplicate_files.py:89-90 | two files with different keys form no group |
| Grouping.PairedKeysTwoGroups | find_duplicate_files.py:89-90 | files keyed x, x, y, y with x different from y form the groups [a, b] and [c, d], in that order |
| N2.GroupFilesByKey | n2.py:27-35 | group_files_by_key returns the groups of the walk that skips empty files and keys by the given function |
| N2.GroupFilesBySize | n2.py:38-41 | the size groups are the walk keyed by size |
| N2.GroupFilesByChecksum | n2.py:49-50 | the checksum groups are the walk keyed by checksum, still skipping empty files |
| N2.ChecksumGroupsSkipEmptyFiles | n2.py:49-50 | no empty file appears in a checksum group |
| N2.FindDuplicateFiles | n2.py:53-62 | the nested loops return every checksum group of every size group, concatenated in size-group order |
| N2.DuplicatesAgree | n2.py:53-59 | every reported group has two or more input files of one non-zero size and one checksum |
| N2.DuplicatesComplete | n2.py:53-59 | two different input files of one non-zero size and one checksum are reported together in some group |
| N2.DuplicatesDisjoint | n2.py:53-59 | no file is reported in two groups |
| N2.TwoPairsGiveTwoGroups | n2.py:53-59 | four files of one size forming two content pairs with different checksums give exactly [[a, b], [c, d]] |
| N.GroupFilesByKey | n.py:35-43 | group_files_by_key returns the groups of the walk that skips empty files and keys by the given function |
| N.GroupFilesBySize | n.py:46-49 | the size groups are the walk keyed by size |
| N.GroupFilesByChecksum | n.py:70-75 | the checksum loop returns exactly the checksum buckets with more than one file, empty files included |
| N.ChecksumGroupsKeepEmptyFiles | n.py:70-75 | called on its own, the checksum grouping puts two empty files in one group |
| N.FindDuplicateFiles | n.py:78-87 | the nested loops return every checksum group of every size group, concatenated in size-group order |
| N.SameAsN2 | n.py:78-84 | n.py and n2.py report the same groups on every input: size groups hold no empty file, so the extra skip never matters |
| N.DuplicatesAgree | n.py:78-84 | every reported group has two or more input files of one non-zero size and one checksum |
| N.DuplicatesComplete | n.py:78-84 | two different input files of one non-zero size and one checksum are reported together in some group |
| N.DuplicatesDisjoint | n.py:78-84 | no file is reported in two groups |
| N.TwoPairsGiveTwoGroups | n.py:78-84 | four files of one size forming two content pairs with different checksums give exactly [[a, b], [c, d]] |
| FindDuplicateFiles.ReadOf | find_duplicate_files.py:87 | a read of `size` bytes returns a prefix of the unread bytes, of length `size` or all of them when fewer remain, and everything when `size` is negative |
| FindDuplicateFiles.FileReader.Read | find_duplicate_files.py:108 | `read(size)` returns the next `size` bytes, or all the rest when fewer remain or `size` is negative, and advances past them |
| FindDuplicateFiles.ChunkFile | find_duplicate_files.py:105-111 | the chunks are non-empty, at most `chunk_size` long, all but the last exactly that long, and together give the rest of the file; a size of 0 yields nothing and a negative size at most one chunk |
| FindDuplicateFiles.GetFileChecksum | find_duplicate_files.py:114-120 | hashing the file chunk by chunk yields the checksum of its whole content |
| FindDuplicateFiles.GroupFilesByKey | find_duplicate_files.py:63-90 | the option-steered loop returns exactly the groups of the walk keyed by size (skipping empty files), by the first 8 bytes, or by checksum |
| FindDuplicateFiles.GroupFilesBySize | find_duplicate_files.py:93-96 | the size groups are the walk with option "size" |
| FindDuplicateFiles.GroupFilesByContent | find_duplicate_files.py:99-102 | the prefix groups are the walk with option "content" |
| FindDuplicateFiles.GroupFilesByChecksum | find_duplicate_files.py:123-126 | the checksum groups are the walk with option "checksum" |
| FindDuplicateFiles.SizeGroupsSkipEmptyFiles | find_duplicate_files.py:77-81 | with option "size" no empty file appears in a group |
| FindDuplicateFiles.EmptyFilesGroupedTogether | find_duplicate_files.py:83-88 | with option "content" or "checksum" two empty files land in one group |
| FindDuplicateFiles.FindDupFilesBySizeAndChecksum | find_duplicate_files.py:129-136 | returns None when the size group has no checksum group; otherwise raises when `result` is None and else returns `result` plus the first checksum group only |
| FindDuplicateFiles.FindDupFilesBySizeAndContentAndChecksum | find_duplicate_files.py:139-146 | runs the checksum step on each prefix group in turn, threading `result` and any raise through |
| FindDuplicateFiles.FindDuplicateFiles | find_duplicate_files.py:149-160 | threads `result` through one stage per size group, using the prefix stage exactly when `chunks` is the bool True |
| FindDuplicateFiles.MainChunksArgument | find_duplicate_files.py:175-178 | the argument main passes selects the prefix stage exactly when -c is not given |
| FindDuplicateFiles.IntendedChunksArgument | find_duplicate_files.py:19-21 | the argument that matches the -c help text selects the prefix stage exactly when -c is given |
| FindDuplicateFiles.ChecksumStageSound | find_duplicate_files.py:133-136 | the group the checksum step appends holds two or more files of one checksum taken from its size group |
| FindDuplicateFiles.ContentGroupsAreCandidates | find_duplicate_files.py:143-144 | each prefix group of a size group holds files of one non-zero size and one prefix |
| FindDuplicateFiles.ContentStageSound | find_duplicate_files.py:139-146 | the prefix path appends only groups of one size, one prefix and one checksum |
| FindDuplicateFiles.SizeStagesSound | find_duplicate_files.py:154-159 | the loop over size groups keeps every appended group a group of duplicates |
| FindDuplicateFiles.CascadeSound | find_duplicate_files.py:149-160 | when a list is returned, each group holds two or more input files of one non-zero size and one checksum, and of one prefix on the prefix path |
| FindDuplicateFiles.ChecksumStagesNoneIsFinal | find_duplicate_files.py:144-146 | once `result` is None the prefix loop ends in None or a raise, never a list |
| FindDuplicateFiles.NoneIsFinal | find_duplicate_files.py:154-159 | once `result` is None the cascade ends in None or a raise, never a list |
| FindDuplicateFiles.DirectPathOneGroupPerSize | find_duplicate_files.py:154-159 | without the prefix stage, a returned list gains exactly one group per size group |
| FindDuplicateFiles.CascadeOneGroupPerSize | find_duplicate_files.py:149-160 | without the prefix stage, a returned list has exactly as many groups as there are size groups |
| FindDuplicateFiles.EarlyReturnDropsSecondPair | find_duplicate_files.py:134-136 | four files of one size in two content pairs with different checksums give only [[a, b]], with or without the prefix stage |
| FindDuplicateFiles.NoChecksumGroupGivesNone | find_duplicate_files.py:134-136 | two files of one size with different checksums make find_duplicate_files return None |
| FindDuplicateFiles.NoneThenGroupRaises | find_duplicate_files.py:134-136 | a size group without a checksum group followed by a pair of equal files raises AttributeError |
| FindDuplicateFiles.PrefixStageKeepsBothPairs | find_duplicate_files.py:139-146 | when the two pairs differ in their first 8 bytes the prefix path reports both, so the prefix stage changes the result |

## Left out

- Directory scanning is not modelled, and neither are the command line or the output. This covers `scan_files`, `is_valid_path`, `parse_command_line`, `main` (apart from the `chunks` argument it passes), `convert_to_json` and the `print` calls. The input is a list of paths and a snapshot of their contents.
- MD5 and hexadecimal encoding are not modelled. The checksum is a parameter `md5: Content -> string`. Feeding chunks to one md5 object is modelled as taking the checksum of the concatenated bytes.
- In `n.py` and `n2.py`, `get_file_checksum` reads the file as text and encodes it as UTF-8. The model keys those drafts by a checksum function of the raw content. It does not model the decoding itself or the error raised on files that are not valid UTF-8.
- Files that vanish or change while the finder runs are not modelled. Every listed path must be in the snapshot (`Files.Listed`). The source would raise from `os.path.getsize` or `open` in that case.
- Option strings other than `"size"`, `"content"` and `"checksum"` are not modelled. With such a string the source never binds `key`, so line 89 raises `UnboundLocalError` on the first file, and an empty list of files gives `[]`; no caller passes another string.
- `chunk_file` is a generator, but it is modelled as the list of chunks it yields. Laziness, and the closing of files by `with`, are not modelled.
- The model does not claim that the prefix path and the direct path report the same groups. With the early return they do not: `FindDuplicateFiles.PrefixStageKeepsBothPairs` and `FindDuplicateFiles.EarlyReturnDropsSecondPair` show an input where the results differ.

## Findings

| source | as written | input that shows it | evidently intended | confidence | as-written member | corrected member |
|---|---|---|---|---|---|---|
| find_duplicate_files.py:134-136 | `return result` sits inside the loop over checksum groups, so only the first checksum group of each size group is appended | four files of one size where a and b are equal, c and d are equal, and the two checksums differ: the result is [[a, b]] | append every checksum group, as n.py and n2.py do | not executed | FindDuplicateFiles.EarlyReturnDropsSecondPair | N2.DuplicatesComplete |
| find_duplicate_files.py:134-136 | with no checksum group the function returns None; the caller stores None as `result`, and a later `result.append` raises AttributeError | files a and b of one size with different checksums, then a pair c, d of equal content and another size: the call raises | return the list unchanged, so the cascade always returns a list of groups | not executed | FindDuplicateFiles.NoneThenGroupRaises | N2.FindDuplicateFiles |
| find_duplicate_files.py:155 | `chunks is True` holds only for the bool True; main passes the string "chunk" when -c is given and the default True otherwise (lines 175-178), so the prefix stage runs exactly when -c is absent | running with -c skips the prefix stage; running without it uses the prefix stage | run the prefix stage exactly when -c is given, as its help text says | not executed | FindDuplicateFiles.MainChunksArgument | FindDuplicateFiles.IntendedChunksArgument |
