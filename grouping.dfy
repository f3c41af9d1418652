/**
 * The generic grouping engine shared by every version of the finder: walk a
 * list of files, compute a key for each file that is not skipped, append
 * the file to its key's bucket in an insertion-ordered dictionary, and keep
 * the buckets holding more than one file.
 *
 * The dictionary is modelled by the sequence of keys in first-seen order
 * together with a map from key to bucket.
 */
module Grouping {
  import opened Wrappers
  import opened Files

  /**
   * One grouping pass: the snapshot it reads, the key it buckets by, and whether
   * files of size zero are passed over before their key is computed.
   */
  datatype Walk<K(==)> = Walk(fs: FileSystem, key: Content -> K, skipEmpty: bool)
  {
    /** The key of `p`, or None when the walk skips `p`. */
    function KeyOf(p: Path): Option<K>
      requires p in fs
    {
      if skipEmpty && |fs[p]| == 0 then None else Some(key(fs[p]))
    }

    /** The keys of the kept files in the order they are first met. */
    function FirstSeen(ps: seq<Path>): seq<K>
      requires Listed(fs, ps)
      decreases |ps|
    {
      if ps == [] then []
      else
        var seen := FirstSeen(ps[..|ps| - 1]);
        var k := KeyOf(ps[|ps| - 1]);
        if k.Some? && k.value !in seen then seen + [k.value] else seen
    }

    /** The kept files of `ps` whose key is `k`, in input order. */
    function Bucket(ps: seq<Path>, k: K): seq<Path>
      requires Listed(fs, ps)
      decreases |ps|
    {
      if ps == [] then []
      else Bucket(ps[..|ps| - 1], k) + if KeyOf(ps[|ps| - 1]) == Some(k) then [ps[|ps| - 1]] else []
    }

    /** The dictionary the walk has built after reading all of `ps`. */
    function BucketMap(ps: seq<Path>): map<K, seq<Path>>
      requires Listed(fs, ps)
    {
      map k | k in FirstSeen(ps) :: Bucket(ps, k)
    }

    /** The keys of the returned groups. */
    function GroupKeys(ps: seq<Path>): seq<K>
      requires Listed(fs, ps)
    {
      LongKeys(FirstSeen(ps), BucketMap(ps))
    }

    /** Reference definition of the grouping pass over `ps`. */
    function Groups(ps: seq<Path>): seq<seq<Path>>
      requires Listed(fs, ps)
    {
      LongGroups(FirstSeen(ps), BucketMap(ps))
    }

    /** Every kept occurrence of `y` in `ps` comes after some kept occurrence of `x`. */
    predicate Precedes(ps: seq<Path>, x: K, y: K)
      requires Listed(fs, ps)
    {
      forall b | 0 <= b < |ps| && KeyOf(ps[b]) == Some(y) ::
        exists a | 0 <= a < b :: KeyOf(ps[a]) == Some(x)
    }
  }

  /** The size stage of n.py and n2.py: key `os.path.getsize`, empty files skipped. */
  function SizeWalk(fs: FileSystem): Walk<nat>
  {
    Walk(fs, SizeOf, true)
  }

  /** The keys whose bucket holds more than one file, in dictionary order. */
  function LongKeys<K(==)>(order: seq<K>, buckets: map<K, seq<Path>>): (ks: seq<K>)
    requires forall k | k in order :: k in buckets
    ensures forall k | k in ks :: k in order && |buckets[k]| > 1
    ensures forall k | k in order && |buckets[k]| > 1 :: k in ks
  {
    if order == [] then []
    else (if |buckets[order[0]]| > 1 then [order[0]] else []) + LongKeys(order[1..], buckets)
  }

  /** The buckets, in dictionary order, that hold more than one file. */
  function LongGroups<K(==)>(order: seq<K>, buckets: map<K, seq<Path>>): (gs: seq<seq<Path>>)
    requires forall k | k in order :: k in buckets
    ensures forall g | g in gs :: |g| > 1
  {
    var ks := LongKeys(order, buckets);
    seq(|ks|, i requires 0 <= i < |ks| => buckets[ks[i]])
  }

  /**
   * The walk of the source: for each file, skip it when it is empty and the
   * walk skips empty files; otherwise append it to the bucket of its key,
   * opening a new bucket (and recording the key's order) the first time the
   * key is met.
   */
  method GroupFilesByKey<K(==)>(w: Walk<K>, paths: seq<Path>) returns (groups: seq<seq<Path>>)
    requires Listed(w.fs, paths)
    ensures groups == w.Groups(paths)
  {
    var order: seq<K> := [];
    var buckets: map<K, seq<Path>> := map[];
    for i := 0 to |paths|
      invariant order == w.FirstSeen(paths[..i])
      invariant forall k :: k in buckets <==> k in order
      invariant forall k | k in buckets :: buckets[k] == w.Bucket(paths[..i], k)
    {
      var file := paths[i];
      assert paths[..i + 1][..i] == paths[..i];
      if w.skipEmpty && |w.fs[file]| == 0 {
        continue;
      }
      var key := w.key(w.fs[file]);
      if key !in buckets {
        BucketSeen(w, paths[..i], key);
        order := order + [key];
        buckets := buckets[key := [file]];
      } else {
        buckets := buckets[key := buckets[key] + [file]];
      }
    }
    assert paths[..|paths|] == paths;
    LongGroupsAgree(order, buckets, w.BucketMap(paths));
    groups := LongGroups(order, buckets);
  }

  /** LongGroups reads a dictionary only at the keys of `order`. */
  lemma LongGroupsAgree<K>(order: seq<K>, m1: map<K, seq<Path>>, m2: map<K, seq<Path>>)
    requires forall k | k in order :: k in m1 && k in m2 && m1[k] == m2[k]
    ensures LongGroups(order, m1) == LongGroups(order, m2)
  {
    LongKeysAgree(order, m1, m2);
    var ks := LongKeys(order, m1);
    assert forall i | 0 <= i < |ks| :: ks[i] in order;
  }

  lemma {:induction false} LongKeysAgree<K>(order: seq<K>, m1: map<K, seq<Path>>, m2: map<K, seq<Path>>)
    requires forall k | k in order :: k in m1 && k in m2 && m1[k] == m2[k]
    ensures LongKeys(order, m1) == LongKeys(order, m2)
  {
    if order != [] {
      LongKeysAgree(order[1..], m1, m2);
    }
  }

  /** The walk after one more file: how the dictionary grows. */
  lemma WalkSnoc<K>(w: Walk<K>, ps: seq<Path>, p: Path)
    requires Listed(w.fs, ps) && p in w.fs
    ensures Listed(w.fs, ps + [p])
    ensures w.FirstSeen(ps + [p]) ==
      var k := w.KeyOf(p); if k.Some? && k.value !in w.FirstSeen(ps) then w.FirstSeen(ps) + [k.value] else w.FirstSeen(ps)
  {
    assert (ps + [p])[..|ps|] == ps;
  }

  /** The bucket of `k` after one more file. */
  lemma BucketSnoc<K>(w: Walk<K>, ps: seq<Path>, p: Path, k: K)
    requires Listed(w.fs, ps) && p in w.fs
    ensures Listed(w.fs, ps + [p])
    ensures w.Bucket(ps + [p], k) == w.Bucket(ps, k) + if w.KeyOf(p) == Some(k) then [p] else []
  {
    assert (ps + [p])[..|ps|] == ps;
  }

  /** A key with a non-empty bucket has been seen. */
  lemma {:induction false} BucketSeen<K>(w: Walk<K>, ps: seq<Path>, k: K)
    requires Listed(w.fs, ps)
    ensures w.Bucket(ps, k) != [] ==> k in w.FirstSeen(ps)
  {
    if ps != [] {
      BucketSeen(w, ps[..|ps| - 1], k);
    }
  }

  // ---------------------------------------------------------------------
  // Facts about the walk's dictionary

  /** A key is seen exactly when some kept file of `ps` has it. */
  lemma {:induction false} FirstSeenOccurs<K>(w: Walk<K>, ps: seq<Path>, k: K)
    requires Listed(w.fs, ps)
    ensures k in w.FirstSeen(ps) <==> exists x | 0 <= x < |ps| :: w.KeyOf(ps[x]) == Some(k)
  {
    if ps != [] {
      var n := |ps| - 1;
      var init := ps[..n];
      FirstSeenOccurs(w, init, k);
      if k in w.FirstSeen(ps) && k in w.FirstSeen(init) {
        var x :| 0 <= x < n && w.KeyOf(init[x]) == Some(k);
        assert ps[x] == init[x];
      }
      if x :| 0 <= x < |ps| && w.KeyOf(ps[x]) == Some(k) {
        if x < n {
          assert init[x] == ps[x];
        }
      }
    }
  }

  /** The dictionary never holds a key twice. */
  lemma {:induction false} FirstSeenDistinct<K>(w: Walk<K>, ps: seq<Path>)
    requires Listed(w.fs, ps)
    ensures Distinct(w.FirstSeen(ps))
  {
    if ps != [] {
      FirstSeenDistinct(w, ps[..|ps| - 1]);
    }
  }

  /** A bucket holds only kept input files with its key. */
  lemma {:induction false} BucketMembers<K>(w: Walk<K>, ps: seq<Path>, k: K)
    requires Listed(w.fs, ps)
    ensures forall p | p in w.Bucket(ps, k) :: p in ps && p in w.fs && w.KeyOf(p) == Some(k)
  {
    if ps != [] {
      var n := |ps| - 1;
      BucketMembers(w, ps[..n], k);
      assert forall p | p in ps[..n] :: p in ps;
    }
  }

  /** A bucket holds every kept input file with its key. */
  lemma {:induction false} BucketComplete<K>(w: Walk<K>, ps: seq<Path>, k: K, x: nat)
    requires Listed(w.fs, ps)
    requires x < |ps| && w.KeyOf(ps[x]) == Some(k)
    ensures ps[x] in w.Bucket(ps, k)
  {
    var n := |ps| - 1;
    if x < n {
      assert ps[..n][x] == ps[x];
      BucketComplete(w, ps[..n], k, x);
    }
  }

  /** Two positions of `ps` with the same kept key give a bucket of at least two files. */
  lemma {:induction false} BucketHasPair<K>(w: Walk<K>, ps: seq<Path>, k: K, x: nat, y: nat)
    requires Listed(w.fs, ps)
    requires x < |ps| && y < |ps| && x != y
    requires w.KeyOf(ps[x]) == Some(k) && w.KeyOf(ps[y]) == Some(k)
    ensures |w.Bucket(ps, k)| >= 2
  {
    var n := |ps| - 1;
    var init := ps[..n];
    if x == n {
      assert init[y] == ps[y];
      BucketComplete(w, init, k, y);
    } else if y == n {
      assert init[x] == ps[x];
      BucketComplete(w, init, k, x);
    } else {
      assert init[x] == ps[x] && init[y] == ps[y];
      BucketHasPair(w, init, k, x, y);
    }
  }

  /** A bucket keeps the input order of its files. */
  lemma {:induction false} BucketInOrder<K>(w: Walk<K>, ps: seq<Path>, k: K)
    requires Listed(w.fs, ps)
    ensures Subsequence(w.Bucket(ps, k), ps)
  {
    if ps != [] {
      var n := |ps| - 1;
      BucketInOrder(w, ps[..n], k);
      var b := w.Bucket(ps, k);
      assert ps[..|ps| - 1] == ps[..n];
      if w.KeyOf(ps[n]) == Some(k) {
        assert b == w.Bucket(ps[..n], k) + [ps[n]];
        assert b[..|b| - 1] == w.Bucket(ps[..n], k);
        assert b != [] && b[|b| - 1] == ps[|ps| - 1] && Subsequence(b[..|b| - 1], ps[..|ps| - 1]);
      } else {
        assert b == w.Bucket(ps[..n], k);
        assert Subsequence(b, ps[..|ps| - 1]);
      }
    }
  }

  /** LongKeys keeps the order of the dictionary: `idx` gives, in increasing order, the position in `order` of each long key. */
  lemma {:induction false} LongKeysInOrder<K>(order: seq<K>, buckets: map<K, seq<Path>>) returns (idx: seq<nat>)
    requires forall k | k in order :: k in buckets
    ensures |idx| == |LongKeys(order, buckets)|
    ensures forall i | 0 <= i < |idx| :: idx[i] < |order| && order[idx[i]] == LongKeys(order, buckets)[i]
    ensures forall i, j | 0 <= i < j < |idx| :: idx[i] < idx[j]
  {
    if order == [] {
      idx := [];
    } else {
      var rest := LongKeysInOrder(order[1..], buckets);
      var shifted := ShiftPositions(order, LongKeys(order[1..], buckets), rest);
      if |buckets[order[0]]| > 1 {
        idx := PrependPosition(order, LongKeys(order[1..], buckets), shifted);
      } else {
        idx := shifted;
      }
    }
  }

  /** Positions in `order[1..]` moved to positions in `order`. */
  lemma ShiftPositions<K>(order: seq<K>, tail: seq<K>, rest: seq<nat>) returns (shifted: seq<nat>)
    requires order != []
    requires |rest| == |tail|
    requires forall i | 0 <= i < |rest| :: rest[i] < |order[1..]| && order[1..][rest[i]] == tail[i]
    requires forall i, j | 0 <= i < j < |rest| :: rest[i] < rest[j]
    ensures |shifted| == |tail|
    ensures forall i | 0 <= i < |shifted| :: 0 < shifted[i] < |order| && order[shifted[i]] == tail[i]
    ensures forall i, j | 0 <= i < j < |shifted| :: shifted[i] < shifted[j]
  {
    shifted := seq(|rest|, i requires 0 <= i < |rest| => rest[i] + 1);
  }

  /** The positions of `[order[0]] + tail`, given those of `tail`. */
  lemma PrependPosition<K>(order: seq<K>, tail: seq<K>, shifted: seq<nat>) returns (idx: seq<nat>)
    requires order != []
    requires |shifted| == |tail|
    requires forall i | 0 <= i < |shifted| :: 0 < shifted[i] < |order| && order[shifted[i]] == tail[i]
    requires forall i, j | 0 <= i < j < |shifted| :: shifted[i] < shifted[j]
    ensures |idx| == |[order[0]] + tail|
    ensures forall i | 0 <= i < |idx| :: idx[i] < |order| && order[idx[i]] == ([order[0]] + tail)[i]
    ensures forall i, j | 0 <= i < j < |idx| :: idx[i] < idx[j]
  {
    idx := [0] + shifted;
    forall i, j | 0 <= i < j < |idx| ensures idx[i] < idx[j] {
      if i > 0 {
        assert idx[i] == shifted[i - 1] && idx[j] == shifted[j - 1];
      } else {
        assert idx[j] == shifted[j - 1];
      }
    }
  }

  /** Consecutive keys of LongKeys occur in that order in the dictionary. */
  lemma LongKeysBefore<K>(order: seq<K>, buckets: map<K, seq<Path>>, i: nat, j: nat)
    requires forall k | k in order :: k in buckets
    requires i < j < |LongKeys(order, buckets)|
    ensures Before(order, LongKeys(order, buckets)[i], LongKeys(order, buckets)[j])
  {
    var idx := LongKeysInOrder(order, buckets);
    assert order[idx[i]] == LongKeys(order, buckets)[i] && order[idx[j]] == LongKeys(order, buckets)[j];
  }

  /** A key seen before another is met, in the input, before every occurrence of the other. */
  lemma {:induction false} FirstSeenOrder<K>(w: Walk<K>, ps: seq<Path>, x: K, y: K)
    requires Listed(w.fs, ps)
    requires Before(w.FirstSeen(ps), x, y)
    ensures w.Precedes(ps, x, y)
  {
    var n := |ps| - 1;
    var init := ps[..n];
    var seen := w.FirstSeen(init);
    var a, b :| 0 <= a < b < |w.FirstSeen(ps)| && w.FirstSeen(ps)[a] == x && w.FirstSeen(ps)[b] == y;
    if b < |seen| {
      assert Before(seen, x, y);
      FirstSeenOrder(w, init, x, y);
      FirstSeenOccurs(w, init, y);
      forall c | 0 <= c < |ps| && w.KeyOf(ps[c]) == Some(y)
        ensures exists d | 0 <= d < c :: w.KeyOf(ps[d]) == Some(x)
      {
        if c == n {
          var c' :| 0 <= c' < n && w.KeyOf(init[c']) == Some(y);
          var d :| 0 <= d < c' && w.KeyOf(init[d]) == Some(x);
          assert ps[d] == init[d];
        } else {
          assert init[c] == ps[c];
          var d :| 0 <= d < c && w.KeyOf(init[d]) == Some(x);
          assert ps[d] == init[d];
        }
      }
    } else {
      assert x in seen && y !in seen;
      FirstSeenOccurs(w, init, x);
      FirstSeenOccurs(w, init, y);
      var d :| 0 <= d < n && w.KeyOf(init[d]) == Some(x);
      assert ps[d] == init[d];
      forall c | 0 <= c < |ps| && w.KeyOf(ps[c]) == Some(y)
        ensures exists d | 0 <= d < c :: w.KeyOf(ps[d]) == Some(x)
      {
        assert c == n;
      }
    }
  }

  /** The i-th group is the bucket of the i-th long key. */
  lemma GroupsShape<K>(w: Walk<K>, ps: seq<Path>)
    requires Listed(w.fs, ps)
    ensures |w.Groups(ps)| == |w.GroupKeys(ps)|
    ensures forall i | 0 <= i < |w.Groups(ps)| ::
      w.GroupKeys(ps)[i] in w.FirstSeen(ps) && w.Groups(ps)[i] == w.Bucket(ps, w.GroupKeys(ps)[i])
  {
  }

  // ---------------------------------------------------------------------
  // What the grouping pass promises

  /**
   * Every group has at least two files, all of them kept input files of one key.
   */
  lemma GroupsAreDuplicates<K>(w: Walk<K>, ps: seq<Path>)
    requires Listed(w.fs, ps)
    ensures forall g | g in w.Groups(ps) ::
      |g| >= 2 && g[0] in w.fs && w.KeyOf(g[0]).Some? &&
      forall p | p in g :: p in ps && p in w.fs && w.KeyOf(p) == w.KeyOf(g[0])
  {
    GroupsShape(w, ps);
    var gs, ks := w.Groups(ps), w.GroupKeys(ps);
    forall i | 0 <= i < |gs| {
      BucketMembers(w, ps, ks[i]);
    }
  }

  /** A walk that skips empty files puts none of them in a group. */
  lemma SkippedFilesAbsent<K>(w: Walk<K>, ps: seq<Path>)
    requires Listed(w.fs, ps) && w.skipEmpty
    ensures forall g | g in w.Groups(ps) :: forall p | p in g :: p in w.fs && |w.fs[p]| > 0
  {
    GroupsAreDuplicates(w, ps);
  }

  /** Distinct groups have distinct keys, hence share no file. */
  lemma GroupsHaveDistinctKeys<K>(w: Walk<K>, ps: seq<Path>)
    requires Listed(w.fs, ps)
    ensures forall i, j | 0 <= i < |w.Groups(ps)| && 0 <= j < |w.Groups(ps)| && i != j ::
      w.Groups(ps)[i][0] in w.fs && w.Groups(ps)[j][0] in w.fs &&
      w.KeyOf(w.Groups(ps)[i][0]) != w.KeyOf(w.Groups(ps)[j][0])
    ensures PairwiseDisjoint(w.Groups(ps))
  {
    GroupsShape(w, ps);
    GroupsAreDuplicates(w, ps);
    FirstSeenDistinct(w, ps);
    var gs, ks := w.Groups(ps), w.GroupKeys(ps);
    assert forall i | 0 <= i < |gs| :: gs[i] in gs;
    forall i, j | 0 <= i < |gs| && 0 <= j < |gs| && i != j
      ensures w.KeyOf(gs[i][0]) != w.KeyOf(gs[j][0])
    {
      BucketMembers(w, ps, ks[i]);
      BucketMembers(w, ps, ks[j]);
      assert w.KeyOf(gs[i][0]) == Some(ks[i]) && w.KeyOf(gs[j][0]) == Some(ks[j]);
      var lo, hi := if i < j then i else j, if i < j then j else i;
      LongKeysBefore(w.FirstSeen(ps), w.BucketMap(ps), lo, hi);
      var a, b :| 0 <= a < b < |w.FirstSeen(ps)| && w.FirstSeen(ps)[a] == ks[lo] && w.FirstSeen(ps)[b] == ks[hi];
    }
  }

  /**
   * Completeness: two input files at different positions with the same kept
   * key end up together in one group.
   */
  lemma GroupsAreComplete<K>(w: Walk<K>, ps: seq<Path>, x: nat, y: nat)
    requires Listed(w.fs, ps)
    requires x < |ps| && y < |ps| && x != y
    requires w.KeyOf(ps[x]).Some? && w.KeyOf(ps[x]) == w.KeyOf(ps[y])
    ensures exists i | 0 <= i < |w.Groups(ps)| :: ps[x] in w.Groups(ps)[i] && ps[y] in w.Groups(ps)[i]
  {
    var k := w.KeyOf(ps[x]).value;
    BucketHasPair(w, ps, k, x, y);
    FirstSeenOccurs(w, ps, k);
    GroupsShape(w, ps);
    var ks := w.GroupKeys(ps);
    assert k in ks;
    var i :| 0 <= i < |ks| && ks[i] == k;
    BucketComplete(w, ps, k, x);
    BucketComplete(w, ps, k, y);
    assert ps[x] in w.Groups(ps)[i] && ps[y] in w.Groups(ps)[i];
  }

  /** Within a group the files keep their input order. */
  lemma GroupsKeepInputOrder<K>(w: Walk<K>, ps: seq<Path>)
    requires Listed(w.fs, ps)
    ensures forall g | g in w.Groups(ps) :: Subsequence(g, ps)
  {
    GroupsShape(w, ps);
    forall i | 0 <= i < |w.Groups(ps)| {
      BucketInOrder(w, ps, w.GroupKeys(ps)[i]);
    }
  }

  /**
   * Groups come out in first-seen order of their keys: every file with the
   * key of a later group is preceded in the input by a file with the key of
   * an earlier group.
   */
  lemma GroupsInFirstSeenOrder<K>(w: Walk<K>, ps: seq<Path>, i: nat, j: nat)
    requires Listed(w.fs, ps)
    requires i < j < |w.Groups(ps)|
    ensures w.Groups(ps)[i][0] in w.fs && w.Groups(ps)[j][0] in w.fs
    ensures w.KeyOf(w.Groups(ps)[i][0]).Some? && w.KeyOf(w.Groups(ps)[j][0]).Some?
    ensures w.Precedes(ps, w.KeyOf(w.Groups(ps)[i][0]).value, w.KeyOf(w.Groups(ps)[j][0]).value)
  {
    GroupsShape(w, ps);
    var gs, ks := w.Groups(ps), w.GroupKeys(ps);
    BucketMembers(w, ps, ks[i]);
    BucketMembers(w, ps, ks[j]);
    assert gs[i] in gs && gs[j] in gs;
    assert w.KeyOf(gs[i][0]) == Some(ks[i]) && w.KeyOf(gs[j][0]) == Some(ks[j]);
    LongKeysBefore(w.FirstSeen(ps), w.BucketMap(ps), i, j);
    FirstSeenOrder(w, ps, ks[i], ks[j]);
  }

  /** Two walks that give every input file the same key see the same keys. */
  lemma {:induction false} SameKeysSameFirstSeen<K>(w1: Walk<K>, w2: Walk<K>, ps: seq<Path>)
    requires Listed(w1.fs, ps) && Listed(w2.fs, ps)
    requires forall x | 0 <= x < |ps| :: w1.KeyOf(ps[x]) == w2.KeyOf(ps[x])
    ensures w1.FirstSeen(ps) == w2.FirstSeen(ps)
  {
    if ps != [] {
      var n := |ps| - 1;
      assert forall x | 0 <= x < n :: ps[..n][x] == ps[x];
      SameKeysSameFirstSeen(w1, w2, ps[..n]);
    }
  }

  /** Two walks that give every input file the same key fill the same buckets. */
  lemma {:induction false} SameKeysSameBucket<K>(w1: Walk<K>, w2: Walk<K>, ps: seq<Path>, k: K)
    requires Listed(w1.fs, ps) && Listed(w2.fs, ps)
    requires forall x | 0 <= x < |ps| :: w1.KeyOf(ps[x]) == w2.KeyOf(ps[x])
    ensures w1.Bucket(ps, k) == w2.Bucket(ps, k)
  {
    if ps != [] {
      var n := |ps| - 1;
      assert forall x | 0 <= x < n :: ps[..n][x] == ps[x];
      SameKeysSameBucket(w1, w2, ps[..n], k);
    }
  }

  /** Two walks that give every input file the same key build the same groups. */
  lemma SameKeysSameGroups<K>(w1: Walk<K>, w2: Walk<K>, ps: seq<Path>)
    requires Listed(w1.fs, ps) && Listed(w2.fs, ps)
    requires forall x | 0 <= x < |ps| :: w1.KeyOf(ps[x]) == w2.KeyOf(ps[x])
    ensures w1.Groups(ps) == w2.Groups(ps)
  {
    SameKeysSameFirstSeen(w1, w2, ps);
    var order := w1.FirstSeen(ps);
    forall k | k in order
      ensures w1.BucketMap(ps)[k] == w2.BucketMap(ps)[k]
    {
      SameKeysSameBucket(w1, w2, ps, k);
    }
    LongGroupsAgree(order, w1.BucketMap(ps), w2.BucketMap(ps));
  }

  // ---------------------------------------------------------------------
  // Regrouping: the second stage of a cascade

  /** The groups of each group of `groups` under the walk, concatenated in order. */
  function Regroup<K(==)>(w: Walk<K>, groups: seq<seq<Path>>): seq<seq<Path>>
    requires AllListed(w.fs, groups)
    decreases |groups|
  {
    if groups == [] then []
    else Regroup(w, groups[..|groups| - 1]) + w.Groups(groups[|groups| - 1])
  }

  /** Regrouping one more input group appends that group's groups. */
  lemma RegroupStep<K>(w: Walk<K>, groups: seq<seq<Path>>, i: nat)
    requires AllListed(w.fs, groups) && i < |groups|
    ensures AllListed(w.fs, groups[..i]) && AllListed(w.fs, groups[..i + 1]) && Listed(w.fs, groups[i])
    ensures Regroup(w, groups[..i + 1]) == Regroup(w, groups[..i]) + w.Groups(groups[i])
  {
    assert groups[..i + 1][..i] == groups[..i];
  }

  /** The files of every group are files of the snapshot. */
  lemma GroupsListed<K>(w: Walk<K>, ps: seq<Path>)
    requires Listed(w.fs, ps)
    ensures AllListed(w.fs, w.Groups(ps))
  {
    GroupsAreDuplicates(w, ps);
  }

  /**
   * Every regrouped group has at least two files of one key, and lies
   * inside a single group of the input.
   */
  lemma {:induction false} RegroupRefines<K>(w: Walk<K>, groups: seq<seq<Path>>)
    requires AllListed(w.fs, groups)
    ensures forall h | h in Regroup(w, groups) ::
      |h| >= 2 && h[0] in w.fs && w.KeyOf(h[0]).Some? &&
      (forall p | p in h :: p in w.fs && w.KeyOf(p) == w.KeyOf(h[0])) &&
      exists g | g in groups :: forall p | p in h :: p in g
  {
    if groups != [] {
      var n := |groups| - 1;
      var init, last := groups[..n], groups[n];
      assert forall g | g in init :: g in groups;
      RegroupRefines(w, init);
      GroupsAreDuplicates(w, last);
      forall h | h in w.Groups(last)
        ensures exists g | g in groups :: forall p | p in h :: p in g
      {
        assert last in groups;
      }
    }
  }

  /** Regrouping never introduces a file. */
  lemma {:induction false} RegroupMembers<K>(w: Walk<K>, groups: seq<seq<Path>>)
    requires AllListed(w.fs, groups)
    ensures Members(Regroup(w, groups)) <= Members(groups)
  {
    if groups != [] {
      var n := |groups| - 1;
      var init, last := groups[..n], groups[n];
      assert forall g | g in init :: g in groups;
      RegroupMembers(w, init);
      GroupsAreDuplicates(w, last);
      assert Members(init) <= Members(groups);
      assert last in groups;
      assert Members(w.Groups(last)) <= Members(groups);
      MembersConcat(Regroup(w, init), w.Groups(last));
    }
  }

  lemma MembersConcat<T>(a: seq<seq<T>>, b: seq<seq<T>>)
    ensures Members(a + b) == Members(a) + Members(b)
  {
    assert forall g | g in a + b :: g in a || g in b;
  }

  /** Joining two disjoint lists of pairwise disjoint groups keeps them pairwise disjoint. */
  lemma DisjointConcat<T>(a: seq<seq<T>>, b: seq<seq<T>>)
    requires PairwiseDisjoint(a) && PairwiseDisjoint(b)
    requires Members(a) !! Members(b)
    ensures PairwiseDisjoint(a + b)
  {
    var c := a + b;
    forall i, j | 0 <= i < |c| && 0 <= j < |c| && i != j
      ensures Disjoint(c[i], c[j])
    {
      if i < |a| && j < |a| {
        assert Disjoint(a[i], a[j]);
      } else if i >= |a| && j >= |a| {
        assert Disjoint(b[i - |a|], b[j - |a|]);
      } else {
        forall p | p in c[i] ensures p !in c[j] {
          assert c[i] in a || c[i] in b;
          if i < |a| {
            assert a[i] in a && c[j] == b[j - |a|] && b[j - |a|] in b;
            assert p in Members(a);
          } else {
            assert b[i - |a|] in b && c[j] == a[j] && a[j] in a;
            assert p in Members(b);
          }
        }
      }
    }
  }

  /** Regrouping pairwise disjoint groups gives pairwise disjoint groups. */
  lemma {:induction false} RegroupDisjoint<K>(w: Walk<K>, groups: seq<seq<Path>>)
    requires AllListed(w.fs, groups)
    requires PairwiseDisjoint(groups)
    ensures PairwiseDisjoint(Regroup(w, groups))
  {
    if groups != [] {
      var n := |groups| - 1;
      var init, last := groups[..n], groups[n];
      assert forall g | g in init :: g in groups;
      assert PairwiseDisjoint(init) by {
        forall i, j | 0 <= i < |init| && 0 <= j < |init| && i != j ensures Disjoint(init[i], init[j]) {
          assert init[i] == groups[i] && init[j] == groups[j];
        }
      }
      RegroupDisjoint(w, init);
      RegroupMembers(w, init);
      GroupsHaveDistinctKeys(w, last);
      GroupsAreDuplicates(w, last);
      assert Members(Regroup(w, init)) !! Members(w.Groups(last)) by {
        forall p | p in Members(init) ensures p !in last {
          var g :| g in init && p in g;
          var i :| 0 <= i < n && init[i] == g;
          assert Disjoint(groups[i], groups[n]);
        }
      }
      DisjointConcat(Regroup(w, init), w.Groups(last));
    }
  }

  /** Regrouping by two walks that build the same groups of each input group gives the same result. */
  lemma {:induction false} RegroupAgree<K>(w1: Walk<K>, w2: Walk<K>, groups: seq<seq<Path>>)
    requires AllListed(w1.fs, groups) && AllListed(w2.fs, groups)
    requires forall i | 0 <= i < |groups| :: w1.Groups(groups[i]) == w2.Groups(groups[i])
    ensures Regroup(w1, groups) == Regroup(w2, groups)
  {
    if groups != [] {
      var n := |groups| - 1;
      RegroupAgree(w1, w2, groups[..n]);
    }
  }

  /** Every group formed from one of `groups` is among the regrouped ones. */
  lemma {:induction false} RegroupContains<K>(w: Walk<K>, groups: seq<seq<Path>>, s: nat, h: seq<Path>)
    requires AllListed(w.fs, groups) && s < |groups|
    requires Listed(w.fs, groups[s]) && h in w.Groups(groups[s])
    ensures h in Regroup(w, groups)
    decreases |groups|
  {
    var n := |groups| - 1;
    RegroupStep(w, groups, n);
    assert groups[..n + 1] == groups;
    if s < n {
      assert groups[..n][s] == groups[s];
      RegroupContains(w, groups[..n], s, h);
    }
  }

  /** The inner loop of the cascades: append each group of `groups` to `result`, in order. */
  method AppendGroups(result: seq<seq<Path>>, groups: seq<seq<Path>>) returns (r: seq<seq<Path>>)
    ensures r == result + groups
  {
    r := result;
    for j := 0 to |groups|
      invariant r == result + groups[..j]
    {
      assert groups[..j + 1] == groups[..j] + [groups[j]];
      r := r + [groups[j]];
    }
    assert groups[..|groups|] == groups;
  }

  // ---------------------------------------------------------------------
  // Small walks worked out

  /** A list whose kept files all have key `k`. */
  lemma {:induction false} OneKeyWalk<K>(w: Walk<K>, ps: seq<Path>, k: K)
    requires Listed(w.fs, ps) && ps != []
    requires forall i | 0 <= i < |ps| :: w.KeyOf(ps[i]) == Some(k)
    ensures w.FirstSeen(ps) == [k] && w.Bucket(ps, k) == ps
  {
    var n := |ps| - 1;
    assert ps == ps[..n] + [ps[n]];
    if n > 0 {
      OneKeyWalk(w, ps[..n], k);
    }
  }

  /** Two or more files that all share one key form exactly one group, the whole list. */
  lemma OneKeyOneGroup<K>(w: Walk<K>, ps: seq<Path>, k: K)
    requires Listed(w.fs, ps) && |ps| >= 2
    requires forall i | 0 <= i < |ps| :: w.KeyOf(ps[i]) == Some(k)
    ensures w.Groups(ps) == [ps]
  {
    OneKeyWalk(w, ps, k);
    assert [k][1..] == [];
    assert LongKeys([k], w.BucketMap(ps)) == [k];
  }

  /** Two files with different keys form no group. */
  lemma TwoKeysNoGroup<K>(w: Walk<K>, a: Path, b: Path)
    requires a in w.fs && b in w.fs
    requires w.KeyOf(a).Some? && w.KeyOf(b).Some? && w.KeyOf(a) != w.KeyOf(b)
    ensures Listed(w.fs, [a, b])
    ensures w.Groups([a, b]) == []
  {
    var x, y := w.KeyOf(a).value, w.KeyOf(b).value;
    assert [] + [a] == [a] && [a] + [b] == [a, b];
    WalkSnoc(w, [], a);
    WalkSnoc(w, [a], b);
    BucketSnoc(w, [], a, x);
    BucketSnoc(w, [a], b, x);
    BucketSnoc(w, [], a, y);
    BucketSnoc(w, [a], b, y);
    var m := w.BucketMap([a, b]);
    assert w.FirstSeen([a, b]) == [x, y];
    assert m[x] == [a] && m[y] == [b];
    assert [x, y][1..] == [y] && [y][1..] == [];
    assert LongKeys([y], m) == [];
    assert LongKeys([x, y], m) == [];
  }

  /** Four files with keys x, x, y, y and x != y form the two groups [a, b] and [c, d]. */
  lemma PairedKeysTwoGroups<K>(w: Walk<K>, a: Path, b: Path, c: Path, d: Path, x: K, y: K)
    requires a in w.fs && b in w.fs && c in w.fs && d in w.fs
    requires w.KeyOf(a) == Some(x) && w.KeyOf(b) == Some(x) && w.KeyOf(c) == Some(y) && w.KeyOf(d) == Some(y)
    requires x != y
    ensures Listed(w.fs, [a, b, c, d])
    ensures w.Groups([a, b, c, d]) == [[a, b], [c, d]]
  {
    var ps := [a, b, c, d];
    PairedKeysBuckets(w, a, b, c, d, x, y);
    var m := w.BucketMap(ps);
    assert m[x] == [a, b] && m[y] == [c, d];
    assert [x, y][1..] == [y] && [y][1..] == [];
    assert LongKeys([y], m) == [y];
    assert LongKeys([x, y], m) == [x, y];
    var gs := w.Groups(ps);
    assert |gs| == 2 && gs[0] == [a, b] && gs[1] == [c, d];
  }

  lemma PairedKeysBuckets<K>(w: Walk<K>, a: Path, b: Path, c: Path, d: Path, x: K, y: K)
    requires a in w.fs && b in w.fs && c in w.fs && d in w.fs
    requires w.KeyOf(a) == Some(x) && w.KeyOf(b) == Some(x) && w.KeyOf(c) == Some(y) && w.KeyOf(d) == Some(y)
    requires x != y
    ensures Listed(w.fs, [a, b, c, d])
    ensures w.FirstSeen([a, b, c, d]) == [x, y]
    ensures w.Bucket([a, b, c, d], x) == [a, b] && w.Bucket([a, b, c, d], y) == [c, d]
  {
    var p1: seq<Path> := [a];
    var p2 := p1 + [b];
    var p3 := p2 + [c];
    var ps := p3 + [d];
    assert ps == [a, b, c, d];
    assert [] + [a] == p1;
    WalkSnoc(w, [], a);
    WalkSnoc(w, p1, b);
    WalkSnoc(w, p2, c);
    WalkSnoc(w, p3, d);
    BucketSnoc(w, [], a, x);
    BucketSnoc(w, p1, b, x);
    BucketSnoc(w, p2, c, x);
    BucketSnoc(w, p3, d, x);
    BucketSnoc(w, [], a, y);
    BucketSnoc(w, p1, b, y);
    BucketSnoc(w, p2, c, y);
    BucketSnoc(w, p3, d, y);
  }
}
