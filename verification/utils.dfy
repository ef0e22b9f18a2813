/** The recording payload mapper and the environment lookup of `src/utils.ts`. */
module Utils {
  import opened Results
  import opened Types

  /* ---------------------------------------------------------------------- */
  /* Environment lookup                                                     */
  /* ---------------------------------------------------------------------- */

  /** `getEnvironmentVariable`: the process environment is a map; the lookup
      throws when the variable is absent or holds the (falsy) empty string. */
  function GetEnvironmentVariable(env: map<string, string>, key: string): (r: Result<string, Error>)
    ensures r.Success? <==> key in env && env[key] != ""
    ensures r.Success? ==> r.value == env[key] && r.value != ""
    ensures r.Failure? ==> r.error == MissingEnvironmentVariable(key)
  {
    if key in env && env[key] != "" then Success(env[key])
    else Failure(MissingEnvironmentVariable(key))
  }

  /* ---------------------------------------------------------------------- */
  /* flatMerge                                                              */
  /* ---------------------------------------------------------------------- */

  /** An optional array read as its elements, absent meaning none. */
  function OrEmpty<T>(arr: Option<seq<T>>): seq<T> {
    match arr
    case Some(xs) => xs
    case None => []
  }

  /** Reference meaning of merging optional arrays: their elements, in
      argument order, an absent array contributing nothing. */
  function ConcatPresent<T>(arrs: seq<Option<seq<T>>>): seq<T> {
    if |arrs| == 0 then [] else OrEmpty(arrs[0]) + ConcatPresent(arrs[1..])
  }

  /** The `filter(Array.isArray)` step: the present arrays, in order. */
  function PresentArrays<T>(arrs: seq<Option<seq<T>>>): (r: seq<seq<T>>)
    ensures |r| == 0 <==> forall i :: 0 <= i < |arrs| ==> arrs[i].None?
  {
    if |arrs| == 0 then []
    else (if arrs[0].Some? then [arrs[0].value] else []) + PresentArrays(arrs[1..])
  }

  /** The left fold `acc.concat(...curr)` over the arrays after the first. */
  function ConcatOnto<T>(acc: seq<T>, rest: seq<seq<T>>): seq<T>
    decreases |rest|
  {
    if |rest| == 0 then acc else ConcatOnto(acc + rest[0], rest[1..])
  }

  /** `reduce` with no initial value: it throws on an empty array and
      otherwise starts the fold from the first element. */
  function ReduceConcat<T>(arrays: seq<seq<T>>): Result<seq<T>, Error> {
    if |arrays| == 0 then Failure(ReduceOfEmptyArray)
    else Success(ConcatOnto(arrays[0], arrays[1..]))
  }

  /** `flatMerge(...arr)`: drop the absent arrays, then reduce by concatenation. */
  function FlatMerge<T>(arrs: seq<Option<seq<T>>>): (r: Result<seq<T>, Error>)
    ensures r.Failure? <==> forall i :: 0 <= i < |arrs| ==> arrs[i].None?
    ensures r.Failure? ==> r.error == ReduceOfEmptyArray
    ensures r.Success? ==> r.value == ConcatPresent(arrs)
  {
    var present := PresentArrays(arrs);
    if |present| > 0 then
      ConcatOntoAppends(present[0], present[1..]);
      FoldOfPresentArrays(arrs);
      ReduceConcat(present)
    else
      ReduceConcat(present)
  }

  /** Flattening a sequence of arrays by right fold. */
  function Flatten<T>(arrays: seq<seq<T>>): seq<T> {
    if |arrays| == 0 then [] else arrays[0] + Flatten(arrays[1..])
  }

  lemma {:induction false} ConcatOntoAppends<T>(acc: seq<T>, rest: seq<seq<T>>)
    ensures ConcatOnto(acc, rest) == acc + Flatten(rest)
    decreases |rest|
  {
    if |rest| > 0 {
      ConcatOntoAppends(acc + rest[0], rest[1..]);
      assert acc + rest[0] + Flatten(rest[1..]) == acc + (rest[0] + Flatten(rest[1..]));
    }
  }

  lemma {:induction false} FoldOfPresentArrays<T>(arrs: seq<Option<seq<T>>>)
    ensures Flatten(PresentArrays(arrs)) == ConcatPresent(arrs)
  {
    if |arrs| > 0 {
      FoldOfPresentArrays(arrs[1..]);
      var head := if arrs[0].Some? then [arrs[0].value] else [];
      FlattenAppend(head, PresentArrays(arrs[1..]));
    }
  }

  lemma {:induction false} FlattenAppend<T>(xs: seq<seq<T>>, ys: seq<seq<T>>)
    ensures Flatten(xs + ys) == Flatten(xs) + Flatten(ys)
  {
    if |xs| > 0 {
      assert (xs + ys)[1..] == xs[1..] + ys;
      FlattenAppend(xs[1..], ys);
    } else {
      assert xs + ys == ys;
    }
  }

  /** The three-array call that `mapToQueueItems` makes: it fails exactly
      when all three are absent, and otherwise concatenates the present
      ones in the order recordings, audio, video. */
  lemma FlatMergeOfThree<T>(a: Option<seq<T>>, b: Option<seq<T>>, c: Option<seq<T>>)
    ensures FlatMerge([a, b, c]).Failure? <==> a.None? && b.None? && c.None?
    ensures FlatMerge([a, b, c]).Success? ==>
              FlatMerge([a, b, c]).value == OrEmpty(a) + OrEmpty(b) + OrEmpty(c)
  {
    var arrs := [a, b, c];
    assert arrs[1..] == [b, c];
    assert arrs[1..][1..] == [c];
    assert arrs[1..][1..][1..] == [];
    assert ConcatPresent(arrs[1..][1..][1..]) == [];
    assert ConcatPresent(arrs[1..][1..]) == OrEmpty(c);
    assert ConcatPresent(arrs[1..]) == OrEmpty(b) + OrEmpty(c);
    assert ConcatPresent(arrs) == OrEmpty(a) + OrEmpty(b) + OrEmpty(c);
    if a.None? && b.None? && c.None? {
      assert forall i :: 0 <= i < |arrs| ==> arrs[i].None?;
    } else {
      assert arrs[0].Some? || arrs[1].Some? || arrs[2].Some?;
    }
  }

  /* ---------------------------------------------------------------------- */
  /* Deduplication by id                                                    */
  /* ---------------------------------------------------------------------- */

  /** The set of file ids carried by a list of queue items. */
  function Ids(items: seq<QueueItem>): set<string> {
    set item | item in items :: item.fileInfo.id
  }

  /** The set of ids of a list of recording files. */
  function FileIds(files: seq<RecordingFile>): set<string> {
    set f | f in files :: f.id
  }

  /** No two queue items carry the same file id. */
  predicate DistinctIds(items: seq<QueueItem>) {
    forall i, j :: 0 <= i < j < |items| ==> items[i].fileInfo.id != items[j].fileInfo.id
  }

  /** Index `i` holds the first item carrying its id. */
  predicate IsFirstOccurrence(items: seq<QueueItem>, i: int) {
    && 0 <= i < |items|
    && forall j :: 0 <= j < i ==> items[j].fileInfo.id != items[i].fileInfo.id
  }

  /** `findIndex` from position `from` on: the first index carrying `id`, or -1. */
  function FindIndexFrom(items: seq<QueueItem>, id: string, from: nat): (r: int)
    requires from <= |items|
    ensures -1 <= r < |items|
    ensures 0 <= r ==> from <= r && items[r].fileInfo.id == id
    ensures forall j :: from <= j < |items| && (r == -1 || j < r) ==> items[j].fileInfo.id != id
    decreases |items| - from
  {
    if from == |items| then -1
    else if items[from].fileInfo.id == id then from
    else FindIndexFrom(items, id, from + 1)
  }

  /** `items.findIndex((other) => other.fileInfo.id === id)`. */
  function FindIndex(items: seq<QueueItem>, id: string): (r: int)
    ensures -1 <= r < |items|
    ensures 0 <= r ==> items[r].fileInfo.id == id
    ensures forall j :: 0 <= j < |items| && (r == -1 || j < r) ==> items[j].fileInfo.id != id
  {
    FindIndexFrom(items, id, 0)
  }

  /** The filter `index === findIndex(same id)` applied to the first `n`
      items: it keeps an item exactly when no earlier item has its id. */
  function KeepFirstOccurrences(items: seq<QueueItem>, n: nat): (r: seq<QueueItem>)
    requires n <= |items|
    ensures |r| <= n
    ensures forall x :: x in r ==> x in items[..n]
    ensures Ids(r) == Ids(items[..n])
    ensures DistinctIds(r)
  {
    if n == 0 then []
    else
      var prefix := KeepFirstOccurrences(items, n - 1);
      assert items[..n] == items[..n - 1] + [items[n - 1]];
      assert Ids(items[..n]) == Ids(items[..n - 1]) + {items[n - 1].fileInfo.id};
      if n - 1 == FindIndex(items, items[n - 1].fileInfo.id) then
        IdsAppend(prefix, items[n - 1]);
        assert items[n - 1].fileInfo.id !in Ids(items[..n - 1]);
        prefix + [items[n - 1]]
      else
        var k := FindIndex(items, items[n - 1].fileInfo.id);
        assert items[k] in items[..n - 1];
        prefix
  }

  lemma IdsAppend(items: seq<QueueItem>, x: QueueItem)
    ensures Ids(items + [x]) == Ids(items) + {x.fileInfo.id}
  {
  }

  /** The deduplication step of `mapToQueueItems`. */
  function DedupById(items: seq<QueueItem>): seq<QueueItem> {
    KeepFirstOccurrences(items, |items|)
  }

  /** The positions of the first `n` items that the filter keeps. */
  ghost function KeptIndices(items: seq<QueueItem>, n: nat): seq<int>
    requires n <= |items|
  {
    if n == 0 then []
    else KeptIndices(items, n - 1) + (if n - 1 == FindIndex(items, items[n - 1].fileInfo.id) then [n - 1] else [])
  }

  /** `findIndex` returns `i` exactly when `i` is the first occurrence of its id. */
  lemma FindIndexIsFirstOccurrence(items: seq<QueueItem>, i: int)
    requires 0 <= i < |items|
    ensures FindIndex(items, items[i].fileInfo.id) == i <==> IsFirstOccurrence(items, i)
  {
  }

  /** Deduplication selects an order-preserving subsequence: the kept items
      are the items at strictly increasing positions, and a position is kept
      exactly when it is the first occurrence of its id. */
  lemma {:induction false} KeptIndicesSelectDedup(items: seq<QueueItem>, n: nat)
    requires n <= |items|
    ensures var r := KeepFirstOccurrences(items, n);
            var idx := KeptIndices(items, n);
            && |idx| == |r|
            && (forall k :: 0 <= k < |idx| ==> 0 <= idx[k] < n && r[k] == items[idx[k]])
            && (forall k, l :: 0 <= k < l < |idx| ==> idx[k] < idx[l])
            && (forall i :: 0 <= i < n ==> (i in idx <==> IsFirstOccurrence(items, i)))
  {
    if n > 0 {
      KeptIndicesSelectDedup(items, n - 1);
      FindIndexIsFirstOccurrence(items, n - 1);
    }
  }

  /** The whole-list form: `DedupById(items)` is the subsequence of the first
      occurrences, in their original order. */
  lemma DedupSelectsFirstOccurrences(items: seq<QueueItem>)
    ensures var r := DedupById(items);
            var idx := KeptIndices(items, |items|);
            && |idx| == |r|
            && (forall k :: 0 <= k < |idx| ==> 0 <= idx[k] < |items| && r[k] == items[idx[k]])
            && (forall k, l :: 0 <= k < l < |idx| ==> idx[k] < idx[l])
            && (forall i :: 0 <= i < |items| ==> (i in idx <==> IsFirstOccurrence(items, i)))
  {
    KeptIndicesSelectDedup(items, |items|);
  }

  /** When the ids are already distinct, nothing is dropped. */
  lemma {:induction false} DedupOfDistinctIsIdentity(items: seq<QueueItem>)
    requires DistinctIds(items)
    ensures DedupById(items) == items
  {
    KeepAllWhenDistinct(items, |items|);
    assert items[..|items|] == items;
  }

  lemma {:induction false} KeepAllWhenDistinct(items: seq<QueueItem>, n: nat)
    requires n <= |items|
    requires DistinctIds(items)
    ensures KeepFirstOccurrences(items, n) == items[..n]
  {
    if n > 0 {
      KeepAllWhenDistinct(items, n - 1);
      FindIndexIsFirstOccurrence(items, n - 1);
      assert items[..n] == items[..n - 1] + [items[n - 1]];
    }
  }

  /** Deduplicating twice is the same as deduplicating once. */
  lemma DedupIdempotent(items: seq<QueueItem>)
    ensures DedupById(DedupById(items)) == DedupById(items)
  {
    DedupOfDistinctIsIdentity(DedupById(items));
  }

  /** A single pass that remembers the ids already seen computes exactly
      the `findIndex` filter. */
  method DedupBySeenSet(items: seq<QueueItem>) returns (out: seq<QueueItem>)
    ensures out == DedupById(items)
  {
    var seen: set<string> := {};
    out := [];
    var i := 0;
    while i < |items|
      invariant 0 <= i <= |items|
      invariant seen == Ids(items[..i])
      invariant out == KeepFirstOccurrences(items, i)
    {
      var item := items[i];
      KeepFirstStep(items, i);
      if item.fileInfo.id !in seen {
        out := out + [item];
      }
      seen := seen + {item.fileInfo.id};
      i := i + 1;
    }
    assert items[..i] == items;
  }

  /** One step of the filter, phrased with the ids seen so far. */
  lemma KeepFirstStep(items: seq<QueueItem>, i: nat)
    requires i < |items|
    ensures KeepFirstOccurrences(items, i + 1)
            == KeepFirstOccurrences(items, i) + (if items[i].fileInfo.id !in Ids(items[..i]) then [items[i]] else [])
    ensures Ids(items[..i + 1]) == Ids(items[..i]) + {items[i].fileInfo.id}
  {
  }

  /* ---------------------------------------------------------------------- */
  /* mapToQueueItems                                                        */
  /* ---------------------------------------------------------------------- */

  /** Pair every file with the shared download token. */
  function PairWithToken(token: string, files: seq<RecordingFile>): (r: seq<QueueItem>)
    ensures |r| == |files|
    ensures forall i :: 0 <= i < |files| ==> r[i] == QueueItem(token, files[i])
  {
    seq(|files|, i requires 0 <= i < |files| => QueueItem(token, files[i]))
  }

  /** The files of a recording-completed notification in merge order
      (recordings, then participant audio, then participant video). */
  function MergedFiles(body: RecordingCompletedBody): seq<RecordingFile> {
    var o := body.payload.obj;
    OrEmpty(o.recordingFiles) + OrEmpty(o.participantAudioFiles) + OrEmpty(o.participantVideoFiles)
  }

  /** All three file arrays of the notification are absent. */
  predicate NoFileArrays(body: RecordingCompletedBody) {
    var o := body.payload.obj;
    o.recordingFiles.None? && o.participantAudioFiles.None? && o.participantVideoFiles.None?
  }

  /** `mapToQueueItems`: merge the three optional arrays, pair each file with
      the download token, then keep the first item of every id. */
  function MapToQueueItems(body: RecordingCompletedBody): (r: Result<seq<QueueItem>, Error>)
    ensures r.Failure? <==> NoFileArrays(body)
    ensures r.Failure? ==> r.error == ReduceOfEmptyArray
    ensures r.Success? ==> forall k :: 0 <= k < |r.value| ==> r.value[k].downloadToken == body.downloadToken
    ensures r.Success? ==> DistinctIds(r.value)
    ensures r.Success? ==> Ids(r.value) == FileIds(MergedFiles(body))
  {
    var o := body.payload.obj;
    FlatMergeOfThree(o.recordingFiles, o.participantAudioFiles, o.participantVideoFiles);
    var merged :- FlatMerge([o.recordingFiles, o.participantAudioFiles, o.participantVideoFiles]);
    var items := PairWithToken(body.downloadToken, merged);
    PairedIds(body.downloadToken, merged);
    assert items[..|items|] == items;
    DedupKeepsToken(items, body.downloadToken);
    Success(DedupById(items))
  }

  lemma DedupKeepsToken(items: seq<QueueItem>, token: string)
    requires forall k :: 0 <= k < |items| ==> items[k].downloadToken == token
    ensures forall k :: 0 <= k < |DedupById(items)| ==> DedupById(items)[k].downloadToken == token
  {
    assert items[..|items|] == items;
    forall k | 0 <= k < |DedupById(items)| ensures DedupById(items)[k].downloadToken == token {
      assert DedupById(items)[k] in items;
    }
  }

  lemma PairedIds(token: string, files: seq<RecordingFile>)
    ensures Ids(PairWithToken(token, files)) == FileIds(files)
  {
  }

  /** On success the result is the first-occurrence subsequence of the
      merged files, each paired with the download token. */
  lemma MapToQueueItemsSelectsFirstOccurrences(body: RecordingCompletedBody)
    requires !NoFileArrays(body)
    ensures var merged := PairWithToken(body.downloadToken, MergedFiles(body));
            var r := MapToQueueItems(body).value;
            var idx := KeptIndices(merged, |merged|);
            && |idx| == |r|
            && (forall k :: 0 <= k < |idx| ==> 0 <= idx[k] < |merged| && r[k] == merged[idx[k]])
            && (forall k, l :: 0 <= k < l < |idx| ==> idx[k] < idx[l])
            && (forall i :: 0 <= i < |merged| ==> (i in idx <==> IsFirstOccurrence(merged, i)))
  {
    var o := body.payload.obj;
    FlatMergeOfThree(o.recordingFiles, o.participantAudioFiles, o.participantVideoFiles);
    DedupSelectsFirstOccurrences(PairWithToken(body.downloadToken, MergedFiles(body)));
  }

  /** With distinct ids across the three arrays, every file is enqueued, in
      merge order. */
  lemma MapToQueueItemsKeepsDistinct(body: RecordingCompletedBody)
    requires !NoFileArrays(body)
    requires DistinctIds(PairWithToken(body.downloadToken, MergedFiles(body)))
    ensures MapToQueueItems(body) == Success(PairWithToken(body.downloadToken, MergedFiles(body)))
  {
    var o := body.payload.obj;
    FlatMergeOfThree(o.recordingFiles, o.participantAudioFiles, o.participantVideoFiles);
    DedupOfDistinctIsIdentity(PairWithToken(body.downloadToken, MergedFiles(body)));
  }

  /** On success the mapping is the deduplication of the merged files,
      each paired with the download token. */
  lemma MapToQueueItemsIsDedupOfMerged(body: RecordingCompletedBody)
    requires !NoFileArrays(body)
    ensures MapToQueueItems(body) == Success(DedupById(PairWithToken(body.downloadToken, MergedFiles(body))))
  {
    var o := body.payload.obj;
    FlatMergeOfThree(o.recordingFiles, o.participantAudioFiles, o.participantVideoFiles);
  }

  /** Recordings `[A, B]`, audio `[B', C]` with `B'` sharing `B`'s id, and
      no video files give `[A, B, C]`, each with the download token. */
  lemma MapperDropsLaterDuplicate(body: RecordingCompletedBody, a: RecordingFile, b: RecordingFile, b': RecordingFile, c: RecordingFile)
    requires body.payload.obj.recordingFiles == Some([a, b])
    requires body.payload.obj.participantAudioFiles == Some([b', c])
    requires body.payload.obj.participantVideoFiles == Some([])
    requires a.id != b.id && a.id != c.id && b.id != c.id && b'.id == b.id
    ensures var t := body.downloadToken;
            MapToQueueItems(body) == Success([QueueItem(t, a), QueueItem(t, b), QueueItem(t, c)])
  {
    MapToQueueItemsIsDedupOfMerged(body);
    var items := PairWithToken(body.downloadToken, MergedFiles(body));
    assert MergedFiles(body) == [a, b, b', c];
    assert items[0].fileInfo.id == a.id && items[1].fileInfo.id == b.id;
    assert items[2].fileInfo.id == b.id && items[3].fileInfo.id == c.id;
    assert FindIndex(items, a.id) == 0;
    assert FindIndex(items, b.id) == 1;
    assert FindIndex(items, c.id) == 3;
    assert KeepFirstOccurrences(items, 1) == [items[0]];
    assert KeepFirstOccurrences(items, 2) == [items[0], items[1]];
    assert KeepFirstOccurrences(items, 3) == [items[0], items[1]];
    assert KeepFirstOccurrences(items, 4) == [items[0], items[1], items[3]];
  }

  /** Present but empty arrays are not an error: they map to no items. */
  lemma EmptyArraysMapToNothing(body: RecordingCompletedBody)
    requires !NoFileArrays(body)
    requires body.payload.obj.recordingFiles.None? || body.payload.obj.recordingFiles == Some([])
    requires body.payload.obj.participantAudioFiles.None? || body.payload.obj.participantAudioFiles == Some([])
    requires body.payload.obj.participantVideoFiles.None? || body.payload.obj.participantVideoFiles == Some([])
    ensures MapToQueueItems(body) == Success([])
  {
    MapToQueueItemsIsDedupOfMerged(body);
    assert MergedFiles(body) == [];
  }
}
