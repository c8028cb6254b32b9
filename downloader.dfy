/**
 * The batch driver: for every configured file, search, download and save,
 * counting each file as one success or one failure, and derive the exit status.
 */
module Downloader {
  import opened Base
  import opened Locator
  import opened Storage

  /** The configured files, in the order they are processed. */
  const FilesToDownload: seq<FileDescriptor> := [
    FileDescriptor(["Active fellows PhD  status"], "Active",
                   "Active_fellows_PhD_status", "PhD Fellows Status Report"),
    FileDescriptor(["Cohort 1-10 Demographics"], "Cohort 1-10",
                   "Cohort_1_10_Demographics", "Cohort 1-10 Demographics"),
    FileDescriptor(["institutional participant list"], "institutional participant list",
                   "Institutionalization", "Institutional Achievements DB")
  ]

  /** How the batch ended: an error escaped before the loop, or the loop ran with these counts. */
  datatype BatchOutcome = Critical | Finished(successful: nat, failed: nat)

  /** A clock reading for each position of the batch, in the `YYYYmmdd_HHMMSS` form. */
  type Clock = nat -> string

  /** What the search delivers for one descriptor. */
  function Downloaded(d: FileDescriptor, query: QueryOracle, fetch: FetchOracle): Option<Bytes>
  {
    Locate(d.searchTerms, d.filenameContains, query, fetch).content
  }

  /**
   * A descriptor counts as a success when non-empty content was found and the
   * save guard accepted it. The non-empty test is the batch's own `if` on the
   * content; `SucceedsIff` shows the guard alone already implies it.
   */
  predicate Succeeds(d: FileDescriptor, query: QueryOracle, fetch: FetchOracle)
  {
    match Downloaded(d, query, fetch)
    case None => false
    case Some(content) => content != [] && Accepts(content)
  }

  /** Success is exactly: the search delivered content of at least 1000 bytes. */
  lemma SucceedsIff(d: FileDescriptor, query: QueryOracle, fetch: FetchOracle)
    ensures Succeeds(d, query, fetch) <==>
      Downloaded(d, query, fetch).Some? && |Downloaded(d, query, fetch).value| >= 1000
  {
    match Downloaded(d, query, fetch)
    case None =>
    case Some(content) => AcceptsIff(content);
  }

  /** The positions of the list whose descriptor succeeds. */
  function SucceedingPositions(ds: seq<FileDescriptor>, query: QueryOracle, fetch: FetchOracle): set<nat>
  {
    set i: nat | i < |ds| && Succeeds(ds[i], query, fetch)
  }

  /** The number of descriptors of the list that succeed. */
  function CountSucceeded(ds: seq<FileDescriptor>, query: QueryOracle, fetch: FetchOracle): (n: nat)
    ensures n <= |ds|
  {
    if ds == [] then 0
    else CountSucceeded(ds[..|ds| - 1], query, fetch) + (if Succeeds(ds[|ds| - 1], query, fetch) then 1 else 0)
  }

  /** The number of descriptors of the list that fail: no content, empty content, or content the guard rejects. */
  function CountFailed(ds: seq<FileDescriptor>, query: QueryOracle, fetch: FetchOracle): (n: nat)
    ensures n <= |ds|
  {
    if ds == [] then 0
    else CountFailed(ds[..|ds| - 1], query, fetch) + (if Succeeds(ds[|ds| - 1], query, fetch) then 0 else 1)
  }

  /** Every descriptor adds to exactly one of the two counts. */
  lemma {:induction false} CountsPartition(ds: seq<FileDescriptor>, query: QueryOracle, fetch: FetchOracle)
    ensures CountSucceeded(ds, query, fetch) + CountFailed(ds, query, fetch) == |ds|
  {
    if ds != [] {
      CountsPartition(ds[..|ds| - 1], query, fetch);
    }
  }

  /** The succeeding positions of a non-empty list: those of all but the last, and the last if it succeeds. */
  lemma SucceedingPositionsStep(ds: seq<FileDescriptor>, query: QueryOracle, fetch: FetchOracle)
    requires ds != []
    ensures SucceedingPositions(ds, query, fetch) ==
      SucceedingPositions(ds[..|ds| - 1], query, fetch) +
      (if Succeeds(ds[|ds| - 1], query, fetch) then {|ds| - 1} else {})
  {
    var init := ds[..|ds| - 1];
    forall i: nat | i < |init|
      ensures init[i] == ds[i]
    {
    }
  }

  /** The success count is the number of positions whose descriptor succeeds. */
  lemma {:induction false} CountIsSetSize(ds: seq<FileDescriptor>, query: QueryOracle, fetch: FetchOracle)
    ensures CountSucceeded(ds, query, fetch) == |SucceedingPositions(ds, query, fetch)|
  {
    if ds != [] {
      var init := ds[..|ds| - 1];
      CountIsSetSize(init, query, fetch);
      SucceedingPositionsStep(ds, query, fetch);
      assert |ds| - 1 !in SucceedingPositions(init, query, fetch);
    }
  }

  /** Extending the processed prefix by one descriptor, for the count and for the directory. */
  lemma PrefixStep(files: map<string, Bytes>, ds: seq<FileDescriptor>, i: nat,
                   query: QueryOracle, fetch: FetchOracle, clock: Clock)
    requires i < |ds|
    ensures CountSucceeded(ds[..i + 1], query, fetch) ==
      CountSucceeded(ds[..i], query, fetch) + (if Succeeds(ds[i], query, fetch) then 1 else 0)
    ensures CountFailed(ds[..i + 1], query, fetch) ==
      CountFailed(ds[..i], query, fetch) + (if Succeeds(ds[i], query, fetch) then 0 else 1)
    ensures DirAfter(files, ds[..i + 1], query, fetch, clock) ==
      SaveStep(DirAfter(files, ds[..i], query, fetch, clock), ds[i], query, fetch, clock(i))
  {
    assert ds[..i + 1][..i] == ds[..i];
  }

  /** The directory after processing one descriptor whose save reads the clock as `timestamp`. */
  function SaveStep(files: map<string, Bytes>, d: FileDescriptor, query: QueryOracle, fetch: FetchOracle,
                    timestamp: string): map<string, Bytes>
  {
    match Downloaded(d, query, fetch)
    case None => files
    case Some(content) => if content != [] then AfterSave(files, content, d.outputName, timestamp) else files
  }

  /** The directory after processing the descriptors in order, the i-th one saved at `clock(i)`. */
  function DirAfter(files: map<string, Bytes>, ds: seq<FileDescriptor>, query: QueryOracle, fetch: FetchOracle,
                    clock: Clock): map<string, Bytes>
  {
    if ds == [] then files
    else SaveStep(DirAfter(files, ds[..|ds| - 1], query, fetch, clock), ds[|ds| - 1], query, fetch, clock(|ds| - 1))
  }

  /** The result of the batch for a given token outcome. */
  function Batch(tokenOk: bool, ds: seq<FileDescriptor>, query: QueryOracle, fetch: FetchOracle): (b: BatchOutcome)
    ensures b.Finished? <==> tokenOk
    ensures b.Finished? ==> b.successful + b.failed == |ds|
  {
    if !tokenOk then Critical
    else
      CountsPartition(ds, query, fetch);
      Finished(CountSucceeded(ds, query, fetch), CountFailed(ds, query, fetch))
  }

  /** The process exit status: 1 when an error escaped or some file failed, 0 otherwise. */
  function ExitStatus(outcome: BatchOutcome): int
  {
    match outcome
    case Critical => 1
    case Finished(_, failed) => if failed > 0 then 1 else 0
  }

  /** Every descriptor succeeds exactly when the success count is the length of the list. */
  lemma {:induction false} AllSucceedIff(ds: seq<FileDescriptor>, query: QueryOracle, fetch: FetchOracle)
    ensures CountSucceeded(ds, query, fetch) == |ds| <==> forall i :: 0 <= i < |ds| ==> Succeeds(ds[i], query, fetch)
  {
    if ds != [] {
      var init := ds[..|ds| - 1];
      AllSucceedIff(init, query, fetch);
      assert forall i :: 0 <= i < |init| ==> init[i] == ds[i];
    }
  }

  /** The exit status is 0 exactly when the token was obtained and every configured file succeeded. */
  lemma ExitZeroIff(tokenOk: bool, ds: seq<FileDescriptor>, query: QueryOracle, fetch: FetchOracle)
    ensures ExitStatus(Batch(tokenOk, ds, query, fetch)) == 0 <==>
      tokenOk && forall i :: 0 <= i < |ds| ==> Succeeds(ds[i], query, fetch)
    ensures ExitStatus(Batch(tokenOk, ds, query, fetch)) == 1 <==>
      !tokenOk || exists i :: 0 <= i < |ds| && !Succeeds(ds[i], query, fetch)
  {
    AllSucceedIff(ds, query, fetch);
    CountsPartition(ds, query, fetch);
  }

  /** A path that is neither output path of any processed descriptor is left as it was. */
  lemma {:induction false} BatchTouchesOnlyOwnPaths(files: map<string, Bytes>, ds: seq<FileDescriptor>,
                                                    query: QueryOracle, fetch: FetchOracle, clock: Clock, p: string)
    requires forall i :: 0 <= i < |ds| ==>
      p != TimestampedPath(ds[i].outputName, clock(i)) && p != LatestPath(ds[i].outputName)
    ensures p in DirAfter(files, ds, query, fetch, clock) <==> p in files
    ensures p in files ==> DirAfter(files, ds, query, fetch, clock)[p] == files[p]
  {
    if ds != [] {
      var init := ds[..|ds| - 1];
      assert forall i :: 0 <= i < |init| ==> init[i] == ds[i];
      BatchTouchesOnlyOwnPaths(files, init, query, fetch, clock, p);
    }
  }

  /** With a clock that always reads `YYYYmmdd_HHMMSS`, every latest copy stays backed by a timestamped copy. */
  lemma {:induction false} BatchKeepsLatestBacked(files: map<string, Bytes>, ds: seq<FileDescriptor>,
                                                  query: QueryOracle, fetch: FetchOracle, clock: Clock)
    requires LatestBacked(files)
    requires forall i :: 0 <= i < |ds| ==> IsTimestamp(clock(i))
    ensures LatestBacked(DirAfter(files, ds, query, fetch, clock))
  {
    if ds != [] {
      var init := ds[..|ds| - 1];
      BatchKeepsLatestBacked(files, init, query, fetch, clock);
      var before := DirAfter(files, init, query, fetch, clock);
      var d := ds[|ds| - 1];
      match Downloaded(d, query, fetch)
      case None =>
      case Some(content) =>
        SaveKeepsLatestBacked(before, content, d.outputName, clock(|ds| - 1));
    }
  }

  /** The local data directory the program writes into. */
  class Workspace {
    var files: map<string, Bytes>

    constructor (initial: map<string, Bytes>)
      ensures files == initial
    {
      files := initial;
    }

    /**
     * Save one downloaded file: reject undersized content, otherwise write the
     * same bytes to the timestamped and to the latest path.
     */
    method SaveFile(content: Bytes, outputName: string, timestamp: string) returns (saved: bool)
      modifies this
      ensures saved == Accepts(content)
      ensures files == AfterSave(old(files), content, outputName, timestamp)
      ensures !saved ==> files == old(files)
      ensures saved ==> files[TimestampedPath(outputName, timestamp)] == files[LatestPath(outputName)] == content
      ensures IsTimestamp(timestamp) && old(LatestBacked(files)) ==> LatestBacked(files)
    {
      if |content| == 0 || |content| < MinContentSize {
        return false;
      }
      ghost var before := files;
      var timestamped := "data/" + outputName + "_" + timestamp + ".xlsx";
      files := files[timestamped := content];
      var latest := "data/" + outputName + "_latest.xlsx";
      files := files[latest := content];
      if IsTimestamp(timestamp) && LatestBacked(before) {
        SaveKeepsLatestBacked(before, content, outputName, timestamp);
      }
      return true;
    }

    /**
     * Process every descriptor in order. A missing token is an error that
     * escapes before the loop; inside the loop each descriptor adds one to
     * exactly one of the two counters.
     */
    method DownloadAllFiles(descriptors: seq<FileDescriptor>, tokenOk: bool,
                            query: QueryOracle, fetch: FetchOracle, clock: Clock)
      returns (outcome: BatchOutcome)
      modifies this
      ensures outcome == Batch(tokenOk, descriptors, query, fetch)
      ensures files == if tokenOk then DirAfter(old(files), descriptors, query, fetch, clock) else old(files)
    {
      if !tokenOk {
        return Critical;
      }
      var successful: nat := 0;
      var failed: nat := 0;
      var i := 0;
      while i < |descriptors|
        invariant 0 <= i <= |descriptors|
        invariant successful == CountSucceeded(descriptors[..i], query, fetch)
        invariant failed == CountFailed(descriptors[..i], query, fetch)
        invariant files == DirAfter(old(files), descriptors[..i], query, fetch, clock)
      {
        PrefixStep(old(files), descriptors, i, query, fetch, clock);
        var d := descriptors[i];
        var content;
        ghost var requests;
        content, requests := SearchForFile(d, query, fetch);
        if content.Some? && content.value != [] {
          var saved := SaveFile(content.value, d.outputName, clock(i));
          if saved {
            successful := successful + 1;
          } else {
            failed := failed + 1;
          }
        } else {
          failed := failed + 1;
        }
        i := i + 1;
      }
      assert descriptors[..i] == descriptors;
      return Finished(successful, failed);
    }

    /** The program entry: run the batch over the configured files and return the exit status. */
    method Run(tokenOk: bool, query: QueryOracle, fetch: FetchOracle, clock: Clock) returns (status: int)
      modifies this
      ensures status == ExitStatus(Batch(tokenOk, FilesToDownload, query, fetch))
      ensures files == if tokenOk then DirAfter(old(files), FilesToDownload, query, fetch, clock) else old(files)
    {
      var outcome := DownloadAllFiles(FilesToDownload, tokenOk, query, fetch, clock);
      if outcome.Critical? || outcome.failed > 0 {
        return 1;
      }
      return 0;
    }
  }
}
