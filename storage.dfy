/**
 * The save step: the size guard, the two output paths, and the state of the
 * data directory after a save. The directory is a map from path to content.
 */
module Storage {
  import opened Base

  /** Content shorter than this is taken for an error page or an empty response. */
  const MinContentSize: nat := 1000

  /** The save guard: reject content that is empty or shorter than the minimum size. */
  predicate Accepts(content: Bytes)
  {
    !(|content| == 0 || |content| < MinContentSize)
  }

  /** The guard in one comparison: content is accepted exactly when it has at least 1000 bytes. */
  lemma AcceptsIff(content: Bytes)
    ensures Accepts(content) <==> |content| >= 1000
    ensures Accepts(content) ==> content != []
  {
  }

  predicate IsDigit(c: char)
  {
    '0' <= c <= '9'
  }

  /** The shape `YYYYmmdd_HHMMSS` of the clock reading used in file names. */
  predicate IsTimestamp(ts: string)
  {
    |ts| == 15 && ts[8] == '_' && forall i :: 0 <= i < 15 && i != 8 ==> IsDigit(ts[i])
  }

  /** The path of the timestamped copy. */
  function TimestampedPath(outputName: string, timestamp: string): string
  {
    "data/" + outputName + "_" + timestamp + ".xlsx"
  }

  /** The path of the latest copy. */
  function LatestPath(outputName: string): string
  {
    "data/" + outputName + "_latest.xlsx"
  }

  /** A latest copy is never mistaken for a timestamped copy of any output name. */
  lemma LatestIsNotTimestamped(name: string, other: string, timestamp: string)
    requires IsTimestamp(timestamp)
    ensures LatestPath(name) != TimestampedPath(other, timestamp)
  {
    var latest := LatestPath(name);
    var stamped := TimestampedPath(other, timestamp);
    assert latest[|latest| - 6] == 't';
    assert stamped[|stamped| - 6] == timestamp[14];
    assert IsDigit(timestamp[14]);
  }

  /** Distinct output names have distinct latest copies. */
  lemma LatestPathInjective(name: string, other: string)
    requires LatestPath(name) == LatestPath(other)
    ensures name == other
  {
    var p := LatestPath(name);
    assert |name| == |other|;
    assert name == p[5..5 + |name|];
    assert other == p[5..5 + |other|];
  }

  /** A timestamped path determines both the output name and the timestamp. */
  lemma TimestampedPathInjective(name: string, timestamp: string, other: string, otherTimestamp: string)
    requires IsTimestamp(timestamp) && IsTimestamp(otherTimestamp)
    requires TimestampedPath(name, timestamp) == TimestampedPath(other, otherTimestamp)
    ensures name == other && timestamp == otherTimestamp
  {
    var p := TimestampedPath(name, timestamp);
    assert |name| == |other|;
    assert name == p[5..5 + |name|];
    assert other == p[5..5 + |other|];
    assert timestamp == p[6 + |name|..21 + |name|];
    assert otherTimestamp == p[6 + |other|..21 + |other|];
  }

  /**
   * The directory after one save: unchanged when the guard rejects the
   * content, otherwise the same content at the timestamped and the latest path.
   */
  function AfterSave(files: map<string, Bytes>, content: Bytes, outputName: string, timestamp: string)
    : (r: map<string, Bytes>)
    ensures !Accepts(content) ==> r == files
    ensures Accepts(content) ==> r.Keys == files.Keys + {TimestampedPath(outputName, timestamp), LatestPath(outputName)}
    ensures Accepts(content) ==> r[TimestampedPath(outputName, timestamp)] == content && r[LatestPath(outputName)] == content
    ensures forall p :: p in files && p != TimestampedPath(outputName, timestamp) && p != LatestPath(outputName) ==>
      r[p] == files[p]
  {
    if !Accepts(content) then files
    else files[TimestampedPath(outputName, timestamp) := content][LatestPath(outputName) := content]
  }

  /**
   * Every latest copy in the directory has a timestamped copy of the same
   * output name with identical bytes.
   */
  ghost predicate LatestBacked(files: map<string, Bytes>)
  {
    forall name :: LatestPath(name) in files ==>
      exists ts ::
        && IsTimestamp(ts)
        && TimestampedPath(name, ts) in files
        && files[TimestampedPath(name, ts)] == files[LatestPath(name)]
  }

  /** A save with a well-formed timestamp keeps every latest copy backed by a timestamped one. */
  lemma SaveKeepsLatestBacked(files: map<string, Bytes>, content: Bytes, outputName: string, timestamp: string)
    requires IsTimestamp(timestamp)
    requires LatestBacked(files)
    ensures LatestBacked(AfterSave(files, content, outputName, timestamp))
  {
    var r := AfterSave(files, content, outputName, timestamp);
    if Accepts(content) {
      var stamped := TimestampedPath(outputName, timestamp);
      forall name | LatestPath(name) in r
        ensures exists ts ::
          && IsTimestamp(ts)
          && TimestampedPath(name, ts) in r
          && r[TimestampedPath(name, ts)] == r[LatestPath(name)]
      {
        if name == outputName {
          assert TimestampedPath(name, timestamp) in r;
        } else {
          if LatestPath(name) == LatestPath(outputName) {
            LatestPathInjective(name, outputName);
          }
          LatestIsNotTimestamped(name, outputName, timestamp);
          assert LatestPath(name) in files;
          var ts :| IsTimestamp(ts) && TimestampedPath(name, ts) in files &&
            files[TimestampedPath(name, ts)] == files[LatestPath(name)];
          LatestIsNotTimestamped(outputName, name, ts);
          if TimestampedPath(name, ts) == stamped {
            TimestampedPathInjective(name, ts, outputName, timestamp);
          }
          assert r[TimestampedPath(name, ts)] == r[LatestPath(name)];
        }
      }
    }
  }
}
