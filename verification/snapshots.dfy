/**
 * Fetched documents and the per-document fallback timestamp
 * (lib/import/index.js, lines 89 and 100-109).
 */
module Snapshots {
  import opened Base

  /** A timestamp in the ISO-8601 text form the script passes around. It is
      treated as an opaque value: no clock or date arithmetic is modelled. */
  type Timestamp = string

  /** A fetched document: its content (opaque here) and the optional
      last-update and creation times the store attaches to it. */
  datatype Snapshot<Doc> = Snapshot(content: Doc, updateTime: Option<Timestamp>, createTime: Option<Timestamp>)
  {
    /** The document carries at least one of the two metadata times. */
    predicate HasMetadataTime() {
      updateTime.Some? || createTime.Some?
    }
  }

  /** The first present value of a priority list, if any. This is the
      reference definition the fallback rule is measured against. */
  function FirstPresent<T>(candidates: seq<Option<T>>): (r: Option<T>)
    ensures r.None? <==> forall i :: 0 <= i < |candidates| ==> candidates[i].None?
    ensures r.Some? ==> exists k :: 0 <= k < |candidates| && candidates[k] == r
                                    && forall i :: 0 <= i < k ==> candidates[i].None?
  {
    if |candidates| == 0 then None
    else if candidates[0].Some? then candidates[0]
    else
      var r := FirstPresent(candidates[1..]);
      assert r.Some? ==> exists k :: 0 <= k < |candidates| && candidates[k] == r
                                     && forall i :: 0 <= i < k ==> candidates[i].None? by {
        if r.Some? {
          var k :| 0 <= k < |candidates[1..]| && candidates[1..][k] == r
                   && forall i :: 0 <= i < k ==> candidates[1..][i].None?;
          assert candidates[k + 1] == r;
          assert forall i :: 0 <= i < k + 1 ==> candidates[i].None? by {
            forall i | 0 <= i < k + 1 ensures candidates[i].None? {
              if i > 0 { assert candidates[i] == candidates[1..][i - 1]; }
            }
          }
        }
      }
      r
  }

  /** `defaultTimestamp` for one document: its update time, else its
      creation time, else the run-wide import timestamp. */
  function DefaultTimestamp<Doc>(s: Snapshot<Doc>, importTimestamp: Timestamp): (t: Timestamp)
    ensures Some(t) == s.updateTime || Some(t) == s.createTime || t == importTimestamp
    ensures !s.HasMetadataTime() ==> t == importTimestamp
  {
    if s.updateTime.Some? then s.updateTime.value
    else if s.createTime.Some? then s.createTime.value
    else importTimestamp
  }

  /** The fallback follows the priority list update time, creation time,
      import timestamp: whichever comes first among those present. */
  lemma DefaultTimestampPriority<Doc>(s: Snapshot<Doc>, importTimestamp: Timestamp)
    ensures FirstPresent([s.updateTime, s.createTime, Some(importTimestamp)])
            == Some(DefaultTimestamp(s, importTimestamp))
  {
    var c := [s.updateTime, s.createTime, Some(importTimestamp)];
    if s.updateTime.None? {
      assert c[1..] == [s.createTime, Some(importTimestamp)];
      assert FirstPresent(c) == FirstPresent(c[1..]);
      if s.createTime.None? {
        assert c[1..][1..] == [Some(importTimestamp)];
        assert FirstPresent(c[1..]) == FirstPresent([Some(importTimestamp)]);
      }
    }
  }

  /** The import timestamp only matters when both metadata times are absent:
      a document that carries either gets the same fallback whenever the
      import runs. */
  lemma MetadataBeatsImportTime<Doc>(s: Snapshot<Doc>, t1: Timestamp, t2: Timestamp)
    requires s.HasMetadataTime()
    ensures DefaultTimestamp(s, t1) == DefaultTimestamp(s, t2)
    ensures s.updateTime.Some? ==> DefaultTimestamp(s, t1) == s.updateTime.value
    ensures s.updateTime.None? ==> DefaultTimestamp(s, t1) == s.createTime.value
  {
  }

  /** Two documents that both lack metadata times get the same fallback,
      the import timestamp of the run. */
  lemma SharedFallback<Doc>(a: Snapshot<Doc>, b: Snapshot<Doc>, importTimestamp: Timestamp)
    requires !a.HasMetadataTime() && !b.HasMetadataTime()
    ensures DefaultTimestamp(a, importTimestamp) == DefaultTimestamp(b, importTimestamp) == importTimestamp
  {
  }
}
