/**
 * The checks the init command runs on the segments of a make-cluster request: the per-segment
 * check (`ValidateSegment`), the scan for two segments that share a data directory on a host or
 * a port on an address (`CheckForDuplicatePortAndDataDirectoryFn`), and the check that every
 * host of the cluster runs gp services (`IsGpServicesEnabledFn`).
 */
module SegmentChecks {
  import opened Wrappers
  import opened StringOrder
  import opened SysUtils
  import opened InitTypes

  /* ---------- ValidateSegment ---------- */

  datatype SegmentError =
    | MissingHostName(port: int, dataDirectory: string)
    | InvalidPort(hostName: string, dataDirectory: string)
    | MissingDataDirectory(hostName: string, port: int)

  /** A segment after its check, and the check's error if any. */
  datatype SegmentCheck = SegmentCheck(segment: IdlSegment, err: Option<SegmentError>)

  /** A segment that passes its check: a host name, a positive port and a data directory. */
  predicate SegmentComplete(s: IdlSegment)
  {
    s.hostName != "" && s.port > 0 && s.dataDirectory != ""
  }

  /** The address a segment is reached at: its own, or its host name when it has none. */
  function AddressOf(s: IdlSegment): string
  {
    if s.hostAddress == "" then s.hostName else s.hostAddress
  }

  /**
   * ValidateSegment: a missing host name is an error; a missing address is then filled with the
   * host name; a port of 0 or less and a missing data directory are errors, in that order.
   */
  function ValidateSegment(segment: IdlSegment): (r: SegmentCheck)
    ensures r.err.None? <==> SegmentComplete(segment)
    ensures r.err.None? ==> r.segment.hostAddress != ""
    ensures segment.hostName != "" ==> r.segment.hostAddress == AddressOf(segment)
    ensures segment.hostName == "" ==> r.err == Some(MissingHostName(segment.port, segment.dataDirectory))
    ensures segment.hostName != "" && segment.port <= 0 ==> r.err == Some(InvalidPort(segment.hostName, segment.dataDirectory))
    ensures r.segment.hostName == segment.hostName && r.segment.port == segment.port
    ensures r.segment.dataDirectory == segment.dataDirectory
    ensures segment.hostAddress != "" ==> r.segment == segment
  {
    if segment.hostName == "" then SegmentCheck(segment, Some(MissingHostName(segment.port, segment.dataDirectory)))
    else
      var s := if segment.hostAddress == "" then segment.(hostAddress := segment.hostName) else segment;
      if s.port <= 0 then SegmentCheck(s, Some(InvalidPort(s.hostName, s.dataDirectory)))
      else if s.dataDirectory == "" then SegmentCheck(s, Some(MissingDataDirectory(s.hostName, s.port)))
      else SegmentCheck(s, None)
  }

  /** A segment that passed its check passes again unchanged. */
  lemma ValidateSegmentIdempotent(segment: IdlSegment)
    requires ValidateSegment(segment).err.None?
    ensures ValidateSegment(ValidateSegment(segment).segment) == SegmentCheck(ValidateSegment(segment).segment, None)
  {
  }

  /** An address left empty becomes the host name: the segment is then reached through its host name. */
  lemma ValidateSegmentFillsAddress(segment: IdlSegment)
    requires segment.hostName != "" && segment.hostAddress == ""
    ensures ValidateSegment(segment).segment.hostAddress == segment.hostName
  {
  }

  /** The checks of a list of segments in order, stopping at the first that fails. */
  function ValidateSegments(segs: seq<IdlSegment>): (r: (seq<IdlSegment>, Option<SegmentError>))
    ensures |r.0| == |segs|
  {
    if |segs| == 0 then ([], None)
    else
      var (done, err) := ValidateSegments(segs[..|segs| - 1]);
      var last := segs[|segs| - 1];
      if err.Some? then (done + [last], err)
      else
        var c := ValidateSegment(last);
        (done + [c.segment], c.err)
  }

  /**
   * The list passes exactly when every segment passes on its own, and then each segment is the
   * one its own check leaves.
   */
  lemma {:induction false} ValidateSegmentsMeans(segs: seq<IdlSegment>)
    ensures ValidateSegments(segs).1.None? <==> forall i :: 0 <= i < |segs| ==> SegmentComplete(segs[i])
    ensures ValidateSegments(segs).1.None? ==>
      forall i :: 0 <= i < |segs| ==> ValidateSegments(segs).0[i] == ValidateSegment(segs[i]).segment
  {
    if |segs| > 0 {
      var prefix := segs[..|segs| - 1];
      ValidateSegmentsMeans(prefix);
      assert forall i :: 0 <= i < |prefix| ==> segs[i] == prefix[i];
    }
  }

  /** Once a segment of the first k has failed, the later segments are left as they are. */
  lemma {:induction false} ValidateSegmentsStops(segs: seq<IdlSegment>, k: nat)
    requires k <= |segs| && ValidateSegments(segs[..k]).1.Some?
    ensures ValidateSegments(segs) == (ValidateSegments(segs[..k]).0 + segs[k..], ValidateSegments(segs[..k]).1)
    decreases |segs| - k
  {
    if k < |segs| {
      var prefix := segs[..|segs| - 1];
      assert prefix[..k] == segs[..k];
      ValidateSegmentsStops(prefix, k);
      var first := ValidateSegments(segs[..k]);
      var last := segs[|segs| - 1];
      assert ValidateSegments(prefix) == (first.0 + prefix[k..], first.1);
      assert ValidateSegments(segs) == (first.0 + prefix[k..] + [last], first.1);
      assert first.0 + prefix[k..] + [last] == first.0 + segs[k..] by {
        assert prefix[k..] + [last] == segs[k..];
      }
    } else {
      assert segs[..k] == segs;
      assert ValidateSegments(segs).0 + segs[k..] == ValidateSegments(segs).0;
    }
  }

  /* ---------- CheckForDuplicatePortAndDataDirectoryFn ---------- */

  datatype DuplicateError =
    | DuplicateDataDirectory(dataDirectory: string, hostAddress: string)
    | DuplicatePort(port: int, hostName: string)

  /**
   * Which earlier ports a segment's port is compared with: those recorded under its host name
   * (the lookup as the source writes it), or those recorded under its address (as its comment
   * intends and as the ports are recorded).
   */
  datatype PortLookup = ByHostName | ByHostAddress

  function PortKey(s: IdlSegment, lookup: PortLookup): string
  {
    if lookup.ByHostName? then s.hostName else s.hostAddress
  }

  /** Some segment of segs has data directory d on host name h. */
  predicate DataDirectoryUsed(segs: seq<IdlSegment>, h: string, d: string)
  {
    exists j :: 0 <= j < |segs| && segs[j].hostName == h && segs[j].dataDirectory == d
  }

  /** Some segment of segs has port p on address a. */
  predicate PortUsed(segs: seq<IdlSegment>, a: string, p: int)
  {
    exists j :: 0 <= j < |segs| && segs[j].hostAddress == a && segs[j].port == p
  }

  /**
   * The scan's verdict: the first segment whose data directory an earlier segment of the same
   * host name already uses, or whose port is already recorded under its lookup key.
   */
  function DuplicateScan(segs: seq<IdlSegment>, lookup: PortLookup): Option<DuplicateError>
  {
    if |segs| == 0 then None
    else
      var earlier := segs[..|segs| - 1];
      var s := segs[|segs| - 1];
      var verdict := DuplicateScan(earlier, lookup);
      if verdict.Some? then verdict
      else if DataDirectoryUsed(earlier, s.hostName, s.dataDirectory) then Some(DuplicateDataDirectory(s.dataDirectory, s.hostAddress))
      else if PortUsed(earlier, PortKey(s, lookup), s.port) then Some(DuplicatePort(s.port, s.hostName))
      else None
  }

  /** Once the scan has found a duplicate among the first k segments, the rest do not matter. */
  lemma {:induction false} DuplicateScanStops(segs: seq<IdlSegment>, k: nat, lookup: PortLookup)
    requires k <= |segs| && DuplicateScan(segs[..k], lookup).Some?
    ensures DuplicateScan(segs, lookup) == DuplicateScan(segs[..k], lookup)
    decreases |segs| - k
  {
    if k < |segs| {
      var prefix := segs[..|segs| - 1];
      assert prefix[..k] == segs[..k];
      DuplicateScanStops(prefix, k, lookup);
    } else {
      assert segs[..k] == segs;
    }
  }

  /** No two segments share a host name and a data directory. */
  predicate DataDirectoriesUnique(segs: seq<IdlSegment>)
  {
    forall j, k :: 0 <= j < k < |segs| ==> !(segs[j].hostName == segs[k].hostName && segs[j].dataDirectory == segs[k].dataDirectory)
  }

  /** No segment's port is recorded, by an earlier segment, under the key the later one is looked up by. */
  predicate PortsUnclaimed(segs: seq<IdlSegment>, lookup: PortLookup)
  {
    forall j, k :: 0 <= j < k < |segs| ==> !(segs[j].hostAddress == PortKey(segs[k], lookup) && segs[j].port == segs[k].port)
  }

  /** The scan passes exactly when no data directory repeats on a host and no port is claimed twice. */
  lemma {:induction false} DuplicateScanMeans(segs: seq<IdlSegment>, lookup: PortLookup)
    ensures DuplicateScan(segs, lookup).None? <==> DataDirectoriesUnique(segs) && PortsUnclaimed(segs, lookup)
  {
    if |segs| > 0 {
      var earlier := segs[..|segs| - 1];
      DuplicateScanMeans(earlier, lookup);
      assert forall j :: 0 <= j < |earlier| ==> segs[j] == earlier[j];
      var n := |segs| - 1;
      if DataDirectoriesUnique(segs) && PortsUnclaimed(segs, lookup) {
        assert DataDirectoriesUnique(earlier) && PortsUnclaimed(earlier, lookup) by {
          forall j, k | 0 <= j < k < |earlier|
            ensures !(earlier[j].hostName == earlier[k].hostName && earlier[j].dataDirectory == earlier[k].dataDirectory)
            ensures !(earlier[j].hostAddress == PortKey(earlier[k], lookup) && earlier[j].port == earlier[k].port)
          {
            assert earlier[j] == segs[j] && earlier[k] == segs[k];
          }
        }
      }
    }
  }

  /** The data directories the scan has recorded per host name after the segments segs. */
  function DataDirectoriesRecorded(segs: seq<IdlSegment>): map<string, set<string>>
  {
    if |segs| == 0 then map[]
    else
      var m := DataDirectoriesRecorded(segs[..|segs| - 1]);
      var s := segs[|segs| - 1];
      m[s.hostName := (if s.hostName in m then m[s.hostName] else {}) + {s.dataDirectory}]
  }

  /** The ports the scan has recorded per address after the segments segs. */
  function PortsRecorded(segs: seq<IdlSegment>): map<string, set<int>>
  {
    if |segs| == 0 then map[]
    else
      var m := PortsRecorded(segs[..|segs| - 1]);
      var s := segs[|segs| - 1];
      m[s.hostAddress := (if s.hostAddress in m then m[s.hostAddress] else {}) + {s.port}]
  }

  /** Data directory d is recorded under host name h exactly when a segment of segs uses it there. */
  lemma {:induction false} DataDirectoriesRecordedMeans(segs: seq<IdlSegment>, h: string, d: string)
    ensures (h in DataDirectoriesRecorded(segs) && d in DataDirectoriesRecorded(segs)[h]) <==> DataDirectoryUsed(segs, h, d)
  {
    if |segs| > 0 {
      var prefix := segs[..|segs| - 1];
      DataDirectoriesRecordedMeans(prefix, h, d);
      if DataDirectoryUsed(segs, h, d) {
        var j :| 0 <= j < |segs| && segs[j].hostName == h && segs[j].dataDirectory == d;
        if j < |prefix| {
          assert prefix[j] == segs[j];
        }
      }
      if DataDirectoryUsed(prefix, h, d) {
        var j :| 0 <= j < |prefix| && prefix[j].hostName == h && prefix[j].dataDirectory == d;
        assert segs[j] == prefix[j];
      }
    }
  }

  /** Port p is recorded under address a exactly when a segment of segs uses it there. */
  lemma {:induction false} PortsRecordedMeans(segs: seq<IdlSegment>, a: string, p: int)
    ensures (a in PortsRecorded(segs) && p in PortsRecorded(segs)[a]) <==> PortUsed(segs, a, p)
  {
    if |segs| > 0 {
      var prefix := segs[..|segs| - 1];
      PortsRecordedMeans(prefix, a, p);
      if PortUsed(segs, a, p) {
        var j :| 0 <= j < |segs| && segs[j].hostAddress == a && segs[j].port == p;
        if j < |prefix| {
          assert prefix[j] == segs[j];
        }
      }
      if PortUsed(prefix, a, p) {
        var j :| 0 <= j < |prefix| && prefix[j].hostAddress == a && prefix[j].port == p;
        assert segs[j] == prefix[j];
      }
    }
  }

  /**
   * CheckForDuplicatePortAndDataDirectoryFn as the source writes it: ports are recorded under the
   * segment's address but looked up under its host name.
   */
  method CheckForDuplicatePortAndDataDirectoryAsWritten(segs: seq<IdlSegment>) returns (err: Option<DuplicateError>)
    ensures err == DuplicateScan(segs, ByHostName)
  {
    var hostToDataDirectory: map<string, set<string>> := map[];
    var hostToPort: map<string, set<int>> := map[];
    for i := 0 to |segs|
      invariant DuplicateScan(segs[..i], ByHostName).None?
      invariant hostToDataDirectory == DataDirectoriesRecorded(segs[..i])
      invariant hostToPort == PortsRecorded(segs[..i])
    {
      var seg := segs[i];
      assert segs[..i + 1][..i] == segs[..i];
      DataDirectoriesRecordedMeans(segs[..i], seg.hostName, seg.dataDirectory);
      PortsRecordedMeans(segs[..i], PortKey(seg, ByHostName), seg.port);
      if seg.hostName !in hostToDataDirectory {
        hostToDataDirectory := hostToDataDirectory[seg.hostName := {}];
      }
      if seg.dataDirectory in hostToDataDirectory[seg.hostName] {
        DuplicateScanStops(segs, i + 1, ByHostName);
        return Some(DuplicateDataDirectory(seg.dataDirectory, seg.hostAddress));
      }
      hostToDataDirectory := hostToDataDirectory[seg.hostName := hostToDataDirectory[seg.hostName] + {seg.dataDirectory}];
      ghost var recorded := hostToPort;
      if seg.hostAddress !in hostToPort {
        hostToPort := hostToPort[seg.hostAddress := {}];
      }
      if seg.hostName in hostToPort && seg.port in hostToPort[seg.hostName] {
        assert PortKey(seg, ByHostName) in recorded && seg.port in recorded[PortKey(seg, ByHostName)];
        assert segs[..i + 1][i] == seg;
        assert !DataDirectoryUsed(segs[..i], seg.hostName, seg.dataDirectory);
        assert PortUsed(segs[..i], PortKey(seg, ByHostName), seg.port);
        DuplicateScanStops(segs, i + 1, ByHostName);
        return Some(DuplicatePort(seg.port, seg.hostName));
      }
      hostToPort := hostToPort[seg.hostAddress := hostToPort[seg.hostAddress] + {seg.port}];
    }
    assert segs[..|segs|] == segs;
    return None;
  }

  /**
   * CheckForDuplicatePortAndDataDirectory with the port looked up where it is recorded, under the
   * segment's address: no two segments on one address share a port.
   */
  method CheckForDuplicatePortAndDataDirectory(segs: seq<IdlSegment>) returns (err: Option<DuplicateError>)
    ensures err == DuplicateScan(segs, ByHostAddress)
  {
    var hostToDataDirectory: map<string, set<string>> := map[];
    var hostToPort: map<string, set<int>> := map[];
    for i := 0 to |segs|
      invariant DuplicateScan(segs[..i], ByHostAddress).None?
      invariant hostToDataDirectory == DataDirectoriesRecorded(segs[..i])
      invariant hostToPort == PortsRecorded(segs[..i])
    {
      var seg := segs[i];
      assert segs[..i + 1][..i] == segs[..i];
      DataDirectoriesRecordedMeans(segs[..i], seg.hostName, seg.dataDirectory);
      PortsRecordedMeans(segs[..i], PortKey(seg, ByHostAddress), seg.port);
      if seg.hostName !in hostToDataDirectory {
        hostToDataDirectory := hostToDataDirectory[seg.hostName := {}];
      }
      if seg.dataDirectory in hostToDataDirectory[seg.hostName] {
        DuplicateScanStops(segs, i + 1, ByHostAddress);
        return Some(DuplicateDataDirectory(seg.dataDirectory, seg.hostAddress));
      }
      hostToDataDirectory := hostToDataDirectory[seg.hostName := hostToDataDirectory[seg.hostName] + {seg.dataDirectory}];
      ghost var recorded := hostToPort;
      if seg.hostAddress !in hostToPort {
        hostToPort := hostToPort[seg.hostAddress := {}];
      }
      if seg.port in hostToPort[seg.hostAddress] {
        assert PortKey(seg, ByHostAddress) in recorded && seg.port in recorded[PortKey(seg, ByHostAddress)];
        assert segs[..i + 1][i] == seg;
        assert !DataDirectoryUsed(segs[..i], seg.hostName, seg.dataDirectory);
        assert PortUsed(segs[..i], PortKey(seg, ByHostAddress), seg.port);
        DuplicateScanStops(segs, i + 1, ByHostAddress);
        return Some(DuplicatePort(seg.port, seg.hostName));
      }
      hostToPort := hostToPort[seg.hostAddress := hostToPort[seg.hostAddress] + {seg.port}];
    }
    assert segs[..|segs|] == segs;
    return None;
  }

  /** With the lookup by address, the scan passes exactly when no address has a port twice. */
  lemma CorrectedScanMeans(segs: seq<IdlSegment>)
    ensures DuplicateScan(segs, ByHostAddress).None? <==>
      DataDirectoriesUnique(segs) &&
      forall j, k :: 0 <= j < k < |segs| ==> !(segs[j].hostAddress == segs[k].hostAddress && segs[j].port == segs[k].port)
  {
    DuplicateScanMeans(segs, ByHostAddress);
  }

  /** Two segments on one address and port, under a host name that differs from the address. */
  function SharedPortExample(): seq<IdlSegment>
  {
    [IdlSegment(7000, "/data/gpseg0", "sdw1", "sdw1-1"), IdlSegment(7000, "/data/gpseg1", "sdw1", "sdw1-1")]
  }

  /** The scan as written lets the two segments of SharedPortExample share port 7000 on sdw1-1; the corrected scan rejects them. */
  lemma AsWrittenMissesSharedPort()
    ensures DuplicateScan(SharedPortExample(), ByHostName) == None
    ensures DuplicateScan(SharedPortExample(), ByHostAddress) == Some(DuplicatePort(7000, "sdw1"))
  {
    var segs := SharedPortExample();
    assert segs[..1] == [segs[0]];
    assert segs[..1][..0] == [];
    assert !DataDirectoryUsed(segs[..1], "sdw1", "/data/gpseg1");
    assert !PortUsed(segs[..1], "sdw1", 7000);
    assert PortUsed(segs[..1], "sdw1-1", 7000) by {
      assert segs[..1][0].hostAddress == "sdw1-1";
    }
  }

  /* ---------- IsGpServicesEnabledFn ---------- */

  /** The host names of the coordinator and the primaries: every host the cluster is made on. */
  predicate ClusterHost(coordinatorHostName: string, primaries: seq<IdlSegment>, h: string)
  {
    h == coordinatorHostName || exists i :: 0 <= i < |primaries| && primaries[i].hostName == h
  }

  /** The host names the request lists: the coordinator's, then each primary's in order. */
  function RequestHostNames(coordinatorHostName: string, primaries: seq<IdlSegment>): (r: seq<string>)
    ensures |r| == |primaries| + 1 && r[0] == coordinatorHostName
  {
    if |primaries| == 0 then [coordinatorHostName]
    else RequestHostNames(coordinatorHostName, primaries[..|primaries| - 1]) + [primaries[|primaries| - 1].hostName]
  }

  /** A name is listed exactly when it is a host of the cluster. */
  lemma {:induction false} RequestHostNamesMeans(coordinatorHostName: string, primaries: seq<IdlSegment>, h: string)
    ensures h in RequestHostNames(coordinatorHostName, primaries) <==> ClusterHost(coordinatorHostName, primaries, h)
  {
    if |primaries| > 0 {
      var prefix := primaries[..|primaries| - 1];
      RequestHostNamesMeans(coordinatorHostName, prefix, h);
      if ClusterHost(coordinatorHostName, prefix, h) {
        if h != coordinatorHostName {
          var i :| 0 <= i < |prefix| && prefix[i].hostName == h;
          assert primaries[i].hostName == h;
        }
      }
      if h != coordinatorHostName && h != primaries[|primaries| - 1].hostName && ClusterHost(coordinatorHostName, primaries, h) {
        var i :| 0 <= i < |primaries| && primaries[i].hostName == h;
        assert prefix[i].hostName == h;
      }
    }
  }

  /** The listed host names, sorted, without repeats, less those that are configured. */
  function MissingServices(hostnames: seq<string>, configuredHostnames: seq<string>): seq<string>
  {
    Difference(Compact(Sort(hostnames)), configuredHostnames)
  }

  /** The missing hosts are in strictly increasing order, and are exactly the listed names that are not configured. */
  lemma MissingServicesMeans(hostnames: seq<string>, configuredHostnames: seq<string>)
    ensures StrictlySorted(MissingServices(hostnames, configuredHostnames))
    ensures forall h :: h in MissingServices(hostnames, configuredHostnames) <==> h in hostnames && h !in configuredHostnames
  {
    var sorted := Sort(hostnames);
    forall h ensures h in sorted <==> h in hostnames {
      assert h in sorted <==> h in multiset(sorted);
      assert h in hostnames <==> h in multiset(hostnames);
    }
    CompactSortedIsStrict(sorted);
    DifferenceStrictlySorted(Compact(sorted), configuredHostnames);
    DifferenceMembers(Compact(sorted), configuredHostnames);
  }

  /**
   * IsGpServicesEnabledFn: collects the host names of the coordinator and the primaries, sorts
   * them, drops repeats, and reports those absent from the configured host names; None when
   * there are none. The configured host names are a parameter.
   */
  method IsGpServicesEnabled(coordinatorHostName: string, primaries: seq<IdlSegment>, configuredHostnames: seq<string>)
    returns (err: Option<seq<string>>)
    ensures var missing := MissingServices(RequestHostNames(coordinatorHostName, primaries), configuredHostnames);
      err == if |missing| == 0 then None else Some(missing)
    ensures err.None? <==> forall h :: ClusterHost(coordinatorHostName, primaries, h) ==> h in configuredHostnames
    ensures err.Some? ==> |err.value| > 0 && StrictlySorted(err.value)
    ensures err.Some? ==> forall h :: h in err.value <==> ClusterHost(coordinatorHostName, primaries, h) && h !in configuredHostnames
  {
    var hostnames := [coordinatorHostName];
    for i := 0 to |primaries|
      invariant hostnames == RequestHostNames(coordinatorHostName, primaries[..i])
    {
      assert primaries[..i + 1][..i] == primaries[..i];
      hostnames := hostnames + [primaries[i].hostName];
    }
    assert primaries[..|primaries|] == primaries;
    var sorted := Sort(hostnames);
    var compacted := Compact(sorted);
    var diff := GetListDifference(compacted, configuredHostnames);
    MissingServicesMeans(hostnames, configuredHostnames);
    forall h ensures h in hostnames <==> ClusterHost(coordinatorHostName, primaries, h) {
      RequestHostNamesMeans(coordinatorHostName, primaries, h);
    }
    if |diff| != 0 {
      return Some(diff);
    }
    assert diff == [];
    return None;
  }

  /** Dropping elements from a strictly increasing list leaves it strictly increasing. */
  lemma {:induction false} DifferenceStrictlySorted(a: seq<string>, b: seq<string>)
    requires StrictlySorted(a)
    ensures StrictlySorted(Difference(a, b))
  {
    if |a| > 0 {
      var prefix := a[..|a| - 1];
      var last := a[|a| - 1];
      assert StrictlySorted(prefix) by {
        assert forall i :: 0 <= i < |prefix| ==> prefix[i] == a[i];
      }
      DifferenceStrictlySorted(prefix, b);
      DifferenceMembers(prefix, b);
      var d := Difference(prefix, b);
      forall x | x in d
        ensures Less(x, last)
      {
        var i :| 0 <= i < |prefix| && prefix[i] == x;
        assert a[i] == x;
      }
      if last !in b {
        var r := d + [last];
        forall i, j | 0 <= i < j < |r|
          ensures Less(r[i], r[j])
        {
          if j == |d| {
            assert r[i] in d;
          } else {
            assert r[i] == d[i] && r[j] == d[j];
          }
        }
      }
    }
  }
}
