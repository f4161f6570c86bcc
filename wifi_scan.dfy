/**
 * The scan list of main/wifi_manager.c: `wfm_scan_sync` folds the raw access
 * point records the driver returns into a list of at most 32 distinct
 * non-empty SSIDs, each with the strongest RSSI seen, in first-seen order;
 * `is_ssid_available` looks a name up in that list.
 */
module WifiScan {
  import opened Esp
  import opened NvsMemory

  const ScanMax: nat := 32     // WFM_SCAN_MAX

  /** RSSI in dBm as the driver reports it: an `int8_t`. */
  type Rssi = x: int | -128 <= x < 128

  /** `wifi_ap_record_t`, reduced to the fields the manager reads: a 33-byte SSID and the RSSI. */
  datatype ApRecord = ApRecord(ssid: SsidText, rssi: Rssi)

  /** `wfm_scan_ap_t`. */
  datatype ScanEntry = ScanEntry(ssid: SsidText, rssi: Rssi)

  /** Every name occurs at most once. */
  ghost predicate DistinctNames(scan: seq<ScanEntry>)
  {
    forall i, j :: 0 <= i < j < |scan| ==> scan[i].ssid != scan[j].ssid
  }

  /** A scan list as `wfm_scan_sync` builds it. */
  ghost predicate WellFormedScan(scan: seq<ScanEntry>)
  {
    |scan| <= ScanMax && DistinctNames(scan) && forall k :: 0 <= k < |scan| ==> scan[k].ssid != ""
  }

  /** The first entry named `ssid` (`strcmp` equality), if any. */
  function FindEntry(scan: seq<ScanEntry>, ssid: string): (r: Option<nat>)
    ensures r.Some? ==> r.value < |scan| && scan[r.value].ssid == ssid
    ensures r.Some? ==> forall j :: 0 <= j < r.value ==> scan[j].ssid != ssid
    ensures r.None? <==> forall j :: 0 <= j < |scan| ==> scan[j].ssid != ssid
  {
    if scan == [] then None
    else if scan[0].ssid == ssid then Some(0)
    else match FindEntry(scan[1..], ssid)
      case None => None
      case Some(k) => Some(k + 1)
  }

  /** `is_ssid_available`: false for a NULL name, otherwise whether the last scan lists it. */
  function IsSsidAvailable(scan: seq<ScanEntry>, ssid: Option<string>): (b: bool)
    ensures b <==> ssid.Some? && exists k :: 0 <= k < |scan| && scan[k].ssid == ssid.value
  {
    ssid.Some? && FindEntry(scan, ssid.value).Some?
  }

  /**
   * One turn of the de-duplication loop: a full list or an empty name is
   * skipped; a new name is appended; a known name keeps the larger RSSI.
   */
  function AddRecord(scan: seq<ScanEntry>, r: ApRecord): seq<ScanEntry>
  {
    if |scan| >= ScanMax || r.ssid == "" then scan
    else match FindEntry(scan, r.ssid)
      case None => scan + [ScanEntry(r.ssid, r.rssi)]
      case Some(k) => if r.rssi > scan[k].rssi then scan[k := ScanEntry(scan[k].ssid, r.rssi)] else scan
  }

  /** A loop turn keeps the list bounded, its names distinct and non-empty. */
  lemma AddRecordKeepsWellFormed(scan: seq<ScanEntry>, r: ApRecord)
    requires WellFormedScan(scan)
    ensures WellFormedScan(AddRecord(scan, r))
  {
  }

  /** The scan list built from the records `recs`, processed in the driver's order. */
  function Dedup(recs: seq<ApRecord>): (res: seq<ScanEntry>)
    ensures WellFormedScan(res)
    decreases |recs|
  {
    if recs == [] then []
    else
      var prev := Dedup(recs[..|recs| - 1]);
      var r := recs[|recs| - 1];
      AddRecordKeepsWellFormed(prev, r);
      AddRecord(prev, r)
  }

  /** Dedup of a longer record list is one more loop turn. */
  lemma DedupSnoc(p: seq<ApRecord>, r: ApRecord)
    ensures Dedup(p + [r]) == AddRecord(Dedup(p), r)
  {
    assert (p + [r])[..|p|] == p;
  }

  /** Every entry was reported by some record with exactly that name and RSSI. */
  lemma {:induction false} DedupSound(recs: seq<ApRecord>)
    ensures forall k :: 0 <= k < |Dedup(recs)| ==> Reported(recs, Dedup(recs)[k])
    decreases |recs|
  {
    if recs != [] {
      var p := recs[..|recs| - 1];
      var r := recs[|recs| - 1];
      DedupSound(p);
      assert recs == p + [r];
      DedupSnoc(p, r);
      var prev := Dedup(p);
      var res := Dedup(recs);
      assert Reported(recs, ScanEntry(r.ssid, r.rssi)) by { assert recs[|p|] == r; }
      forall k | 0 <= k < |prev|
        ensures Reported(recs, prev[k])
      {
        var j :| 0 <= j < |p| && p[j].ssid == prev[k].ssid && p[j].rssi == prev[k].rssi;
        assert recs[j] == p[j];
      }
      if |prev| < ScanMax && r.ssid != "" {
        match FindEntry(prev, r.ssid)
        case None =>
          assert forall k :: 0 <= k < |res| ==> res[k] == (if k < |prev| then prev[k] else ScanEntry(r.ssid, r.rssi));
        case Some(i) =>
          assert forall k :: 0 <= k < |res| ==> res[k] == prev[k] || res[k] == ScanEntry(r.ssid, r.rssi);
      }
    }
  }

  /** Some record names `e.ssid` with RSSI `e.rssi`. */
  ghost predicate Reported(recs: seq<ApRecord>, e: ScanEntry)
  {
    exists j :: 0 <= j < |recs| && recs[j].ssid == e.ssid && recs[j].rssi == e.rssi
  }

  /**
   * While the list is not full, every non-empty name reported is listed, with
   * an RSSI at least as strong as each of its records.
   */
  lemma {:induction false} DedupComplete(recs: seq<ApRecord>)
    requires |Dedup(recs)| < ScanMax
    ensures forall j :: 0 <= j < |recs| && recs[j].ssid != "" ==>
              exists k :: 0 <= k < |Dedup(recs)| && Dedup(recs)[k].ssid == recs[j].ssid && Dedup(recs)[k].rssi >= recs[j].rssi
    decreases |recs|
  {
    if recs != [] {
      var p := recs[..|recs| - 1];
      var r := recs[|recs| - 1];
      assert recs == p + [r];
      DedupSnoc(p, r);
      var prev := Dedup(p);
      var res := Dedup(recs);
      assert |prev| <= |res|;
      DedupComplete(p);
      forall j | 0 <= j < |recs| && recs[j].ssid != ""
        ensures exists k :: 0 <= k < |res| && res[k].ssid == recs[j].ssid && res[k].rssi >= recs[j].rssi
      {
        if j < |p| {
          assert recs[j] == p[j];
          var k :| 0 <= k < |prev| && prev[k].ssid == p[j].ssid && prev[k].rssi >= p[j].rssi;
          assert res[k].ssid == prev[k].ssid && res[k].rssi >= prev[k].rssi;
        } else {
          assert recs[j] == r;
          match FindEntry(prev, r.ssid)
          case None =>
            assert res[|prev|] == ScanEntry(r.ssid, r.rssi);
          case Some(k) =>
            assert res[k].ssid == r.ssid && res[k].rssi >= r.rssi;
        }
      }
    }
  }

  /** Once the list holds 32 names, every later record is ignored, even one for a listed name. */
  lemma {:induction false} DedupSaturated(recs: seq<ApRecord>, n: nat)
    requires n <= |recs| && |Dedup(recs[..n])| == ScanMax
    ensures Dedup(recs) == Dedup(recs[..n])
    decreases |recs| - n
  {
    if n < |recs| {
      var p := recs[..n + 1];
      assert p == recs[..n] + [recs[n]];
      DedupSnoc(recs[..n], recs[n]);
      assert Dedup(p) == Dedup(recs[..n]);
      assert p == recs[..n + 1];
      DedupSaturated(recs, n + 1);
    } else {
      assert recs[..n] == recs;
    }
  }

  /** Index of the first record that names `s`, or `|recs|` when none does. */
  function FirstSeen(recs: seq<ApRecord>, s: string): (n: nat)
    ensures n <= |recs|
    ensures n < |recs| ==> recs[n].ssid == s
    ensures forall j :: 0 <= j < n ==> recs[j].ssid != s
  {
    if recs == [] then 0
    else if recs[0].ssid == s then 0
    else 1 + FirstSeen(recs[1..], s)
  }

  /** Appending a record does not move an earlier first sighting. */
  lemma {:induction false} FirstSeenSnoc(p: seq<ApRecord>, r: ApRecord, s: string)
    ensures FirstSeen(p + [r], s) == if FirstSeen(p, s) < |p| then FirstSeen(p, s)
                                      else if r.ssid == s then |p| else |p| + 1
  {
    var q := p + [r];
    var n := FirstSeen(p, s);
    var m := FirstSeen(q, s);
    assert forall j :: 0 <= j < |p| ==> q[j] == p[j];
    if n < |p| {
      assert q[n].ssid == s;
      assert m <= n;
    } else if r.ssid == s {
      assert q[|p|].ssid == s;
    }
  }

  /** Each entry's name was reported, and entries are listed by first sighting. */
  ghost predicate InFirstSeenOrder(recs: seq<ApRecord>, res: seq<ScanEntry>)
  {
    (forall k :: 0 <= k < |res| ==> FirstSeen(recs, res[k].ssid) < |recs|) &&
    (forall k1, k2 :: 0 <= k1 < k2 < |res| ==> FirstSeen(recs, res[k1].ssid) < FirstSeen(recs, res[k2].ssid))
  }

  /** Entries keep the order in which their names were first reported. */
  lemma {:induction false} DedupFirstSeenOrder(recs: seq<ApRecord>)
    ensures InFirstSeenOrder(recs, Dedup(recs))
    decreases |recs|
  {
    if recs != [] {
      var p := recs[..|recs| - 1];
      var r := recs[|recs| - 1];
      assert recs == p + [r];
      DedupSnoc(p, r);
      DedupFirstSeenOrder(p);
      var prev := Dedup(p);
      if |prev| < ScanMax && r.ssid != "" && FindEntry(prev, r.ssid).None? {
        DedupComplete(p);
        OrderAfterAppend(p, r, prev);
      } else {
        OrderAfterKeep(p, r, prev, AddRecord(prev, r));
      }
    }
  }

  /** A turn that appends the new name keeps first-seen order. */
  lemma OrderAfterAppend(p: seq<ApRecord>, r: ApRecord, prev: seq<ScanEntry>)
    requires InFirstSeenOrder(p, prev)
    requires forall j :: 0 <= j < |p| ==> p[j].ssid != r.ssid
    ensures InFirstSeenOrder(p + [r], prev + [ScanEntry(r.ssid, r.rssi)])
  {
    var recs := p + [r];
    var res := prev + [ScanEntry(r.ssid, r.rssi)];
    forall k | 0 <= k < |prev|
      ensures FirstSeen(recs, prev[k].ssid) == FirstSeen(p, prev[k].ssid) < |p|
    {
      FirstSeenSnoc(p, r, prev[k].ssid);
    }
    FirstSeenSnoc(p, r, r.ssid);
    assert FirstSeen(p, r.ssid) == |p|;
    assert FirstSeen(recs, r.ssid) == |p|;
    forall k | 0 <= k < |res|
      ensures FirstSeen(recs, res[k].ssid) == if k < |prev| then FirstSeen(p, prev[k].ssid) else |p|
    {
      if k < |prev| { assert res[k] == prev[k]; }
    }
  }

  /** A turn that keeps the names where they are keeps first-seen order. */
  lemma OrderAfterKeep(p: seq<ApRecord>, r: ApRecord, prev: seq<ScanEntry>, res: seq<ScanEntry>)
    requires InFirstSeenOrder(p, prev)
    requires |res| == |prev| && forall k :: 0 <= k < |res| ==> res[k].ssid == prev[k].ssid
    ensures InFirstSeenOrder(p + [r], res)
  {
    var recs := p + [r];
    forall k | 0 <= k < |prev|
      ensures FirstSeen(recs, res[k].ssid) == FirstSeen(p, prev[k].ssid) < |p|
    {
      FirstSeenSnoc(p, r, prev[k].ssid);
    }
  }
}
