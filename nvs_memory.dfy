/**
 * The persistent Wi-Fi credential list of main/nvs_memory.c: a fixed array of
 * fifteen (SSID, password) slots plus a count, stored as one blob under the
 * key "wifi_list". Adding an SSID that is already stored replaces only its
 * password; removing one moves the last entry into its slot.
 */
module NvsMemory {
  import opened Esp
  import opened Util

  const MaxCreds: nat := 15           // WFM_MAX_CREDS
  const SsidMax: nat := 32            // WFM_SSID_MAX: the ssid field holds 33 bytes
  const PassMax: nat := 64            // WFM_PASS_MAX: the pass field holds 65 bytes
  const WifiListKey: string := "wifi_list"

  type SsidText = s: CString | |s| <= SsidMax
  type PassText = s: CString | |s| <= PassMax

  /** `wfm_cred_t`. */
  datatype Cred = Cred(ssid: SsidText, pass: PassText)

  /** A zeroed slot. */
  const EmptyCred := Cred("", "")

  /** `wfm_cred_list_t`: the slots and the number of leading slots in use. */
  datatype CredList = CredList(creds: seq<Cred>, count: nat)

  /** A list as this module writes it: fifteen slots, at most fifteen used, unused slots zeroed. */
  ghost predicate ValidList(l: CredList)
  {
    |l.creds| == MaxCreds && l.count <= MaxCreds &&
    forall i :: l.count <= i < MaxCreds ==> l.creds[i] == EmptyCred
  }

  /** The empty list a zeroing `memset` produces. */
  function EmptyList(): (l: CredList)
    ensures ValidList(l) && l.count == 0
  {
    CredList(seq(MaxCreds, _ => EmptyCred), 0)
  }

  /** The used slots, in stored order. */
  function Entries(l: CredList): seq<Cred>
    requires l.count <= |l.creds|
  {
    l.creds[..l.count]
  }

  /** No SSID is stored twice. */
  ghost predicate UniqueNames(e: seq<Cred>)
  {
    forall i, j :: 0 <= i < j < |e| ==> e[i].ssid != e[j].ssid
  }

  /** The first entry whose SSID is `ssid` (`strcmp` equality), if any. */
  function IndexOf(e: seq<Cred>, ssid: string): (r: Option<nat>)
    ensures r.Some? ==> r.value < |e| && e[r.value].ssid == ssid
    ensures r.Some? ==> forall j :: 0 <= j < r.value ==> e[j].ssid != ssid
    ensures r.None? <==> forall j :: 0 <= j < |e| ==> e[j].ssid != ssid
  {
    if e == [] then None
    else if e[0].ssid == ssid then Some(0)
    else match IndexOf(e[1..], ssid)
      case None => None
      case Some(k) => Some(k + 1)
  }

  /** The list `get_wifi_creds_from_NVS_memory` hands back: the stored one, or an empty one. */
  function LoadedList(blob: Option<CredList>, readFault: bool): CredList
  {
    if readFault || blob.None? then EmptyList() else blob.value
  }

  /**
   * `add_wifi_creds_to_NVS_memory` on the loaded list: a stored SSID gets the
   * new password; otherwise a new entry is appended while there is room; a full
   * list is kept as it is.
   */
  function UpsertList(l: CredList, ssid: CString, pass: CString): (r: CredList)
    requires ValidList(l)
    ensures ValidList(r)
  {
    match IndexOf(Entries(l), ssid)
    case Some(i) => l.(creds := l.creds[i := Cred(l.creds[i].ssid, Bounded(pass, PassMax))])
    case None =>
      if l.count < MaxCreds then
        CredList(l.creds[l.count := Cred(Bounded(ssid, SsidMax), Bounded(pass, PassMax))], l.count + 1)
      else l
  }

  /**
   * `remove_wifi_creds_from_NVS_memory` on the loaded list: the first entry
   * named `ssid` is overwritten by the last entry, the last slot is zeroed and
   * the count drops by one; an absent SSID leaves the list as it is.
   */
  function RemoveList(l: CredList, ssid: CString): (r: CredList)
    requires ValidList(l)
    ensures ValidList(r)
  {
    match IndexOf(Entries(l), ssid)
    case None => l
    case Some(i) =>
      var last := l.count - 1;
      CredList(l.creds[i := l.creds[last]][last := EmptyCred], last)
  }

  /** Updating a stored SSID changes only that entry's password. */
  lemma UpsertExistingReplacesPassword(l: CredList, ssid: CString, pass: CString, i: nat)
    requires ValidList(l) && IndexOf(Entries(l), ssid) == Some(i)
    ensures UpsertList(l, ssid, pass).count == l.count
    ensures Entries(UpsertList(l, ssid, pass)) == Entries(l)[i := Cred(Entries(l)[i].ssid, Bounded(pass, PassMax))]
  {
  }

  /** A new SSID is appended after the existing entries while fewer than fifteen are stored. */
  lemma UpsertNewAppends(l: CredList, ssid: CString, pass: CString)
    requires ValidList(l) && IndexOf(Entries(l), ssid).None? && l.count < MaxCreds
    ensures Entries(UpsertList(l, ssid, pass)) == Entries(l) + [Cred(Bounded(ssid, SsidMax), Bounded(pass, PassMax))]
  {
    var r := UpsertList(l, ssid, pass);
    assert Entries(r) == Entries(l) + [r.creds[l.count]];
  }

  /** A new SSID is silently dropped once fifteen entries are stored. */
  lemma UpsertFullIgnored(l: CredList, ssid: CString, pass: CString)
    requires ValidList(l) && IndexOf(Entries(l), ssid).None? && l.count == MaxCreds
    ensures UpsertList(l, ssid, pass) == l
  {
  }

  /**
   * After an upsert that was not dropped, looking the SSID up finds it with the
   * new password (for an SSID that fits the 32-character field).
   */
  lemma {:induction false} UpsertThenFound(l: CredList, ssid: CString, pass: CString)
    requires ValidList(l) && |ssid| <= SsidMax
    requires IndexOf(Entries(l), ssid).Some? || l.count < MaxCreds
    ensures IndexOf(Entries(UpsertList(l, ssid, pass)), ssid).Some?
    ensures Entries(UpsertList(l, ssid, pass))[IndexOf(Entries(UpsertList(l, ssid, pass)), ssid).value].pass
            == Bounded(pass, PassMax)
  {
    var r := UpsertList(l, ssid, pass);
    match IndexOf(Entries(l), ssid)
    case Some(i) =>
      UpsertExistingReplacesPassword(l, ssid, pass, i);
      assert Entries(r)[i].ssid == ssid;
      assert forall j :: 0 <= j < i ==> Entries(r)[j] == Entries(l)[j];
      assert IndexOf(Entries(r), ssid) == Some(i);
    case None =>
      UpsertNewAppends(l, ssid, pass);
      assert Bounded(ssid, SsidMax) == ssid;
      assert Entries(r)[l.count].ssid == ssid;
      assert IndexOf(Entries(r), ssid) == Some(l.count);
  }

  /** Upserting an SSID that fits its field never stores a second entry with the same name. */
  lemma {:induction false} UpsertKeepsNamesUnique(l: CredList, ssid: CString, pass: CString)
    requires ValidList(l) && UniqueNames(Entries(l)) && |ssid| <= SsidMax
    ensures UniqueNames(Entries(UpsertList(l, ssid, pass)))
  {
    var r := UpsertList(l, ssid, pass);
    match IndexOf(Entries(l), ssid)
    case Some(i) =>
      UpsertExistingReplacesPassword(l, ssid, pass, i);
      assert forall j :: 0 <= j < |Entries(r)| ==> Entries(r)[j].ssid == Entries(l)[j].ssid;
    case None =>
      if l.count < MaxCreds {
        UpsertNewAppends(l, ssid, pass);
        assert Bounded(ssid, SsidMax) == ssid;
      }
  }

  /** Removing an absent SSID leaves the list as it is. */
  lemma RemoveAbsentUnchanged(l: CredList, ssid: CString)
    requires ValidList(l) && forall j :: 0 <= j < l.count ==> l.creds[j].ssid != ssid
    ensures RemoveList(l, ssid) == l
  {
    assert forall j :: 0 <= j < |Entries(l)| ==> Entries(l)[j] == l.creds[j];
  }

  /**
   * Removing a stored SSID takes out exactly its first entry: one entry fewer,
   * the last entry moved into the gap, every other entry kept in place.
   */
  lemma {:induction false} RemoveFoundSwapsWithLast(l: CredList, ssid: CString, i: nat)
    requires ValidList(l) && IndexOf(Entries(l), ssid) == Some(i)
    ensures RemoveList(l, ssid).count == l.count - 1
    ensures var e := Entries(l); var last := l.count - 1;
            Entries(RemoveList(l, ssid)) == if i == last then e[..last] else e[..last][i := e[last]]
  {
    var e := Entries(l);
    var last := l.count - 1;
    var r := RemoveList(l, ssid);
    if i == last {
      assert Entries(r) == e[..last];
    } else {
      assert Entries(r) == e[..last][i := e[last]];
    }
  }

  /** Removal keeps every other stored credential: the entries lose exactly one copy of the removed one. */
  lemma {:induction false} RemoveKeepsOthers(l: CredList, ssid: CString, i: nat)
    requires ValidList(l) && IndexOf(Entries(l), ssid) == Some(i)
    ensures multiset(Entries(RemoveList(l, ssid))) == multiset(Entries(l)) - multiset{Entries(l)[i]}
  {
    RemoveFoundSwapsWithLast(l, ssid, i);
    var e := Entries(l);
    var last := l.count - 1;
    assert e == e[..last] + [e[last]];
    if i < last {
      SwapOutMultiset(e, i);
    }
  }

  /** Overwriting slot `i` with the last element and dropping the last slot removes one copy of `e[i]`. */
  lemma {:induction false} SwapOutMultiset<T>(e: seq<T>, i: nat)
    requires i < |e| - 1
    ensures multiset(e[..|e| - 1][i := e[|e| - 1]]) == multiset(e) - multiset{e[i]}
  {
    var last := |e| - 1;
    var p := e[..last];
    assert e == p + [e[last]];
    assert p == p[..i] + [e[i]] + p[i + 1..];
    assert p[i := e[last]] == p[..i] + [e[last]] + p[i + 1..];
  }

  /** With unique names, a removed SSID is no longer stored. */
  lemma {:induction false} RemoveThenAbsent(l: CredList, ssid: CString)
    requires ValidList(l) && UniqueNames(Entries(l))
    ensures forall j :: 0 <= j < RemoveList(l, ssid).count ==> RemoveList(l, ssid).creds[j].ssid != ssid
  {
    var r := RemoveList(l, ssid);
    match IndexOf(Entries(l), ssid)
    case None =>
    case Some(i) =>
      RemoveFoundSwapsWithLast(l, ssid, i);
      var e := Entries(l);
      forall j | 0 <= j < r.count
        ensures r.creds[j].ssid != ssid
      {
        assert r.creds[j] == Entries(r)[j];
        if j == i {
          assert r.creds[j] == e[l.count - 1];
        } else {
          assert r.creds[j] == e[j];
        }
      }
  }

  /** The non-volatile store's "wifi_list" key; `None` when nothing was ever saved. */
  class NvsStore {
    var blob: Option<CredList>

    ghost predicate Valid()
      reads this
    {
      blob.Some? ==> ValidList(blob.value)
    }

    /** A freshly erased partition. */
    constructor ()
      ensures blob.None? && Valid()
    {
      blob := None;
    }

    /**
     * `get_wifi_creds_from_NVS_memory`: a NULL output is refused; a missing key
     * is an empty list and success; any other read error is an empty list and
     * failure. `readFault` stands for that other read error.
     */
    method Load(hasOut: bool, readFault: bool) returns (err: Err, out: Option<CredList>)
      requires Valid()
      ensures !hasOut ==> err == Fail && out.None?
      ensures hasOut && readFault ==> err == Fail && out == Some(EmptyList())
      ensures hasOut && !readFault && blob.None? ==> err == Ok && out == Some(EmptyList())
      ensures hasOut && !readFault && blob.Some? ==> err == Ok && out == blob
      ensures out.Some? ==> ValidList(out.value) && out.value == LoadedList(blob, readFault)
    {
      if !hasOut {
        return Fail, None;
      }
      var list := EmptyList();
      if readFault {
        return Fail, Some(EmptyList());
      }
      if blob.None? {
        return Ok, Some(list);
      }
      list := blob.value;
      return Ok, Some(list);
    }

    /**
     * `add_wifi_creds_to_NVS_memory`: ignores a NULL or empty SSID; otherwise
     * loads the list (a failed load counts as empty), updates or appends, and
     * writes the whole list back.
     */
    method AddCreds(ssid: Option<CString>, pass: CString, readFault: bool)
      requires Valid()
      modifies this
      ensures Valid()
      ensures ssid.None? || ssid.value == "" ==> blob == old(blob)
      ensures ssid.Some? && ssid.value != "" ==>
                blob == Some(UpsertList(LoadedList(old(blob), readFault), ssid.value, pass))
    {
      if ssid.None? || ssid.value == "" {
        return;
      }
      var _, loaded := Load(true, readFault);
      var list := loaded.value;
      var name := ssid.value;
      var i: nat := 0;
      while i < list.count
        invariant i <= list.count
        invariant forall j :: 0 <= j < i ==> list.creds[j].ssid != name
      {
        if list.creds[i].ssid == name {
          assert IndexOf(Entries(list), name) == Some(i);
          list := list.(creds := list.creds[i := Cred(list.creds[i].ssid, Bounded(pass, PassMax))]);
          blob := Some(list);
          return;
        }
        i := i + 1;
      }
      assert IndexOf(Entries(list), name).None?;
      if list.count < MaxCreds {
        list := CredList(list.creds[list.count := Cred(Bounded(name, SsidMax), Bounded(pass, PassMax))], list.count + 1);
      }
      blob := Some(list);
    }

    /**
     * `remove_wifi_creds_from_NVS_memory`: ignores a NULL or empty SSID;
     * otherwise loads the list, removes the first matching entry if any, and
     * always writes the list back.
     */
    method RemoveCreds(ssid: Option<CString>, readFault: bool)
      requires Valid()
      modifies this
      ensures Valid()
      ensures ssid.None? || ssid.value == "" ==> blob == old(blob)
      ensures ssid.Some? && ssid.value != "" ==>
                blob == Some(RemoveList(LoadedList(old(blob), readFault), ssid.value))
    {
      if ssid.None? || ssid.value == "" {
        return;
      }
      var _, loaded := Load(true, readFault);
      var list := loaded.value;
      var name := ssid.value;
      var i: nat := 0;
      while i < list.count
        invariant i <= list.count
        invariant forall j :: 0 <= j < i ==> list.creds[j].ssid != name
      {
        if list.creds[i].ssid == name {
          assert IndexOf(Entries(list), name) == Some(i);
          var last := list.count - 1;
          list := CredList(list.creds[i := list.creds[last]][last := EmptyCred], last);
          break;
        }
        i := i + 1;
      }
      blob := Some(list);
    }

    /** `nvs_flash_erase`: the key is gone. */
    method Erase()
      modifies this
      ensures blob.None? && Valid()
    {
      blob := None;
    }
  }
}
