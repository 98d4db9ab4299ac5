/** The selection half of `main` (myps.py:48-59): decide the display mode
    from the command line, try every all-digit entry of the `/proc` listing,
    and keep the successful records the mode admits, in listing order. */
module Selection {
  import opened Wrappers
  import opened PyText
  import opened ProcInfo

  /** `len(sys.argv) > 1 and sys.argv[1] == "-a"` (myps.py:50). */
  function ShowAll(argv: seq<string>): (all: bool)
    ensures all <==> exists prog, rest :: argv == [prog, "-a"] + rest
  {
    if |argv| > 1 && argv[1] == "-a" then
      assert argv == [argv[0], "-a"] + argv[2..];
      true
    else
      false
  }

  /** `if info:` (myps.py:57): the call succeeded and the dictionary is not
      empty. */
  predicate Truthy(info: Option<Info>) {
    info.Some? && |info.value| > 0
  }

  /** `show_all or int(info['uid']) == current_uid` (myps.py:58). */
  predicate Admitted(info: Info, showAll: bool, currentUid: nat)
    requires HasUid(info)
  {
    showAll || Uid(info) == currentUid
  }

  /** A successful extraction is never an empty dictionary, and `int()` on its
      uid does not raise: `if info:` is exactly "the call succeeded", and the
      test on myps.py:58 cannot fail. */
  lemma SuccessIsTruthy(host: Host, pid: string)
    ensures Truthy(ProcessInfo(host, pid)) <==> ProcessInfo(host, pid).Some?
    ensures ProcessInfo(host, pid).Some? ==> HasUid(ProcessInfo(host, pid).value)
  {
    if ProcessInfo(host, pid).Some? {
      ExtractedRecord(host, pid);
      assert "command" in ProcessInfo(host, pid).value;
    }
  }

  /** The list `processes` once the loop of myps.py:54-59 has run over
      `entries`. */
  function Collected(host: Host, entries: seq<string>, showAll: bool, currentUid: nat): (rs: seq<Info>)
    ensures forall i :: 0 <= i < |rs| ==> HasUid(rs[i])
    decreases |entries|
  {
    if entries == [] then []
    else
      var prev := Collected(host, entries[..|entries| - 1], showAll, currentUid);
      var pid := entries[|entries| - 1];
      if !IsDigits(pid) then prev
      else
        var info := ProcessInfo(host, pid);
        SuccessIsTruthy(host, pid);
        if Truthy(info) && Admitted(info.value, showAll, currentUid) then prev + [info.value]
        else prev
  }

  /** The `main` loop: append each admitted record to `processes`. */
  method CollectProcesses(host: Host, entries: seq<string>, showAll: bool, currentUid: nat)
    returns (processes: seq<Info>)
    ensures processes == Collected(host, entries, showAll, currentUid)
  {
    processes := [];
    for n := 0 to |entries|
      invariant processes == Collected(host, entries[..n], showAll, currentUid)
    {
      var pid := entries[n];
      assert entries[..n + 1][..n] == entries[..n];
      if IsDigits(pid) {
        var info := GetProcessInfo(host, pid);
        SuccessIsTruthy(host, pid);
        if info.Some? && |info.value| > 0 {
          if showAll || DigitsValue(info.value["uid"]) == currentUid {
            processes := processes + [info.value];
          }
        }
      }
    }
    assert entries[..|entries|] == entries;
  }

  /** Reference definition: every successful extraction of an all-digit
      entry, in listing order. */
  function Extracted(host: Host, entries: seq<string>): (rs: seq<Info>)
    ensures forall i :: 0 <= i < |rs| ==> HasUid(rs[i])
    decreases |entries|
  {
    if entries == [] then []
    else
      var prev := Extracted(host, entries[..|entries| - 1]);
      var pid := entries[|entries| - 1];
      SuccessIsTruthy(host, pid);
      if IsDigits(pid) && ProcessInfo(host, pid).Some? then prev + [ProcessInfo(host, pid).value] else prev
  }

  /** Reference definition: the records owned by `uid`, in their order. */
  function Owned(rs: seq<Info>, uid: nat): seq<Info>
    requires forall i :: 0 <= i < |rs| ==> HasUid(rs[i])
  {
    if rs == [] then []
    else
      var prev := Owned(rs[..|rs| - 1], uid);
      if Uid(rs[|rs| - 1]) == uid then prev + [rs[|rs| - 1]] else prev
  }

  /** The loop keeps all successful extractions with `-a`, otherwise exactly
      those owned by the caller, with the relative order unchanged. */
  lemma {:induction false} CollectedIsFilteredExtraction(host: Host, entries: seq<string>, showAll: bool, currentUid: nat)
    ensures Collected(host, entries, showAll, currentUid)
            == if showAll then Extracted(host, entries) else Owned(Extracted(host, entries), currentUid)
  {
    if entries != [] {
      var init := entries[..|entries| - 1];
      CollectedIsFilteredExtraction(host, init, showAll, currentUid);
      var pid := entries[|entries| - 1];
      SuccessIsTruthy(host, pid);
      var ext := Extracted(host, entries);
      if IsDigits(pid) && ProcessInfo(host, pid).Some? {
        assert ext[..|ext| - 1] == Extracted(host, init);
      }
    }
  }

  /** A record is extracted exactly when some all-digit entry yields it. */
  lemma ExtractedMembers(host: Host, entries: seq<string>, r: Info)
    ensures r in Extracted(host, entries)
            <==> exists i :: 0 <= i < |entries| && IsDigits(entries[i]) && ProcessInfo(host, entries[i]) == Some(r)
  {
    if r in Extracted(host, entries) {
      ExtractedFrom(host, entries, r);
    }
    if exists i :: 0 <= i < |entries| && IsDigits(entries[i]) && ProcessInfo(host, entries[i]) == Some(r) {
      var i :| 0 <= i < |entries| && IsDigits(entries[i]) && ProcessInfo(host, entries[i]) == Some(r);
      EntryExtracted(host, entries, i);
    }
  }

  /** Every extracted record comes from some all-digit entry. */
  lemma {:induction false} ExtractedFrom(host: Host, entries: seq<string>, r: Info)
    requires r in Extracted(host, entries)
    ensures exists i :: 0 <= i < |entries| && IsDigits(entries[i]) && ProcessInfo(host, entries[i]) == Some(r)
  {
    var init := entries[..|entries| - 1];
    var last := entries[|entries| - 1];
    var prev := Extracted(host, init);
    if r in prev {
      ExtractedFrom(host, init, r);
      var i :| 0 <= i < |init| && IsDigits(init[i]) && ProcessInfo(host, init[i]) == Some(r);
      assert entries[i] == init[i];
    } else {
      assert IsDigits(last) && ProcessInfo(host, last) == Some(r);
    }
  }

  /** Every all-digit entry whose extraction succeeds contributes its record. */
  lemma {:induction false} EntryExtracted(host: Host, entries: seq<string>, i: nat)
    requires i < |entries| && IsDigits(entries[i]) && ProcessInfo(host, entries[i]).Some?
    ensures ProcessInfo(host, entries[i]).value in Extracted(host, entries)
  {
    var init := entries[..|entries| - 1];
    if i < |init| {
      assert init[i] == entries[i];
      EntryExtracted(host, init, i);
    }
  }

  /** A record is kept by the owner filter exactly when it is in the input
      and owned by `uid`. */
  lemma {:induction false} OwnedMembers(rs: seq<Info>, uid: nat, r: Info)
    requires forall i :: 0 <= i < |rs| ==> HasUid(rs[i])
    ensures r in Owned(rs, uid) <==> r in rs && HasUid(r) && Uid(r) == uid
  {
    if rs != [] {
      var init := rs[..|rs| - 1];
      OwnedMembers(init, uid, r);
      assert rs == init + [rs[|rs| - 1]];
    }
  }

  /** The owner filter keeps the relative order of records: filtering a
      concatenation is concatenating the filtered parts. */
  lemma {:induction false} OwnedConcat(xs: seq<Info>, ys: seq<Info>, uid: nat)
    requires forall i :: 0 <= i < |xs| ==> HasUid(xs[i])
    requires forall i :: 0 <= i < |ys| ==> HasUid(ys[i])
    ensures forall i :: 0 <= i < |xs + ys| ==> HasUid((xs + ys)[i])
    ensures Owned(xs + ys, uid) == Owned(xs, uid) + Owned(ys, uid)
  {
    assert forall i :: 0 <= i < |xs + ys| ==> HasUid((xs + ys)[i]) by {
      forall i | 0 <= i < |xs + ys| ensures HasUid((xs + ys)[i]) {
        if i < |xs| { assert (xs + ys)[i] == xs[i]; } else { assert (xs + ys)[i] == ys[i - |xs|]; }
      }
    }
    if ys == [] {
      assert xs + ys == xs;
    } else {
      var init := ys[..|ys| - 1];
      OwnedConcat(xs, init, uid);
      assert (xs + ys)[..|xs + ys| - 1] == xs + init;
      assert (xs + ys)[|xs + ys| - 1] == ys[|ys| - 1];
    }
  }

  /** Directories whose names are not all digits are never examined: hosts
      that agree on the all-digit entries give the same list. */
  lemma {:induction false} NonNumericNeverExamined(h1: Host, h2: Host, entries: seq<string>, showAll: bool, currentUid: nat)
    requires h1.users == h2.users && h1.groups == h2.groups
    requires forall i :: 0 <= i < |entries| && IsDigits(entries[i]) ==>
      (entries[i] in h1.procs <==> entries[i] in h2.procs)
      && (entries[i] in h1.procs ==> h1.procs[entries[i]] == h2.procs[entries[i]])
    ensures Collected(h1, entries, showAll, currentUid) == Collected(h2, entries, showAll, currentUid)
  {
    if entries != [] {
      var init := entries[..|entries| - 1];
      assert forall i :: 0 <= i < |init| ==> init[i] == entries[i];
      NonNumericNeverExamined(h1, h2, init, showAll, currentUid);
    }
  }
}
