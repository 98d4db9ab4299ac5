/** The whole run of myps.py: `main` (myps.py:48-62) selects the records and
    `display_processes` prints them. The `/proc` listing, the per-process
    files, the user and group tables, `sys.argv` and `os.getuid()` are the
    inputs; the printed lines are the output. */
module Myps {
  import opened Wrappers
  import opened PyText
  import opened ProcInfo
  import opened Selection
  import opened Display

  /** What one run prints, given the listing of `/proc`. */
  function Run(host: Host, listing: seq<string>, argv: seq<string>, currentUid: nat): Output {
    Render(Collected(host, listing, ShowAll(argv), currentUid))
  }

  /** `main` as written: compute the mode, collect, display. */
  method RunMain(host: Host, listing: seq<string>, argv: seq<string>, currentUid: nat) returns (out: Output)
    ensures out == Run(host, listing, argv, currentUid)
  {
    var showAll := |argv| > 1 && argv[1] == "-a";
    var processes := CollectProcesses(host, listing, showAll, currentUid);
    out := DisplayProcesses(processes);
  }

  /** An extracted record always has uid, gid, uname, gname and command, so
      it has every column exactly when its status text had a `Pid:`, a
      `PPid:` and a `State:` line. */
  lemma CompleteIffStatusLines(host: Host, pid: string)
    requires ProcessInfo(host, pid).Some?
    ensures var lines := host.procs[pid].status.value;
      Complete(ProcessInfo(host, pid).value) <==>
        && (exists i :: 0 <= i < |lines| && LineKey(lines[i]) == Some("pid"))
        && (exists i :: 0 <= i < |lines| && LineKey(lines[i]) == Some("ppid"))
        && (exists i :: 0 <= i < |lines| && LineKey(lines[i]) == Some("state"))
  {
    var lines := host.procs[pid].status.value;
    var r := ProcessInfo(host, pid).value;
    ExtractedRecord(host, pid);
    StatusFieldsKeys(lines);
    CompleteByKeys(r);
    var fields := StatusFields(lines).value;
    assert "uid" in fields && "gid" in fields;
    assert "pid" in r <==> "pid" in fields;
    assert "ppid" in r <==> "ppid" in fields;
    assert "state" in r <==> "state" in fields;
  }

  /** The printed table: the header, the separator, and the rows of the
      admitted records in listing order, ending in a KeyError exactly when
      one of them lacks a column. Without `-a` the admitted records are the
      caller's own; with it, every successful extraction. */
  lemma RunPrintsAdmitted(host: Host, listing: seq<string>, argv: seq<string>, currentUid: nat)
    ensures var rs := Collected(host, listing, ShowAll(argv), currentUid);
      && rs == (if ShowAll(argv) then Extracted(host, listing) else Owned(Extracted(host, listing), currentUid))
      && (Run(host, listing, argv, currentUid).keyError <==> exists i :: 0 <= i < |rs| && !Complete(rs[i]))
    ensures var rs := Collected(host, listing, ShowAll(argv), currentUid);
      (forall i :: 0 <= i < |rs| ==> Complete(rs[i])) ==>
        Run(host, listing, argv, currentUid) == Output([Header(), Separator()] + Rows(rs), false)
  {
    var rs := Collected(host, listing, ShowAll(argv), currentUid);
    CollectedIsFilteredExtraction(host, listing, ShowAll(argv), currentUid);
    RenderShape(rs);
    assert rs[..|rs|] == rs;
  }

  /** The record built from a status text that parsed to `fields` holding
      decimal uid and gid the tables know. */
  lemma RecordFrom(host: Host, pid: string, lines: seq<string>, comm: string, fields: Info, uid: nat, gid: nat)
    requires pid in host.procs && host.procs[pid] == ProcEntry(Some(lines), Some(comm))
    requires StatusFields(lines) == Some(fields)
    requires "uid" in fields && fields["uid"] == Decimal(uid) && uid in host.users
    requires "gid" in fields && fields["gid"] == Decimal(gid) && gid in host.groups
    ensures ProcessInfo(host, pid)
            == Some(fields["command" := Strip(comm)]["uname" := host.users[uid]]["gname" := host.groups[gid]])
  {
    ParseIntDecimal(uid);
    ParseIntDecimal(gid);
  }

  /** A host with one process, pid 7, whose status text has only `Uid:` and
      `Gid:` lines. */
  function UidGidOnlyHost(uid: nat, user: string, group: string, command: string): Host {
    var id := Decimal(uid);
    Host(map["7" := ProcEntry(Some(["Uid:" + "\t" + id + "\n", "Gid:" + "\t" + id + "\n"]), Some(command))],
         map[uid := user], map[uid := group])
  }

  /** Such a process is extracted, without `pid`, `ppid` and `state`. */
  lemma UidGidOnlyRecord(uid: nat, user: string, group: string, command: string)
    requires Word(command)
    ensures var id := Decimal(uid);
      ProcessInfo(UidGidOnlyHost(uid, user, group, command), "7")
      == Some(map["uid" := id, "gid" := id, "command" := command, "uname" := user, "gname" := group])
  {
    var id := Decimal(uid);
    var l1, l2 := "Uid:" + "\t" + id + "\n", "Gid:" + "\t" + id + "\n";
    var host := UidGidOnlyHost(uid, user, group, command);
    var fields := map["uid" := id, "gid" := id];
    assert StatusFields([l1, l2]) == Some(fields) by {
      DigitsAreWord(id);
      TaggedLineSets([], map[], l1, "Uid:", id, "\n", "uid");
      assert [] + [l1] == [l1];
      TaggedLineSets([l1], map["uid" := id], l2, "Gid:", id, "\n", "gid");
      assert [l1] + [l2] == [l1, l2];
    }
    assert Strip(command) == command by {
      StripUnwraps("", command, "");
      assert "" + command + "" == command;
    }
    var r := map["uid" := id, "gid" := id, "command" := command, "uname" := user, "gname" := group];
    assert fields["command" := command]["uname" := user]["gname" := group] == r;
    RecordFrom(host, "7", [l1, l2], command, fields, uid, uid);
  }

  /** ... and selected by `-a`, but printing it raises KeyError after the
      header and separator: a record need not have every column. */
  lemma MissingPidStopsTable(uid: nat, user: string, group: string, command: string)
    requires Word(command)
    ensures Run(UidGidOnlyHost(uid, user, group, command), ["7"], ["myps", "-a"], uid)
            == Output([Header(), Separator()], true)
  {
    var host := UidGidOnlyHost(uid, user, group, command);
    var id := Decimal(uid);
    var r := map["uid" := id, "gid" := id, "command" := command, "uname" := user, "gname" := group];
    UidGidOnlyRecord(uid, user, group, command);
    assert !Complete(r) by {
      CompleteByKeys(r);
    }
    assert Collected(host, ["7"], true, uid) == [r] by {
      assert IsDigits("7");
      assert ["7"][..0] == [];
    }
    assert LeadingComplete([r]) == 0;
    assert ShowAll(["myps", "-a"]);
  }

  /** The uid filter on three records, one owned by root and two by uid 1000:
      without `-a` only the last two remain, in order. */
  lemma OwnFilterKeepsOrder(r1: Info, r2: Info, r3: Info)
    requires HasUid(r1) && HasUid(r2) && HasUid(r3)
    requires Uid(r1) == 0 && Uid(r2) == 1000 && Uid(r3) == 1000
    ensures Owned([r1, r2, r3], 1000) == [r2, r3]
  {
    assert [r1][..0] == [];
    assert Owned([r1], 1000) == [];
    assert [r1, r2][..1] == [r1];
    assert Owned([r1, r2], 1000) == [r2];
    assert [r1, r2, r3][..2] == [r1, r2];
  }

  /** A status text as the kernel writes it, for a process with the given
      name, state letter, pid, parent pid, uid and gid (all four uid and gid
      columns equal). */
  function KernelStatus(name: string, state: string, pid: string, ppid: string, uid: string, gid: string): seq<string> {
    [ "Name:" + "\t" + name + "\n",
      "State:" + "\t" + state + " (sleeping)\n",
      "Pid:" + "\t" + pid + "\n",
      "PPid:" + "\t" + ppid + "\n",
      "Uid:" + "\t" + uid + ("\t" + uid + "\t" + uid + "\t" + uid + "\n"),
      "Gid:" + "\t" + gid + ("\t" + gid + "\t" + gid + "\t" + gid + "\n") ]
  }

  /** A line starting with one of the five tags sets the tag's key. */
  lemma TagSelectsKey(line: string, tag: string, k: string)
    requires tag <= line
    requires || (tag == "State:" && k == "state") || (tag == "Pid:" && k == "pid")
             || (tag == "PPid:" && k == "ppid") || (tag == "Uid:" && k == "uid") || (tag == "Gid:" && k == "gid")
    ensures LineKey(line) == Some(k)
  {
    LineKeyByPrefix(line);
  }

  /** A line `tag` TAB `value` ... with one of the five tags sets the tag's
      key to `value`. */
  lemma SetsKey(line: string, tag: string, value: string, rest: string, k: string)
    requires line == tag + "\t" + value + rest
    requires Word(value) && (rest == [] || IsSpace(rest[0]))
    requires || (tag == "State:" && k == "state") || (tag == "Pid:" && k == "pid")
             || (tag == "PPid:" && k == "ppid") || (tag == "Uid:" && k == "uid") || (tag == "Gid:" && k == "gid")
    ensures LineKey(line) == Some(k) && |Split(line)| >= 2 && Split(line)[1] == value
  {
    assert line[..|tag|] == tag;
    TagSelectsKey(line, tag, k);
    assert tag != [] && NoSpace(tag);
    SecondToken(tag, "\t", value, rest);
  }

  /** Reading a tagged line after a prefix that parsed to `info`. */
  lemma TaggedLineSets(lines: seq<string>, info: Info, line: string, tag: string, value: string, rest: string, k: string)
    requires StatusFields(lines) == Some(info)
    requires line == tag + "\t" + value + rest
    requires Word(value) && (rest == [] || IsSpace(rest[0]))
    requires || (tag == "State:" && k == "state") || (tag == "Pid:" && k == "pid")
             || (tag == "PPid:" && k == "ppid") || (tag == "Uid:" && k == "uid") || (tag == "Gid:" && k == "gid")
    ensures StatusFields(lines + [line]) == Some(info[k := value])
  {
    SetsKey(line, tag, value, rest, k);
    RecognisedLineSets(lines, line, info);
  }

  /** The loop over such a text sets the five keys to the second tokens:
      the state letter, not its description. */
  lemma KernelStatusFields(name: string, state: string, pid: string, ppid: string, uid: string, gid: string)
    requires Word(name) && Word(state) && Word(pid) && Word(ppid) && Word(uid) && Word(gid)
    ensures StatusFields(KernelStatus(name, state, pid, ppid, uid, gid))
            == Some(map["state" := state, "pid" := pid, "ppid" := ppid, "uid" := uid, "gid" := gid])
  {
    var l0 := "Name:" + "\t" + name + "\n";
    var l1 := "State:" + "\t" + state + " (sleeping)\n";
    var l2 := "Pid:" + "\t" + pid + "\n";
    var l3 := "PPid:" + "\t" + ppid + "\n";
    var l4 := "Uid:" + "\t" + uid + ("\t" + uid + "\t" + uid + "\t" + uid + "\n");
    var l5 := "Gid:" + "\t" + gid + ("\t" + gid + "\t" + gid + "\t" + gid + "\n");
    assert KernelStatus(name, state, pid, ppid, uid, gid) == [l0, l1, l2, l3, l4, l5];
    var m1 := map["state" := state];
    var m2 := m1["pid" := pid];
    var m3 := m2["ppid" := ppid];
    var m4 := m3["uid" := uid];
    assert l0[0] == 'N' && l0[1] == 'a';
    assert LineKey(l0) == None;
    OtherLineIgnored([], l0);
    assert [] + [l0] == [l0];
    TaggedLineSets([l0], map[], l1, "State:", state, " (sleeping)\n", "state");
    assert [l0] + [l1] == [l0, l1];
    TaggedLineSets([l0, l1], m1, l2, "Pid:", pid, "\n", "pid");
    assert [l0, l1] + [l2] == [l0, l1, l2];
    TaggedLineSets([l0, l1, l2], m2, l3, "PPid:", ppid, "\n", "ppid");
    assert [l0, l1, l2] + [l3] == [l0, l1, l2, l3];
    TaggedLineSets([l0, l1, l2, l3], m3, l4, "Uid:", uid, "\t" + uid + "\t" + uid + "\t" + uid + "\n", "uid");
    assert [l0, l1, l2, l3] + [l4] == [l0, l1, l2, l3, l4];
    TaggedLineSets([l0, l1, l2, l3, l4], m4, l5, "Gid:", gid, "\t" + gid + "\t" + gid + "\t" + gid + "\n", "gid");
    assert [l0, l1, l2, l3, l4] + [l5] == [l0, l1, l2, l3, l4, l5];
  }

  /** A process as the kernel describes it, say pid 42, a sleeping `bash`
      run by uid and gid 1000 known as `alice` and `staff`: its record is
      complete, holds the state letter and the command name without its
      newline, and so is printed as a row. */
  lemma KernelRecord(name: string, state: string, pid: string, ppid: string, uid: nat, gid: nat, user: string, group: string)
    requires Word(name) && Word(state) && Word(pid) && Word(ppid)
    ensures var host := Host(map[pid := ProcEntry(Some(KernelStatus(name, state, pid, ppid, Decimal(uid), Decimal(gid))), Some(name + "\n"))],
                             map[uid := user], map[gid := group]);
      && ProcessInfo(host, pid)
         == Some(map["pid" := pid, "ppid" := ppid, "uid" := Decimal(uid), "gid" := Decimal(gid), "state" := state,
                     "command" := name, "uname" := user, "gname" := group])
      && Complete(ProcessInfo(host, pid).value)
  {
    var lines := KernelStatus(name, state, pid, ppid, Decimal(uid), Decimal(gid));
    var host := Host(map[pid := ProcEntry(Some(lines), Some(name + "\n"))], map[uid := user], map[gid := group]);
    var fields := map["state" := state, "pid" := pid, "ppid" := ppid, "uid" := Decimal(uid), "gid" := Decimal(gid)];
    assert StatusFields(lines) == Some(fields) by {
      DigitsAreWord(Decimal(uid));
      DigitsAreWord(Decimal(gid));
      KernelStatusFields(name, state, pid, ppid, Decimal(uid), Decimal(gid));
    }
    assert Strip(name + "\n") == name by {
      StripUnwraps("", name, "\n");
      assert "" + name + "\n" == name + "\n";
    }
    var r := map["pid" := pid, "ppid" := ppid, "uid" := Decimal(uid), "gid" := Decimal(gid), "state" := state,
                 "command" := name, "uname" := user, "gname" := group];
    assert fields["command" := name]["uname" := user]["gname" := group] == r;
    assert ProcessInfo(host, pid) == Some(r) by {
      RecordFrom(host, pid, lines, name + "\n", fields, uid, gid);
    }
    CompleteByKeys(r);
  }
}
