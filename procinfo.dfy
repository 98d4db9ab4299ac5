/** `get_process_info` (myps.py:8-39): parse the lines of a process's status
    file into a dictionary, add the stripped command name, resolve the uid and
    gid to names. Any exception along the way turns into `None`. */
module ProcInfo {
  import opened Wrappers
  import opened PyText

  /** The dictionary built for one process: Python's `process_info`. Keys are
      added one by one, so a key the status text never set is simply absent. */
  type Info = map<string, string>

  /** What the per-process directory offers: the lines `readlines()` returns
      from `status`, and the text `read()` returns from `comm`; `None` when
      opening or reading the file raises. */
  datatype ProcEntry = ProcEntry(status: Option<seq<string>>, comm: Option<string>)

  /** The outside world `get_process_info` consults: the per-process
      directories by name, and the password and group databases as the
      partial maps behind `pwd.getpwuid(..).pw_name` and
      `grp.getgrgid(..).gr_name`. */
  datatype Host = Host(procs: map<string, ProcEntry>, users: map<nat, string>, groups: map<nat, string>)

  /** The dictionary key a status line sets, chosen by its prefix; the
      if/elif chain of myps.py:17-26. */
  function LineKey(line: string): (k: Option<string>)
    ensures k.Some? ==> k.value in StatusKeys
  {
    if "Pid:" <= line then Some("pid")
    else if "PPid:" <= line then Some("ppid")
    else if "Uid:" <= line then Some("uid")
    else if "Gid:" <= line then Some("gid")
    else if "State:" <= line then Some("state")
    else None
  }

  /** The five prefixes exclude one another, so the order of the if/elif
      chain does not matter: each key is chosen exactly by its own prefix. */
  lemma LineKeyByPrefix(line: string)
    ensures LineKey(line) == Some("pid") <==> "Pid:" <= line
    ensures LineKey(line) == Some("ppid") <==> "PPid:" <= line
    ensures LineKey(line) == Some("uid") <==> "Uid:" <= line
    ensures LineKey(line) == Some("gid") <==> "Gid:" <= line
    ensures LineKey(line) == Some("state") <==> "State:" <= line
  {
    assert "Pid:" <= line ==> line[0] == 'P' && line[1] == 'i';
    assert "PPid:" <= line ==> line[0] == 'P' && line[1] == 'P';
    assert "Uid:" <= line ==> line[0] == 'U';
    assert "Gid:" <= line ==> line[0] == 'G';
    assert "State:" <= line ==> line[0] == 'S';
  }

  const StatusKeys: set<string> := {"pid", "ppid", "uid", "gid", "state"}

  /** A recognised line whose `line.split()[1]` raises IndexError. */
  predicate Malformed(line: string) {
    LineKey(line).Some? && |Split(line)| < 2
  }

  /** One iteration of the loop at myps.py:16-26. */
  function StepLine(info: Info, line: string): Option<Info> {
    match LineKey(line)
    case None => Some(info)
    case Some(k) =>
      var tokens := Split(line);
      if |tokens| < 2 then None else Some(info[k := tokens[1]])
  }

  /** The dictionary after the loop over `lines`, or `None` if an iteration
      raised. */
  function StatusFields(lines: seq<string>): Option<Info>
    decreases |lines|
  {
    if lines == [] then Some(map[])
    else
      match StatusFields(lines[..|lines| - 1])
      case None => None
      case Some(info) => StepLine(info, lines[|lines| - 1])
  }

  /** A line with one of the five prefixes and a second token sets that key
      to the token. */
  lemma RecognisedLineSets(lines: seq<string>, line: string, info: Info)
    requires StatusFields(lines) == Some(info)
    requires LineKey(line).Some? && |Split(line)| >= 2
    ensures StatusFields(lines + [line]) == Some(info[LineKey(line).value := Split(line)[1]])
  {
    assert (lines + [line])[..|lines|] == lines;
  }

  /** Any other line leaves the dictionary as it was. */
  lemma OtherLineIgnored(lines: seq<string>, line: string)
    requires LineKey(line).None?
    ensures StatusFields(lines + [line]) == StatusFields(lines)
  {
    assert (lines + [line])[..|lines|] == lines;
  }

  /** Once a prefix of the lines raised, the whole loop raised. */
  lemma {:induction false} FailedPrefixFails(lines: seq<string>, i: nat)
    requires i <= |lines| && StatusFields(lines[..i]) == None
    ensures StatusFields(lines) == None
  {
    if i < |lines| {
      var init := lines[..|lines| - 1];
      assert init[..i] == lines[..i];
      FailedPrefixFails(init, i);
    } else {
      assert lines[..i] == lines;
    }
  }

  /** The loop raises exactly when some recognised line has fewer than two
      tokens: there is never a partial dictionary. */
  lemma {:induction false} StatusFailsIff(lines: seq<string>)
    ensures StatusFields(lines) == None <==> exists i :: 0 <= i < |lines| && Malformed(lines[i])
  {
    if lines != [] {
      var init := lines[..|lines| - 1];
      StatusFailsIff(init);
      assert forall i :: 0 <= i < |init| ==> init[i] == lines[i];
      if StatusFields(init) == None {
        var i :| 0 <= i < |init| && Malformed(init[i]);
        assert Malformed(lines[i]);
      } else if StatusFields(lines) == None {
        assert Malformed(lines[|lines| - 1]);
      } else {
        forall i | 0 <= i < |lines| ensures !Malformed(lines[i]) {
          if i < |init| { assert lines[i] == init[i]; }
        }
      }
    }
  }

  /** The index of the last line that sets key `k`, or -1 if none does. */
  function LastSetter(lines: seq<string>, k: string): (i: int)
    ensures -1 <= i < |lines|
    ensures i >= 0 ==> LineKey(lines[i]) == Some(k)
    ensures forall j :: i < j < |lines| ==> LineKey(lines[j]) != Some(k)
  {
    if lines == [] then -1
    else if LineKey(lines[|lines| - 1]) == Some(k) then |lines| - 1
    else LastSetter(lines[..|lines| - 1], k)
  }

  /** On success, a key is present exactly when some line sets it, and its
      value is the second token of the LAST line that sets it: a later line
      overwrites the dictionary entry. */
  lemma {:induction false} StatusFieldsLast(lines: seq<string>, k: string)
    requires StatusFields(lines).Some?
    ensures var i := LastSetter(lines, k);
      && (k in StatusFields(lines).value <==> i >= 0)
      && (i >= 0 ==> |Split(lines[i])| >= 2 && StatusFields(lines).value[k] == Split(lines[i])[1])
  {
    if lines != [] {
      var init := lines[..|lines| - 1];
      var last := lines[|lines| - 1];
      var prev := StatusFields(init).value;
      var info := StatusFields(lines).value;
      assert Some(info) == StepLine(prev, last);
      if LineKey(last) != Some(k) {
        StatusFieldsLast(init, k);
        var i := LastSetter(init, k);
        if i >= 0 { assert lines[i] == init[i]; }
      }
    }
  }

  /** On success, a key is present exactly when some line sets it. */
  lemma StatusFieldsKeys(lines: seq<string>)
    requires StatusFields(lines).Some?
    ensures forall k :: k in StatusFields(lines).value <==> exists i :: 0 <= i < |lines| && LineKey(lines[i]) == Some(k)
  {
    forall k ensures k in StatusFields(lines).value <==> exists i :: 0 <= i < |lines| && LineKey(lines[i]) == Some(k) {
      StatusFieldsLast(lines, k);
    }
  }

  /** On success, only the five status keys occur. */
  lemma StatusKeysOnly(lines: seq<string>)
    requires StatusFields(lines).Some?
    ensures StatusFields(lines).value.Keys <= StatusKeys
  {
    StatusFieldsKeys(lines);
  }

  /** `table[int(info[key])]` (myps.py:34-35): `None` when the key is absent
      (KeyError), its value is not an integer (ValueError) or the id is not
      in the table (KeyError from pwd/grp). */
  function Resolve(info: Info, key: string, table: map<nat, string>): (r: Option<string>)
    ensures r.Some? <==> key in info && IsDigits(info[key]) && DigitsValue(info[key]) in table
    ensures r.Some? ==> r.value == table[DigitsValue(info[key])]
  {
    if key !in info then None
    else
      match ParseInt(info[key])
      case None => None
      case Some(id) => if id in table then Some(table[id]) else None
  }

  /** The value `get_process_info(pid)` returns: the dictionary, or `None`
      when anything on myps.py:11-35 raised. */
  function ProcessInfo(host: Host, pid: string): Option<Info> {
    if pid !in host.procs || host.procs[pid].status.None? then None
    else
      match StatusFields(host.procs[pid].status.value)
      case None => None
      case Some(fields) =>
        if host.procs[pid].comm.None? then None
        else
          var info := fields["command" := Strip(host.procs[pid].comm.value)];
          match Resolve(info, "uid", host.users)
          case None => None
          case Some(uname) =>
            var info' := info["uname" := uname];
            match Resolve(info', "gid", host.groups)
            case None => None
            case Some(gname) => Some(info'["gname" := gname])
  }

  /** A record holds a uid that `int()` accepts; `main` relies on it at
      myps.py:58. */
  predicate HasUid(info: Info) {
    "uid" in info && IsDigits(info["uid"])
  }

  function Uid(info: Info): nat
    requires HasUid(info)
  {
    DigitsValue(info["uid"])
  }

  /** What a successful extraction holds: the status keys the lines set with
      their values, the stripped command name, and the names the tables give
      for the uid and gid; nothing else. */
  lemma ExtractedRecord(host: Host, pid: string)
    requires ProcessInfo(host, pid).Some?
    ensures pid in host.procs && host.procs[pid].status.Some? && host.procs[pid].comm.Some?
    ensures var entry := host.procs[pid];
      var info := ProcessInfo(host, pid).value;
      && StatusFields(entry.status.value).Some?
      && var fields := StatusFields(entry.status.value).value;
      && info.Keys == fields.Keys + {"command", "uname", "gname"}
      && (forall k :: k in fields ==> info[k] == fields[k])
      && info["command"] == Strip(entry.comm.value)
      && HasUid(info) && Uid(info) in host.users && info["uname"] == host.users[Uid(info)]
      && "gid" in info && IsDigits(info["gid"])
      && DigitsValue(info["gid"]) in host.groups && info["gname"] == host.groups[DigitsValue(info["gid"])]
  {
    var fields := StatusFields(host.procs[pid].status.value).value;
    StatusKeysOnly(host.procs[pid].status.value);
  }

  /** The converse of `ExtractedRecord`: readable files, a loop that did not
      raise, and a numeric uid and gid the tables know give a record. */
  lemma ExtractionSucceeds(host: Host, pid: string)
    requires pid in host.procs && host.procs[pid].status.Some? && host.procs[pid].comm.Some?
    requires StatusFields(host.procs[pid].status.value).Some?
    requires var fields := StatusFields(host.procs[pid].status.value).value;
      && "uid" in fields && IsDigits(fields["uid"]) && DigitsValue(fields["uid"]) in host.users
      && "gid" in fields && IsDigits(fields["gid"]) && DigitsValue(fields["gid"]) in host.groups
    ensures ProcessInfo(host, pid).Some?
  {
    StatusKeysOnly(host.procs[pid].status.value);
  }

  /** One more than the largest id a 32-bit `uid_t` or `gid_t` holds. */
  const IdLimit: nat := 0x1_0000_0000

  /** The user and group tables of a real system: every id fits in 32 bits. */
  predicate RepresentableIds(host: Host) {
    && (forall u :: u in host.users ==> u < IdLimit)
    && (forall g :: g in host.groups ==> g < IdLimit)
  }

  /** With such tables, a uid or gid of 2^32 or more gives no record: the
      lookup that `getpwuid`/`getgrgid` refuse fails here too. */
  lemma OversizedIdNoRecord(host: Host, pid: string)
    requires RepresentableIds(host)
    requires pid in host.procs && host.procs[pid].status.Some?
    requires StatusFields(host.procs[pid].status.value).Some?
    requires var fields := StatusFields(host.procs[pid].status.value).value;
      || ("uid" in fields && IsDigits(fields["uid"]) && DigitsValue(fields["uid"]) >= IdLimit)
      || ("gid" in fields && IsDigits(fields["gid"]) && DigitsValue(fields["gid"]) >= IdLimit)
    ensures ProcessInfo(host, pid) == None
  {
    NoPartialRecord(host, pid);
  }

  /** All-or-nothing: a recognised line without a second token, a missing or
      non-numeric uid or gid, or an id the tables do not know gives no record
      at all, never one with a blank field. */
  lemma NoPartialRecord(host: Host, pid: string)
    requires pid in host.procs && host.procs[pid].status.Some?
    requires var lines := host.procs[pid].status.value;
      || (exists i :: 0 <= i < |lines| && Malformed(lines[i]))
      || (StatusFields(lines).Some? && var fields := StatusFields(lines).value;
          || "uid" !in fields || !IsDigits(fields["uid"]) || DigitsValue(fields["uid"]) !in host.users
          || "gid" !in fields || !IsDigits(fields["gid"]) || DigitsValue(fields["gid"]) !in host.groups)
    ensures ProcessInfo(host, pid) == None
  {
    StatusFailsIff(host.procs[pid].status.value);
    if StatusFields(host.procs[pid].status.value).Some? {
      StatusKeysOnly(host.procs[pid].status.value);
    }
  }

  /** With no empty names in the tables, no record has an empty `uname` or
      `gname`. */
  lemma NamesNonEmpty(host: Host, pid: string)
    requires forall u :: u in host.users ==> host.users[u] != []
    requires forall g :: g in host.groups ==> host.groups[g] != []
    requires ProcessInfo(host, pid).Some?
    ensures ProcessInfo(host, pid).value["uname"] != []
    ensures ProcessInfo(host, pid).value["gname"] != []
  {
    ExtractedRecord(host, pid);
  }

  /** `get_process_info` itself: the loop over the status lines updates the
      dictionary key by key and raises (here: returns `None`) on the first
      recognised line without a second token. */
  method GetProcessInfo(host: Host, pid: string) returns (r: Option<Info>)
    ensures r == ProcessInfo(host, pid)
  {
    if pid !in host.procs || host.procs[pid].status.None? {
      return None;
    }
    var lines := host.procs[pid].status.value;
    var info: Info := map[];
    for i := 0 to |lines|
      invariant StatusFields(lines[..i]) == Some(info)
    {
      var line := lines[i];
      assert lines[..i + 1][..i] == lines[..i];
      match LineKey(line) {
        case Some(k) =>
          var tokens := Split(line);
          if |tokens| < 2 {
            FailedPrefixFails(lines, i + 1);
            return None;
          }
          info := info[k := tokens[1]];
        case None =>
      }
    }
    assert lines[..|lines|] == lines;
    if host.procs[pid].comm.None? {
      return None;
    }
    info := info["command" := Strip(host.procs[pid].comm.value)];
    var uname := Resolve(info, "uid", host.users);
    if uname.None? {
      return None;
    }
    info := info["uname" := uname.value];
    var gname := Resolve(info, "gid", host.groups);
    if gname.None? {
      return None;
    }
    info := info["gname" := gname.value];
    return Some(info);
  }
}
