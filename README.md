# myps: a verified model of a small `ps` clone

`myps.py` lists the processes of a Linux machine. For every entry of `/proc`
whose name is all digits it reads `status` and `comm`, builds a dictionary
with the pid, parent pid, uid, gid, state, command name and the user and group
names, keeps the caller's own processes (or all of them with `-a`), and prints
them as a fixed-width table under a header and a line of 65 dashes.

The Dafny model follows the program's structure:

- `wrappers.dfy` — `Option`, standing for "the Python call raised" (`None`)
  or a value.
- `pytext.dfy` (module `PyText`) — the Python string operations the program
  relies on: `split()`, `strip()`, `isdigit()`, `int()` on decimal text, and
  the `:<w` format spec, as pure functions with lemmas that pin them down.
- `procinfo.dfy` (module `ProcInfo`) — `get_process_info`. A record is a
  `map<string, string>` (the Python `dict`), and keys the status text never
  set stay absent. The loop over the status lines is the method
  `GetProcessInfo`, proved equal to the function `ProcessInfo`, about which
  the parser's properties are proved. The lookup tables behind
  `pwd.getpwuid` and `grp.getgrgid` are partial maps in a `Host` value,
  which also holds each process's `status` lines and `comm` text.
- `selection.dfy` (module `Selection`) — the selection loop of `main`: the
  `-a` test, the all-digit filter, `if info:` and the uid test. The loop is
  the method `CollectProcesses`, proved equal to the function `Collected`.
  That function is then related to the reference definitions `Extracted`
  (all successful extractions, in listing order) and `Owned` (the owner
  filter).
- `display.dfy` (module `Display`) — `display_processes`. Its loop is the
  method `DisplayProcesses`, proved equal to the function `Render`. The
  output is the list of printed lines plus a flag saying whether the loop
  stopped with a `KeyError`.
- `myps.dfy` (module `Myps`) — the whole run (`main`), with properties that
  span the modules. It also holds worked examples: a kernel-style status
  text, and a status text that has only `Uid:` and `Gid:` lines.

The program does not guarantee complete records. A status text without
`Pid:`, `PPid:` or `State:` lines still gives a successful extraction, and
printing that record raises `KeyError` inside `display_processes`. One could
describe the program as producing only records with all eight fields, but
the code does not. The model follows the code: a record may lack those
keys, and `Render` reports the `KeyError` (see `Myps.MissingPidStopsTable`
and `Myps.CompleteIffStatusLines`).

## Model

| member | source | states |
|---|---|---|
| ProcInfo.ProcessInfo | myps.py:8-39 | the value `get_process_info` returns (no contract of its own): `ExtractedRecord` states what a record holds, `ExtractionSucceeds` when there is one, and `NoPartialRecord` when there is none |
| ProcInfo.StatusFields | myps.py:15-26 | the dictionary after the loop over the status lines, or `None` if a line raised (no contract of its own): `StatusFieldsLast`, `StatusFieldsKeys` and `StatusFailsIff` state its keys, values and failures |
| ProcInfo.StepLine | myps.py:17-26 | one pass of the elif chain (no contract of its own): `RecognisedLineSets` and `OtherLineIgnored` state its effect, and `StatusFailsIff` when it raises |
| ProcInfo.ExtractionSucceeds | myps.py:28-37 | readable `status` and `comm`, a loop that did not raise, and a numeric uid and gid that the tables know always give a record; with `NoPartialRecord` this is an if-and-only-if |
| ProcInfo.OversizedIdNoRecord | myps.py:34-35 | when the tables hold only 32-bit ids, a uid or gid of 2^32 or more gives `None` |
| ProcInfo.GetProcessInfo | myps.py:8-39 | the loop over the status lines, the command read and the two lookups return exactly `ProcessInfo`: the record, or `None` when any step raises |
| ProcInfo.LineKeyByPrefix | myps.py:16-26 | a line sets `pid`, `ppid`, `uid`, `gid` or `state` exactly when it starts with `Pid:`, `PPid:`, `Uid:`, `Gid:` or `State:`; the prefixes exclude one another, so the order of the elif chain does not matter |
| ProcInfo.RecognisedLineSets | myps.py:16-26 | a recognised line with a second token sets its key to that token and leaves the other keys as they were |
| ProcInfo.OtherLineIgnored | myps.py:16-26 | a line with any other prefix leaves the dictionary unchanged |
| ProcInfo.StatusFieldsLast | myps.py:16-26 | a key is present exactly when some line sets it, and then its value is the second token of the last line that sets it |
| ProcInfo.StatusFieldsKeys | myps.py:15-26 | the dictionary's keys are exactly the keys some line sets |
| ProcInfo.StatusKeysOnly | myps.py:15-26 | the parsed keys are among `pid`, `ppid`, `uid`, `gid`, `state` |
| ProcInfo.FailedPrefixFails | myps.py:16-39 | once one line raised IndexError, the whole loop has raised |
| ProcInfo.StatusFailsIff | myps.py:18-39 | the loop fails exactly when some recognised line has fewer than two tokens |
| ProcInfo.LineKey | myps.py:17-26 | a line sets at most one key, one of the five status keys |
| ProcInfo.Resolve | myps.py:34-35 | a lookup succeeds exactly when the key is present, its value is a decimal number and the table knows that id; the result is the table's name for it |
| ProcInfo.ExtractedRecord | myps.py:28-37 | a successful record holds exactly the parsed status keys with their values, `command` = the stripped `comm` text, `uname`/`gname` = the table names of its numeric uid/gid, and nothing else |
| ProcInfo.NoPartialRecord | myps.py:18-39 | a malformed recognised line, an absent or non-numeric uid or gid, or an id unknown to the tables gives `None`, never a partial record |
| ProcInfo.NamesNonEmpty | myps.py:34-35 | when the tables hold no empty names, no record has an empty `uname` or `gname` |
| PyText.Split | myps.py:18-26 | `str.split()` with no argument (no contract of its own): `SplitGivesWords`, `SplitAllSpace` and `SplitToken` determine it on every input |
| PyText.IsDigits | myps.py:55 | `pid.isdigit()` (no contract of its own): non-empty and ASCII digits only; `ParseInt` succeeds exactly on such strings |
| PyText.DigitsAreWord | myps.py:18-26 | a decimal number is a single `split()` token |
| PyText.SpanBounds | myps.py:18-26 | the whitespace (or word) run that `split()` and `strip()` skip is maximal |
| PyText.SpanIs | myps.py:18-26 | that maximality determines the run's length |
| PyText.SplitGivesWords | myps.py:18-26 | every token of `split()` is a non-empty word without whitespace |
| PyText.SplitAllSpace | myps.py:18-26 | a line of whitespace only splits into no tokens |
| PyText.SplitToken | myps.py:18-26 | after leading whitespace, a word ending at a word boundary is the first token, and splitting resumes at the boundary |
| PyText.SplitWord | myps.py:18-26 | a word at the start of a line, ending at a boundary, is its first token |
| PyText.SecondToken | myps.py:18-26 | in `key` whitespace `token` boundary, `split()[1]` is `token`: how `Pid:\t42\n` yields `42` |
| PyText.Strip | myps.py:31 | `strip()` leaves a string that is empty or starts and ends with non-whitespace, and empties only an all-whitespace string |
| PyText.StripUnwraps | myps.py:31 | `strip()` removes exactly the surrounding whitespace: any core is recovered from its whitespace wrapping |
| PyText.ParseInt | myps.py:34-35 | `int()` succeeds exactly on strings of decimal digits |
| PyText.ParseIntDecimal | myps.py:34-35 | `int(str(n)) == n` |
| PyText.Decimal | myps.py:34-35 | `str(n)` is a string of decimal digits |
| PyText.FormatLeft | myps.py:43-46 | `f"{s:<w}"` keeps `s` whole at the start, pads with spaces to width `w`, and is exactly `max(w, len(s))` long |
| Selection.Truthy | myps.py:57 | `if info:` (no contract of its own): `SuccessIsTruthy` states it holds exactly when extraction succeeded |
| Selection.Admitted | myps.py:58 | `show_all or int(info['uid']) == current_uid` (no contract of its own): `CollectedIsFilteredExtraction` and `OwnedMembers` state which records it keeps |
| Selection.ShowAll | myps.py:50 | `show_all` holds exactly when `argv` has a second element equal to `-a` |
| Selection.SuccessIsTruthy | myps.py:56-58 | `if info:` holds exactly when the extraction succeeded, and `int(info['uid'])` then does not raise |
| Selection.Collected | myps.py:53-59 | every collected record has a numeric uid |
| Selection.CollectProcesses | myps.py:53-59 | the loop over the listing builds exactly `Collected` |
| Selection.CollectedIsFilteredExtraction | myps.py:53-59 | the collected list is all successful extractions with `-a`, and otherwise those owned by the caller, in listing order |
| Selection.ExtractedMembers | myps.py:54-57 | a record is among the extractions exactly when some all-digit entry yields it |
| Selection.ExtractedFrom | myps.py:54-57 | every extracted record comes from some all-digit entry |
| Selection.EntryExtracted | myps.py:54-57 | every all-digit entry whose extraction succeeds contributes its record |
| Selection.OwnedMembers | myps.py:58-59 | the owner filter keeps a record exactly when it is in its input and its uid is the caller's |
| Selection.OwnedConcat | myps.py:58-59 | the owner filter preserves order: filtering a concatenation concatenates the filtered parts |
| Selection.NonNumericNeverExamined | myps.py:54-55 | two hosts whose `/proc` directories agree on the all-digit entries give the same list: the other directories are never read |
| Display.Header | myps.py:43 | the header line (no contract of its own): `HeaderWidth` states it is 65 characters wide, as wide as the separator, and `FormatCellsLayout` places each title |
| Display.RowOf | myps.py:46 | the f-string of one record (no contract of its own): `FormatCellsLayout`, `FormatCellsLength` and `AlignedWhenFit` state where each value appears and how it is padded |
| Display.Render | myps.py:41-46 | what `display_processes` prints (no contract of its own): `RenderShape` states its lines and when it ends in KeyError |
| Display.DisplayProcesses | myps.py:41-46 | the printing loop produces exactly `Render`: header, separator, then rows until a record lacks a column key |
| Display.RenderShape | myps.py:43-46 | the output is the header, the separator and the rows of the leading complete records in order; it ends in KeyError exactly when some record lacks a column key, and otherwise has `2 + len(records)` lines |
| Display.FormatCellsLength | myps.py:43-46 | a row is as long as the sum of its cells' extents |
| Display.FormatCellsLayout | myps.py:43-46 | in a row, each cell appears whole at its offset, followed by spaces up to the next cell: no truncation |
| Display.AlignedWhenFit | myps.py:43-46 | when every cell fits its field, cell `i` starts at column `i` of the header |
| Display.HeaderWidth | myps.py:43-44 | the header and the separator are both 65 characters wide |
| Display.Separator | myps.py:44 | the separator is exactly 65 dashes |
| Display.CompleteByKeys | myps.py:46 | a row can be printed exactly when the record has all eight column keys |
| Display.LeadingComplete | myps.py:45-46 | the rows printed are those of the longest prefix of complete records; the next record, if any, lacks a key |
| Display.Rows | myps.py:45-46 | one row per record, in order |
| Display.RowsStep | myps.py:45-46 | one more complete record adds its row after the rows printed so far |
| Myps.Run | myps.py:48-62 | what one run prints (no contract of its own): `RunPrintsAdmitted` states it is the table of the admitted records in listing order |
| Myps.RunMain | myps.py:48-62 | `main` prints exactly `Run`: the rendering of the collected list |
| Myps.RunPrintsAdmitted | myps.py:48-62 | the printed table holds the rows of the admitted records in listing order, ends in KeyError exactly when one of them lacks a column, and otherwise is header, separator and one row per record |
| Myps.CompleteIffStatusLines | myps.py:16-46 | an extracted record can be printed exactly when its status text had `Pid:`, `PPid:` and `State:` lines |
| Myps.UidGidOnlyRecord | myps.py:15-37 | a status text with only `Uid:` and `Gid:` lines still gives a record, lacking `pid`, `ppid` and `state` |
| Myps.MissingPidStopsTable | myps.py:45-62 | such a record is selected with `-a`, and printing it raises KeyError right after the header and separator |
| Myps.OwnFilterKeepsOrder | myps.py:58-59 | without `-a`, of records owned by uids 0, 1000, 1000, the caller 1000 keeps the last two, in order |
| Myps.KernelStatusFields | myps.py:16-26 | on a status text as the kernel writes it, the loop sets the five keys to the second tokens; `state` is the letter, not its description |
| Myps.KernelRecord | myps.py:8-46 | such a process gives a complete record, with the command name stripped of its newline |
| Myps.RecordFrom | myps.py:28-37 | parsed fields with decimal uid and gid known to the tables give the record with `command`, `uname` and `gname` added |
| Myps.SetsKey | myps.py:16-26 | a line `tag` TAB `value`... with one of the five tags sets the tag's key to `value` |
| Myps.TaggedLineSets | myps.py:16-26 | reading such a line after a prefix of the text adds that key |

## Left out

- File access (`open`, `readlines`, `read`, `os.listdir`, `os.path.join`): the listing of `/proc`, each process's `status` lines and `comm` text are inputs. A file that cannot be opened or read is `None`; which `OSError` it was is not modelled.
- Line endings: `readlines()` in text mode translates `\r\n` and `\r` to `\n`; the model receives the lines after that translation.
- `pwd.getpwuid`, `grp.getgrgid` and `os.getuid` are foreign calls: they are a user table, a group table and a number given to the model.
- `print` and standard output: the output is the list of printed lines. The traceback and exit status of an uncaught `KeyError` are not modelled, only that printing stops there.
- The exception machinery: the catch-all `except Exception` of `get_process_info` becomes `None`.
- The process table changing between the listing and the reads is concurrency in the operating system and is not modelled.
- PyText.IsSpace: `isspace()`, `split()` and `strip()` use the ASCII whitespace set only (space, `\t`, `\n`, `\v`, `\f`, `\r`, `\x1c`-`\x1f`); the non-ASCII whitespace Python also recognises is not modelled.
- PyText.ParseInt: `int()` is modelled only on ASCII digit strings; Python's `int()` also accepts a sign, underscores between digits and non-ASCII digits, which the kernel never writes in these fields.
- PyText.IsDigits: `isdigit()` is modelled for ASCII digits only; non-ASCII digit characters, which never name a `/proc` entry, are not modelled.
- ProcInfo.Resolve: ids are unbounded naturals, and the user and group tables are assumed to hold only ids that a 32-bit `uid_t`/`gid_t` can represent (`ProcInfo.RepresentableIds`). Under that assumption an id of 2^32 or more gives `None` (`ProcInfo.OversizedIdNoRecord`), as in Python, where `getpwuid`/`getgrgid` raise for it. The model does not require the assumption, so a table holding a larger id gives a record where Python gives `None`. Negative ids cannot arise, because ids are parsed from digits only.
