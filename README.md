# sysinfo — a Dafny model of the hardware report

`sysinfo.py` gathers a machine's hardware description and prints it as one
text report. It gets the description from `dmidecode`, `smartctl`, `lsblk`,
`uname`, `lspci` and `/etc/os-release`. It builds nine report nodes (`Info`
objects) in a fixed order: Product, Distro, Kernel, Processor, BaseBoard,
Rom, Memory, Disks, Onboard. Each node prints its name padded to ten
columns, ": " and a description. The node's detail lines follow, each behind
a "│──" connector; the last one is drawn with "└──".

This project models the text processing of the program: the parsing of what
those commands print, and the rendering of the report. Each command's output
is an input of the model (`SysInfo.Sources`), so nothing is executed.

Modules, one file each:

- `Outcomes` (outcomes.dfy): the exceptions that escape the program (`KeyError`, `ValueError`,
  `IndexError`) as a `Result`. Also `d[key]` and a list comprehension whose
  element expression may raise; the first exception from the left wins.
- `PyStr` (pystr.dfy): the Python string operations the program relies on.
  - `in`, `find`, `split(sep, 1)`, `split(c)` and `'\n'.join`;
  - `strip()` with Python's whitespace set;
  - `replace` of every occurrence and `replace(a, b, n)` of the first `n`;
  - `int()` on a sign and decimal digits, and `'{0}'.format` of an integer;
  - the greedy `re.search(r'\[.*\]', s)`.
- `BlockParser` (blockparser.dfy): the two-state machine shared by the three
  `dmidecode`/`smartctl` readers. It keeps a `parsing` flag, the open record
  and the records completed so far.
  - A trigger line opens a record, but only when none is open.
  - While a record is open, a `key<sep>value` line stores a field.
  - A blank line completes the open record.
  - `Step` and `Scan` define it; the method `Feed` is the loop.
  - The lemmas prove the properties the program relies on: a record left open at the end of the stream is dropped, blocks do not nest, there is one record per closing blank line, and records hold only allowed keys.
- `Report` (report.dfy): the `Info` class, with its mutable `subInfo` list,
  `add_subInfo` and `msg()`. It also defines a line-by-line reference
  rendering (`Tree`), proved equal to the filter–indent–mark–join rendering
  that `msg()` performs.
- `Memory`, `Onboard`, `Disk`, `Rom` (memory.dfy, onboard.dfy, disk.dfy,
  rom.dfy): the four category classes. Each has its reader, its formatters
  and the constructor that fills an `Info` with `add_subInfo`.
- `SysInfo` (sysinfo.dfy): the five one-line categories (product, distro,
  kernel, processor, baseboard) and the fixed build order. Also the `Hwinfo`
  class, whose `__str__` is proved to print the page of the nine nodes.

Quirks of the program that the model keeps on purpose:

- `disks_detail` keeps one `parsing` flag for all devices. A `smartctl`
  report that ends inside a block leaves it open for the next device, which
  then completes it under its own node name (`Disk.CarriedOver`).
- A `User Capacity` value without a bracketed part raises inside the `try`.
  The devices not yet read are skipped, and the records completed so far
  are returned (`Disk.DevicesAfterAbort`, `BlockParser.AbortedStays`).
- The key tests of `transform` and `disks_detail` are substring tests. So
  "VEN" or "" counts as a ROM key, and "Model" as a disk field name.
- `distro` removes double quotes from the version only; the name keeps
  them (`SysInfo.DistroQuotes`).
- Each detail line ends with the line break that its formatter puts there;
  `msg()` adds none.
- The memory and onboard readers split at the first ": " and do not strip
  the value. So "Size:  4096 MB" stores " 4096 MB", with its leading space
  (`Memory.LeadingSpaceKept`).
- A "Model Family:" line with nothing after the colon stores an empty model
  (`Disk.EmptyModelFamily`). A key that is part of several field names,
  such as "Model" or the empty key, goes to the first of them
  (`Disk.FieldOrder`, `Disk.ModelKey`, `Disk.EmptyKey`).

## Model

| member | source | states |
|---|---|---|
| Outcomes.Lookup | sysinfo.py:161-162 | `d[key]` yields the stored value exactly when the key is present, and raises KeyError naming the key otherwise |
| Outcomes.MapAll | sysinfo.py:171 | a comprehension succeeds exactly when every element does, giving each element's value in order; otherwise it raises the exception of an element all of whose predecessors succeeded |
| Outcomes.MapAllFirstError | sysinfo.py:171 | the exception raised is the one of the leftmost element that raises |
| Outcomes.MapAllAppend | sysinfo.py:62-73 | a comprehension over a concatenation is the concatenation of the two comprehensions, the first part's exception taking precedence |
| Outcomes.MapAllSnoc | sysinfo.py:62-73 | appending one more successful element extends the results by its value |
| Outcomes.MapAllPrefixError | sysinfo.py:62-73 | after a prefix that raised nothing, the first element that raises decides the outcome of the whole list |
| Outcomes.MapAllOne | sysinfo.py:134 | a one-element comprehension that does not raise gives the one value |
| Outcomes.MapAllOneError | sysinfo.py:134 | a one-element comprehension that raises raises that element's exception |
| PyStr.FindFrom | sysinfo.py:151 | the first position at or after the start where the separator occurs, or none when it occurs nowhere after it |
| PyStr.ContainsIff | sysinfo.py:151 | `sep in line` holds exactly when the separator occurs at some position |
| PyStr.SplitFirst | sysinfo.py:152 | `split(sep, 1)` gives a key and a value that rebuild the line around the separator, the key holding no occurrence of it |
| PyStr.SplitFirstAt | sysinfo.py:152 | a line written as key, separator, value, with no separator in the key, splits back into exactly that key and value |
| PyStr.SplitOn | sysinfo.py:37-38 | `split(c)` gives at least one piece, none holding `c`, and joining them with `c` rebuilds the text |
| PyStr.SplitOnJoin | sysinfo.py:37-38 | splitting a join of pieces free of `c` gives the pieces back |
| PyStr.JoinCons | sysinfo.py:114 | `sep.join` of a first part followed by more parts is that part, the separator and the join of the rest |
| PyStr.JoinAppend | sysinfo.py:114 | `sep.join` of two non-empty lists is the join of the first, the separator and the join of the second |
| PyStr.NonEmpty | sysinfo.py:127 | `[x for x in xs if x]` keeps only non-empty elements, all taken from the input |
| PyStr.NonEmptyAppend | sysinfo.py:127 | the filter distributes over concatenation |
| PyStr.NonEmptyKeeps | sysinfo.py:127 | a list with no empty element passes the filter unchanged |
| PyStr.NonEmptyLines | sysinfo.py:176-179 | the device and ROM lists hold only non-empty lines without line breaks |
| PyStr.LinesRoundTrip | sysinfo.py:176-179 | the listing of some non-empty lines, each ending with a line break, gives those lines back |
| PyStr.StripLeft | sysinfo.py:147 | removes exactly the leading whitespace: what is removed is all whitespace and the rest does not start with whitespace |
| PyStr.StripRight | sysinfo.py:147 | removes exactly the trailing whitespace |
| PyStr.Strip | sysinfo.py:147 | the result has no surrounding whitespace and is no longer than the input |
| PyStr.StripAround | sysinfo.py:31 | stripping text made of whitespace, a stripped core and whitespace gives the core |
| PyStr.StripTrailingSpace | sysinfo.py:46 | a trailing line break does not change the stripped output |
| PyStr.ReplaceAll | sysinfo.py:95 | `replace(a, b)` changes every `a` to `b` and nothing else, keeping the length |
| PyStr.ReplaceAllAppend | sysinfo.py:95 | replacing distributes over concatenation |
| PyStr.ReplaceAllAbsent | sysinfo.py:95 | a text without `a` is left as it is |
| PyStr.RemoveAll | sysinfo.py:39 | `replace('"', '')` leaves no double quote and keeps every other character with its multiplicity |
| PyStr.QuoteRemoved | sysinfo.py:39 | removing the quotes of a quoted value that has none inside gives the value |
| PyStr.RemoveAllAppend | sysinfo.py:122 | removal distributes over concatenation |
| PyStr.RemoveAllAbsent | sysinfo.py:122 | a value without the character is unchanged |
| PyStr.ReplaceFirst | sysinfo.py:60 | `replace(a, b, n)` keeps the length |
| PyStr.ReplaceFirstAt | sysinfo.py:60 | a character becomes `b` exactly when it is an `a` preceded by fewer than `n` other `a`s |
| PyStr.ReplaceFirstAppend | sysinfo.py:60 | over a concatenation, the second part gets what is left of the `n` replacements |
| PyStr.ReplaceFirstNone | sysinfo.py:60 | a count of zero replaces nothing |
| PyStr.ReplaceFirstAbsent | sysinfo.py:60 | a text without `a` is left as it is |
| PyStr.ShowNat | sysinfo.py:267 | the decimal text of a number is a non-empty string of digits, "0" for zero and without a leading zero otherwise |
| PyStr.ShowNatValue | sysinfo.py:267 | the digits printed for a number read back as that number |
| PyStr.ParseShowInt | sysinfo.py:272 | `int()` of a printed integer is that integer, negative ones included |
| PyStr.ParseIntSpec | sysinfo.py:272 | `int()` accepts only a digit or a sign followed by digits; a negative result needs '-', and a plain numeral reads as its decimal value |
| PyStr.ShowInt | sysinfo.py:267 | the text starts with '-' exactly for a negative number, and the digits after it have no leading zero unless the number is 0 |
| PyStr.BracketSearch | sysinfo.py:206-208 | a match starts with '[' and ends with ']' and has no surrounding whitespace |
| PyStr.BracketSearchSpec | sysinfo.py:206-208 | there is a match exactly when some '[' has a ']' after it; the match runs from the first '[' to the last ']', with neither outside it |
| PyStr.BracketAt | sysinfo.py:206-208 | with the first '[' at `i` and the last ']' at `j > i`, the match is the text from `i` to `j` |
| BlockParser.Field | sysinfo.py:198-208 | a field is stored only under a key the rule allows; only the disk rule can fail |
| BlockParser.Step | sysinfo.py:239-252 | after an exception a line changes nothing; otherwise a line completes no record, or appends exactly one record that carries the stamp, and leaves the reader outside a record |
| BlockParser.Scan | sysinfo.py:239-253 | records completed earlier are kept unchanged at the front: the list only grows at its end |
| BlockParser.Blocks | sysinfo.py:239-253 | every record returned holds only keys its rule can store |
| BlockParser.Feed | sysinfo.py:239-252 | the reading loop leaves the state that `Scan`, the line-by-line definition, gives for the whole stream, stopping at the first exception |
| BlockParser.FeedLine | sysinfo.py:240-252 | one pass of the loop body is one `Step`: opening, storing, closing or ignoring |
| BlockParser.ScanAppend | sysinfo.py:239-252 | reading two streams in a row is reading the second from the state the first left |
| BlockParser.AbortedStays | sysinfo.py:213-214 | after the exception no further line changes anything |
| BlockParser.AbortedRest | sysinfo.py:213-214 | once a prefix has raised, the whole stream gives the state of that prefix |
| BlockParser.AbortedPrefix | sysinfo.py:213-214 | a stream that did not raise had no prefix that raised |
| BlockParser.AllowlistNeverAborts | sysinfo.py:244-247 | the memory and onboard readers never raise |
| BlockParser.NonBlankEmitsNothing | sysinfo.py:250-252 | no record is completed without a blank line |
| BlockParser.OpenRun | sysinfo.py:244-252 | while no blank line comes, an open record stays open, keeps its keys and nothing is emitted |
| BlockParser.DropOnEof | sysinfo.py:239-253 | a record opened and never followed by a blank line is not returned |
| BlockParser.IdleLine | sysinfo.py:241 | outside a record, a line that does not trigger changes nothing |
| BlockParser.TriggerOpens | sysinfo.py:241-243 | outside a record, the trigger line opens a new empty one |
| BlockParser.NoNesting | sysinfo.py:241 | inside a record, a trigger line does not reopen it: blocks do not nest |
| BlockParser.KeyValueLine | sysinfo.py:244-247 | inside a record, a line stores the text after the first separator under its key when the key is allowed, overwriting an earlier value, and is ignored otherwise |
| BlockParser.BlankCloses | sysinfo.py:250-252 | inside a record, a blank line completes it, stamped, and leaves the reader outside a record |
| BlockParser.ScanMatchesReference | sysinfo.py:239-253 | a record is open at the end exactly when a trigger line has no blank line after it, and the number of records equals the number of blank lines arriving while a record is open |
| BlockParser.StepShape | sysinfo.py:239-252 | one line changes the open flag and the record count only as a trigger or a blank line does |
| BlockParser.OpenStep | sysinfo.py:239-252 | the reference notion of an open record after one more line: a blank line closes it, a trigger line opens it, and other lines keep it as it was |
| BlockParser.ScanKeys | sysinfo.py:244-247 | every record holds only keys the rule can store, plus the stamp's |
| BlockParser.ScanStamps | sysinfo.py:209-212 | records are only ever appended, and each new one carries the stamp |
| BlockParser.StepStamps | sysinfo.py:209-212 | one line either appends nothing or appends one stamped record |
| BlockParser.ScanValues | sysinfo.py:239-252 | over stripped lines, every value the `dmidecode` readers store is non-empty with no trailing whitespace, and every value the `smartctl` reader stores is stripped |
| BlockParser.StepValues | sysinfo.py:244-252 | one line keeps the open record and every completed record in that shape |
| Report.Spaces | sysinfo.py:90 | `' ' * n` is `n` spaces, and nothing when `n` is zero or negative |
| Report.IndentAll | sysinfo.py:101-102 | every line gets the "│──" connector in front |
| Report.Header | sysinfo.py:90-91 | the first line is the name, spaces up to column ten (none for a longer name), ": ", the description and a line break |
| Report.MarkLast | sysinfo.py:94-95 | the list keeps its length, every line but the last is unchanged, and the last has every '│' turned into '└' |
| Report.Render | sysinfo.py:88-96 | `msg()`'s filter–indent–mark–join text equals the first line followed by the line-by-line reference rendering |
| Report.Tree | sysinfo.py:93-96 | the detail part is empty exactly when every sub-info line is empty |
| Report.TreeTwo | sysinfo.py:93-96 | of two non-empty lines the first is drawn with the bar and the second with the corner |
| Report.MemoryHeader | sysinfo.py:90-91 | a six-letter name gets four spaces of padding |
| Report.BodyIsTree | sysinfo.py:93-96 | the detail part of `msg()` equals the reference rendering of the sub-info lines |
| Report.BodyLast | sysinfo.py:95 | the last non-empty line is drawn with the corner, every bar in it turned into a corner |
| Report.BodyCons | sysinfo.py:93 | a line with a non-empty line after it is drawn with the bar |
| Report.EmptyLinesIgnored | sysinfo.py:93 | an empty sub-info line shows nothing, wherever it is |
| Report.TwoDetailLines | sysinfo.py:93-96 | two detail lines print as bar plus the first, then corner plus the second |
| Report.Info.constructor | sysinfo.py:82-85 | a new node has the given name and description and no sub-info lines |
| Report.Info.AddSubInfo | sysinfo.py:98-99 | `add_subInfo` appends the line and changes nothing else |
| Report.Info.Msg | sysinfo.py:88-96 | `msg()` reads the node without changing it and prints the first line followed by the reference rendering of its sub-info lines |
| Report.NewInfo | sysinfo.py:227-229 | the constructor followed by the `add_subInfo` loop gives a fresh node holding the name, the description and every line in order |
| Report.MsgsPage | sysinfo.py:75-76 | objects holding the nodes print, one after the other, the rendering of each node |
| Report.Msgs | sysinfo.py:75-76 | joining the messages of the objects gives the page of the values the objects hold |
| Report.Page | sysinfo.py:75-76 | the page is empty exactly when there are no nodes, since every node prints its first line |
| Report.PageAppend | sysinfo.py:75-76 | the page of two lists of nodes is the first page followed by the second |
| Memory.ParseMemory | sysinfo.py:231-253 | the memory reader returns the records `Blocks` gives for the `dmidecode -t memory` lines |
| Memory.RecordsUseAttrs | sysinfo.py:235-247 | a memory record holds only Size, Type, Speed, Manufacturer and Locator |
| Memory.FieldLine | sysinfo.py:244-247 | a `key: value` line inside a record stores the value under an allowed key and is ignored otherwise |
| Memory.LeadingSpaceKept | sysinfo.py:244-247 | "Size:  4096 MB" stores " 4096 MB": the value after the first ": " is not stripped |
| Memory.RecordValues | sysinfo.py:239-247 | over stripped lines, every stored value is non-empty and has no trailing whitespace |
| Memory.ConvMemsize | sysinfo.py:269-274 | a size without a space raises ValueError, the unpacking being outside the `try`; otherwise there is a number |
| Memory.ConvMemsizeWord | sysinfo.py:269-274 | the size is the integer read from the first word, or 0 when that word is not an integer |
| Memory.ConvMemsizeShown | sysinfo.py:269-274 | a printed integer followed by a unit gives that integer |
| Memory.ConvMemsizeModule | sysinfo.py:269-274 | "4096 MB" is 4096 |
| Memory.ConvMemsizeNoModule | sysinfo.py:269-274 | "No Module Installed" is 0 |
| Memory.ConvMemsizeNoSpace | sysinfo.py:270 | a size without a space raises ValueError |
| Memory.TotalSizeAppend | sysinfo.py:265-266 | the total of two lists of slots is the sum of their totals, the first exception winning |
| Memory.TotalSizeSpec | sysinfo.py:265-266 | the total exists exactly when every slot has a Size holding a space |
| Memory.TotalSizeError | sysinfo.py:265-266 | a failed total raises the exception of the first slot, from the left, whose size is unusable: KeyError('Size') when it is missing, ValueError when it holds no space |
| Memory.EmptySlotAddsNothing | sysinfo.py:265-266 | an empty slot adds 0 to the total |
| Memory.GetDesc | sysinfo.py:264-267 | the description is the printed total followed by " MB Total", and it fails exactly when the total fails |
| Memory.TwoSlotTotal | sysinfo.py:264-267 | a 4096 MB slot and an empty slot give "4096 MB Total" |
| Memory.TwoSlotSum | sysinfo.py:265-266 | a 4096 MB slot and an empty slot add up to 4096 |
| Memory.IsEmptySlot | sysinfo.py:257 | the empty-slot test looks up Type first and raises KeyError('Type') without it; a type without "Unknown" gives false without looking at Size; otherwise a missing Size raises KeyError('Size'), and the test is whether the size contains "No Module Installed" |
| Memory.ExtractMemDetail | sysinfo.py:255-262 | the detail line is empty exactly for a slot whose type contains "Unknown" and whose size contains "No Module Installed"; otherwise it is "<Locator>: <Manufacturer> <Type> <Speed>" and a line break; a missing key raises KeyError for the first key looked up that is absent, in the order Type, Size (only for an Unknown type), Locator, Manufacturer, Speed |
| Memory.EmptySlotNoDetail | sysinfo.py:255-258 | an empty slot shows no detail line |
| Memory.MemoryNode | sysinfo.py:224-229 | the Memory node succeeds exactly when the total and every detail line do; its description is the total's text and its sub-info lines are the detail lines of the records, one per record in order; a failing total raises first, then the first record whose detail line fails |
| Memory.NewMemory | sysinfo.py:224-229 | the constructor succeeds exactly when the node can be built, raises the node's exception otherwise, and holds the node's values |
| Onboard.ParseOnboard | sysinfo.py:138-158 | the onboard reader returns the records `Blocks` gives for the `dmidecode -t 41` lines |
| Onboard.RecordsUseAttrs | sysinfo.py:143-154 | an onboard record holds only Reference Designation and Type |
| Onboard.FieldLine | sysinfo.py:151-154 | a `key: value` line inside a record stores the value under an allowed key and is ignored otherwise |
| Onboard.RecordValues | sysinfo.py:146-154 | over stripped lines, every stored value is non-empty and has no trailing whitespace |
| Onboard.StoreField | sysinfo.py:151-154 | an allowed field line stores its value |
| Onboard.ObToStr | sysinfo.py:160-164 | the line succeeds exactly when both keys are present; otherwise it raises KeyError for Type first, then for Reference Designation |
| Onboard.DetailRoundTrip | sysinfo.py:160-164 | the line ends with a line break, and splitting it at the first ": " gives back the type and the designation |
| Onboard.DeviceFields | sysinfo.py:147-157 | a device block with both fields and another field completes one record holding exactly the two fields |
| Onboard.OpensAfterHandle | sysinfo.py:146-150 | a handle line is skipped and "Onboard Device" opens a record |
| Onboard.OneDevice | sysinfo.py:138-158 | one device as `dmidecode -t 41` prints it gives one record with its designation and type |
| Onboard.OnboardNode | sysinfo.py:131-136 | the Onboard node succeeds exactly when every device line does; its description is empty and its sub-info lines are the device lines, one per record in order; otherwise the first failing record raises |
| Onboard.NewOnboard | sysinfo.py:131-136 | the constructor succeeds exactly when the node can be built, raises the node's exception otherwise, and holds the node's values |
| Disk.ParseDisks | sysinfo.py:181-215 | the device loop returns the records that the shared reader state gives over the reports in order, stopping at the first exception |
| Disk.DevicesAfterAbort | sysinfo.py:187-215 | after a failed capacity the later devices add nothing |
| Disk.RecordsTagged | sysinfo.py:197-212 | every disk record holds only model, device, capacity and node, and its node is one of the listed devices |
| Disk.ScanDevices | sysinfo.py:188-212 | reading one more device's report keeps the records of the earlier devices unchanged at the front |
| Disk.DisksDetail | sysinfo.py:181-215 | every returned record holds only model, device, capacity and node, and its node is one of the listed devices |
| Disk.DiskValues | sysinfo.py:194-208 | over stripped reports, every value but the node is stripped |
| Disk.FieldLine | sysinfo.py:198-208 | a `key:value` line inside a record acts as the first field name that contains the key decides |
| Disk.FieldOrder | sysinfo.py:201-208 | a key is stored under the first of "Model Family", "Device Model", "User Capacity" it is a substring of: the stripped value as model or device, the bracketed part (or an exception) as capacity; a key in none is skipped |
| Disk.ModelFamilyKey | sysinfo.py:201-202 | the key "Model Family" stores the stripped value as the model |
| Disk.ModelKey | sysinfo.py:201-202 | the key "Model", part of both the first and the second name, stores the model |
| Disk.EmptyKey | sysinfo.py:198-202 | the empty key of a line starting with ':' stores the model |
| Disk.CapacityKey | sysinfo.py:205-208 | the key "Capacity" stores the bracketed part as the capacity, and fails when there is none |
| Disk.EmptyModelFamily | sysinfo.py:198-202 | a "Model Family:" line with nothing after the colon stores an empty model |
| Disk.DeviceModelKey | sysinfo.py:201-204 | the key "Device Model" stores the stripped value as the device |
| Disk.DeviceModelLine | sysinfo.py:203-204 | a "Device Model:" line stores the stripped value as the device |
| Disk.UserCapacityKey | sysinfo.py:205-208 | the key "User Capacity" stores the bracketed part of the stripped value, and fails when there is none |
| Disk.UserCapacityLine | sysinfo.py:205-208 | a "User Capacity:" line stores the bracketed part, or raises when there is none |
| Disk.CapacityBracket | sysinfo.py:206-208 | a value such as "500 bytes [500 GB]" has the capacity "[500 GB]"; a value without '[' has none |
| Disk.CarriedOver | sysinfo.py:183-212 | a record left open by one report is completed by the next one; it keeps the earlier fields and is tagged with the device that closes it |
| Disk.ExtractDiskDetail | sysinfo.py:217-220 | the line is "<node>: <device> <capacity>" and a line break; a missing key raises KeyError, the keys being looked up in the order node, device, capacity |
| Disk.DetailNamesDevice | sysinfo.py:211-220 | every detail line starts with the name of a listed device |
| Disk.DiskNode | sysinfo.py:167-173 | the Disks node succeeds exactly when every detail line does; its description is the device list joined by spaces and its sub-info lines are the detail lines of the disk records, one per record in order; otherwise the first failing record raises |
| Disk.NewDisks | sysinfo.py:167-173 | the constructor succeeds exactly when the node can be built, raises the node's exception otherwise, and holds the node's values |
| Rom.FirstSplit | sysinfo.py:118 | the first space after a double quote at or after a position, or none |
| Rom.SplitAfterQuote | sysinfo.py:118 | `re.split(r'(?<=") ', line)` gives pieces that rebuild the line with spaces; no piece holds a space after a quote, and every piece but the last ends with a quote |
| Rom.SplitJoinRoundTrip | sysinfo.py:118 | pieces of that shape, joined with spaces, are split back into the same pieces |
| Rom.CleanValue | sysinfo.py:122 | a kept value has no double quote and no surrounding whitespace |
| Rom.Absorb | sysinfo.py:117-123 | the token loop keeps every value in clean form under a ROM key, never loses a key, and fails only with ValueError |
| Rom.AbsorbFails | sysinfo.py:118-120 | the token loop fails exactly when some token has more than one '=' |
| Rom.Transform | sysinfo.py:116-123 | `transform` gives a clean dict, and raises ValueError exactly when some piece has more than one '=' |
| Rom.TokenStep | sysinfo.py:119-122 | one `key=value` piece stores the cleaned value when the key passes the substring test and is dropped otherwise |
| Rom.LsblkSplit | sysinfo.py:118 | an `lsblk -P` line splits into its VENDOR, TYPE and MODEL pieces |
| Rom.KeysOfLsblk | sysinfo.py:121 | VENDOR and MODEL pass the key test and TYPE does not |
| Rom.KeepPiece | sysinfo.py:119-122 | a quoted piece under a ROM key stores its value, quotes removed and stripped |
| Rom.DropPiece | sysinfo.py:119-121 | a quoted piece under another key is dropped |
| Rom.LsblkPieces | sysinfo.py:117-123 | the three pieces of an `lsblk` line leave exactly VENDOR and MODEL |
| Rom.TransformLsblkLine | sysinfo.py:116-123 | `transform` of an `lsblk` line gives VENDOR and MODEL, stripped, and nothing else |
| Rom.LsblkFields | sysinfo.py:116-123 | `transform` of an `lsblk` line succeeds and holds the stripped vendor and model |
| Rom.RomLabel | sysinfo.py:113 | the label is "<VENDOR> <MODEL>", and a missing key raises KeyError, VENDOR first |
| Rom.GetDesc | sysinfo.py:111-114 | the description is the labels of all lines joined by spaces, and exists exactly when every line parses and names a vendor and a model; a line that does not parse raises ValueError even after a line missing a key; otherwise the first line missing a key raises KeyError for VENDOR, or for MODEL when only that is missing |
| Rom.DescOfOne | sysinfo.py:111-114 | one ROM line gives the description "<vendor> <model>" |
| Rom.OneDriveDesc | sysinfo.py:111-114 | a machine with one optical drive is described by its stripped vendor and model |
| Rom.RomNode | sysinfo.py:108-110 | the Rom node succeeds exactly when the description of the non-empty lines does, carries that description and has no sub-info lines; otherwise it raises the description's exception |
| Rom.NewRom | sysinfo.py:108-110 | the constructor succeeds exactly when the node can be built, raises the node's exception otherwise, and holds the node's values |
| SysInfo.Lines | sysinfo.py:146 | the lines a loop over a stream sees hold no line break |
| SysInfo.LinesOf | sysinfo.py:146 | a stream of lines, each ending with a line break, is read back as those lines |
| SysInfo.LinesNoFinalBreak | sysinfo.py:146 | a stream whose last line has no line break still gives all its lines, the last included |
| SysInfo.OutputLines | sysinfo.py:146-147 | every stripped line of a stream has no surrounding whitespace and no line break |
| SysInfo.OutputLinesOf | sysinfo.py:146-147 | reading such a stream gives each of its lines, stripped |
| SysInfo.StripAll | sysinfo.py:147 | each line is stripped, and no line is added or lost |
| SysInfo.LineNode | sysinfo.py:28-31 | a one-line category has the given name, a stripped description and no detail lines |
| SysInfo.LineNodeOfLine | sysinfo.py:28-31 | a command that prints one line is described by that line |
| SysInfo.Distro | sysinfo.py:33-40 | `distro` succeeds exactly when the first line has an '=', a second line exists and it has an '='; otherwise it raises IndexError |
| SysInfo.TwoLines | sysinfo.py:37 | two lines, each ending with a line break, split into the two lines and an empty last piece |
| SysInfo.SplitTwoLines | sysinfo.py:37 | the same, for the two lines joined with line breaks |
| SysInfo.KeyValue | sysinfo.py:38 | `k=v` with no other '=' splits into key and value |
| SysInfo.DistroOfLines | sysinfo.py:37-40 | the description is the name, a space and the version without its double quotes |
| SysInfo.DistroQuotes | sysinfo.py:37-40 | of `NAME="x"` and `VERSION="y"`, the name keeps its quotes and the version loses them |
| SysInfo.DistroWithoutVersion | sysinfo.py:37-39 | a release file without a second line raises IndexError |
| SysInfo.DistroNode | sysinfo.py:33-40 | the Distro node succeeds exactly when `distro` does, carries its text and has no detail lines; otherwise it raises the same exception |
| SysInfo.Baseboard | sysinfo.py:54-60 | the baseboard description has no surrounding whitespace |
| SysInfo.ReplaceLineEnd | sysinfo.py:60 | the first of the allowed line breaks becomes a space, and one fewer remains allowed |
| SysInfo.BaseboardOfLines | sysinfo.py:59-60 | vendor, name and chipset lines give the three, separated by spaces and stripped |
| SysInfo.BaseboardNoChipset | sysinfo.py:59-60 | without a chipset line the description is vendor and name |
| SysInfo.BaseboardTwoChipsets | sysinfo.py:59-60 | with two chipset lines, only the first two line breaks become spaces and the one between the chipsets stays |
| SysInfo.Build | sysinfo.py:62-72 | each category's node carries the category's name; the one-line categories never raise and have no detail lines |
| SysInfo.Nodes | sysinfo.py:62-73 | the nine nodes are built in the order Product, Distro, Kernel, Processor, BaseBoard, Rom, Memory, Disks, Onboard |
| SysInfo.OrderNames | sysinfo.py:63-72 | the build order names the nine categories in that order |
| SysInfo.NewCategory | sysinfo.py:64-72 | each category's object succeeds exactly when its node can be built, raises the node's exception otherwise, and holds the node's values |
| SysInfo.AppendAll | sysinfo.py:62-73 | the appends build one object per category in order, holding the nodes; the first category that raises ends `Hwinfo()` with its exception |
| SysInfo.Collect | sysinfo.py:62-73 | `Hwinfo()` succeeds exactly when all nine nodes can be built, raises the first exception otherwise, and keeps the objects holding the nodes in order |
| SysInfo.Hwinfo.constructor | sysinfo.py:73 | the object keeps the list it is given |
| SysInfo.Hwinfo.Printed | sysinfo.py:75-76 | `__str__` prints the page of the nodes the objects hold: each node's first line followed by its detail lines |
| SysInfo.Hwinfo.ToString | sysinfo.py:75-76 | `__str__` prints the page of the values the objects hold |

## Left out

- `check_permission` (the `sudo` re-execution) and the module-level `print`: process control and output, no text logic.
- `sh`, `subprocess.check_output` and `Popen`: every command's output is an input of the model (`SysInfo.Sources`). The shell pipelines themselves (`dmidecode`, `smartctl`, `lsblk`, `ls`, `lspci | grep | sed`, `uname`, `egrep` on `/etc/os-release`) are external tools; only what they print matters.
- `Disk.__init__` calls `disk_list()` twice and runs `ls` twice. The model reads one listing for both, assuming the two runs print the same thing.
- `Info.__str__` is not used by the report, so it is not modelled.
- `int()` is modelled on an optional sign followed by ASCII digits. Python also accepts surrounding whitespace, underscores and non-ASCII digits; a first word such as "1_024" is read as 0 here.
- `re.search(r'\[.*\]', …)` is modelled as a search for the first '[' and the last ']' after it. Python's `.` does not match a line break, but the values searched come from single stripped lines, so they hold none.
- The streams are split at '\n' only. Python's text mode also ends lines at "\r" and "\r\n"; such line ends are taken to be absent from the tools' output.
- `Hwinfo()` evaluates the nine categories one after the other. The model builds each node from the given outputs. When a category raises, the later commands are never run; in the model they are inputs that are simply not used.
- SysInfo.Baseboard: its ensures states only that the result is stripped; the exact text for one, zero or two chipset lines is given by the `Baseboard…` lemmas.
- SysInfo.LineNode: its ensures states only that the description is stripped; `SysInfo.LineNodeOfLine` gives the exact text for a one-line output.
- PyStr.BracketSearch: its ensures states only the bracket ends; the full characterisation is `PyStr.BracketSearchSpec`.
