# BDU-Ports-Report scanner core, modelled in Dafny

The scanner takes a comma-separated list of hosts and a port range `start-end`. It probes every host
on every port of the range with a TCP dial, keeps the ports that answered ("open"), names the service on
each open port from a fixed table, and attaches vulnerability and pentest data from a knowledge base.
The report groups the open results by host and word-wraps long texts into lines that fit the page width.

The model has these files:

- `wrappers.dfy`: `Option` and `Result`.
- `strings.dfy`: Go's `strings.Split` with a one-character separator, `strings.Fields` (with `unicode.IsSpace`'s set of white-space code points), and joining.
- `strconv.dfy`: `strconv.Atoi` on Go's 64-bit `int`, and the `%d` rendering of an integer.
- `types.dfy`: `ScanResult` and the three knowledge-base records.
- `scanner.dfy` (module `PortScanner`): range parsing, the host x port expansion, and `scanPort`. It also holds `detectService`, `identifyService`, and the `Scanner` class with its `Scan` method.
- `report.dfy` (module `Report`): the grouping of open results by host, and `splitLongText`.

The network and the knowledge base are an `Environment`, passed to the scan:

- whether a dial to `ip:port` succeeds within its timeout;
- `getVulnerabilityInfo`;
- `getPenTestCommands`.

The goroutines of `Scan` have two steps in the model. First a loop starts one task per host and port, in the order Go's nested `range` loops start them. Then a loop completes the pending tasks in an arbitrary order, chosen by `:|`. So `Scan` promises its results only up to order, as a multiset.

The model follows the code, including where its behaviour may surprise:

- A range whose start is above its end is not an error. It adds no port (`PortScanner.ReversedRangeAccepted`).
- `Scan` appends the range to `Scanner.Ports` and then probes every port in `Ports`. A second `Scan` on the same scanner therefore probes the earlier ports again.
- `identifyService` is never called by `Scan`: `scanPort` uses `detectService`. Both are modelled, together with how they differ.
- The comment in `splitLongText` says an overlong word is split. The code puts it whole on a line of its own, and the model does the same.

## Model

| member | source | states |
|---|---|---|
| Strings.Split | scanner.go:26 | `strings.Split` on one separator character yields one more piece than there are separators, and no piece contains the separator |
| Strings.JoinSplit | scanner.go:29 | joining the pieces of a split with the separator gives back the original string |
| Strings.SplitJoin | scanner.go:29 | splitting a join of separator-free pieces gives back those pieces |
| Strings.Fields | pdf.go:176 | every field `strings.Fields` returns is a non-empty run of non-space characters |
| Strings.FieldsEmpty | pdf.go:176 | a text has no fields exactly when it is all white space |
| Strings.FieldsOfJoin | pdf.go:176 | the fields of words joined by single spaces are those words |
| Strings.FieldsAtSpace | pdf.go:176 | a white-space character splits the fields into those before it and those after it, so the fields of any text are fixed whatever its spacing |
| Strconv.Atoi | scanner.go:35-42 | `Atoi` succeeds only on an optional `+` or `-` followed by at least one digit and nothing else, and only with a value that fits a 64-bit int |
| Strconv.AtoiDigits | scanner.go:35-42 | a run of digits, bare, after `+` or after `-`, parses to its decimal value (negated after `-`) exactly when that fits a 64-bit int, and is an error otherwise |
| Strconv.AtoiExamples | scanner.go:35-42 | `+8` and `08` both parse to 8, as in Go |
| Strconv.AtoiItoa | scanner.go:35 | `Atoi` inverts the decimal rendering of every 64-bit integer |
| Strconv.Itoa | scanner.go:78 | the `%d` rendering is a non-empty run of digits, with a leading minus exactly for a negative number, and has no leading zero (the rendering of 0 aside) |
| Strconv.ItoaCharacters | scanner.go:78 | the decimal rendering contains no non-digit character except a leading minus on a negative number |
| PortScanner.ParseRange | scanner.go:29-43 | wrong piece count, bad start and bad end are each reported exactly when they occur, checked in that order. On success the range string holds exactly one `-` and both ends are non-negative 64-bit values, namely the `Atoi` values of the two pieces |
| PortScanner.ParseRangeRoundTrip | scanner.go:29-43 | a range written as two decimal numbers joined by `-` parses back to those two numbers |
| PortScanner.ReversedRangeAccepted | scanner.go:45-47 | `100-50` parses without error, and its range adds no port |
| PortScanner.PortRange | scanner.go:45-47 | the range loop, as evidently intended, appends `end - start + 1` ports (none when start > end), the k-th being `start + k` |
| PortScanner.PortRangeSnoc | scanner.go:45-47 | one more iteration of the range loop appends its port at the end |
| PortScanner.Scanner.AppendRange | scanner.go:45-47 | the range loop appends the ports from `StartPort` to `EndPort` to `Ports` and changes no other field |
| PortScanner.Row | scanner.go:54 | one host gets one task per port |
| PortScanner.RowMembers | scanner.go:54 | a host's tasks are exactly that host paired with each port |
| PortScanner.Targets | scanner.go:53-55 | the scan starts as many tasks as the number of hosts times the number of ports |
| PortScanner.TargetsMembers | scanner.go:53-55 | a task is started exactly for each host in `IPs` paired with each port in `Ports` |
| PortScanner.RowMultiplicity | scanner.go:54 | a host's tasks pair it with a port as many times as the port occurs in `Ports` |
| PortScanner.TargetsMultiplicity | scanner.go:53-55 | a (host, port) task is started as many times as the host occurs in `IPs` times the number of times the port occurs in `Ports` |
| PortScanner.StartTasks | scanner.go:53-56 | the nested loops start the tasks of the host x port product, host by host and port by port |
| PortScanner.DetectService | scanner.go:102-124 | a listed port gets its table name, and "unknown" is returned exactly for the ports the table does not list |
| PortScanner.WellKnownService | scanner.go:128-225 | every name in the `switch` is non-empty and cannot be mistaken for an "Unknown..." fallback |
| PortScanner.Received | scanner.go:228-230 | one read delivers at most 1024 bytes, and the bytes it delivers are a prefix of what was waiting |
| PortScanner.IdentifyService | scanner.go:126-236 | a listed port gets its `switch` name. The name starts with "Unknown" exactly when the port is unlisted. A banner is embedded exactly when the port is unlisted, the read did not fail and at least one byte arrived, and then it is exactly the bytes received. Otherwise an unlisted port gets exactly "Unknown" |
| PortScanner.TablePrecedesBanner | scanner.go:128-225 | on a listed port the banner read cannot change the name |
| PortScanner.ClassifiersAgree | scanner.go:102-225 | `detectService` and `identifyService` agree on every port both list except 20 and 8080 |
| PortScanner.ClassifiersDiffer | scanner.go:104-131 | on port 20 the two give "FTP-DATA" and "FTP", and on port 8080 "HTTP-Proxy" and "HTTP Proxy" |
| PortScanner.FallbacksDiffer | scanner.go:123-234 | on a port neither lists, "unknown" never equals `identifyService`'s "Unknown..." fallback |
| PortScanner.AddressParts | scanner.go:78 | the dialled address `ip:port`, for a host without a colon, splits at its colon into the host and the rendered port, which parses back to the port |
| PortScanner.ScanPort | scanner.go:72-100 | the result carries the target's IP and port. It is open exactly when the dial to `ip:port` succeeds. Then it carries the `detectService` name and the knowledge-base data for that port and name; otherwise it is closed and carries nothing else |
| PortScanner.ScanPortDeterminesTarget | scanner.go:72-76 | two probes give the same result only for the same host and port |
| PortScanner.OpenResults | scanner.go:58-62 | the kept results are at most one per task, each open and well formed |
| PortScanner.OpenResultsAppend | scanner.go:53-66 | keeping open results distributes over concatenation of task lists |
| PortScanner.OpenResultsPermutation | scanner.go:56-68 | the multiset of open results does not depend on the order the tasks finish in |
| PortScanner.OpenResultsRemove | scanner.go:56-68 | taking one task out of the list takes its result (if open) out of the open results |
| PortScanner.OpenResultMultiplicity | scanner.go:56-68 | a target's result appears in the collection as many times as the target was probed if it answered, and never otherwise |
| PortScanner.ScanOnce | scanner.go:53-68 | when neither the host nor the port is repeated, an answering (host, port) pair is reported exactly once and a silent one never |
| PortScanner.OpenResultsNext | scanner.go:58-62 | one more finished task appends its result exactly when that result is open |
| PortScanner.OpenResultsSnoc | scanner.go:58-62 | the multiset form of the same step |
| PortScanner.Collect | scanner.go:56-69 | whatever order the tasks finish in, the collected results are, as a multiset, the open results of all tasks |
| PortScanner.Scanner.constructor | scanner.go:20-22 | a new scanner has no hosts, no ports and both range ends at zero |
| PortScanner.Scanner.Scan | scanner.go:24-70 | `IPs` becomes the comma split of the host list. On a range error the scan stops with that error before any probe and the range fields are untouched. Otherwise the ends are recorded, `Ports` grows by the range as evidently intended (`PortRange`), and the results are, up to order, the open results of every host against every port in `Ports` |
| PortScanner.Increment64 | scanner.go:45 | `port++` on a 64-bit int stays within 64 bits |
| PortScanner.RangeLoopAsWritten | scanner.go:45-46 | within its first `steps` iterations the loop as written appends at most one port per iteration, each one a 64-bit value that passed the guard `port <= end` |
| PortScanner.RangeLoopNeverExits | scanner.go:45 | with the end at the largest 64-bit value, every iteration of the loop as written appends a port, for any number of iterations |
| PortScanner.RangeLoopAsWrittenBelowMax | scanner.go:45-47 | with any smaller end, the loop as written stops and appends exactly the ports from start to end |
| Report.OpenAt | pdf.go:33-38 | a host's group holds only open results of that host |
| Report.GroupByIP | pdf.go:33-38 | a host has a group exactly when it has an open result, and its group is its open results in input order |
| Report.OpenAtAppend | pdf.go:34-37 | grouping distributes over concatenation of result lists |
| Report.OpenAtMultiplicity | pdf.go:34-37 | each open result lands in its host's group as often as it occurs in the input, and closed results in no group |
| Report.SplitLongText | pdf.go:173-210 | the lines hold the text's words in order, each line single-spaced and non-empty. A line of two or more words fits the width. Every break is forced: the next line's first word would not have fit, or the line is one overwide word. There are no more lines than words, and no lines exactly when the text is blank |
| Report.PlaceWord | pdf.go:179-201 | one pass of the loop keeps the wrap invariant (closed lines, pending line, forced breaks) with one more word consumed |
| Report.WrappedLines | pdf.go:204-209 | once the loop has consumed every word, the lines these groups are joined into have every property `SplitLongText` promises |

## Left out

- main.go (reading the command line, the report's file name) is not part of this model.
- Network I/O: `net.DialTimeout` with its 5-second timeout is the `dial` field of `Environment`, a function of the address. A real dial can answer differently on each attempt; the model's dial always gives the same answer for the same address.
- `getVulnerabilityInfo` and `getPenTestCommands` are not part of this model. They are the `vulnerabilities` and `penTestCommands` fields of `Environment`.
- Concurrency: goroutines, the `WaitGroup` and the mutex are modelled as tasks completed one at a time in any order. Interleavings inside one `scanPort` are not modelled, because a probe shares no state with the others.
- PortScanner.Scanner.Scan: `log.Fatal` ends the Go process. The model returns the error instead, and leaves `StartPort`/`EndPort` as they were; Go would already have stored the `Atoi` result (0 or the clamped value) in them before exiting.
- PortScanner.Scanner.Scan: the range loop is the intended one, `PortRange`, so with `EndPort` at the largest 64-bit value the model's `Scan` returns, while Go's loop never ends (see Findings; the loop as written is `PortScanner.RangeLoopAsWritten`).
- PortScanner.IdentifyService: the banner read is a `BannerRead` value, the waiting text plus whether the read failed. The 2-second read deadline is not modelled, characters stand for bytes, and no UTF-8 decoding of the banner is modelled.
- Report.SplitLongText: `pdf.GetStringWidth` is an arbitrary function from strings to reals. The model does not compute font metrics and does not model floating-point rounding.
- The PDF drawing in pdf.go (fonts, cells, colours, tables and the page break at pdf.go:43 before each host's section) is not modelled, because it only produces output.
- Port validity: like the code, `ParseRange` accepts any two non-negative 64-bit ends, ports above 65535 included. What a dial to such an address returns is left to the dial oracle, because Go's `net` package is not part of this model.

## Findings

| source | as written | input that shows it | evidently intended | confidence | as-written member | corrected member |
|---|---|---|---|---|---|---|
| scanner.go:45 | `for port := s.StartPort; port <= s.EndPort; port++` on a 64-bit `int`: when `EndPort` is the largest 64-bit value the guard is always true, `port++` wraps to the smallest value, and the loop never ends | ports argument `9223372036854775800-9223372036854775807` | append the ports from start to end and stop | not executed | PortScanner.RangeLoopNeverExits | PortScanner.PortRange |
