# net_troubleshooter: a verified model of the ping parser and the diagnostic records

`net_troubleshooter.py` diagnoses a list of hosts. For each host it takes:

- a UTC timestamp;
- a DNS lookup;
- a ping run, whose free-form output it parses into counters, a loss percentage, an average round trip and a success flag;
- a traceroute run, whose text it truncates;
- one TCP connect per requested port.

It then flattens the per-host records into CSV rows: one row per port probe, or one row for a host without probes.

The model has six modules.

- `Lexemes`: the character classes, greedy runs and scanning helpers the regular expressions are built from. It also holds Python's `int()`, `float()`, `str.lower()` and `in` on the texts involved.
- `PingPatterns`: the four regular expressions of `ping_host`, each as a hand-written matcher with `re.search` semantics plus a declarative predicate. The predicate says which stretches of text the pattern matches. For each pattern:
  - the search finds a match whenever one exists;
  - the match it returns is the one backtracking reaches first: leftmost start, then the shortest lazy gaps.
- `PingParser`: the field-by-field parse of `ping_host`. `PingHost` is a method that updates a result record step by step. It is proved equal to the function `ExpectedPing`, whose properties are proved as lemmas: which pattern wins, the fallbacks, the loss formula, and the success rule.
- `Diagnostics`: `dns_lookup`, `check_tcp_port` and the loop of `run_diagnostics`, with the outside world passed in as functions. Also the truncation of the traceroute text.
- `CsvRows`: the row fan-out of `save_results_csv` and the column order of its header.
- `PingExamples`: three concrete transcripts worked through the parser:
  - a Linux run: 4 sent, 4 received, 0.0 loss, average 12.3, reached;
  - a Windows summary: 4 sent, 2 received, 50.0 loss, no average, reached;
  - a bare Windows reply line: nothing parsed, but reached through its `TTL=` marker.

Two details of the code shape the model:

- The Unix counters pattern (line 35) is compiled with `re.S` only, so its literals are case-sensitive.
- A record's traceroute entry keeps only the truncated text (line 114); `traceroute_host`'s success flag is dropped.

One behaviour of the code is kept as written and proved as a lemma (`PingParser.FractionalLossReadsDigitsAfterPoint`). The loss group `([0-9]+)%` captures only the digits right before the `%`. So on a fractional loss such as `33.3333% packet loss` the recorded loss is 3333.0.

## Model

| member | source | states |
|---|---|---|
| Lexemes.RunEndStops | net_troubleshooter.py:35 | a greedy run (`\d+`, `\s+`, `[\d\.]+`, `[\w/]+`) covers only characters of its class and stops at the first character outside it |
| Lexemes.RunThen | net_troubleshooter.py:40 | a greedy run followed by a literal, when found, is a non-empty run of the class with the literal right after it |
| Lexemes.RunThenComplete | net_troubleshooter.py:40 | when the literal starts with a character outside the class, every such run-then-literal is the one the matcher finds: the greedy run cannot be shortened |
| Lexemes.FirstSuccessNoLater | net_troubleshooter.py:35 | the scan `re.search` performs returns a success at a position no later than any position where the attempt succeeds |
| Lexemes.DigitsValueShowNat | net_troubleshooter.py:37 | `int()` of a digit capture inverts the decimal text of a number |
| Lexemes.DigitsValueLeadingZero | net_troubleshooter.py:37 | a leading zero does not change `int()`'s value, so a capture such as `02` reads as 2 |
| Lexemes.RunValue | net_troubleshooter.py:37 | `int()` of a `\d+` capture of length n is below 10^n |
| Lexemes.ParseFloat | net_troubleshooter.py:50 | `float()` of a `[\d\.]+` capture succeeds exactly when it has at most one point and at least one digit; on all-digit text it equals `int()` |
| Lexemes.ContainsIff | net_troubleshooter.py:63 | `needle in hay` holds exactly when the needle occurs at some index |
| PingPatterns.UnixAt | net_troubleshooter.py:35 | an anchored Unix counters match starts where it was tried and satisfies the pattern's predicate |
| PingPatterns.SearchUnix | net_troubleshooter.py:35 | what the Unix search returns is a match of the counters pattern |
| PingPatterns.UnixAtComplete | net_troubleshooter.py:35 | tried at the start of any match, the anchored matcher succeeds, with lazy gaps no longer than that match's |
| PingPatterns.UnixSearchFirst | net_troubleshooter.py:35-36 | whenever the text holds a Unix match, the search finds one that comes no later in backtracking order: earlier start, then shorter first gap, then shorter second gap |
| PingPatterns.UnixFoundIff | net_troubleshooter.py:35-36 | the Unix search succeeds exactly when some match exists |
| PingPatterns.UnixMatchForced | net_troubleshooter.py:35 | two matches whose group starts coincide agree on where each greedy group and the following white space end |
| PingPatterns.UnixSentIsWholeNumber | net_troubleshooter.py:35-37 | the sent capture never starts inside a run of digits |
| PingPatterns.UnixLossExtendLeft | net_troubleshooter.py:35 | a digit in front of the loss capture belongs to the lazy gap, so the match can start the capture one earlier |
| PingPatterns.UnixLossIsDigitsBeforePercent | net_troubleshooter.py:35 | the loss capture is the whole digit run in front of the `%`: no digit precedes it |
| PingPatterns.WindowsAt | net_troubleshooter.py:40 | an anchored Windows counters match starts where it was tried and satisfies the pattern's predicate |
| PingPatterns.SearchWindows | net_troubleshooter.py:40 | what the Windows search returns is a match of `Sent = (\d+), Received = (\d+), Lost = (\d+)` |
| PingPatterns.WindowsAtComplete | net_troubleshooter.py:40 | tried at the start of any match, the anchored matcher returns the same counts and the longest lost count |
| PingPatterns.WindowsSearchFirst | net_troubleshooter.py:40-41 | whenever a Windows match exists, the search finds one with an earlier start, or with the same start, the same sent and received counts and the longest lost count |
| PingPatterns.WindowsFoundIff | net_troubleshooter.py:40-41 | the Windows search succeeds exactly when some match exists |
| PingPatterns.RttFieldsAt | net_troubleshooter.py:47 | the four `[\d\.]+` fields, when found, are runs separated by `/` and followed by ` ms` |
| PingPatterns.RttAt | net_troubleshooter.py:47 | an anchored rtt match starts where it was tried and satisfies the pattern's predicate |
| PingPatterns.SearchRtt | net_troubleshooter.py:47 | what the rtt search returns is a match of the rtt pattern |
| PingPatterns.RttAtComplete | net_troubleshooter.py:47 | tried at the start of any rtt match, the anchored matcher returns exactly that match |
| PingPatterns.RttSearchFirst | net_troubleshooter.py:47-48 | whenever an rtt match exists, the search finds one that starts earlier or is that match |
| PingPatterns.RttFoundIff | net_troubleshooter.py:47-48 | the rtt search succeeds exactly when some match exists |
| PingPatterns.AverageAt | net_troubleshooter.py:54 | an anchored `Average = (\d+)ms` match starts where it was tried and satisfies the pattern's predicate |
| PingPatterns.SearchAverage | net_troubleshooter.py:54 | what the Average search returns is a match of that pattern |
| PingPatterns.AverageSearchFirst | net_troubleshooter.py:54-55 | whenever an Average match exists, the search finds one starting no later |
| PingPatterns.AverageFoundIff | net_troubleshooter.py:54-55 | the Average search succeeds exactly when some match exists |
| PingParser.UnixCounters | net_troubleshooter.py:37-38 | a Unix match sets all three counters, the loss as a non-negative float |
| PingParser.WindowsCounters | net_troubleshooter.py:42-44 | a Windows match sets sent and received; the loss is unset exactly when sent is 0, and otherwise non-negative |
| PingParser.ParseCounters | net_troubleshooter.py:34-44 | sent and received are set together, and a loss is only ever set along with them |
| PingParser.RttAverageText | net_troubleshooter.py:47-50 | the average capture of the rtt line is non-empty and made of digits and points |
| PingParser.AverageText | net_troubleshooter.py:54-57 | the Average capture is a non-empty run of digits |
| PingParser.ParseAverage | net_troubleshooter.py:46-59 | with an rtt line, the average is set exactly when its capture is a valid float |
| PingParser.ExpectedPing | net_troubleshooter.py:28-64 | the result names the host and keeps the raw output |
| PingParser.PingHost | net_troubleshooter.py:27-66 | the step-by-step updates of `ping_host` produce exactly `ExpectedPing` |
| PingParser.FailedRunLeavesAllUnset | net_troubleshooter.py:28-30 | a failed process run returns the all-unset, unsuccessful result with the raw text |
| PingParser.UnixCountersTakePrecedence | net_troubleshooter.py:35-38 | whenever a Unix match exists, the counters are `int()`/`float()` of the groups of the first match, whatever else the text holds |
| PingParser.WindowsCountersAsFallback | net_troubleshooter.py:39-44 | without a Unix match, a Windows match supplies sent and received, and the loss is lost / sent * 100, or unset when sent is 0 |
| PingParser.NoCountersWithoutSummary | net_troubleshooter.py:34-44 | with neither counters line the three counters stay unset |
| PingParser.NoAverageWithoutSummary | net_troubleshooter.py:46-59 | with neither an rtt line nor an `Average = Nms` line the average stays unset |
| PingParser.RttLineTakesPrecedence | net_troubleshooter.py:47-52 | whenever an rtt line exists, the average is `float()` of the first one's capture; it is unset exactly when that `float()` raises, and the Average line is then not consulted |
| PingParser.AverageLineAsFallback | net_troubleshooter.py:53-59 | without an rtt line, an Average line supplies the average as its whole number of milliseconds |
| PingParser.SuccessIff | net_troubleshooter.py:61-64 | success holds exactly when the run succeeded and either received is a positive count or the lower-cased text holds `ttl=` |
| PingParser.LowerTtlAt | net_troubleshooter.py:63 | `ttl=` occurs in the lowered text at i exactly when the raw text has `t`/`T`, `t`/`T`, `l`/`L`, `=` there |
| PingParser.SuccessIffMarker | net_troubleshooter.py:61-64 | success holds exactly when the run succeeded and either received is a positive count or the raw text holds `ttl=` in any mix of cases |
| PingParser.EmptyOutputAllUnset | net_troubleshooter.py:28-64 | empty output gives an unsuccessful result with every field unset, whether or not the run succeeded |
| PingParser.FractionalLossReadsDigitsAfterPoint | net_troubleshooter.py:35-37 | a loss printed as `33.3333%` is recorded as 3333.0 |
| PingParser.LossCaptureAfterPoint | net_troubleshooter.py:35 | a digit run ending in `.3333` with no digit in front of it is `3333` |
| Diagnostics.DnsLookup | net_troubleshooter.py:87-92 | success exactly when the name resolved; the address is present exactly on success, the error exactly on failure, and the name is kept |
| Diagnostics.CheckTcpPort | net_troubleshooter.py:77-85 | the probe names its host and port, is open exactly when the connect succeeded, has an error exactly when closed, and records the elapsed time either way |
| Diagnostics.Truncate | net_troubleshooter.py:114 | text of at most 400 characters is kept verbatim; longer text becomes its first 400 characters plus `...[truncated]`; the result never exceeds 414 characters |
| Diagnostics.TruncateIdempotent | net_troubleshooter.py:114 | truncating a truncated text changes nothing |
| Diagnostics.TruncateKeepsPrefix | net_troubleshooter.py:114 | truncation keeps the first min(400, length) characters unchanged |
| Diagnostics.PortList | net_troubleshooter.py:95-96 | a missing port list is the empty list, and a given one is used as it is |
| Diagnostics.ProbePorts | net_troubleshooter.py:105-107 | one probe per port, in the order of the port list |
| Diagnostics.RunDiagnostics | net_troubleshooter.py:94-118 | one record per host, in host order; each holds that host's timestamp, DNS lookup, parsed ping, truncated traceroute text and port probes |
| Diagnostics.NoPortsNoProbes | net_troubleshooter.py:95-107 | without a port list no record has port probes (an unfolding of `RecordFor`) |
| Diagnostics.ProbesIndependent | net_troubleshooter.py:101-115 | the outcome of DNS and ping does not change a record's timestamp, traceroute text or port probes (an unfolding of `RecordFor`) |
| CsvRows.BaseRow | net_troubleshooter.py:123-133 | the host-level row copies the timestamp, host, DNS address and flag, the four ping fields and the traceroute text, and has no port columns |
| CsvRows.RecordRows | net_troubleshooter.py:134-140 | a record gives one row per port probe, or one row when it has none |
| CsvRows.RecordRowsFanOut | net_troubleshooter.py:134-140 | without probes, the base row alone with empty port cells; with N probes, N rows, the k-th carrying the k-th probe's port, open flag and rtt, and all sharing the host-level cells |
| CsvRows.AppendRecordRows | net_troubleshooter.py:123-140 | one pass of the outer loop appends exactly the record's rows |
| CsvRows.BuildRows | net_troubleshooter.py:121-140 | the nested loops build exactly the concatenation of every record's rows in record order |
| CsvRows.FlattenRowsAppend | net_troubleshooter.py:122 | the rows of two record lists joined are the rows of each, joined |
| CsvRows.FlattenRowsCount | net_troubleshooter.py:134-140 | the number of rows is the sum over records of their probe counts, a record without probes counting one |
| CsvRows.FlattenRowsSplit | net_troubleshooter.py:122-140 | the rows of a list split around any record into rows before, that record's rows, and rows after |
| CsvRows.RowsOfRecordAt | net_troubleshooter.py:121-140 | the rows of the i-th record sit contiguously, right after the rows of the records before it |
| CsvRows.Cells | net_troubleshooter.py:122-143 | every row has one cell per header column, and the k-th cell is the row's value under the k-th header name (`Column`, the writer's by-name lookup) |
| CsvRows.PortColumnsByName | net_troubleshooter.py:137-143 | the port columns are exactly the header positions named `port`, `port_open` and `port_rtt_ms` |
| CsvRows.HeaderNamesDistinct | net_troubleshooter.py:142-143 | no header name occurs twice |
| PingExamples.UnixExample | net_troubleshooter.py:35-52 | a Linux run reporting 4 transmitted, 4 received, 0% loss and rtt 10.1/12.3/15.0/1.2 parses to 4, 4, 0.0, 12.3 and success |
| PingExamples.WindowsExample | net_troubleshooter.py:40-44 | `Sent = 4, Received = 2, Lost = 2 (50% loss)` parses to 4, 2, 50.0, no average, and success |
| PingExamples.TtlReplyExample | net_troubleshooter.py:61-64 | a lone reply line with `TTL=64` leaves every field unset but counts as reached |
| PingExamples.ParseTwelvePointThree | net_troubleshooter.py:50 | `float("12.3")` is 12.3 |
| PingExamples.UnixOutputNoEarlierRtt | net_troubleshooter.py:47 | no rtt match can start inside the counters lines, which hold no `=` |

## Left out

- Process execution (`run_subprocess`), DNS resolution, TCP connects and the clock are not modelled. They arrive as the functions of `Diagnostics.World`, and their answers are taken as given.
- `Diagnostics.World` gives each probe as a function of the host's position in the list (and of the port's position). The model therefore does not capture how long probes take, timeouts, or the exception text beyond passing it through.
- Command construction and the platform switch (`IS_WINDOWS`, lines 12 and 22-25, 69-72) are left out. The parser treats Unix and Windows output the same way, as the code does.
- `ping_count` is only passed to the ping runner. `ping_host`'s `timeout` and `check_tcp_port`'s `timeout` are the runner's and connector's concern and are not modelled.
- `traceroute_host`'s success flag is computed by the code (line 75) but not stored by `run_diagnostics`, so the model keeps only the text.
- Floats are exact reals. IEEE rounding of `float()`, of `lost / sent * 100` and of the elapsed milliseconds is not modelled.
- Counts are unbounded naturals and the parser never raises. The code raises in two cases the model does not capture, and `ping_host` and `run_diagnostics` then fail:
  - `int()` at lines 37 and 42 sits outside any `try` and raises `ValueError` on a capture longer than Python's integer-string limit (4300 digits by default since Python 3.11);
  - `lost / sent` at line 43 raises `OverflowError` when the quotient exceeds the float range, for instance a Windows summary whose lost count has 400 digits.
- `\d`, `\w` and `str.lower()` are ASCII only. Python's Unicode digits and letters are left out. Lowering is exact for the `ttl=` test (`PingParser.LowerTtlAt`).
- Writing the CSV file and the two prints in `run_diagnostics` and `save_results_csv` are left out. `CsvRows.Cells` gives typed cells in header order rather than formatted text; the exact text `csv.DictWriter` writes is not modelled.
- `monitor_hosts` (the repeating telemetry loop) and `main_cli` (argument parsing) are left out. They only call the modelled operations on a schedule or with parsed arguments.
