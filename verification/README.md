# bandwhich display: bandwidth formatting and table rows

A Dafny model of the two pure pieces of bandwhich's terminal dashboard
(`src/display/ui.rs`):

- the **bandwidth formatter** `display_bandwidth`, which turns a byte counter
  into a string ending in `GBps`, `MBps`, `KBps` or `Bps`;
- the **row projection**: `format_row_data` and the row mapping inside
  `render_process_table`, `render_connections_table` and
  `render_remote_ip_table`, which turn each tracked process, connection or
  remote address into a row of three strings, one row per key in list order.

Modules:

- `Wrappers` (`wrappers.dfy`): `Option`.
- `Decimal` (`decimal.dfy`): an unsigned integer printed with `{}` /
  `to_string`, and its parser.
- `Bandwidth` (`bandwidth.dfy`): the formatter, the unit picked by the
  thresholds, the reference reading `Expected`, and a parser that reads a
  rendered bandwidth back.
- `Rows` (`rows.dfy`): `format_row_data`, the `", "` join of process names,
  and parsers for the bandwidth cell and the joined names.
- `Tables` (`tables.dfy`): the view state, the row mapping shared by the three
  tables, and each table's literal title, headers and widths.

Every caller of the formatter passes a `u64` counter converted to `f64`, so the
input is a `nat`. The float comparisons `> 999999999.0`, `> 999999.0` and
`> 999.0` on such a value are the integer thresholds `>= 10^9`, `>= 10^6` and
`>= 10^3`. Each power of ten therefore falls into the higher unit: 1000 gives
`KBps`, 10^6 gives `MBps` and 10^9 gives `GBps`.

The contracts are stated against independent partners rather than the bodies.
Each rendered count or bandwidth is read back by a parser (`ParseNat`,
`ParseFixed2`, `ParseBandwidth`, `ParseBandwidthCell`). The reading is then
compared with a reference definition (`UnitFor`, `Hundredths`, `Expected`) that
uses only the thresholds and scale factors.

- `ParseNat`, `ParseFixed2` and `ParseBandwidth` accept only the canonical
  spelling, with no leading zero. Each is proved injective (`ParseNatExact`,
  `ParseFixed2Exact`, `ParseBandwidthExact`), so a contract stated through one
  of them fixes the text exactly.
- For `ParseBandwidthCell`, `OnlyFormattedCellReads` proves the same of the
  bandwidth cell.
- `SplitNames` is different. It accepts every string and drops whatever
  character follows each comma, so it is not injective. It is a left inverse
  of the `", "` join only on non-empty lists of comma-free names
  (`SplitJoinNames`).

Connection and remote-address labels come from `to_string`, whose `Display`
implementations are not part of this model. They enter as opaque functions
`showConnection` and `showIp`.

## Model

| member | source | states |
|---|---|---|
| `Bandwidth.UnitFor` | src/display/ui.rs:43-51 | The unit is GBps iff bytes >= 10^9, MBps iff 10^6 <= bytes < 10^9, KBps iff 1000 <= bytes < 10^6, and Bps iff bytes < 1000. So the four branches are exclusive and exhaustive, and each boundary falls upward. |
| `Bandwidth.Hundredths` | src/display/ui.rs:44-48 | The scaled amount is the nearest hundredth to bytes / scale, with ties rounded up: `2*scale*h <= 200*bytes + scale < 2*scale*(h+1)`. |
| `Bandwidth.Fixed2` | src/display/ui.rs:44-48 | A `{:.2}` rendering is a canonical whole part (no leading zero, as `{}` prints it), a point, then exactly two digits. |
| `Bandwidth.Fixed2Parses` | src/display/ui.rs:44-48 | A two-decimal rendering reads back as the hundredths it was made from. |
| `Bandwidth.DisplayBandwidth` | src/display/ui.rs:42-52 | A formatted bandwidth never contains `/`, so the `/` in a row's bandwidth cell separates upload from download without ambiguity. |
| `Bandwidth.Expected` | src/display/ui.rs:43-51 | The reference reading uses the threshold unit. A Bps amount is below 1000. A scaled amount is at least 1.00 of its unit, and at most 1000.00 for KBps and MBps, so the thresholds never print an amount below one unit or, below GBps, above a thousand. |
| `Bandwidth.DisplayBandwidthParses` | src/display/ui.rs:42-52 | Round trip: parsing the formatted string gives exactly `Expected(bytes)`, that is, the unit the thresholds pick and the amount scaled by 10^9, 10^6, 10^3 or 1. |
| `Bandwidth.ExactlyOneUnit` | src/display/ui.rs:43-51 | The formatted string shows unit u iff u is the unit the thresholds pick. Exactly one suffix is produced, although `Bps` is also the tail of the scaled suffixes. |
| `Bandwidth.DecimalPointPlacement` | src/display/ui.rs:44-50 | The Bps branch prints the bare decimal integer followed by `Bps`, with no decimal point. The scaled branches print one point and exactly two digits before the four-letter suffix. |
| `Bandwidth.BpsParses` | src/display/ui.rs:49-50 | Any count rendered in decimal and followed by `Bps` reads back as a Bps reading of that count. |
| `Bandwidth.ParseFixed2Exact` | src/display/ui.rs:44-48 | A string read as h hundredths is exactly the two-decimal rendering of h. |
| `Bandwidth.ParseBandwidthExact` | src/display/ui.rs:42-52 | A string read as a reading is exactly that reading's rendering, with its amount and unit suffix, so each reading has one spelling. |
| `Bandwidth.OnlyDisplayReadsAsExpected` | src/display/ui.rs:42-52 | The formatted string is the only string that reads as `Expected(bytes)`. With `DisplayBandwidthParses`, the reading determines the text completely. |
| `Bandwidth.ScaledParses` | src/display/ui.rs:43-48 | A two-decimal amount followed by a scaled suffix reads back as that unit and amount. |
| `Bandwidth.SmallExamples` | src/display/ui.rs:49-50 | 0, 500 and 999 render as `"0Bps"`, `"500Bps"` and `"999Bps"`. |
| `Bandwidth.KiloExamples` | src/display/ui.rs:47-48 | 1000 renders as `"1.00KBps"`, 2000 as `"2.00KBps"` and 999999 as `"1000.00KBps"`. |
| `Bandwidth.MegaAndGigaExamples` | src/display/ui.rs:43-46 | 10^6 renders as `"1.00MBps"`, 1500000 as `"1.50MBps"`, 10^9 as `"1.00GBps"` and 2500000000 as `"2.50GBps"`. |
| `Decimal.NatToString` | src/display/ui.rs:70 | `to_string` of a count is a non-empty digit string with no leading zero. It starts with `0` iff the count is 0. |
| `Decimal.ParseNatOfNatToString` | src/display/ui.rs:70 | A rendered count parses back to the count. |
| `Decimal.ParseNatExact` | src/display/ui.rs:70 | A string the parser accepts is exactly the rendering of the count it reads, so no zero-padded or other variant reads as a count. |
| `Decimal.NatToStringOfDigitsValue` | src/display/ui.rs:70 | Every canonical digit string is the rendering of its value, so the rendering is a bijection onto canonical digit strings. |
| `Rows.FormatRowData` | src/display/ui.rs:30-33 | A row has exactly three cells, and the first two are the given label and secondary cell, unchanged. |
| `Rows.BandwidthCellParses` | src/display/ui.rs:34-38 | The third cell reads back as the upload reading, then `/`, then the download reading, each equal to `Expected` of its total. Upload comes first. |
| `Rows.OnlyFormattedCellReads` | src/display/ui.rs:34-38 | Any cell that reads back as `Expected(up)` then `Expected(down)` is exactly the formatted `up/down` cell. So the row contracts below, which are stated through the parser, fix the cell's text. |
| `Rows.SplitAtSlash` | src/display/ui.rs:35 | Splitting a cell at its first `/` gives two parts that rebuild the cell, and the first part has no `/`. |
| `Rows.SplitAtSlashOfJoin` | src/display/ui.rs:35 | Joining a slash-free string and any string with `/` and splitting again gives the two strings back. |
| `Rows.JoinNames` | src/display/ui.rs:84 | The `", "` join of a connection's processes is empty for no processes. Otherwise it starts with the first name and ends with the last. On non-empty lists of comma-free names, `SplitNames` is its left inverse (`SplitJoinNames`). `SplitNames` is not injective on arbitrary strings. |
| `Rows.SplitNamesOfJoin` | src/display/ui.rs:84 | Splitting a join peels off its first comma-free name and the `", "` after it. |
| `Rows.SplitJoinNames` | src/display/ui.rs:84 | For a non-empty list of names that contain no comma, splitting the `", "` join gives the list back in order. |
| `Tables.ProjectRows` | src/display/ui.rs:68-71 | One row per key, in key-list order: row i is the row of key i and its data entry. Every key must have an entry (the `unwrap`). |
| `Tables.RowOf` | src/display/ui.rs:30-38 | An entity's row is its label, its secondary cell, and a bandwidth cell that reads back as its upload then download reading. By `OnlyFormattedCellReads`, that is exactly `display_bandwidth(up) + "/" + display_bandwidth(down)`. |
| `Tables.ProcessRows` | src/display/ui.rs:67-71 | One row per process name, in order. Each row has three cells: the name, a canonical digit cell that parses to the process's connection count (so it is exactly its `to_string`, by `NatToStringOfDigitsValue`), and a cell that reads back as its upload and download totals, and so, by `OnlyFormattedCellReads`, is exactly their formatted `up/down` text. |
| `Tables.ConnectionRows` | src/display/ui.rs:81-85 | One row per connection, in order. Each row has three cells: the connection's label, the `", "` join of its processes, and a cell that reads back as its upload and download totals, and so, by `OnlyFormattedCellReads`, is exactly their formatted `up/down` text. |
| `Tables.RemoteIpRows` | src/display/ui.rs:95-99 | One row per remote address, in order. Each row has three cells: the address's label, a canonical digit cell that parses to its connection count (so it is exactly its `to_string`), and a cell that reads back as its upload and download totals, and so, by `OnlyFormattedCellReads`, is exactly their formatted `up/down` text. |
| `Tables.ProcessTable` | src/display/ui.rs:72-77 | The process table is titled "Utilization by process name", with headers Process, Connection Count, Total Bytes and widths 30, 30, 30. Its rows are exactly `ProcessRows(state)`, and it is well shaped (three columns everywhere). |
| `Tables.ConnectionsTable` | src/display/ui.rs:86-91 | The connections table is titled "Utilization by connection", with headers Connection, Processes, Total Bytes Up/Down and widths 50, 20, 20. Its rows are exactly `ConnectionRows(state, showConnection)`, and it is well shaped. |
| `Tables.RemoteIpTable` | src/display/ui.rs:100-105 | The remote-address table is titled "Utilization by remote ip", with headers Remote Address, Connection Count, Total Bytes and widths 50, 20, 20. Its rows are exactly `RemoteIpRows(state, showIp)`, and it is well shaped. |
| `Tables.ConnectionRowListsProcesses` | src/display/ui.rs:84 | When its process list is non-empty and comma-free, a connection row's second cell splits back into exactly the connection's process list. |
| `Tables.ChromeCell` | src/display/ui.rs:34-38 | Uploading 1000 bytes and downloading 2000 gives the bandwidth cell `"1.00KBps/2.00KBps"`. |
| `Tables.ChromeProcessRows` | src/display/ui.rs:67-71 | Process "chrome" with 1000 up, 2000 down and 1 connection gives the single row `["chrome", "1", "1.00KBps/2.00KBps"]`. |
| `Tables.ChromeConnectionRows` | src/display/ui.rs:81-85 | One connection owned by "chrome" with 1000 up and 2000 down gives the single row `[label, "chrome", "1.00KBps/2.00KBps"]`. |

## Left out

- Bandwidth.Hundredths: rounds the exact quotient bytes / 10^k to the nearest hundredth, ties up. The source prints the `f64` quotient with `{:.2}`, which rounds the binary value and sends exact binary ties to even. The amount can therefore differ by one hundredth on decimal ties, and the carry can change every digit and the width of the whole part. For example, 9995 bytes renders `10.00KBps` here, but Rust prints 9.995 (stored as 9.99499…) as `9.99KBps`. And 1125 bytes renders `1.13KBps` here, but 1.125 is exact in binary and Rust rounds it to even, giving `1.12KBps`. Unit selection and suffix do not depend on this.
- Bandwidth.DisplayBandwidth: the input is an unbounded `nat`. The source's counters are `u64`, and converting one to `f64` loses precision above 2^53. That only affects the printed amount, and such values are always in the `GBps` branch.
- `create_table` (src/display/ui.rs:12-28): styles, borders, column spacing and the widget itself belong to the `tui` library. The tables keep only the title, headers, rows and widths passed to it.
- `split` (src/display/ui.rs:54-65): the 50/50 division and its rounding happen inside `tui::Layout`, whose code is not part of this model.
- `display_loop` (src/display/ui.rs:109-120): mutex locking, the terminal draw, assigning tables to screen regions, and `NetworkUtilization::reset` are concurrency and I/O. `reset` and `UIState::new` are defined in modules that are not part of this model.
- `to_string` of connections and IP addresses: their `Display` implementations are not part of this model, so the labels are opaque function parameters.
- Rows.SplitJoinNames: the round trip needs the process names to contain no comma. With a comma inside a name, the joined cell is ambiguous, and the source does not escape it.
