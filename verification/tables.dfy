/**
 The three utilization tables of `src/display/ui.rs`: the per-frame view
 state, the row mapping each `render_*_table` function applies to its key
 list, and the literal title, headers and widths each table is built with.

 Connections and remote addresses are rendered with `to_string`, whose
 `Display` implementations are not part of this model: they enter as the
 opaque label functions `showConnection` and `showIp`.
 */
module Tables {
  import opened Wrappers
  import opened Decimal
  import opened Bandwidth
  import opened Rows

  /** Accumulated counters of a process or of a remote address. */
  datatype NetworkData = NetworkData(totalBytesUploaded: nat, totalBytesDownloaded: nat, connectionCount: nat)

  /** Accumulated counters of a connection and the processes that own it. */
  datatype ConnectionData = ConnectionData(totalBytesUploaded: nat, totalBytesDownloaded: nat, processes: seq<string>)

  /** The frame's view state: three ordered key lists and their data maps. */
  datatype UIState<Conn(==), Ip(==)> = UIState(
    processNames: seq<string>,
    processData: map<string, NetworkData>,
    connections: seq<Conn>,
    connectionData: map<Conn, ConnectionData>,
    remoteIps: seq<Ip>,
    remoteIpData: map<Ip, NetworkData>)

  /** Every listed key has its data entry; the renderers `unwrap` the lookup. */
  predicate AllKeysPresent<K(==), D>(keys: seq<K>, data: map<K, D>) {
    forall i :: 0 <= i < |keys| ==> keys[i] in data
  }

  /** What one entity contributes to its row. */
  datatype RowSource = RowSource(labelCell: string, secondaryCell: string, uploaded: nat, downloaded: nat)

  /** The row of one entity: label and secondary cell as given, and a
      bandwidth cell that reads back as the upload then the download total. */
  function RowOf(e: RowSource): (row: seq<string>)
    ensures |row| == 3 && row[0] == e.labelCell && row[1] == e.secondaryCell
    ensures ParseBandwidthCell(row[2]) == Some((Expected(e.uploaded), Expected(e.downloaded)))
  {
    BandwidthCellParses(e.labelCell, e.secondaryCell, e.uploaded, e.downloaded);
    FormatRowData(e.labelCell, e.secondaryCell, e.uploaded, e.downloaded)
  }

  /** The `keys.iter().map(..)` shared by the three tables: one row per key,
      in list order, from the key and its data entry. */
  function ProjectRows<K(==), D>(keys: seq<K>, data: map<K, D>, source: (K, D) -> RowSource): (rows: seq<seq<string>>)
    requires AllKeysPresent(keys, data)
    ensures |rows| == |keys|
    ensures forall i :: 0 <= i < |keys| ==> rows[i] == RowOf(source(keys[i], data[keys[i]]))
    decreases |keys|
  {
    if |keys| == 0 then []
    else [RowOf(source(keys[0], data[keys[0]]))] + ProjectRows(keys[1..], data, source)
  }

  function ProcessSource(name: string, d: NetworkData): RowSource {
    RowSource(name, NatToString(d.connectionCount), d.totalBytesUploaded, d.totalBytesDownloaded)
  }

  function ConnectionSource<Conn>(showConnection: Conn -> string, c: Conn, d: ConnectionData): RowSource {
    RowSource(showConnection(c), JoinNames(d.processes), d.totalBytesUploaded, d.totalBytesDownloaded)
  }

  function RemoteIpSource<Ip>(showIp: Ip -> string, ip: Ip, d: NetworkData): RowSource {
    RowSource(showIp(ip), NatToString(d.connectionCount), d.totalBytesUploaded, d.totalBytesDownloaded)
  }

  /** The rows of `render_process_table`. */
  function ProcessRows<Conn(==), Ip(==)>(state: UIState<Conn, Ip>): (rows: seq<seq<string>>)
    requires AllKeysPresent(state.processNames, state.processData)
    ensures |rows| == |state.processNames|
    ensures forall i :: 0 <= i < |rows| ==>
      var d := state.processData[state.processNames[i]];
      && |rows[i]| == 3
      && rows[i][0] == state.processNames[i]
      && Canonical(rows[i][1])  // also implied by the next conjunct
      && ParseNat(rows[i][1]) == Some(d.connectionCount)
      && ParseBandwidthCell(rows[i][2]) == Some((Expected(d.totalBytesUploaded), Expected(d.totalBytesDownloaded)))
  {
    var rows := ProjectRows(state.processNames, state.processData, ProcessSource);
    forall i | 0 <= i < |rows|
      ensures ParseNat(rows[i][1]) == Some(state.processData[state.processNames[i]].connectionCount)
    {
      ParseNatOfNatToString(state.processData[state.processNames[i]].connectionCount);
    }
    rows
  }

  /** The rows of `render_connections_table`. */
  function ConnectionRows<Conn(==), Ip(==)>(state: UIState<Conn, Ip>, showConnection: Conn -> string): (rows: seq<seq<string>>)
    requires AllKeysPresent(state.connections, state.connectionData)
    ensures |rows| == |state.connections|
    ensures forall i :: 0 <= i < |rows| ==>
      var d := state.connectionData[state.connections[i]];
      && |rows[i]| == 3
      && rows[i][0] == showConnection(state.connections[i])
      && rows[i][1] == JoinNames(d.processes)
      && ParseBandwidthCell(rows[i][2]) == Some((Expected(d.totalBytesUploaded), Expected(d.totalBytesDownloaded)))
  {
    ProjectRows(state.connections, state.connectionData, (c, d) => ConnectionSource(showConnection, c, d))
  }

  /** The rows of `render_remote_ip_table`. */
  function RemoteIpRows<Conn(==), Ip(==)>(state: UIState<Conn, Ip>, showIp: Ip -> string): (rows: seq<seq<string>>)
    requires AllKeysPresent(state.remoteIps, state.remoteIpData)
    ensures |rows| == |state.remoteIps|
    ensures forall i :: 0 <= i < |rows| ==>
      var d := state.remoteIpData[state.remoteIps[i]];
      && |rows[i]| == 3
      && rows[i][0] == showIp(state.remoteIps[i])
      && Canonical(rows[i][1])  // also implied by the next conjunct
      && ParseNat(rows[i][1]) == Some(d.connectionCount)
      && ParseBandwidthCell(rows[i][2]) == Some((Expected(d.totalBytesUploaded), Expected(d.totalBytesDownloaded)))
  {
    var rows := ProjectRows(state.remoteIps, state.remoteIpData, (ip, d) => RemoteIpSource(showIp, ip, d));
    forall i | 0 <= i < |rows|
      ensures ParseNat(rows[i][1]) == Some(state.remoteIpData[state.remoteIps[i]].connectionCount)
    {
      ParseNatOfNatToString(state.remoteIpData[state.remoteIps[i]].connectionCount);
    }
    rows
  }

  /** The arguments a table is built with; styling and borders are not modelled. */
  datatype Table = Table(title: string, headers: seq<string>, rows: seq<seq<string>>, widths: seq<nat>)

  /** Headers, widths and every row have the same three columns. */
  predicate WellShaped(t: Table) {
    && |t.headers| == 3
    && |t.widths| == |t.headers|
    && forall i :: 0 <= i < |t.rows| ==> |t.rows[i]| == |t.headers|
  }

  function ProcessTable<Conn(==), Ip(==)>(state: UIState<Conn, Ip>): (t: Table)
    requires AllKeysPresent(state.processNames, state.processData)
    ensures WellShaped(t)
    ensures t.title == "Utilization by process name"
    ensures t.headers == ["Process", "Connection Count", "Total Bytes"]
    ensures t.widths == [30, 30, 30]
    ensures t.rows == ProcessRows(state)
  {
    Table("Utilization by process name", ["Process", "Connection Count", "Total Bytes"], ProcessRows(state), [30, 30, 30])
  }

  function ConnectionsTable<Conn(==), Ip(==)>(state: UIState<Conn, Ip>, showConnection: Conn -> string): (t: Table)
    requires AllKeysPresent(state.connections, state.connectionData)
    ensures WellShaped(t)
    ensures t.title == "Utilization by connection"
    ensures t.headers == ["Connection", "Processes", "Total Bytes Up/Down"]
    ensures t.widths == [50, 20, 20]
    ensures t.rows == ConnectionRows(state, showConnection)
  {
    Table("Utilization by connection", ["Connection", "Processes", "Total Bytes Up/Down"],
          ConnectionRows(state, showConnection), [50, 20, 20])
  }

  function RemoteIpTable<Conn(==), Ip(==)>(state: UIState<Conn, Ip>, showIp: Ip -> string): (t: Table)
    requires AllKeysPresent(state.remoteIps, state.remoteIpData)
    ensures WellShaped(t)
    ensures t.title == "Utilization by remote ip"
    ensures t.headers == ["Remote Address", "Connection Count", "Total Bytes"]
    ensures t.widths == [50, 20, 20]
    ensures t.rows == RemoteIpRows(state, showIp)
  {
    Table("Utilization by remote ip", ["Remote Address", "Connection Count", "Total Bytes"],
          RemoteIpRows(state, showIp), [50, 20, 20])
  }

  /** A connection row lists the owning processes in order: when no process
      name contains a comma, splitting the cell at `", "` gives them back. */
  lemma ConnectionRowListsProcesses<Conn, Ip>(state: UIState<Conn, Ip>, showConnection: Conn -> string, i: nat)
    requires AllKeysPresent(state.connections, state.connectionData)
    requires i < |state.connections|
    requires var ps := state.connectionData[state.connections[i]].processes;
      |ps| > 0 && forall j :: 0 <= j < |ps| ==> ',' !in ps[j]
    ensures SplitNames(ConnectionRows(state, showConnection)[i][1])
         == state.connectionData[state.connections[i]].processes
  {
    SplitJoinNames(state.connectionData[state.connections[i]].processes);
  }

  /** The bandwidth cell of the scenario where process "chrome" uploaded 1000
      bytes and downloaded 2000 over its single connection. */
  lemma ChromeCell()
    ensures FormatRowData("", "", 1000, 2000)[2] == "1.00KBps/2.00KBps"
  {
  }

  lemma ChromeProcessRows<Conn, Ip>(state: UIState<Conn, Ip>)
    requires state.processNames == ["chrome"]
    requires state.processData == map["chrome" := NetworkData(1000, 2000, 1)]
    ensures ProcessRows(state) == [["chrome", "1", "1.00KBps/2.00KBps"]]
  {
    ChromeCell();
    var rows := ProcessRows(state);
    assert rows[0] == RowOf(ProcessSource("chrome", NetworkData(1000, 2000, 1)));
    assert NatToString(1) == "1";
  }

  lemma ChromeConnectionRows<Conn, Ip>(state: UIState<Conn, Ip>, showConnection: Conn -> string, conn: Conn)
    requires state.connections == [conn]
    requires state.connectionData == map[conn := ConnectionData(1000, 2000, ["chrome"])]
    ensures ConnectionRows(state, showConnection) == [[showConnection(conn), "chrome", "1.00KBps/2.00KBps"]]
  {
    ChromeCell();
    var rows := ConnectionRows(state, showConnection);
    assert rows[0] == RowOf(ConnectionSource(showConnection, conn, ConnectionData(1000, 2000, ["chrome"])));
  }
}
