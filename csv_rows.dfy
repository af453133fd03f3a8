/** The rows save_results_csv writes: one row per port probe of a record,
    or a single row when the record has no port probes, each repeating the
    record's host-level columns; records keep their order. */
module CsvRows {
  import opened Lexemes
  import opened PingParser
  import opened Diagnostics

  /** The three port columns a per-port row adds. */
  datatype PortColumns = PortColumns(port: int, open: bool, rttMs: real)

  /** One row before it is written: the host-level columns, and the port
      columns when the row stands for a port probe. */
  datatype Row = Row(
    timestamp: string,
    host: string,
    dnsIp: Option<string>,
    dnsOk: bool,
    pingSent: Option<nat>,
    pingRecv: Option<nat>,
    pingLossPct: Option<real>,
    pingAvgRttMs: Option<real>,
    tracerouteSnippet: string,
    port: Option<PortColumns>)

  /** The header, which is also the order of the cells in every row. */
  const Header: seq<string> := [
    "timestamp", "host", "dns_ip", "dns_ok", "ping_sent", "ping_recv", "ping_loss_pct",
    "ping_avg_rtt_ms", "port", "port_open", "port_rtt_ms", "traceroute_snippet"]

  /** A written cell; Empty is what the writer puts for None and for a
      column the row does not have. */
  datatype Cell = Empty | Str(s: string) | Int(n: int) | Dec(x: real) | Flag(b: bool)

  function OptStr(v: Option<string>): Cell { if v.None? then Empty else Str(v.value) }
  function OptNat(v: Option<nat>): Cell { if v.None? then Empty else Int(v.value) }
  function OptReal(v: Option<real>): Cell { if v.None? then Empty else Dec(v.value) }

  /** The host-level columns of a record. */
  function BaseRow(r: Record): (row: Row)
    ensures row.port.None?
    ensures row.timestamp == r.timestamp && row.host == r.host
    ensures row.dnsIp == r.dns.ip && row.dnsOk == r.dns.success
    ensures row.pingSent == r.ping.sent && row.pingRecv == r.ping.received
    ensures row.pingLossPct == r.ping.lossPct && row.pingAvgRttMs == r.ping.avgRttMs
    ensures row.tracerouteSnippet == r.tracerouteRaw
  {
    Row(r.timestamp, r.host, r.dns.ip, r.dns.success, r.ping.sent, r.ping.received,
        r.ping.lossPct, r.ping.avgRttMs, r.tracerouteRaw, None)
  }

  /** A copy of the base row with one port probe's columns added. */
  function PortRow(base: Row, p: PortResult): Row {
    base.(port := Some(PortColumns(p.port, p.open, p.rttMs)))
  }

  /** The rows of one record: one per port probe, or the base row alone. */
  function RecordRows(r: Record): (rows: seq<Row>)
    ensures |rows| == if |r.ports| == 0 then 1 else |r.ports|
  {
    if |r.ports| == 0 then [BaseRow(r)]
    else seq(|r.ports|, k requires 0 <= k < |r.ports| => PortRow(BaseRow(r), r.ports[k]))
  }

  /** The rows of a list of records: each record's rows, in record order. */
  function FlattenRows(results: seq<Record>): seq<Row>
    decreases |results|
  {
    if |results| == 0 then []
    else FlattenRows(results[..|results| - 1]) + RecordRows(results[|results| - 1])
  }

  /** The number of rows a list of records gives. */
  function RowCount(results: seq<Record>): nat
    decreases |results|
  {
    if |results| == 0 then 0
    else RowCount(results[..|results| - 1]) + (if |results[|results| - 1].ports| == 0 then 1 else |results[|results| - 1].ports|)
  }

  /** The row-building loop of save_results_csv: each record's rows are
      appended in turn. */
  method BuildRows(results: seq<Record>) returns (rows: seq<Row>)
    ensures rows == FlattenRows(results)
  {
    rows := [];
    var i := 0;
    while i < |results|
      invariant 0 <= i <= |results|
      invariant rows == FlattenRows(results[..i])
    {
      rows := AppendRecordRows(rows, results[i]);
      FlattenRowsStep(results, i);
      i := i + 1;
    }
    assert results[..|results|] == results;
  }

  /** The body of that loop for one record: a copy of the base row per
      port probe with the probe's columns added, or the base row alone. */
  method AppendRecordRows(rows: seq<Row>, r: Record) returns (rows': seq<Row>)
    ensures rows' == rows + RecordRows(r)
  {
    var base := BaseRow(r);
    rows' := rows;
    if |r.ports| > 0 {
      var j := 0;
      while j < |r.ports|
        invariant 0 <= j <= |r.ports|
        invariant |rows'| == |rows| + j
        invariant rows'[..|rows|] == rows
        invariant forall k :: 0 <= k < j ==> rows'[|rows| + k] == PortRow(base, r.ports[k])
      {
        var row := PortRow(base, r.ports[j]);
        rows' := rows' + [row];
        j := j + 1;
      }
      assert rows'[|rows|..] == RecordRows(r);
    } else {
      rows' := rows' + [base];
    }
  }

  /** One more record adds its rows at the end. */
  lemma FlattenRowsStep(results: seq<Record>, i: nat)
    requires i < |results|
    ensures FlattenRows(results[..i + 1]) == FlattenRows(results[..i]) + RecordRows(results[i])
  {
    assert results[..i + 1][..i] == results[..i];
  }

  /** The cell a row holds under a column name, the way the writer looks
      each header name up in the row's dictionary; a name the row does not
      have, such as a port column of a base row, gives an empty cell. */
  function Column(row: Row, name: string): Cell {
    match name
    case "timestamp" => Str(row.timestamp)
    case "host" => Str(row.host)
    case "dns_ip" => OptStr(row.dnsIp)
    case "dns_ok" => Flag(row.dnsOk)
    case "ping_sent" => OptNat(row.pingSent)
    case "ping_recv" => OptNat(row.pingRecv)
    case "ping_loss_pct" => OptReal(row.pingLossPct)
    case "ping_avg_rtt_ms" => OptReal(row.pingAvgRttMs)
    case "port" => if row.port.None? then Empty else Int(row.port.value.port)
    case "port_open" => if row.port.None? then Empty else Flag(row.port.value.open)
    case "port_rtt_ms" => if row.port.None? then Empty else Dec(row.port.value.rttMs)
    case "traceroute_snippet" => Str(row.tracerouteSnippet)
    case _ => Empty
  }

  /** The cells of a row in header order: the k-th cell is the row's value
      under the k-th header name. */
  function Cells(row: Row): (cells: seq<Cell>)
    ensures |cells| == |Header|
    ensures forall k :: 0 <= k < |Header| ==> cells[k] == Column(row, Header[k])
  {
    [Str(row.timestamp), Str(row.host), OptStr(row.dnsIp), Flag(row.dnsOk),
     OptNat(row.pingSent), OptNat(row.pingRecv), OptReal(row.pingLossPct), OptReal(row.pingAvgRttMs),
     if row.port.None? then Empty else Int(row.port.value.port),
     if row.port.None? then Empty else Flag(row.port.value.open),
     if row.port.None? then Empty else Dec(row.port.value.rttMs),
     Str(row.tracerouteSnippet)]
  }

  /** The header columns that come from a port probe. */
  predicate IsPortColumn(k: nat) { 8 <= k <= 10 }

  /** The port columns are exactly the positions of the three names the
      per-port update adds to a copied base row. */
  lemma PortColumnsByName(k: nat)
    requires k < |Header|
    ensures IsPortColumn(k) <==> Header[k] in {"port", "port_open", "port_rtt_ms"}
  {
  }

  /** Every header name is used once, so a by-name lookup gives one cell
      per column. */
  lemma HeaderNamesDistinct(j: nat, k: nat)
    requires j < k < |Header|
    ensures Header[j] != Header[k]
  {
  }

  // -------------------------------------------------------------------------
  // Properties of the rows
  // -------------------------------------------------------------------------

  /** The fan-out of one record: a record without port probes gives
      exactly its base row, whose port cells are empty; a record with N
      probes gives N rows, the k-th carrying the k-th probe, all of them
      with the record's host-level cells. */
  lemma RecordRowsFanOut(r: Record)
    ensures |r.ports| == 0 ==> RecordRows(r) == [BaseRow(r)]
    ensures |r.ports| == 0 ==> forall k :: 0 <= k < |Header| && IsPortColumn(k) ==> Cells(BaseRow(r))[k] == Empty
    ensures |r.ports| > 0 ==> |RecordRows(r)| == |r.ports|
    ensures |r.ports| > 0 ==> forall k :: 0 <= k < |r.ports| ==>
              RecordRows(r)[k].port == Some(PortColumns(r.ports[k].port, r.ports[k].open, r.ports[k].rttMs))
    ensures forall k, c :: 0 <= k < |RecordRows(r)| && 0 <= c < |Header| && !IsPortColumn(c) ==>
              Cells(RecordRows(r)[k])[c] == Cells(BaseRow(r))[c]
  {
  }

  /** Rows of concatenated record lists are the concatenated rows: the rows
      of each record stay together and in record order. */
  lemma {:induction false} FlattenRowsAppend(a: seq<Record>, b: seq<Record>)
    ensures FlattenRows(a + b) == FlattenRows(a) + FlattenRows(b)
    decreases |b|
  {
    if |b| == 0 {
      assert a + b == a;
    } else {
      var n := |b| - 1;
      FlattenRowsAppendLast(a, b);
      FlattenRowsAppend(a, b[..n]);
      var x, y, z := FlattenRows(a), FlattenRows(b[..n]), RecordRows(b[n]);
      assert (x + y) + z == x + (y + z);
    }
  }

  /** Appending a non-empty list ends with the rows of its last record. */
  lemma FlattenRowsAppendLast(a: seq<Record>, b: seq<Record>)
    requires |b| > 0
    ensures FlattenRows(a + b) == FlattenRows(a + b[..|b| - 1]) + RecordRows(b[|b| - 1])
  {
    assert (a + b)[..|a + b| - 1] == a + b[..|b| - 1];
    assert (a + b)[|a + b| - 1] == b[|b| - 1];
  }

  /** The total number of rows is the sum over the records of the number
      of port probes, counting a record without probes as one. */
  lemma {:induction false} FlattenRowsCount(results: seq<Record>)
    ensures |FlattenRows(results)| == RowCount(results)
    decreases |results|
  {
    if |results| > 0 {
      FlattenRowsCount(results[..|results| - 1]);
    }
  }

  /** The rows of a list of records split around its i-th record. */
  lemma FlattenRowsSplit(results: seq<Record>, i: nat)
    requires i < |results|
    ensures FlattenRows(results) == FlattenRows(results[..i]) + RecordRows(results[i]) + FlattenRows(results[i + 1..])
  {
    assert results == results[..i + 1] + results[i + 1..];
    FlattenRowsAppend(results[..i + 1], results[i + 1..]);
    FlattenRowsStep(results, i);
  }

  /** The rows of the i-th record start right after the rows of the
      records before it. */
  lemma RowsOfRecordAt(results: seq<Record>, i: nat, k: nat)
    requires i < |results| && k < |RecordRows(results[i])|
    ensures RowCount(results[..i]) + k < |FlattenRows(results)|
    ensures FlattenRows(results)[RowCount(results[..i]) + k] == RecordRows(results[i])[k]
  {
    FlattenRowsSplit(results, i);
    FlattenRowsCount(results[..i]);
  }
}
