/** The connection list: each snapshot from the core is merged into the previous one, and what has
  * gone is kept in a bounded list. */
module ConnectionMonitor {
  import opened Options
  import opened Sequences

  const MAX_CLOSED: nat := 500

  datatype Field =
    | Network | ConnectionType | Host | SourceIP | SourcePort
    | DestinationPort | DestinationIP | RemoteDestination | Process | ProcessPath

  const FIELDS: set<Field> := {
    Network, ConnectionType, Host, SourceIP, SourcePort,
    DestinationPort, DestinationIP, RemoteDestination, Process, ProcessPath
  }

  /** Absent fields are undefined. */
  type Metadata = map<Field, string>

  function MetadataValue(m: Metadata, f: Field): string {
    if f in m then m[f] else ""
  }

  predicate SameMetadata(left: Metadata, right: Metadata) {
    forall f :: f in FIELDS ==> MetadataValue(left, f) == MetadataValue(right, f)
  }

  function Completed(m: Metadata): Metadata {
    map f | f in FIELDS :: MetadataValue(m, f)
  }

  function NormalizeMetadata(m: Metadata, previous: Option<Metadata>): Metadata {
    if previous.Some? && SameMetadata(previous.value, m) then previous.value else Completed(m)
  }

  /** A connection as the core reports it. */
  datatype Incoming = Incoming(
    id: string,
    metadata: Metadata,
    upload: Option<int>,
    download: Option<int>,
    start: Option<string>,
    chains: Option<seq<string>>,
    rule: Option<string>,
    rulePayload: Option<string>)

  datatype Connection = Connection(
    id: string,
    metadata: Metadata,
    upload: int,
    download: int,
    start: string,
    chains: seq<string>,
    rule: string,
    rulePayload: string,
    curUpload: int,
    curDownload: int)

  function Or<T>(o: Option<T>, default: T): T {
    if o.Some? then o.value else default
  }

  /** The record built from scratch. */
  function Rebuilt(c: Incoming, previous: Option<Connection>): Connection {
    Connection(
      c.id, Completed(c.metadata), Or(c.upload, 0), Or(c.download, 0), Or(c.start, ""),
      Or(c.chains, []), Or(c.rule, ""), Or(c.rulePayload, ""),
      if previous.Some? then Or(c.upload, 0) - previous.value.upload else 0,
      if previous.Some? then Or(c.download, 0) - previous.value.download else 0)
  }

  /** The record as it is stored: parts of the previous one, or all of it, are reused when nothing
    * in them has changed. */
  function NormalizeConnection(c: Incoming, previous: Option<Connection>): Connection {
    var metadata := NormalizeMetadata(c.metadata, if previous.Some? then Some(previous.value.metadata) else None);
    var incoming := Or(c.chains, []);
    var chains := if previous.Some? && previous.value.chains == incoming then previous.value.chains else incoming;
    var upload, download := Or(c.upload, 0), Or(c.download, 0);
    var curUpload := if previous.Some? then upload - previous.value.upload else 0;
    var curDownload := if previous.Some? then download - previous.value.download else 0;
    var rule, rulePayload, start := Or(c.rule, ""), Or(c.rulePayload, ""), Or(c.start, "");
    if previous.Some?
       && previous.value.metadata == metadata && previous.value.chains == chains
       && previous.value.upload == upload && previous.value.download == download
       && previous.value.curUpload == curUpload && previous.value.curDownload == curDownload
       && previous.value.rule == rule && previous.value.rulePayload == rulePayload
       && previous.value.start == start
    then previous.value
    else Connection(c.id, metadata, upload, download, start, chains, rule, rulePayload, curUpload, curDownload)
  }

  datatype Payload = Payload(uploadTotal: Option<int>, downloadTotal: Option<int>, connections: Option<seq<Incoming>>)

  datatype Data = Data(uploadTotal: int, downloadTotal: int, active: seq<Connection>, closed: seq<Connection>)

  /** Every connection under its id; the last one wins. */
  function ById(active: seq<Connection>): map<string, Connection> {
    if active == [] then map[]
    else ById(active[..|active| - 1])[active[|active| - 1].id := active[|active| - 1]]
  }

  function Ids(next: seq<Incoming>): set<string> {
    set c | c in next :: c.id
  }

  /** The record that the i-th reported connection continues: only the first report of an id does. */
  function Continues(active: seq<Connection>, next: seq<Incoming>, i: nat): Option<Connection>
    requires i < |next|
  {
    if next[i].id in ById(active) && next[i].id !in Ids(next[..i]) then Some(ById(active)[next[i].id]) else None
  }

  function MergedActive(active: seq<Connection>, next: seq<Incoming>): seq<Connection> {
    seq(|next|, i requires 0 <= i < |next| => NormalizeConnection(next[i], Continues(active, next, i)))
  }

  function Gone(active: seq<Connection>, next: seq<Incoming>): set<string> {
    ById(active).Keys - Ids(next)
  }

  /** The connections that are no longer reported, in order. */
  function Removed(active: seq<Connection>, next: seq<Incoming>): seq<Connection> {
    Filter(active, (c: Connection) => c.id in Gone(active, next))
  }

  function Excess(a: int, b: int): nat {
    if a > b then a - b else 0
  }

  /** The closed list after `count` ids have gone, as the two trims compute it. */
  function Trimmed(closed: seq<Connection>, removed: seq<Connection>, count: nat): seq<Connection> {
    var drop := Excess(|closed| + count, MAX_CLOSED);
    var kept := if drop >= |closed| then [] else closed[drop..];
    var skip := Excess(count, MAX_CLOSED - |kept|);
    kept + Skipping(removed, skip)
  }

  function Merged(payload: Payload, previous: Data): Data {
    var next := Or(payload.connections, []);
    var gone := Gone(previous.active, next);
    Data(
      Or(payload.uploadTotal, 0), Or(payload.downloadTotal, 0),
      MergedActive(previous.active, next),
      if gone == {} then previous.closed else Trimmed(previous.closed, Removed(previous.active, next), |gone|))
  }

  method Index(active: seq<Connection>) returns (byId: map<string, Connection>)
    ensures byId == ById(active)
  {
    byId := map[];
    for i := 0 to |active|
      invariant byId == ById(active[..i])
    {
      assert active[..i + 1][..i] == active[..i];
      byId := byId[active[i].id := active[i]];
    }
    assert active[..|active|] == active;
  }

  method MergeActive(next: seq<Incoming>, active: seq<Connection>, byId: map<string, Connection>)
    returns (merged: seq<Connection>, rest: map<string, Connection>)
    requires byId == ById(active)
    ensures merged == MergedActive(active, next) && rest.Keys == Gone(active, next)
  {
    hide NormalizeConnection, ById;
    merged, rest := [], byId;
    for i := 0 to |next|
      invariant |merged| == i && forall k :: 0 <= k < i ==> merged[k] == MergedActive(active, next)[k]
      invariant rest == byId - Ids(next[..i])
    {
      var connection := next[i];
      assert Ids(next[..i + 1]) == Ids(next[..i]) + {connection.id} by {
        assert next[..i + 1] == next[..i] + [connection];
      }
      var previous := if connection.id in rest then Some(rest[connection.id]) else None;
      rest := rest - {connection.id};
      merged := merged + [NormalizeConnection(connection, previous)];
    }
    assert next[..|next|] == next;
  }

  /** Everything but the first n elements. */
  function Skipping<T>(s: seq<T>, n: nat): seq<T> {
    if n >= |s| then [] else s[n..]
  }

  lemma SkippingMore<T>(s: seq<T>, n: nat, x: T)
    ensures Skipping(s + [x], n) == Skipping(s, n) + if n > |s| then [] else [x]
  {
    if n == |s| {
      assert (s + [x])[n..] == [x];
    }
  }

  method AppendRemoved(closed: seq<Connection>, active: seq<Connection>, gone: set<string>, skip: nat)
    returns (result: seq<Connection>)
    ensures result == closed + Skipping(Filter(active, (c: Connection) => c.id in gone), skip)
  {
    ghost var p := (c: Connection) => c.id in gone;
    assert active[..0] == [] && active[..|active|] == active;
    assert Filter(active[..0], p) == [];
    hide Filter;
    result := closed;
    var skipRemoved := skip;
    for i := 0 to |active|
      invariant skipRemoved == Excess(skip, |Filter(active[..i], p)|)
      invariant result == closed + Skipping(Filter(active[..i], p), skip)
    {
      FilterNext(active, i, p);
      if active[i].id !in gone {
        continue;
      }
      SkippingMore(Filter(active[..i], p), skip, active[i]);
      if skipRemoved > 0 {
        skipRemoved := skipRemoved - 1;
        continue;
      }
      result := result + [active[i]];
    }
  }

  method MergeConnectionSnapshot(payload: Payload, previous: Data) returns (data: Data)
    ensures data == Merged(payload, previous)
    ensures data.uploadTotal == if payload.uploadTotal.Some? then payload.uploadTotal.value else 0
    ensures data.downloadTotal == if payload.downloadTotal.Some? then payload.downloadTotal.value else 0
  {
    hide ById, Filter, NormalizeConnection, MergedActive, Gone;
    var next := Or(payload.connections, []);
    var byId := Index(previous.active);
    var active, rest := MergeActive(next, previous.active, byId);
    var uploadTotal, downloadTotal := Or(payload.uploadTotal, 0), Or(payload.downloadTotal, 0);
    if rest == map[] {
      return Data(uploadTotal, downloadTotal, active, previous.closed);
    }
    var count := |rest.Keys|;
    var drop := Excess(|previous.closed| + count, MAX_CLOSED);
    var kept := if drop >= |previous.closed| then [] else previous.closed[drop..];
    var closed := AppendRemoved(kept, previous.active, rest.Keys, Excess(count, MAX_CLOSED - |kept|));
    data := Data(uploadTotal, downloadTotal, active, closed);
  }

  /** The shared state that the flushes and the clear button update. */
  class Store {
    var data: Data

    constructor ()
      ensures data == Data(0, 0, [], [])
    {
      data := Data(0, 0, [], []);
    }

    method Flush(payload: Payload)
      modifies this
      ensures data == Merged(payload, old(data))
      ensures data.uploadTotal == if payload.uploadTotal.Some? then payload.uploadTotal.value else 0
      ensures data.downloadTotal == if payload.downloadTotal.Some? then payload.downloadTotal.value else 0
    {
      data := MergeConnectionSnapshot(payload, data);
    }

    method ClearClosed()
      modifies this
      ensures data == old(data).(closed := [])
    {
      if data.closed == [] {
        return;
      }
      data := data.(closed := []);
    }
  }
}
