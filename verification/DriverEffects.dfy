/**
 What the commands of the driver do at the server: a server that reads frontend messages as the
 PostgreSQL 16 manual says (sections 55.2.2 and 55.2.3), with its prepared statements and portals.
 */
module DriverEffects {
  import opened Base
  import opened DriverProtocol
  import opened Driver
  import opened DriverHistory
  import opened DriverInvariant
  import opened DriverRuns

  /** `source` is the name of the statement that the portal was made from. */
  datatype BoundPortal = BoundPortal(source: string, sql: string, params: Row)

  /** What the server has done for its client, in order. */
  datatype Deed =
    | Asked(sql: string)                                  // the simple protocol
    | Ran(sql: string, params: Row, maxRows: nat)         // one Execute
    | ToldOfStatement(sql: string)
    | ToldOfPortal(sql: string, params: Row)
    | Loaded(data: seq<bytes>)                            // a COPY carried through
    | LoadRefused(reason: string)

  /** After an error everything up to the next Sync is skipped. `copying` is the COPY data so far. */
  datatype Backend = Backend(
    statements: map<string, string>,
    portals: map<string, BoundPortal>,
    skipping: bool,
    copying: seq<bytes>,
    deeds: seq<Deed>)

  const NEW_BACKEND := Backend(map[], map[], false, [], [])

  /** Whether a transaction block is open after these deeds; outside one, portals do not last. */
  type Blocks = seq<Deed> -> bool

  function WithDeed(b: Backend, d: Deed): Backend {
    b.(deeds := b.deeds + [d])
  }

  /** The end of a query cycle. */
  function Settled(blocks: Blocks, b: Backend): Backend {
    if blocks(b.deeds) then b else b.(portals := map[])
  }

  /** The server reads one message. */
  function React(blocks: Blocks, b: Backend, m: FrontMessage): Backend {
    if b.skipping && !m.Sync? then b
    else match m
      case Query(sql) =>
        Settled(blocks, WithDeed(b.(statements := b.statements - {""}, portals := b.portals - {""}), Asked(sql)))
      case Parse(name, sql) =>
        if name != "" && name in b.statements then b.(skipping := true)
        else b.(statements := b.statements[name := sql])
      case Bind(portal, name, params) =>
        if name !in b.statements || (portal != "" && portal in b.portals) then b.(skipping := true)
        else b.(portals := b.portals[portal := BoundPortal(name, b.statements[name], params)])
      case DescribeStatement(name) =>
        if name in b.statements then WithDeed(b, ToldOfStatement(b.statements[name])) else b.(skipping := true)
      case DescribePortal(portal) =>
        if portal in b.portals then WithDeed(b, ToldOfPortal(b.portals[portal].sql, b.portals[portal].params))
        else b.(skipping := true)
      case Execute(portal, maxRows) =>
        if portal in b.portals then WithDeed(b, Ran(b.portals[portal].sql, b.portals[portal].params, maxRows))
        else b.(skipping := true)
      case CloseOne(isPortal, name) => if isPortal then b.(portals := b.portals - {name}) else WithoutStatement(b, name)
      case Sync => Settled(blocks, b.(skipping := false))
      case Terminate => b
      case CopyData(payload) => b.(copying := b.copying + [payload])
      case CopyDone => WithDeed(b.(copying := []), Loaded(b.copying))
      case CopyFail(reason) => WithDeed(b.(copying := []), LoadRefused(reason))
  }

  /** Closing a statement closes the portals made from it. */
  function WithoutStatement(b: Backend, name: string): Backend {
    b.(statements := b.statements - {name},
       portals := map p | p in b.portals && b.portals[p].source != name :: b.portals[p])
  }

  function ReactAll(blocks: Blocks, b: Backend, ms: seq<FrontMessage>): Backend
    decreases |ms|
  {
    if ms == [] then b else ReactAll(blocks, React(blocks, b, ms[0]), ms[1..])
  }

  // ----- What each operation is for ----------------------------------------------------------------------

  /** What the server is to do for a command. */
  function Effect(blocks: Blocks, b: Backend, op: Operation): Backend {
    match op
    case SimpleQuery(sql) => SimpleEffect(blocks, b, sql)
    case CopyIn(sql, _) => SimpleEffect(blocks, b, sql)
    case Prepare(name, sql) =>
      Settled(blocks,
        if name != "" && name in b.statements then b
        else WithDeed(b.(statements := b.statements[name := sql]), ToldOfStatement(sql)))
    case ExtendedQuery(sql, params, _) =>
      var own := b.(statements := b.statements["" := sql], portals := b.portals["" := BoundPortal("", sql, params)]);
      Settled(blocks, own.(deeds := b.deeds + [ToldOfPortal(sql, params), Ran(sql, params, 0)]))
    case ExecutePrepared(name, params, _) =>
      Settled(blocks,
        if name !in b.statements then b
        else
          var sql := b.statements[name];
          WithDeed(b.(portals := b.portals["" := BoundPortal(name, sql, params)]), Ran(sql, params, 0)))
    case BindPortal(portal, name, params) =>
      Settled(blocks,
        if name !in b.statements || (portal != "" && portal in b.portals) then b
        else b.(portals := b.portals[portal := BoundPortal(name, b.statements[name], params)]))
    case ExecutePortal(portal, maxRows) =>
      Settled(blocks,
        if portal !in b.portals then b
        else WithDeed(b, Ran(b.portals[portal].sql, b.portals[portal].params, maxRows)))
    case ClosePortal(portal) => Settled(blocks, b.(portals := b.portals - {portal}))
    case CloseStatement(name) => Settled(blocks, WithoutStatement(b, name))
    case Close => b
  }

  /** A simple query ends the unnamed statement and portal. */
  function SimpleEffect(blocks: Blocks, b: Backend, sql: string): Backend {
    Settled(blocks, Backend(b.statements - {""}, b.portals - {""}, b.skipping, b.copying, b.deeds + [Asked(sql)]))
  }

  lemma {:induction false} ReactAppend(blocks: Blocks, b: Backend, ms: seq<FrontMessage>, more: seq<FrontMessage>)
    ensures ReactAll(blocks, b, ms + more) == ReactAll(blocks, ReactAll(blocks, b, ms), more)
    decreases |ms|
  {
    if ms == [] {
      assert ms + more == more;
    } else {
      ReactAppend(blocks, React(blocks, b, ms[0]), ms[1..], more);
      assert (ms + more)[1..] == ms[1..] + more;
    }
  }

  lemma ReactOne(blocks: Blocks, b: Backend, m: FrontMessage)
    ensures ReactAll(blocks, b, [m]) == React(blocks, b, m)
  {
    assert [m][1..] == [];
  }

  lemma ReactTwo(blocks: Blocks, b: Backend, m: FrontMessage, n: FrontMessage, mid: Backend, end: Backend)
    requires React(blocks, b, m) == mid && React(blocks, mid, n) == end
    ensures ReactAll(blocks, b, [m, n]) == end
  {
    assert [m, n][1..] == [n];
    ReactOne(blocks, mid, n);
  }

  lemma ReactThree(blocks: Blocks, b: Backend, m: FrontMessage, n: FrontMessage, o: FrontMessage,
                   one: Backend, two: Backend, end: Backend)
    requires React(blocks, b, m) == one && React(blocks, one, n) == two && React(blocks, two, o) == end
    ensures ReactAll(blocks, b, [m, n, o]) == end
  {
    assert [m, n, o][1..] == [n, o];
    ReactTwo(blocks, one, n, o, two, end);
  }

  lemma SyncDoes(blocks: Blocks, b: Backend, whole: Backend)
    requires b == whole || b == whole.(skipping := true)
    requires !whole.skipping
    ensures React(blocks, b, Sync) == Settled(blocks, whole)
  {
  }

  lemma SkipDoes(blocks: Blocks, b: Backend, m: FrontMessage)
    requires b.skipping && !m.Sync?
    ensures React(blocks, b, m) == b
  {
  }

  lemma DescribeDoes(blocks: Blocks, b: Backend, name: string)
    requires !b.skipping
    ensures name in b.statements ==>
              React(blocks, b, DescribeStatement(name)) == WithDeed(b, ToldOfStatement(b.statements[name]))
    ensures name in b.portals ==> var portal := b.portals[name];
              React(blocks, b, DescribePortal(name)) == WithDeed(b, ToldOfPortal(portal.sql, portal.params))
  {
  }

  lemma ParseDoes(blocks: Blocks, b: Backend, name: string, sql: string)
    requires !b.skipping
    ensures React(blocks, b, Parse(name, sql))
         == if name == "" || name !in b.statements then b.(statements := b.statements[name := sql])
            else b.(skipping := true)
  {
  }

  lemma BindDoes(blocks: Blocks, b: Backend, portal: string, name: string, params: Row)
    requires !b.skipping
    ensures React(blocks, b, Bind(portal, name, params))
         == if name in b.statements && (portal == "" || portal !in b.portals)
            then b.(portals := b.portals[portal := BoundPortal(name, b.statements[name], params)])
            else b.(skipping := true)
  {
  }

  lemma ExecuteDoes(blocks: Blocks, b: Backend, portal: string, maxRows: nat)
    requires !b.skipping
    ensures React(blocks, b, Execute(portal, maxRows))
         == if portal in b.portals then WithDeed(b, Ran(b.portals[portal].sql, b.portals[portal].params, maxRows))
            else b.(skipping := true)
  {
  }

  lemma TwoDeeds(b: Backend, d: Deed, e: Deed)
    ensures WithDeed(WithDeed(b, d), e) == b.(deeds := b.deeds + [d, e])
  {
    assert (b.deeds + [d]) + [e] == b.deeds + [d, e];
  }

  lemma ExtendedQueryDoes(blocks: Blocks, b: Backend, sql: string, params: Row)
    requires !b.skipping
    ensures ReactAll(blocks, b, [Parse("", sql), Bind("", "", params), DescribePortal(""), Execute("", 0), Sync])
         == Effect(blocks, b, ExtendedQuery(sql, params, None))
  {
    var front, back := [Parse("", sql), Bind("", "", params)], [DescribePortal(""), Execute("", 0), Sync];
    assert front + back == [Parse("", sql), Bind("", "", params), DescribePortal(""), Execute("", 0), Sync];
    ReactAppend(blocks, b, front, back);
    var parsed := b.(statements := b.statements["" := sql]);
    ParseDoes(blocks, b, "", sql);
    var bound := parsed.(portals := parsed.portals["" := BoundPortal("", sql, params)]);
    BindDoes(blocks, parsed, "", "", params);
    ReactTwo(blocks, b, Parse("", sql), Bind("", "", params), parsed, bound);
    BoundRuns(blocks, bound, BoundPortal("", sql, params));
  }

  lemma BoundRuns(blocks: Blocks, b: Backend, p: BoundPortal)
    requires !b.skipping && "" in b.portals && b.portals[""] == p
    ensures ReactAll(blocks, b, [DescribePortal(""), Execute("", 0), Sync])
         == Settled(blocks, b.(deeds := b.deeds + [ToldOfPortal(p.sql, p.params), Ran(p.sql, p.params, 0)]))
  {
    var told := WithDeed(b, ToldOfPortal(p.sql, p.params));
    var ran := WithDeed(told, Ran(p.sql, p.params, 0));
    DescribeDoes(blocks, b, "");
    ExecuteDoes(blocks, told, "", 0);
    SyncDoes(blocks, ran, ran);
    ReactThree(blocks, b, DescribePortal(""), Execute("", 0), Sync, told, ran, Settled(blocks, ran));
    TwoDeeds(b, ToldOfPortal(p.sql, p.params), Ran(p.sql, p.params, 0));
  }

  /** A command whose first message is refused does nothing. */
  lemma RefusedDoes(blocks: Blocks, b: Backend, m: FrontMessage, n: FrontMessage)
    requires !b.skipping && React(blocks, b, m) == b.(skipping := true) && !n.Sync?
    ensures ReactAll(blocks, b, [m, Sync]) == Settled(blocks, b)
    ensures ReactAll(blocks, b, [m, n, Sync]) == Settled(blocks, b)
  {
    var skips := b.(skipping := true);
    SkipDoes(blocks, skips, n);
    SyncDoes(blocks, skips, b);
    ReactTwo(blocks, b, m, Sync, skips, Settled(blocks, b));
    ReactThree(blocks, b, m, n, Sync, skips, skips, Settled(blocks, b));
  }

  lemma PrepareDoes(blocks: Blocks, b: Backend, name: string, sql: string)
    requires !b.skipping
    ensures ReactAll(blocks, b, [Parse(name, sql), DescribeStatement(name), Sync])
         == Effect(blocks, b, Prepare(name, sql))
  {
    ParseDoes(blocks, b, name, sql);
    if name == "" || name !in b.statements {
      var parsed := b.(statements := b.statements[name := sql]);
      var told := WithDeed(parsed, ToldOfStatement(sql));
      DescribeDoes(blocks, parsed, name);
      SyncDoes(blocks, told, told);
      ReactThree(blocks, b, Parse(name, sql), DescribeStatement(name), Sync, parsed, told, Settled(blocks, told));
    } else {
      RefusedDoes(blocks, b, Parse(name, sql), DescribeStatement(name));
    }
  }

  lemma ExecutePreparedDoes(blocks: Blocks, b: Backend, name: string, params: Row)
    requires !b.skipping
    ensures ReactAll(blocks, b, [Bind("", name, params), Execute("", 0), Sync])
         == Effect(blocks, b, ExecutePrepared(name, params, None))
  {
    BindDoes(blocks, b, "", name, params);
    if name in b.statements {
      var sql := b.statements[name];
      var bound := b.(portals := b.portals["" := BoundPortal(name, sql, params)]);
      var ran := WithDeed(bound, Ran(sql, params, 0));
      ExecuteDoes(blocks, bound, "", 0);
      SyncDoes(blocks, ran, ran);
      ReactThree(blocks, b, Bind("", name, params), Execute("", 0), Sync, bound, ran, Settled(blocks, ran));
    } else {
      RefusedDoes(blocks, b, Bind("", name, params), Execute("", 0));
    }
  }

  lemma BindPortalDoes(blocks: Blocks, b: Backend, portal: string, name: string, params: Row)
    requires !b.skipping
    ensures ReactAll(blocks, b, [Bind(portal, name, params), Sync])
         == Effect(blocks, b, BindPortal(portal, name, params))
  {
    BindDoes(blocks, b, portal, name, params);
    if name in b.statements && (portal == "" || portal !in b.portals) {
      var bound := b.(portals := b.portals[portal := BoundPortal(name, b.statements[name], params)]);
      SyncDoes(blocks, bound, bound);
      ReactTwo(blocks, b, Bind(portal, name, params), Sync, bound, Settled(blocks, bound));
    } else {
      RefusedDoes(blocks, b, Bind(portal, name, params), Terminate);
    }
  }

  lemma ExecutePortalDoes(blocks: Blocks, b: Backend, portal: string, maxRows: nat)
    requires !b.skipping
    ensures ReactAll(blocks, b, [Execute(portal, maxRows), Sync]) == Effect(blocks, b, ExecutePortal(portal, maxRows))
  {
    ExecuteDoes(blocks, b, portal, maxRows);
    if portal in b.portals {
      var ran := WithDeed(b, Ran(b.portals[portal].sql, b.portals[portal].params, maxRows));
      SyncDoes(blocks, ran, ran);
      ReactTwo(blocks, b, Execute(portal, maxRows), Sync, ran, Settled(blocks, ran));
    } else {
      RefusedDoes(blocks, b, Execute(portal, maxRows), Terminate);
    }
  }

  lemma CloseDoes(blocks: Blocks, b: Backend, isPortal: bool, name: string, closed: Backend)
    requires !b.skipping
    requires closed == if isPortal then b.(portals := b.portals - {name}) else WithoutStatement(b, name)
    ensures ReactAll(blocks, b, [CloseOne(isPortal, name), Sync]) == Settled(blocks, closed)
  {
    assert React(blocks, b, CloseOne(isPortal, name)) == closed;
    SyncDoes(blocks, closed, closed);
    ReactTwo(blocks, b, CloseOne(isPortal, name), Sync, closed, Settled(blocks, closed));
  }

  /** The messages of a command make the server do what the command is for. */
  lemma OperationDoes(blocks: Blocks, b: Backend, op: Operation)
    requires !b.skipping
    ensures ReactAll(blocks, b, MessagesOf(op)) == Effect(blocks, b, op)
  {
    match op {
      case SimpleQuery(sql) => ReactOne(blocks, b, Query(sql));
      case ExtendedQuery(sql, params, _) => ExtendedQueryDoes(blocks, b, sql, params);
      case CopyIn(sql, _) => ReactOne(blocks, b, Query(sql));
      case Prepare(name, sql) => PrepareDoes(blocks, b, name, sql);
      case ExecutePrepared(name, params, _) => ExecutePreparedDoes(blocks, b, name, params);
      case BindPortal(portal, name, params) => BindPortalDoes(blocks, b, portal, name, params);
      case ExecutePortal(portal, maxRows) => ExecutePortalDoes(blocks, b, portal, maxRows);
      case ClosePortal(portal) => CloseDoes(blocks, b, true, portal, b.(portals := b.portals - {portal}));
      case CloseStatement(name) => CloseDoes(blocks, b, false, name, WithoutStatement(b, name));
      case Close => ReactOne(blocks, b, Terminate);
    }
  }

  // ----- COPY data ------------------------------------------------------------------------------------------

  lemma CopyMessagesSplit(data: seq<bytes>)
    requires data != []
    ensures CopyMessages(data) == [CopyData(data[0])] + CopyMessages(data[1..])
  {
  }

  /** A payload arrives at the server chunk by chunk, whole and in order. */
  lemma {:induction false} CopyDoes(blocks: Blocks, b: Backend, data: seq<bytes>)
    requires !b.skipping
    ensures ReactAll(blocks, b, CopyMessages(data))
         == b.(copying := [], deeds := b.deeds + [Loaded(b.copying + data)])
    decreases |data|
  {
    if data == [] {
      ReactOne(blocks, b, CopyDone);
      assert CopyMessages(data) == [CopyDone] && b.copying + data == b.copying;
    } else {
      var first := b.(copying := b.copying + [data[0]]);
      CopyMessagesSplit(data);
      ReactAppend(blocks, b, [CopyData(data[0])], CopyMessages(data[1..]));
      ReactOne(blocks, b, CopyData(data[0]));
      CopyDoes(blocks, first, data[1..]);
      assert first.copying + data[1..] == b.copying + data;
    }
  }

  lemma CopyFailDoes(blocks: Blocks, b: Backend, reason: string)
    requires !b.skipping
    ensures ReactAll(blocks, b, [CopyFail(reason)])
         == b.(copying := [], deeds := b.deeds + [LoadRefused(reason)])
  {
    ReactOne(blocks, b, CopyFail(reason));
  }

  /** The only CopyInResponse among the messages is the i-th. */
  predicate AsksOnce(ms: seq<Message>, i: nat) {
    i < |ms| && forall k :: 0 <= k < |ms| ==> (ms[k].CopyInResponse? <==> k == i)
  }

  lemma {:induction false} NothingAsked(encode: Encoder, op: Operation, ms: seq<Message>)
    requires forall k :: 0 <= k < |ms| ==> !ms[k].CopyInResponse?
    ensures CopyAnswers(encode, op, ms) == [] && !BinaryCopySeen(ms)
  {
    if ms != [] {
      NothingAsked(encode, op, ms[..|ms| - 1]);
    }
  }

  lemma {:induction false} AskedOnce(encode: Encoder, op: Operation, ms: seq<Message>, i: nat)
    requires op.CopyIn? && AsksOnce(ms, i)
    ensures CopyAnswers(encode, op, ms)
         == if IsBinary(ms[i]) then StreamOf(encode, op.data) else [CopyFail(COPY_FORMAT_REASON)]
  {
    var front, last := ms[..|ms| - 1], ms[|ms| - 1];
    if i == |front| {
      NothingAsked(encode, op, front);
    } else {
      AskedOnce(encode, op, front, i);
    }
  }

  /** A COPY whose server asks for the data once, in binary, and whose chunks can all be encoded loads
      exactly the payload; a chunk that cannot be encoded, or another format, loads nothing. */
  lemma CopyLoads(encode: Encoder, blocks: Blocks, b: Backend, op: Operation, ms: seq<Message>, i: nat)
    requires op.CopyIn? && AsksOnce(ms, i) && !b.skipping && b.copying == []
    ensures ReactAll(blocks, b, CopyAnswers(encode, op, ms))
         == WithDeed(b, if !IsBinary(ms[i]) then LoadRefused(COPY_FORMAT_REASON)
                        else if CopyFault(encode, op.data).Some? then LoadRefused(COPY_ENCODE_REASON)
                        else Loaded(op.data))
  {
    AskedOnce(encode, op, ms, i);
    if !IsBinary(ms[i]) {
      CopyFailDoes(blocks, b, COPY_FORMAT_REASON);
    } else if CopyFault(encode, op.data).Some? {
      CopyFailDoes(blocks, b, COPY_ENCODE_REASON);
    } else {
      CopyDoes(blocks, b, op.data);
      assert b.copying + op.data == op.data;
    }
  }

  // ----- What a command leaves alone --------------------------------------------------------------------------

  predicate AboutStatement(op: Operation, name: string) {
    (op.Prepare? || op.CloseStatement?) && op.name == name
  }

  predicate AboutPortal(op: Operation, portal: string) {
    (op.BindPortal? || op.ExecutePortal? || op.ClosePortal?) && op.portal == portal
  }

  predicate Holds<T(==)>(m: map<string, T>, key: string, value: T) {
    key in m && m[key] == value
  }

  lemma SettledKeeps(blocks: Blocks, b: Backend)
    ensures Settled(blocks, b).statements == b.statements && Settled(blocks, b).deeds == b.deeds
    ensures Settled(blocks, b).skipping == b.skipping && Settled(blocks, b).copying == b.copying
    ensures blocks(b.deeds) ==> Settled(blocks, b).portals == b.portals
  {
  }

  /** A command leaves every named statement alone but the one it prepares or closes... */
  lemma StatementsStay(blocks: Blocks, b: Backend, op: Operation, name: string, sql: string)
    requires name != "" && !AboutStatement(op, name)
    ensures var after := Effect(blocks, b, op);
      && after.skipping == b.skipping && after.copying == b.copying
      && (Holds(after.statements, name, sql) <==> Holds(b.statements, name, sql))
  {
  }

  /** ... and while a transaction block is open every named portal but the one it binds or closes, or
      whose statement it closes. */
  lemma PortalsStay(blocks: Blocks, b: Backend, op: Operation, portal: string, bound: BoundPortal)
    requires portal != "" && !AboutPortal(op, portal) && !(op.CloseStatement? && op.name == bound.source)
    requires blocks(Effect(blocks, b, op).deeds)
    ensures Holds(Effect(blocks, b, op).portals, portal, bound) <==> Holds(b.portals, portal, bound)
  {
  }

  /** What can still be run by name after these commands. */
  function EffectAll(blocks: Blocks, b: Backend, ops: seq<Operation>): Backend {
    if ops == [] then b else Effect(blocks, EffectAll(blocks, b, ops[..|ops| - 1]), ops[|ops| - 1])
  }

  lemma {:induction false} StatementLasts(blocks: Blocks, b: Backend, ops: seq<Operation>, name: string, sql: string)
    requires name != "" && Holds(b.statements, name, sql)
    requires forall op :: op in ops ==> !(op.CloseStatement? && op.name == name)
    ensures Holds(EffectAll(blocks, b, ops).statements, name, sql)
  {
    if ops != [] {
      var front, last := ops[..|ops| - 1], ops[|ops| - 1];
      assert last in ops && forall op :: op in front ==> op in ops;
      StatementLasts(blocks, b, front, name, sql);
      StatementStays(blocks, EffectAll(blocks, b, front), last, name, sql);
    }
  }

  lemma StatementStays(blocks: Blocks, b: Backend, op: Operation, name: string, sql: string)
    requires name != "" && Holds(b.statements, name, sql) && !(op.CloseStatement? && op.name == name)
    ensures Holds(Effect(blocks, b, op).statements, name, sql)
  {
  }

  /** A statement prepared under a free name is what every later execution by that name runs, with the
      parameters of that execution, until the statement is closed. */
  lemma PreparedIsRun(blocks: Blocks, b: Backend, name: string, sql: string, between: seq<Operation>, params: Row,
                      columns: Option<nat>)
    requires name != "" && name !in b.statements
    requires forall op :: op in between ==> !(op.CloseStatement? && op.name == name)
    ensures var before := EffectAll(blocks, Effect(blocks, b, Prepare(name, sql)), between);
      Effect(blocks, before, ExecutePrepared(name, params, columns)).deeds == before.deeds + [Ran(sql, params, 0)]
  {
    var prepared := Effect(blocks, b, Prepare(name, sql));
    SettledKeeps(blocks, WithDeed(b.(statements := b.statements[name := sql]), ToldOfStatement(sql)));
    assert Holds(prepared.statements, name, sql);
    StatementLasts(blocks, prepared, between, name, sql);
  }

  // ----- Whole runs -------------------------------------------------------------------------------------------

  /** The commands written, and the answers to CopyInResponse. */
  function ServedEffect(blocks: Blocks, b: Backend, served: seq<Service>): Backend {
    if served == [] then b
    else
      var last := served[|served| - 1];
      ReactAll(blocks, Effect(blocks, ServedEffect(blocks, b, served[..|served| - 1]), last.cmd.op), last.copied)
  }

  lemma EffectIsReady(blocks: Blocks, b: Backend, op: Operation)
    requires !b.skipping
    ensures !Effect(blocks, b, op).skipping
  {
  }

  lemma {:induction false} CopiedIsReady(blocks: Blocks, b: Backend, op: Operation, copied: seq<FrontMessage>)
    requires !b.skipping && forall m :: m in copied ==> CopyPart(op, m)
    ensures !ReactAll(blocks, b, copied).skipping
    decreases |copied|
  {
    if copied != [] {
      assert CopyPart(op, copied[0]);
      CopiedIsReady(blocks, React(blocks, b, copied[0]), op, copied[1..]);
    }
  }

  lemma ServedOne(blocks: Blocks, b: Backend, wire: seq<FrontMessage>, service: Service, before: Backend)
    requires ReactAll(blocks, b, wire) == before && !before.skipping && Writable(service)
    ensures var after := ReactAll(blocks, Effect(blocks, before, service.cmd.op), service.copied);
      ReactAll(blocks, b, wire + MessagesOf(service.cmd.op) + service.copied) == after && !after.skipping
  {
    var op := service.cmd.op;
    ReactAppend(blocks, b, wire, MessagesOf(op));
    OperationDoes(blocks, before, op);
    ReactAppend(blocks, b, wire + MessagesOf(op), service.copied);
    EffectIsReady(blocks, before, op);
    CopiedIsReady(blocks, Effect(blocks, before, op), op, service.copied);
  }

  lemma {:induction false} ServedDoes(blocks: Blocks, b: Backend, served: seq<Service>)
    requires !b.skipping && forall k :: 0 <= k < |served| ==> Writable(served[k])
    ensures ReactAll(blocks, b, WireOf(served)) == ServedEffect(blocks, b, served)
    ensures !ServedEffect(blocks, b, served).skipping
  {
    if served != [] {
      var front, last := served[..|served| - 1], served[|served| - 1];
      ServedDoes(blocks, b, front);
      ServedOne(blocks, b, WireOf(front), last, ServedEffect(blocks, b, front));
    }
  }

  lemma WrittenDoes(blocks: Blocks, served: seq<Service>, wire: seq<Piece>, over: bool)
    requires Written(served, wire, over)
    ensures ReactAll(blocks, NEW_BACKEND, MessagesIn(wire)) == ServedEffect(blocks, NEW_BACKEND, served)
  {
    ServedDoes(blocks, NEW_BACKEND, served);
    if wire == Wholes(WireOf(served)) {
      assert MessagesIn(wire) == WireOf(served);
    } else {
      assert MessagesIn(wire) == WireOf(served) + [Terminate];
      ReactAppend(blocks, NEW_BACKEND, WireOf(served), [Terminate]);
      ReactOne(blocks, ServedEffect(blocks, NEW_BACKEND, served), Terminate);
    }
  }

  /** In every run the server has done what the commands written are for, one after the other, each with
      the payload of its COPY behind it, and nothing else. */
  lemma RunsDo(encode: Encoder, status: byte, events: seq<Event>, blocks: Blocks)
    ensures var s := RunOf(Fresh(encode, status), events);
      ReactAll(blocks, NEW_BACKEND, MessagesIn(s.wire)) == ServedEffect(blocks, NEW_BACKEND, s.served)
  {
    RunsAreCorrect(encode, status, events);
    var s := RunOf(Fresh(encode, status), events);
    WrittenDoes(blocks, s.served, s.wire, !s.running || s.pending == Some(Closing));
  }
}
