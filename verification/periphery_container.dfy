/**
 * The container calls the core makes on a periphery agent. Each call is a
 * request descriptor handed to the transport: the target server, the HTTP
 * verb, the path, the JSON body of a POST, and the kind of reply expected.
 * The transport itself (`get_json`, `post_json`) is not modelled.
 */
module PeripheryContainer {
  import opened Wrappers
  import opened Json
  import opened Http

  const LIST_PATH: string := "/container/list"
  const START_PATH: string := "/container/start"
  const STOP_PATH: string := "/container/stop"
  const REMOVE_PATH: string := "/container/remove"
  const DEPLOY_PATH: string := "/container/deploy"
  const PRUNE_PATH: string := "/container/prune"
  /** The per-container stats path is this prefix followed by the container name, verbatim. */
  const STATS_PREFIX: string := "/container/stats/"
  const STATS_LIST_PATH: string := "/container/stats/list"

  /** One container method of the periphery client, with its arguments other than the server. */
  datatype ContainerOp =
    | List
    | Start(name: string)
    | Stop(name: string)
    | Remove(name: string)
    | Deploy(deployment: Json)
    | Prune
    | Stats(name: string)
    | StatsList

  /** What the reply is decoded as: container infos, a `Log`, or container stats. */
  datatype Reply = ContainerInfos | LogEntry | StatsEntries

  /** The request a method hands to the transport; a GET carries no body. */
  datatype Descriptor<S> = Descriptor(server: S, verb: Verb, path: string, body: Option<Json>, reply: Reply)

  /** The body `{"name": <container name>}` of start, stop and remove. */
  function NameBody(name: string): (j: Json)
    ensures Field(j, "name") == Some(JStr(name))
  {
    JObj([Member("name", JStr(name))])
  }

  /** The empty JSON object `{}`. */
  const EMPTY_OBJECT: Json := JObj([])

  /** The descriptor `op` produces when called for `server`. */
  function Describe<S>(server: S, op: ContainerOp): (d: Descriptor<S>)
    ensures d.server == server
    ensures d.verb == Get <==> op.List? || op.Stats? || op.StatsList?
    ensures d.body.Some? <==> d.verb == Post
    ensures d.reply == LogEntry <==> d.verb == Post
  {
    match op
    case List => Descriptor(server, Get, LIST_PATH, None, ContainerInfos)
    case Start(n) => Descriptor(server, Post, START_PATH, Some(NameBody(n)), LogEntry)
    case Stop(n) => Descriptor(server, Post, STOP_PATH, Some(NameBody(n)), LogEntry)
    case Remove(n) => Descriptor(server, Post, REMOVE_PATH, Some(NameBody(n)), LogEntry)
    case Deploy(dep) => Descriptor(server, Post, DEPLOY_PATH, Some(dep), LogEntry)
    case Prune => Descriptor(server, Post, PRUNE_PATH, Some(EMPTY_OBJECT), LogEntry)
    case Stats(n) => Descriptor(server, Get, STATS_PREFIX + n, None, StatsEntries)
    case StatsList => Descriptor(server, Get, STATS_LIST_PATH, None, StatsEntries)
  }

  /** The container name a `{"name": n}` body carries. */
  function NameIn(body: Option<Json>): (r: Option<string>)
    ensures r.Some? ==> body == Some(NameBody(r.value))
  {
    match body
    case Some(JObj(ms)) =>
      if |ms| == 1 && ms[0].key == "name" && ms[0].value.JStr? then
        assert ms == [Member("name", JStr(ms[0].value.s))];
        Some(ms[0].value.s)
      else None
    case _ => None
  }

  /**
   * The operation a periphery agent serving these paths takes a descriptor
   * for: the reverse of `Describe`, reading `/container/stats/list` as the
   * stats-list call.
   */
  function Interpret<S>(d: Descriptor<S>): (r: Option<ContainerOp>)
    ensures r.Some? ==> Describe(d.server, r.value) == d
  {
    match d.verb
    case Get =>
      if d.body.Some? then None
      else if d.path == LIST_PATH && d.reply == ContainerInfos then Some(List)
      else if d.path == STATS_LIST_PATH && d.reply == StatsEntries then Some(StatsList)
      else if |STATS_PREFIX| <= |d.path| && d.path[..|STATS_PREFIX|] == STATS_PREFIX && d.reply == StatsEntries then
        assert d.path == STATS_PREFIX + d.path[|STATS_PREFIX|..];
        Some(Stats(d.path[|STATS_PREFIX|..]))
      else None
    case Post =>
      if d.body.None? || d.reply != LogEntry then None
      else if d.path == DEPLOY_PATH then Some(Deploy(d.body.value))
      else if d.path == PRUNE_PATH then (if d.body == Some(EMPTY_OBJECT) then Some(Prune) else None)
      else if d.path == START_PATH then (match NameIn(d.body) case Some(n) => Some(Start(n)) case None => None)
      else if d.path == STOP_PATH then (match NameIn(d.body) case Some(n) => Some(Stop(n)) case None => None)
      else if d.path == REMOVE_PATH then (match NameIn(d.body) case Some(n) => Some(Remove(n)) case None => None)
      else None
  }

  lemma NameBodyRoundTrip(n: string)
    ensures NameIn(Some(NameBody(n))) == Some(n)
  {
  }

  /** A stats path is never a fixed path, and is the stats-list path exactly for the name "list". */
  lemma StatsPathShape(n: string)
    ensures STATS_PREFIX + n != LIST_PATH
    ensures STATS_PREFIX + n == STATS_LIST_PATH <==> n == "list"
  {
    assert |STATS_PREFIX + n| != |LIST_PATH|;
    assert STATS_LIST_PATH == STATS_PREFIX + "list";
    if STATS_PREFIX + n == STATS_PREFIX + "list" {
      assert n == (STATS_PREFIX + n)[|STATS_PREFIX|..];
    }
  }

  /**
   * Reading back a descriptor gives the operation that produced it, for
   * every operation except the stats of a container named "list", whose
   * request is the stats-list request.
   */
  lemma {:induction false} DescribeRoundTrip<S>(server: S, op: ContainerOp)
    ensures Interpret(Describe(server, op)) == Some(op) <==> op != Stats("list")
    ensures op == Stats("list") ==> Interpret(Describe(server, op)) == Some(StatsList)
  {
    match op
    case Stats(n) =>
      StatsPathShape(n);
      var p := STATS_PREFIX + n;
      assert p[..|STATS_PREFIX|] == STATS_PREFIX;
      assert p[|STATS_PREFIX|..] == n;
    case Start(n) => NameBodyRoundTrip(n);
    case Stop(n) => NameBodyRoundTrip(n);
    case Remove(n) => NameBodyRoundTrip(n);
    case _ =>
  }

  /** The stats of a container named "list" are requested exactly as the stats of all containers. */
  lemma StatsListCollision<S>(server: S)
    ensures Describe(server, Stats("list")) == Describe(server, StatsList)
  {
    assert STATS_PREFIX + "list" == STATS_LIST_PATH;
  }

  /** Two operations give the same request only when they are equal or are that colliding pair. */
  lemma DescribeInjective<S>(server: S, a: ContainerOp, b: ContainerOp)
    ensures Describe(server, a) == Describe(server, b) <==>
      a == b || (a == Stats("list") && b == StatsList) || (a == StatsList && b == Stats("list"))
  {
    DescribeRoundTrip(server, a);
    DescribeRoundTrip(server, b);
    StatsListCollision(server);
  }

  /** Start, stop and remove send one and the same body and differ only in their path. */
  lemma NamedCallsDifferOnlyInPath<S>(server: S, n: string)
    ensures Describe(server, Start(n)).body == Some(NameBody(n))
    ensures Describe(server, Stop(n)) == Describe(server, Start(n)).(path := STOP_PATH)
    ensures Describe(server, Remove(n)) == Describe(server, Start(n)).(path := REMOVE_PATH)
    ensures START_PATH != STOP_PATH && STOP_PATH != REMOVE_PATH && START_PATH != REMOVE_PATH
  {
  }
}
