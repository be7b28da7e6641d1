/**
 * The resolver: turning an address expression into the endpoints published
 * under the coordinates it names, walking the whole namespace through a
 * filter, and keeping the registry of listeners that follow a dynamic
 * expression.
 *
 * The coordination service is replaced by an in-memory namespace laid out as
 * the resolver reads it: /cn/<cell>/<user>/<service>/<instance>, each
 * instance with an optional status node holding a snapshot.
 */
module Resolver {
  import opened Wrappers
  import opened Numbers
  import opened CnTypes
  import opened AddressExpression
  import Fanout

  // ---------------------------------------------------------------------------
  // The namespace

  /** What the status node under an instance node holds. */
  datatype StatusNode =
    | Unclaimed                     // no status node: the coordinate is not claimed
    | Corrupted                     // a status node whose data does not load
    | Claimed(snapshot: Snapshot)   // a status node with a loadable snapshot

  /** One child of a service node: its name as listed, and its status. */
  datatype InstanceEntry = InstanceEntry(name: string, status: StatusNode)

  /** The children of a service node, in the order the listing returns them. */
  type ServiceDir = seq<InstanceEntry>
  type Services = map<string, ServiceDir>
  type Users = map<string, Services>
  type Cells = map<string, Users>

  /** The tree under /cn; NoRoot when /cn itself does not exist. */
  datatype Namespace = NoRoot | Root(cells: Cells)

  /** A named strategy: `order(filter(endpoints))` is what resolving with it returns. */
  datatype Strategy = Strategy(
    filter: seq<Endpoint> -> seq<Endpoint>,
    order: seq<Endpoint> -> seq<Endpoint>)

  datatype ResolveError =
    | BadExpression(cause: ParseError)  // the Parameters constructor refused it
    | NoConnection                      // no session to read the namespace through
    | MissingPath                       // a listed node does not exist
    | BadInstanceName(name: string)     // a child of a service node is not a number
    | UnreadableStatus(instance: int)   // a status node whose data does not load
    | UnknownStrategy(name: string)     // no strategy registered under that name

  /** The children of /cn/<cell>/<user>/<service>, if that node exists. */
  function ServiceDirOf(ns: Namespace, cell: string, user: string, service: string): (r: Option<ServiceDir>)
    ensures r.Some? <==> ns.Root? && cell in ns.cells && user in ns.cells[cell] && service in ns.cells[cell][user]
  {
    if ns.Root? && cell in ns.cells && user in ns.cells[cell] && service in ns.cells[cell][user]
    then Some(ns.cells[cell][user][service])
    else None
  }

  /** The status of the child called `name`, the first one listed with that name. */
  function StatusAt(dir: ServiceDir, name: string): (r: Option<StatusNode>)
    ensures r.Some? ==> exists i :: 0 <= i < |dir| && dir[i].name == name && dir[i].status == r.value
    ensures r.None? <==> forall i :: 0 <= i < |dir| ==> dir[i].name != name
  {
    if dir == [] then None
    else if dir[0].name == name then Some(dir[0].status)
    else
      var r := StatusAt(dir[1..], name);
      assert forall i :: 1 <= i < |dir| ==> dir[i] == dir[1..][i - 1];
      r
  }

  /**
   * The status node of instance `n` of the coordinate's service. Its path is
   * built from the number, so the child whose name is `Integer.toString(n)`
   * is the one looked at.
   */
  function StatusOf(ns: Namespace, p: Parameters, n: int): Option<StatusNode> {
    match ServiceDirOf(ns, p.cell, p.user, p.service)
    case None => None
    case Some(dir) => StatusAt(dir, IntToString(n))
  }

  // ---------------------------------------------------------------------------
  // Choosing the instances

  /** `getInstances`: every child of the service node read as an integer, in order. */
  function InstanceNumbers(dir: ServiceDir): (r: Result<seq<int>, ResolveError>)
    ensures r.Success? ==> |r.value| == |dir|
    ensures r.Failure? ==> r.error.BadInstanceName?
    decreases |dir|
  {
    if dir == [] then Success([])
    else
      match InstanceNumbers(dir[..|dir| - 1])
      case Failure(e) => Failure(e)
      case Success(numbers) =>
        match ParseInt(dir[|dir| - 1].name)
        case None => Failure(BadInstanceName(dir[|dir| - 1].name))
        case Some(n) => Success(numbers + [n])
  }

  /**
   * The listing succeeds exactly when every child's name reads as an
   * integer, and then holds those integers in order.
   */
  lemma {:induction false} InstanceNumbersSucceed(dir: ServiceDir)
    ensures var r := InstanceNumbers(dir);
      && (r.Success? <==> forall i :: 0 <= i < |dir| ==> ParseInt(dir[i].name).Some?)
      && (r.Success? ==> forall i :: 0 <= i < |dir| ==> ParseInt(dir[i].name) == Some(r.value[i]))
    decreases |dir|
  {
    if dir != [] {
      var front := dir[..|dir| - 1];
      var last := |dir| - 1;
      InstanceNumbersSucceed(front);
      assert forall i :: 0 <= i < |front| ==> front[i] == dir[i];
      if InstanceNumbers(front).Failure? {
        var k :| 0 <= k < |front| && ParseInt(front[k].name).None?;
        assert ParseInt(dir[k].name).None?;
      } else if ParseInt(dir[last].name).None? {
      } else {
        var r := InstanceNumbers(dir);
        var numbers := InstanceNumbers(front).value;
        assert r.value == numbers + [ParseInt(dir[last].name).value];
        forall i | 0 <= i < |dir|
          ensures ParseInt(dir[i].name) == Some(r.value[i])
        {
          if i < |front| {
            assert r.value[i] == numbers[i];
          }
        }
      }
    }
  }

  /** A listing that fails reports the first child whose name does not read as an integer. */
  lemma {:induction false} InstanceNumbersFirstBad(dir: ServiceDir)
    ensures var r := InstanceNumbers(dir);
      r.Failure? ==>
        exists k :: 0 <= k < |dir| && r.error == BadInstanceName(dir[k].name) && ParseInt(dir[k].name).None?
          && forall i :: 0 <= i < k ==> ParseInt(dir[i].name).Some?
    decreases |dir|
  {
    if dir != [] {
      var front := dir[..|dir| - 1];
      var last := |dir| - 1;
      InstanceNumbersFirstBad(front);
      if InstanceNumbers(front).Failure? {
        var k :| 0 <= k < |front| && InstanceNumbers(front).error == BadInstanceName(front[k].name)
          && ParseInt(front[k].name).None? && forall i :: 0 <= i < k ==> ParseInt(front[i].name).Some?;
        assert dir[k] == front[k];
        assert forall i :: 0 <= i < k ==> dir[i] == front[i];
      } else if ParseInt(dir[last].name).None? {
        InstanceNumbersSucceed(front);
        assert forall i :: 0 <= i < last ==> dir[i] == front[i];
      }
    }
  }

  /**
   * The listing succeeds exactly when every child's name reads as an
   * integer, and then holds those integers in order; otherwise it reports
   * the first child that does not.
   */
  lemma InstanceNumbersMeaning(dir: ServiceDir)
    ensures var r := InstanceNumbers(dir);
      && (r.Success? <==> forall i :: 0 <= i < |dir| ==> ParseInt(dir[i].name).Some?)
      && (r.Success? ==> forall i :: 0 <= i < |dir| ==> ParseInt(dir[i].name) == Some(r.value[i]))
      && (r.Failure? ==>
            exists k :: 0 <= k < |dir| && r.error == BadInstanceName(dir[k].name) && ParseInt(dir[k].name).None?
              && forall i :: 0 <= i < k ==> ParseInt(dir[i].name).Some?)
  {
    InstanceNumbersSucceed(dir);
    InstanceNumbersFirstBad(dir);
  }

  /** The listing of a service node's instances; listing a missing node fails. */
  function ChildInstances(ns: Namespace, cell: string, user: string, service: string): (r: Result<seq<int>, ResolveError>)
    ensures r.Failure? ==> r.error.MissingPath? || r.error.BadInstanceName?
  {
    match ServiceDirOf(ns, cell, user, service)
    case None => Failure(MissingPath)
    case Some(dir) => InstanceNumbers(dir)
  }

  /**
   * `resolveInstances`: the named instance when it is above -1, otherwise
   * every instance the service node lists.
   */
  function InstancesToResolve(p: Parameters, ns: Namespace): (r: Result<seq<int>, ResolveError>)
    ensures p.instance > -1 ==> r == Success([p.instance])
    ensures p.instance <= -1 ==> r == ChildInstances(ns, p.cell, p.user, p.service)
  {
    if p.instance > -1 then Success([p.instance])
    else ChildInstances(ns, p.cell, p.user, p.service)
  }

  // ---------------------------------------------------------------------------
  // Collecting the endpoints

  /** `Snapshot.getEndpoint(name)`: the first endpoint called `name`. */
  function FindEndpoint(endpoints: seq<Endpoint>, name: string): (r: Option<Endpoint>)
    ensures r.Some? ==> r.value in endpoints && r.value.name == name
    ensures r.None? <==> forall e :: e in endpoints ==> e.name != name
  {
    if endpoints == [] then None
    else if endpoints[0].name == name then Some(endpoints[0])
    else FindEndpoint(endpoints[1..], name)
  }

  /**
   * What `addEndpoints` appends for one snapshot: nothing unless the service
   * is RUNNING; all its endpoints for the name ""; otherwise the endpoint of
   * that name, if there is one.
   */
  function Selected(snapshot: Snapshot, endpointName: string): (r: seq<Endpoint>)
    ensures snapshot.state != RUNNING ==> r == []
    ensures snapshot.state == RUNNING && endpointName == "" ==> r == snapshot.endpoints
    ensures endpointName != "" ==>
      |r| <= 1 && forall e :: e in r ==> e in snapshot.endpoints && e.name == endpointName
    ensures endpointName != "" && snapshot.state == RUNNING ==>
      (|r| == 1 <==> exists e :: e in snapshot.endpoints && e.name == endpointName)
  {
    if snapshot.state != RUNNING then []
    else if endpointName == "" then snapshot.endpoints
    else
      match FindEndpoint(snapshot.endpoints, endpointName)
      case None => []
      case Some(e) => [e]
  }

  /** How the status node of each instance number is found. */
  type Lookup = int -> Option<StatusNode>

  /** The lookup `resolve` does: the status path of the coordinate's service. */
  function StatusLookup(ns: Namespace, p: Parameters): (look: Lookup)
    ensures forall n :: look(n) == StatusOf(ns, p, n)
  {
    n => StatusOf(ns, p, n)
  }

  /**
   * The loop of `resolve` over the chosen instances: a missing or unclaimed
   * status node is skipped, one that does not load stops the resolution, and
   * a loaded snapshot adds what `addEndpoints` selects.
   */
  function Gather(status: Lookup, endpointName: string, instances: seq<int>): (r: Result<seq<Endpoint>, ResolveError>)
    ensures r.Failure? ==>
      exists i :: 0 <= i < |instances| && status(instances[i]) == Some(Corrupted) && r.error == UnreadableStatus(instances[i])
    decreases |instances|
  {
    if instances == [] then Success([])
    else
      var front := instances[..|instances| - 1];
      var sofar := Gather(status, endpointName, front);
      assert forall i :: 0 <= i < |front| ==> front[i] == instances[i];
      GatherStep(status, endpointName, sofar, instances[|instances| - 1])
  }

  /** One turn of that loop, for instance `n`. */
  function GatherStep(status: Lookup, endpointName: string, sofar: Result<seq<Endpoint>, ResolveError>, n: int)
    : (r: Result<seq<Endpoint>, ResolveError>)
    ensures sofar.Failure? ==> r == sofar
    ensures sofar.Success? && r.Failure? <==> sofar.Success? && status(n) == Some(Corrupted)
    ensures r.Failure? && sofar.Success? ==> r.error == UnreadableStatus(n)
    ensures sofar.Success? && r.Success? ==>
      |sofar.value| <= |r.value| && r.value[..|sofar.value|] == sofar.value
  {
    match sofar
    case Failure(_) => sofar
    case Success(endpoints) =>
      match status(n)
      case None => sofar
      case Some(Unclaimed) => sofar
      case Some(Corrupted) => Failure(UnreadableStatus(n))
      case Some(Claimed(s)) => Success(endpoints + Selected(s, endpointName))
  }

  /** The endpoints instance `n` adds to the list: those selected from its snapshot, if it has one. */
  function Contribution(status: Lookup, endpointName: string, n: int): seq<Endpoint> {
    match status(n)
    case Some(Claimed(s)) => Selected(s, endpointName)
    case _ => []
  }

  /** Instance `n` holds a loadable snapshot from which `e` is selected. */
  predicate Contributes(status: Lookup, endpointName: string, n: int, e: Endpoint) {
    e in Contribution(status, endpointName, n)
  }

  /** The end of `resolve`: no strategy returns the list as is, otherwise `order(filter(list))`. */
  function ApplyStrategy(strategies: map<string, Strategy>, name: string, endpoints: seq<Endpoint>)
    : (r: Result<seq<Endpoint>, ResolveError>)
    ensures name == "" ==> r == Success(endpoints)
    ensures name != "" && name !in strategies ==> r == Failure(UnknownStrategy(name))
    ensures name != "" && name in strategies ==>
      r == Success(strategies[name].order(strategies[name].filter(endpoints)))
  {
    if name == "" then Success(endpoints)
    else if name !in strategies then Failure(UnknownStrategy(name))
    else Success(strategies[name].order(strategies[name].filter(endpoints)))
  }

  /** `resolve(expression)` against the namespace a session `zk` reads, if there is one. */
  function ResolveSpec(strategies: map<string, Strategy>, expression: string, zk: Option<Namespace>)
    : (r: Result<seq<Endpoint>, ResolveError>)
    ensures Parse(expression).Failure? ==> r == Failure(BadExpression(Parse(expression).error))
    ensures Parse(expression).Success? && zk.None? ==> r == Failure(NoConnection)
    ensures r.Success? ==> Parse(expression).Success? && zk.Some?
    ensures r.Failure? && r.error.UnreadableStatus? ==>
      && Parse(expression).Success? && zk.Some?
      && StatusOf(zk.value, Parse(expression).value, r.error.instance) == Some(Corrupted)
    ensures r.Failure? && r.error.UnknownStrategy? ==>
      && Parse(expression).Success? && r.error.name == Parse(expression).value.strategy
      && r.error.name !in strategies
  {
    match Parse(expression)
    case Failure(e) => Failure(BadExpression(e))
    case Success(p) =>
      if zk.None? then Failure(NoConnection)
      else
        match InstancesToResolve(p, zk.value)
        case Failure(e) => Failure(e)
        case Success(instances) =>
          match Gather(StatusLookup(zk.value, p), p.endpointName, instances)
          case Failure(e) => Failure(e)
          case Success(endpoints) => ApplyStrategy(strategies, p.strategy, endpoints)
  }

  // ---------------------------------------------------------------------------
  // Properties of the resolution

  /** Once the gathering has failed, looking at more instances changes nothing. */
  lemma {:induction false} GatherFailureSticks(status: Lookup, name: string, xs: seq<int>, ys: seq<int>)
    requires Gather(status, name, xs).Failure?
    ensures Gather(status, name, xs + ys) == Gather(status, name, xs)
    decreases |ys|
  {
    if ys != [] {
      var front := ys[..|ys| - 1];
      var zs := xs + ys;
      GatherFailureSticks(status, name, xs, front);
      assert zs[..|zs| - 1] == xs + front;
    } else {
      assert xs + ys == xs;
    }
  }

  /** A sequence is its prefix followed by the rest. */
  lemma PrefixAndRest<T>(s: seq<T>, k: nat)
    requires k <= |s|
    ensures s[..k] + s[k..] == s
  {
  }

  /** The same for the listing of instance numbers. */
  lemma {:induction false} InstanceNumbersFailureSticks(xs: ServiceDir, ys: ServiceDir)
    requires InstanceNumbers(xs).Failure?
    ensures InstanceNumbers(xs + ys) == InstanceNumbers(xs)
    decreases |ys|
  {
    if ys != [] {
      var front := ys[..|ys| - 1];
      var zs := xs + ys;
      var zf := zs[..|zs| - 1];
      assert zf == xs + front;
      InstanceNumbersFailureSticks(xs, front);
      assert InstanceNumbers(zf) == InstanceNumbers(xs);
      assert InstanceNumbers(zs) == InstanceNumbers(zf);
    } else {
      assert xs + ys == xs;
    }
  }

  /** The gathering fails exactly when one of the instances has a status node that does not load. */
  lemma {:induction false} GatherFailsIff(status: Lookup, name: string, instances: seq<int>)
    ensures Gather(status, name, instances).Failure? <==>
      exists i :: 0 <= i < |instances| && status(instances[i]) == Some(Corrupted)
    decreases |instances|
  {
    if instances != [] {
      var front := instances[..|instances| - 1];
      var last := |instances| - 1;
      GatherFailsIff(status, name, front);
      if Gather(status, name, front).Failure? {
        var i :| 0 <= i < |front| && status(front[i]) == Some(Corrupted);
        assert instances[i] == front[i];
      } else if status(instances[last]) == Some(Corrupted) {
      } else {
        forall i | 0 <= i < |instances|
          ensures status(instances[i]) != Some(Corrupted)
        {
          if i < |front| {
            assert instances[i] == front[i];
          }
        }
      }
    }
  }

  /** A turn that succeeds appends the instance's contribution to the list so far. */
  lemma StepAppends(status: Lookup, endpointName: string, sofar: Result<seq<Endpoint>, ResolveError>, n: int)
    requires GatherStep(status, endpointName, sofar, n).Success?
    ensures sofar.Success?
    ensures GatherStep(status, endpointName, sofar, n).value == sofar.value + Contribution(status, endpointName, n)
  {
  }

  /** A successful gathering holds endpoint `e` exactly when one of the instances contributes it. */
  lemma {:induction false} GatherMember(status: Lookup, name: string, instances: seq<int>, e: Endpoint)
    requires Gather(status, name, instances).Success?
    ensures e in Gather(status, name, instances).value <==>
      exists i :: 0 <= i < |instances| && Contributes(status, name, instances[i], e)
    decreases |instances|
  {
    if instances != [] {
      var front := instances[..|instances| - 1];
      var last := |instances| - 1;
      assert Gather(status, name, instances)
        == GatherStep(status, name, Gather(status, name, front), instances[last]);
      StepAppends(status, name, Gather(status, name, front), instances[last]);
      GatherMember(status, name, front, e);
      var before := Gather(status, name, front).value;
      var added := Contribution(status, name, instances[last]);
      assert Gather(status, name, instances).value == before + added;
      if e in before {
        var i :| 0 <= i < |front| && Contributes(status, name, front[i], e);
        assert instances[i] == front[i];
        assert Contributes(status, name, instances[i], e);
      } else if e in added {
        assert Contributes(status, name, instances[last], e);
      } else {
        forall i | 0 <= i < |instances|
          ensures !Contributes(status, name, instances[i], e)
        {
          if i < |front| {
            assert instances[i] == front[i];
            assert !Contributes(status, name, front[i], e);
          }
        }
      }
    }
  }

  /** A successful gathering holds exactly the endpoints the instances contribute. */
  lemma GatherMembers(status: Lookup, name: string, instances: seq<int>)
    requires Gather(status, name, instances).Success?
    ensures forall e :: e in Gather(status, name, instances).value <==>
      exists i :: 0 <= i < |instances| && Contributes(status, name, instances[i], e)
  {
    forall e
      ensures e in Gather(status, name, instances).value <==>
        exists i :: 0 <= i < |instances| && Contributes(status, name, instances[i], e)
    {
      GatherMember(status, name, instances, e);
    }
  }

  /**
   * With an instance number above -1 only that instance is read, and a
   * coordinate with no status node (or no node at all) resolves to nothing.
   */
  lemma ResolveNamedInstance(strategies: map<string, Strategy>, expression: string, ns: Namespace)
    requires Parse(expression).Success?
    requires Parse(expression).value.instance > -1 && Parse(expression).value.strategy == ""
    ensures var p := Parse(expression).value;
      var r := ResolveSpec(strategies, expression, Some(ns));
      match StatusOf(ns, p, p.instance)
      case None => r == Success([])
      case Some(Unclaimed) => r == Success([])
      case Some(Corrupted) => r == Failure(UnreadableStatus(p.instance))
      case Some(Claimed(s)) => r == Success(Selected(s, p.endpointName))
  {
    var p := Parse(expression).value;
    assert InstancesToResolve(p, ns) == Success([p.instance]);
    assert [p.instance][..0] == [];
    assert Gather(StatusLookup(ns, p), p.endpointName, [p.instance])
        == GatherStep(StatusLookup(ns, p), p.endpointName, Success([]), p.instance);
    match StatusOf(ns, p, p.instance)
    case Some(Claimed(s)) =>
      assert [] + Selected(s, p.endpointName) == Selected(s, p.endpointName);
    case _ =>
  }

  /**
   * What `resolve` returns once the instances are listed. It fails exactly
   * on a status node that does not load or an unknown strategy. The gathered
   * list holds exactly the endpoints that the chosen instances contribute.
   * The result is that list itself without a strategy, and
   * `order(filter(list))` with one.
   */
  lemma ResolveContents(strategies: map<string, Strategy>, expression: string, ns: Namespace)
    requires Parse(expression).Success?
    requires InstancesToResolve(Parse(expression).value, ns).Success?
    ensures var p := Parse(expression).value;
      var instances := InstancesToResolve(p, ns).value;
      var gathered := Gather(StatusLookup(ns, p), p.endpointName, instances);
      var r := ResolveSpec(strategies, expression, Some(ns));
      && (r.Failure? <==>
            (exists i :: 0 <= i < |instances| && StatusOf(ns, p, instances[i]) == Some(Corrupted))
            || (p.strategy != "" && p.strategy !in strategies))
      && (gathered.Success? ==> forall e :: e in gathered.value <==>
            exists i :: 0 <= i < |instances| && Contributes(StatusLookup(ns, p), p.endpointName, instances[i], e))
      && (r.Success? ==>
            && gathered.Success?
            && r.value == (if p.strategy == "" then gathered.value
                           else strategies[p.strategy].order(strategies[p.strategy].filter(gathered.value))))
      && (p.strategy == "" && r.Success? ==> forall e :: e in r.value <==>
            exists i :: 0 <= i < |instances| && Contributes(StatusLookup(ns, p), p.endpointName, instances[i], e))
  {
    var p := Parse(expression).value;
    var instances := InstancesToResolve(p, ns).value;
    GatherFailsIff(StatusLookup(ns, p), p.endpointName, instances);
    if Gather(StatusLookup(ns, p), p.endpointName, instances).Success? {
      GatherMembers(StatusLookup(ns, p), p.endpointName, instances);
    }
  }

  /**
   * The instance pattern accepts a leading '-': an expression like
   * "-3.svc.user.cell" parses with a negative instance, and a negative
   * instance lists every instance of the service, just as a strategy form
   * such as "all.svc.user.cell" does.
   */
  lemma NegativeInstanceListsAll(t: string, strategy: string, service: string, user: string, cell: string, ns: Namespace)
    requires InClass(Token, t) && |t| > 0 && t[0] == '-' && ParseInt(t).Some? && ParseInt(t).value < 0
    requires InClass(Name, strategy) && InClass(Name, service) && InClass(Name, user) && InClass(Name, cell)
    ensures var p := Parse(Join([t, service, user, cell]));
      && p.Success? && p.value.instance == ParseInt(t).value
      && Parse(Join([strategy, service, user, cell])).Success?
      && InstancesToResolve(p.value, ns) == InstancesToResolve(Parse(Join([strategy, service, user, cell])).value, ns)
  {
    ParseInstanceShape(t, service, user, cell);
    ParseStrategyShape(strategy, service, user, cell);
  }

  /** "-3" is such an instance segment. */
  lemma MinusThreeIsNegativeInstance()
    ensures InClass(Token, "-3") && ParseInt("-3") == Some(-3)
  {
    assert "-3"[1..] == "3";
    assert DigitsValue("3") == 3 by {
      assert "3"[..0] == "";
    }
  }

  // ---------------------------------------------------------------------------
  // Appending to a caller's list

  /** A mutable list of endpoints, as the caller of `addEndpoints` passes it. */
  class EndpointList {
    var items: seq<Endpoint>

    constructor()
      ensures items == []
    {
      items := [];
    }
  }

  /**
   * `addEndpoints`: appends to the caller's list what the snapshot offers
   * for the endpoint name; what the list held stays in front.
   */
  method AddEndpoints(snapshot: Snapshot, endpoints: EndpointList, endpointName: string)
    modifies endpoints
    ensures endpoints.items == old(endpoints.items) + Selected(snapshot, endpointName)
  {
    if snapshot.state != RUNNING {
      return;
    }
    if endpointName == "" {
      endpoints.items := endpoints.items + snapshot.endpoints;
    } else {
      var e := FindEndpoint(snapshot.endpoints, endpointName);
      if e.Some? {
        endpoints.items := endpoints.items + [e.value];
      }
    }
  }

  // ---------------------------------------------------------------------------
  // Walking the namespace through a filter

  /** The callbacks `getEndpoints` consults at each level of the tree. */
  datatype CoordinateDataFilter = CoordinateDataFilter(
    includeCell: string -> bool,
    includeUser: string -> bool,
    includeService: string -> bool,
    includeEndpointname: string -> bool,
    includeServiceState: ServiceState -> bool)

  /**
   * Endpoint `e` is taken from the child `child` of a service node: the name
   * reads as a number, the status node at that number loads, and both the
   * endpoint name and the service state pass the filter.
   */
  predicate InstanceYields(filter: CoordinateDataFilter, dir: ServiceDir, child: string, e: Endpoint) {
    match ParseInt(child)
    case None => false
    case Some(n) =>
      match StatusAt(dir, IntToString(n))
      case Some(Claimed(s)) =>
        e in s.endpoints && filter.includeEndpointname(e.name) && filter.includeServiceState(s.state)
      case _ => false
  }

  ghost predicate ServiceYields(filter: CoordinateDataFilter, dir: ServiceDir, e: Endpoint) {
    exists i :: 0 <= i < |dir| && InstanceYields(filter, dir, dir[i].name, e)
  }

  ghost predicate UserYields(filter: CoordinateDataFilter, services: Services, e: Endpoint) {
    exists s :: s in services && filter.includeService(s) && ServiceYields(filter, services[s], e)
  }

  ghost predicate CellYields(filter: CoordinateDataFilter, users: Users, e: Endpoint) {
    exists u :: u in users && filter.includeUser(u) && UserYields(filter, users[u], e)
  }

  /** `e` is reachable through a cell, user and service that the filter accepts. */
  ghost predicate Included(filter: CoordinateDataFilter, cells: Cells, e: Endpoint) {
    exists c :: c in cells && filter.includeCell(c) && CellYields(filter, cells[c], e)
  }

  /** The innermost loop: the endpoints of one instance that pass the filter. */
  method InstanceEndpoints(filter: CoordinateDataFilter, dir: ServiceDir, child: string)
    returns (found: set<Endpoint>)
    ensures forall e :: e in found <==> InstanceYields(filter, dir, child, e)
  {
    found := {};
    var n := ParseInt(child);
    if n.None? {
      return;
    }
    var status := StatusAt(dir, IntToString(n.value));
    if !(status.Some? && status.value.Claimed?) {
      return;
    }
    var s := status.value.snapshot;
    for i := 0 to |s.endpoints|
      invariant forall e :: e in found <==>
        e in s.endpoints[..i] && filter.includeEndpointname(e.name) && filter.includeServiceState(s.state)
    {
      var e := s.endpoints[i];
      assert s.endpoints[..i + 1] == s.endpoints[..i] + [e];
      if filter.includeEndpointname(e.name) && filter.includeServiceState(s.state) {
        found := found + {e};
      }
    }
    assert s.endpoints[..|s.endpoints|] == s.endpoints;
  }

  /** The loop over the instances of one service. */
  method ServiceEndpoints(filter: CoordinateDataFilter, dir: ServiceDir) returns (found: set<Endpoint>)
    ensures forall e :: e in found <==> ServiceYields(filter, dir, e)
  {
    found := {};
    for i := 0 to |dir|
      invariant forall e :: e in found <==> exists j :: 0 <= j < i && InstanceYields(filter, dir, dir[j].name, e)
    {
      var more := InstanceEndpoints(filter, dir, dir[i].name);
      ghost var before := found;
      found := found + more;
      forall e
        ensures e in found <==> exists j :: 0 <= j < i + 1 && InstanceYields(filter, dir, dir[j].name, e)
      {
        if e in more {
          assert InstanceYields(filter, dir, dir[i].name, e);
        }
        if exists j :: 0 <= j < i + 1 && InstanceYields(filter, dir, dir[j].name, e) {
          var j :| 0 <= j < i + 1 && InstanceYields(filter, dir, dir[j].name, e);
          if j < i {
            assert e in before;
          }
        }
      }
    }
  }

  /** The loop over the services of one user, skipping those the filter refuses. */
  method UserEndpoints(filter: CoordinateDataFilter, services: Services) returns (found: set<Endpoint>)
    ensures forall e :: e in found <==> UserYields(filter, services, e)
  {
    found := {};
    var todo := services.Keys;
    while todo != {}
      invariant todo <= services.Keys
      invariant forall e :: e in found <==>
        exists s :: s in services && s !in todo && filter.includeService(s) && ServiceYields(filter, services[s], e)
      decreases todo
    {
      var s :| s in todo;
      if filter.includeService(s) {
        var more := ServiceEndpoints(filter, services[s]);
        found := found + more;
      }
      todo := todo - {s};
    }
  }

  /** The loop over the users of one cell, skipping those the filter refuses. */
  method CellEndpoints(filter: CoordinateDataFilter, users: Users) returns (found: set<Endpoint>)
    ensures forall e :: e in found <==> CellYields(filter, users, e)
  {
    found := {};
    var todo := users.Keys;
    while todo != {}
      invariant todo <= users.Keys
      invariant forall e :: e in found <==>
        exists u :: u in users && u !in todo && filter.includeUser(u) && UserYields(filter, users[u], e)
      decreases todo
    {
      var u :| u in todo;
      if filter.includeUser(u) {
        var more := UserEndpoints(filter, users[u]);
        found := found + more;
      }
      todo := todo - {u};
    }
  }

  // ---------------------------------------------------------------------------
  // The listener registry

  /** A listener, known by its identity. */
  type Listener = nat

  /** The dynamic expression a listener follows; `id` tells apart the ones created. */
  datatype DynamicExpression = DynamicExpression(id: nat, expression: string)

  /**
   * The map from listener to its dynamic expression, the ids of the
   * expressions that have been started and not stopped, and the next id.
   */
  datatype Registry = Registry(byListener: map<Listener, DynamicExpression>, running: set<nat>, nextId: nat)

  datatype RegistryError =
    | DuplicateListener  // "It is not legal to register a listener twice."
    | UnknownListener    // "Do not have the listener in my list."

  /**
   * Every running expression belongs to exactly one registered listener and
   * every registered listener's expression is running, so removing the
   * listeners stops them all.
   */
  ghost predicate Tracked(reg: Registry) {
    && (forall l :: l in reg.byListener ==>
          reg.byListener[l].id in reg.running && reg.byListener[l].id < reg.nextId)
    && (forall id :: id in reg.running ==> exists l :: l in reg.byListener && reg.byListener[l].id == id)
    && (forall l, m :: l in reg.byListener && m in reg.byListener && l != m ==>
          reg.byListener[l].id != reg.byListener[m].id)
  }

  function EmptyRegistry(): (reg: Registry)
    ensures Tracked(reg) && reg.byListener == map[]
  {
    Registry(map[], {}, 0)
  }

  /**
   * `addResolverListener` as written: the new expression is put in the map
   * before the duplicate check, so a second registration replaces the entry
   * (with an expression that is never started) and then fails.
   */
  function RegisterAsWritten(reg: Registry, listener: Listener, expression: string)
    : (r: (Registry, Outcome<RegistryError>))
    ensures r.1.Fail? <==> listener in reg.byListener
    ensures r.0.byListener == reg.byListener[listener := DynamicExpression(reg.nextId, expression)]
    ensures r.0.running == if listener in reg.byListener then reg.running else reg.running + {reg.nextId}
  {
    var created := DynamicExpression(reg.nextId, expression);
    var byListener := reg.byListener[listener := created];
    if listener in reg.byListener then
      (Registry(byListener, reg.running, reg.nextId + 1), Fail(DuplicateListener))
    else
      (Registry(byListener, reg.running + {created.id}, reg.nextId + 1), Pass)
  }

  /**
   * `addResolverListener` with the check made before the map changes: a
   * duplicate leaves the registry as it was; otherwise the listener gets a
   * fresh expression, which is started.
   */
  function Register(reg: Registry, listener: Listener, expression: string)
    : (r: (Registry, Outcome<RegistryError>))
    ensures listener in reg.byListener ==> r == (reg, Fail(DuplicateListener))
    ensures listener !in reg.byListener ==>
      && r.1 == Pass
      && r.0.byListener == reg.byListener[listener := DynamicExpression(reg.nextId, expression)]
      && r.0.running == reg.running + {reg.nextId}
  {
    if listener in reg.byListener then (reg, Fail(DuplicateListener))
    else
      var created := DynamicExpression(reg.nextId, expression);
      (Registry(reg.byListener[listener := created], reg.running + {created.id}, reg.nextId + 1), Pass)
  }

  /**
   * `removeResolverListener`: an unknown listener is an error; a known one is
   * removed and its expression stopped.
   */
  function Unregister(reg: Registry, listener: Listener): (r: (Registry, Outcome<RegistryError>))
    ensures listener !in reg.byListener ==> r == (reg, Fail(UnknownListener))
    ensures listener in reg.byListener ==>
      && r.1 == Pass
      && r.0.byListener == reg.byListener - {listener}
      && r.0.running == reg.running - {reg.byListener[listener].id}
  {
    if listener !in reg.byListener then (reg, Fail(UnknownListener))
    else (Registry(reg.byListener - {listener}, reg.running - {reg.byListener[listener].id}, reg.nextId), Pass)
  }

  lemma RegisterKeepsTracked(reg: Registry, listener: Listener, expression: string)
    requires Tracked(reg)
    ensures Tracked(Register(reg, listener, expression).0)
  {
    var r := Register(reg, listener, expression).0;
    if listener !in reg.byListener {
      forall id | id in r.running
        ensures exists l :: l in r.byListener && r.byListener[l].id == id
      {
        if id == reg.nextId {
          assert r.byListener[listener].id == id;
        } else {
          var l :| l in reg.byListener && reg.byListener[l].id == id;
          assert r.byListener[l].id == id;
        }
      }
    }
  }

  lemma UnregisterKeepsTracked(reg: Registry, listener: Listener)
    requires Tracked(reg)
    ensures Tracked(Unregister(reg, listener).0)
  {
    var r := Unregister(reg, listener).0;
    if listener in reg.byListener {
      var gone := reg.byListener[listener].id;
      forall id | id in r.running
        ensures exists l :: l in r.byListener && r.byListener[l].id == id
      {
        var l :| l in reg.byListener && reg.byListener[l].id == id;
        assert l != listener;
        assert r.byListener[l].id == id;
      }
    }
  }

  /** Removing a listener right after adding it restores the registry, but for the id counter. */
  lemma RegisterThenUnregister(reg: Registry, listener: Listener, expression: string)
    requires Tracked(reg) && listener !in reg.byListener
    ensures var r := Unregister(Register(reg, listener, expression).0, listener);
      r.1 == Pass && r.0.byListener == reg.byListener && r.0.running == reg.running
  {
    var r := Unregister(Register(reg, listener, expression).0, listener);
    assert reg.nextId !in reg.running;
    assert r.0.byListener == reg.byListener;
  }

  /**
   * The registration as written loses track of an expression: registering
   * a listener a second time leaves its first expression running with no
   * entry that points to it, and removing the listener then stops only the
   * never-started replacement.
   */
  lemma AsWrittenDuplicateOrphans(reg: Registry, listener: Listener, expression: string)
    requires Tracked(reg) && listener in reg.byListener
    ensures var first := reg.byListener[listener].id;
      var r := RegisterAsWritten(reg, listener, expression).0;
      && first in r.running
      && (forall l :: l in r.byListener ==> r.byListener[l].id != first)
      && !Tracked(r)
      && first in Unregister(r, listener).0.running
  {
    var first := reg.byListener[listener].id;
    var r := RegisterAsWritten(reg, listener, expression).0;
    forall l | l in r.byListener
      ensures r.byListener[l].id != first
    {
      if l != listener {
        assert reg.byListener[l].id != first;
      }
    }
  }

  /** The smallest case: listener 7 added twice from an empty registry, then removed. */
  lemma DuplicateRegistrationLeaks()
    ensures var once := RegisterAsWritten(EmptyRegistry(), 7, "any.svc.user.cell");
      var twice := RegisterAsWritten(once.0, 7, "any.svc.user.cell");
      var removed := Unregister(twice.0, 7);
      && once.1 == Pass && twice.1 == Fail(DuplicateListener) && removed.1 == Pass
      && removed.0.byListener == map[] && removed.0.running == {0}
  {
  }

  /** With the check made first, a duplicate registration changes nothing. */
  lemma CorrectedDuplicateKeepsTracked(reg: Registry, listener: Listener, expression: string)
    requires Tracked(reg) && listener in reg.byListener
    ensures Register(reg, listener, expression).0 == reg
    ensures Tracked(Register(reg, listener, expression).0)
  {
  }

  // ---------------------------------------------------------------------------
  // The resolver object

  class ZkResolver {
    /** The strategies the builder registered, by name. */
    const strategies: map<string, Strategy>
    var registry: Registry

    ghost predicate Valid()
      reads this
    {
      Tracked(registry)
    }

    constructor(strategies: map<string, Strategy>)
      ensures Valid() && this.strategies == strategies && registry == EmptyRegistry()
    {
      this.strategies := strategies;
      registry := EmptyRegistry();
    }

    /** `addResolverListener`, with the duplicate check made before the map changes. */
    method AddResolverListener(expression: string, listener: Listener) returns (outcome: Outcome<RegistryError>)
      requires Valid()
      modifies this
      ensures Valid()
      ensures (registry, outcome) == Register(old(registry), listener, expression)
    {
      if listener in registry.byListener {
        return Fail(DuplicateListener);
      }
      var created := DynamicExpression(registry.nextId, expression);
      RegisterKeepsTracked(registry, listener, expression);
      registry := registry.(byListener := registry.byListener[listener := created], nextId := registry.nextId + 1);
      // start the expression
      registry := registry.(running := registry.running + {created.id});
      outcome := Pass;
    }

    /** `removeResolverListener`: removes the listener and stops its expression. */
    method RemoveResolverListener(listener: Listener) returns (outcome: Outcome<RegistryError>)
      requires Valid()
      modifies this
      ensures Valid()
      ensures (registry, outcome) == Unregister(old(registry), listener)
    {
      if listener !in registry.byListener {
        return Fail(UnknownListener);
      }
      var expression := registry.byListener[listener];
      UnregisterKeepsTracked(registry, listener);
      registry := registry.(byListener := registry.byListener - {listener});
      // stop the expression
      registry := registry.(running := registry.running - {expression.id});
      outcome := Pass;
    }

    /** `connectionUp`: every registered listener is told CONNECTION_OK, once. */
    method ConnectionUp() returns (sent: seq<(Listener, ResolverEvent)>)
      ensures Fanout.Delivers(sent, registry.byListener.Keys, CONNECTION_OK)
    {
      sent := Fanout.Broadcast(registry.byListener.Keys, CONNECTION_OK);
    }

    /** `connectionDown`: every registered listener is told LOST_CONNECTION, once. */
    method ConnectionDown() returns (sent: seq<(Listener, ResolverEvent)>)
      ensures Fanout.Delivers(sent, registry.byListener.Keys, LOST_CONNECTION)
    {
      sent := Fanout.Broadcast(registry.byListener.Keys, LOST_CONNECTION);
    }

    /** `getInstances`: reads every child of the service node as an integer. */
    method GetInstances(ns: Namespace, cell: string, user: string, service: string)
      returns (r: Result<seq<int>, ResolveError>)
      ensures r == ChildInstances(ns, cell, user, service)
    {
      var found := ServiceDirOf(ns, cell, user, service);
      if found.None? {
        return Failure(MissingPath);
      }
      var dir := found.value;
      var numbers: seq<int> := [];
      for i := 0 to |dir|
        invariant InstanceNumbers(dir[..i]) == Success(numbers)
      {
        assert dir[..i + 1][..i] == dir[..i];
        var n := ParseInt(dir[i].name);
        if n.None? {
          InstanceNumbersFailureSticks(dir[..i + 1], dir[i + 1..]);
          PrefixAndRest(dir, i + 1);
          return Failure(BadInstanceName(dir[i].name));
        }
        numbers := numbers + [n.value];
      }
      assert dir[..|dir|] == dir;
      r := Success(numbers);
    }

    /** `resolveInstances`: the named instance, or the service's listing. */
    method ResolveInstances(p: Parameters, ns: Namespace) returns (r: Result<seq<int>, ResolveError>)
      ensures r == InstancesToResolve(p, ns)
    {
      if p.instance > -1 {
        r := Success([p.instance]);
      } else {
        r := GetInstances(ns, p.cell, p.user, p.service);
      }
    }

    /**
     * The loop of `resolve`: reads the status node of each chosen instance
     * and appends what its snapshot offers.
     */
    method CollectEndpoints(ns: Namespace, p: Parameters, instances: seq<int>)
      returns (r: Result<seq<Endpoint>, ResolveError>)
      ensures r == Gather(StatusLookup(ns, p), p.endpointName, instances)
    {
      var endpoints := new EndpointList();
      ghost var status := StatusLookup(ns, p);
      for i := 0 to |instances|
        invariant Gather(status, p.endpointName, instances[..i]) == Success(endpoints.items)
      {
        var n := instances[i];
        assert instances[..i + 1][..i] == instances[..i];
        assert Gather(status, p.endpointName, instances[..i + 1])
          == GatherStep(status, p.endpointName, Success(endpoints.items), n);
        var found := StatusOf(ns, p, n);
        assert status(n) == found;
        if found.None? || found.value.Unclaimed? {
          continue;
        }
        if found.value.Corrupted? {
          GatherFailureSticks(status, p.endpointName, instances[..i + 1], instances[i + 1..]);
          PrefixAndRest(instances, i + 1);
          return Failure(UnreadableStatus(n));
        }
        AddEndpoints(found.value.snapshot, endpoints, p.endpointName);
      }
      assert instances[..|instances|] == instances;
      r := Success(endpoints.items);
    }

    /**
     * `resolve`: parses the expression, reads the chosen instances' status
     * nodes through the session `zk`, and applies the strategy, if any.
     */
    method Resolve(expression: string, zk: Option<Namespace>) returns (r: Result<seq<Endpoint>, ResolveError>)
      ensures r == ResolveSpec(strategies, expression, zk)
    {
      var parsed := Parse(expression);
      if parsed.Failure? {
        return Failure(BadExpression(parsed.error));
      }
      var p := parsed.value;
      if zk.None? {
        return Failure(NoConnection);
      }
      var ns := zk.value;
      var chosen := ResolveInstances(p, ns);
      if chosen.Failure? {
        return Failure(chosen.error);
      }
      var collected := CollectEndpoints(ns, p, chosen.value);
      if collected.Failure? {
        return Failure(collected.error);
      }
      r := ApplyStrategy(strategies, p.strategy, collected.value);
    }

    /**
     * `getEndpoints`: every endpoint under /cn that the filter lets through
     * at each level. Without a session the call fails, as it does when /cn
     * is missing.
     */
    method GetEndpoints(filter: CoordinateDataFilter, zk: Option<Namespace>)
      returns (r: Result<set<Endpoint>, ResolveError>)
      ensures zk.None? ==> r == Failure(NoConnection)
      ensures zk == Some(NoRoot) ==> r == Failure(MissingPath)
      ensures zk.Some? && zk.value.Root? ==>
        r.Success? && forall e :: e in r.value <==> Included(filter, zk.value.cells, e)
    {
      if zk.None? {
        return Failure(NoConnection);
      }
      if zk.value.NoRoot? {
        return Failure(MissingPath);
      }
      var cells := zk.value.cells;
      var found: set<Endpoint> := {};
      var todo := cells.Keys;
      while todo != {}
        invariant todo <= cells.Keys
        invariant forall e :: e in found <==>
          exists c :: c in cells && c !in todo && filter.includeCell(c) && CellYields(filter, cells[c], e)
        decreases todo
      {
        var c :| c in todo;
        if filter.includeCell(c) {
          var more := CellEndpoints(filter, cells[c]);
          found := found + more;
        }
        todo := todo - {c};
      }
      r := Success(found);
    }
  }
}
