/**
 * Port selection over resolved endpoints. `split` and `join` stand for
 * net.SplitHostPort and net.JoinHostPort.
 */
module EndpointFilter {
  import opened Wrappers
  import opened Texts
  import opened Ordering

  datatype PortSelector = PortSelector(numeric: int, name: string)
  {
    predicate IsNumeric() { numeric > 0 }
    predicate IsNamed() { name != "" }
    predicate IsEmpty() { numeric == 0 && name == "" }
  }

  type Split = string -> Option<(string, string)>
  type Join = (string, string) -> string

  // ------------------------------------------------------------ sorted, unique

  lemma BeforeIsStrict()
    ensures Strict(Before)
  {
    forall a: string ensures !Before(a, a) {
      BeforeIrreflexive(a);
    }
    forall a: string, b: string, c: string | Before(a, b) && Before(b, c) ensures Before(a, c) {
      BeforeTransitive(a, b, c);
    }
  }

  lemma DistinctTextsCompare(xs: seq<string>)
    requires forall i, j :: 0 <= i < j < |xs| ==> xs[i] != xs[j]
    ensures Comparable(xs, Before)
  {
    forall i, j | 0 <= i < j < |xs| ensures Before(xs[i], xs[j]) || Before(xs[j], xs[i]) {
      BeforeTotal(xs[i], xs[j]);
    }
  }

  /** `r` is the elements of `s`, strictly increasing. */
  ghost predicate SortedElements(r: seq<string>, s: set<string>) {
    Increasing(r, Before) && forall x :: x in r <==> x in s
  }

  lemma {:induction false} IncreasingCounts(r: seq<string>, x: string)
    requires Increasing(r, Before)
    ensures multiset(r)[x] == if x in r then 1 else 0
    decreases |r|
  {
    BeforeIsStrict();
    if r != [] {
      var init, last := r[..|r| - 1], r[|r| - 1];
      IncreasingCounts(init, x);
      assert r == init + [last];
      assert last !in init;
    }
  }

  /** A set has one sorted list. */
  lemma SortedElementsUnique(a: seq<string>, b: seq<string>, s: set<string>)
    requires SortedElements(a, s) && SortedElements(b, s)
    ensures a == b
  {
    BeforeIsStrict();
    forall x ensures multiset(a)[x] == multiset(b)[x] {
      IncreasingCounts(a, x);
      IncreasingCounts(b, x);
    }
    assert multiset(a) == multiset(b);
    IncreasingUnique(a, b, Before);
  }

  /** Collects the set in whatever order the map yields it, then sorts. */
  method SortUnique(seen: set<string>) returns (r: seq<string>)
    ensures SortedElements(r, seen)
  {
    var result: seq<string> := [];
    var rest := seen;
    while rest != {}
      invariant rest <= seen
      invariant forall x :: x in result <==> x in seen - rest
      invariant forall i, j :: 0 <= i < j < |result| ==> result[i] != result[j]
      decreases |rest|
    {
      var x :| x in rest;
      assert x !in result;
      result, rest := result + [x], rest - {x};
    }
    BeforeIsStrict();
    DistinctTextsCompare(result);
    SortIncreases(result, Before);
    SortPermutes(result, Before);
    r := Sort(result, Before);
    forall x ensures x in r <==> x in seen {
      assert x in r <==> x in multiset(r);
      assert x in result <==> x in multiset(result);
    }
  }

  // ---------------------------------------------------------------- filtering

  /** The address an endpoint contributes under a selector whose port reads `port`, if any. */
  function Contribution(ep: string, port: string, keepPort: bool, split: Split, join: Join): Option<string> {
    var parts := split(ep);
    if parts.None? || (keepPort && parts.value.1 != port) then None else Some(join(parts.value.0, port))
  }

  /** `address` is the host of some endpoint, joined with the port; with `keepPort`, of one on that port. */
  ghost predicate ComesFrom(address: string, endpoints: seq<string>, port: string, keepPort: bool, split: Split,
                            join: Join) {
    exists i :: 0 <= i < |endpoints| && ReadsAs(endpoints[i], address, port, keepPort, split, join)
  }

  ghost predicate ReadsAs(ep: string, address: string, port: string, keepPort: bool, split: Split, join: Join) {
    match split(ep)
    case None => false
    case Some((host, own)) => address == join(host, port) && (keepPort ==> own == port)
  }

  /** The addresses the endpoints contribute. */
  function Contributions(endpoints: set<string>, port: string, keepPort: bool, split: Split, join: Join): set<string> {
    set ep | ep in endpoints && Contribution(ep, port, keepPort, split, join).Some? ::
      Contribution(ep, port, keepPort, split, join).value
  }

  function Elements(xs: seq<string>): set<string> {
    set x | x in xs
  }

  method FilterByNumericPort(endpoints: seq<string>, port: int, split: Split, join: Join) returns (r: seq<string>)
    ensures SortedElements(r, Contributions(Elements(endpoints), Itoa(port), true, split, join))
  {
    var portStr := Itoa(port);
    var seen: set<string> := {};
    for i := 0 to |endpoints|
      invariant seen == Contributions(Elements(endpoints[..i]), portStr, true, split, join)
    {
      var ep := endpoints[i];
      OneMore(endpoints, i, portStr, true, split, join);
      var parts := split(ep);
      if parts.None? {
        continue;
      }
      if parts.value.1 == portStr {
        seen := seen + {join(parts.value.0, portStr)};
      }
    }
    assert endpoints[..|endpoints|] == endpoints;
    r := SortUnique(seen);
  }

  method FilterByNamedPort(endpoints: seq<string>, port: int, split: Split, join: Join) returns (r: seq<string>)
    ensures SortedElements(r, Contributions(Elements(endpoints), Itoa(port), false, split, join))
  {
    var portStr := Itoa(port);
    var seen: set<string> := {};
    for i := 0 to |endpoints|
      invariant seen == Contributions(Elements(endpoints[..i]), portStr, false, split, join)
    {
      OneMore(endpoints, i, portStr, false, split, join);
      var parts := split(endpoints[i]);
      if parts.None? {
        continue;
      }
      seen := seen + {join(parts.value.0, portStr)};
    }
    assert endpoints[..|endpoints|] == endpoints;
    r := SortUnique(seen);
  }

  lemma OneMore(endpoints: seq<string>, i: nat, port: string, keepPort: bool, split: Split, join: Join)
    requires i < |endpoints|
    ensures var c := Contribution(endpoints[i], port, keepPort, split, join);
            Contributions(Elements(endpoints[..i + 1]), port, keepPort, split, join)
            == Contributions(Elements(endpoints[..i]), port, keepPort, split, join) + (if c.Some? then {c.value} else {})
  {
    assert Elements(endpoints[..i + 1]) == Elements(endpoints[..i]) + {endpoints[i]} by {
      assert endpoints[..i + 1] == endpoints[..i] + [endpoints[i]];
    }
  }

  datatype FilterError = PortNotFound(name: string)

  /** What filtering the endpoints under a selector gives. */
  ghost predicate Filtered(endpoints: seq<string>, ports: map<string, int>, ps: PortSelector, split: Split, join: Join,
                           r: Result<seq<string>, FilterError>) {
    if endpoints == [] then r == Ok([])
    else if ps.IsNumeric() then
      r.Ok? && SortedElements(r.value, Contributions(Elements(endpoints), Itoa(ps.numeric), true, split, join))
    else if ps.IsNamed() then
      if ps.name !in ports then r == Err(PortNotFound(ps.name))
      else
        r.Ok? && SortedElements(r.value, Contributions(Elements(endpoints), Itoa(ports[ps.name]), false, split, join))
    else r == Ok(endpoints)
  }

  method FilterEndpoints(endpoints: seq<string>, ports: map<string, int>, ps: PortSelector, split: Split, join: Join)
    returns (r: Result<seq<string>, FilterError>)
    ensures Filtered(endpoints, ports, ps, split, join, r)
  {
    if |endpoints| == 0 {
      return Ok([]);
    }
    if ps.IsNumeric() {
      var result := FilterByNumericPort(endpoints, ps.numeric, split, join);
      return Ok(result);
    }
    if ps.IsNamed() {
      if ps.name !in ports {
        return Err(PortNotFound(ps.name));
      }
      var result := FilterByNamedPort(endpoints, ports[ps.name], split, join);
      return Ok(result);
    }
    r := Ok(endpoints);
  }

  lemma {:induction false} ContributedIff(endpoints: seq<string>, port: string, keepPort: bool, split: Split,
                                          join: Join, address: string)
    ensures address in Contributions(Elements(endpoints), port, keepPort, split, join)
       <==> ComesFrom(address, endpoints, port, keepPort, split, join)
  {
    if ComesFrom(address, endpoints, port, keepPort, split, join) {
      var i :| 0 <= i < |endpoints| && ReadsAs(endpoints[i], address, port, keepPort, split, join);
      assert endpoints[i] in Elements(endpoints);
      assert Contribution(endpoints[i], port, keepPort, split, join) == Some(address);
    }
    if address in Contributions(Elements(endpoints), port, keepPort, split, join) {
      var ep :| ep in Elements(endpoints) && Contribution(ep, port, keepPort, split, join) == Some(address);
      var i :| 0 <= i < |endpoints| && endpoints[i] == ep;
      assert ReadsAs(endpoints[i], address, port, keepPort, split, join);
    }
  }

  /**
   * What a filtered list holds: under a number, the addresses of the endpoints on
   * that port and of no others; under a name, the hosts of all readable endpoints
   * on the port of that name.
   */
  lemma {:induction false} FilteredHolds(endpoints: seq<string>, ports: map<string, int>, ps: PortSelector, split: Split,
                                         join: Join, list: seq<string>, address: string)
    requires Filtered(endpoints, ports, ps, split, join, Ok(list)) && (ps.numeric > 0 || ps.name != "")
    ensures ps.numeric > 0 ==>
              (address in list <==> ComesFrom(address, endpoints, Itoa(ps.numeric), true, split, join))
    ensures ps.numeric <= 0 ==>
              (address in list <==> endpoints != [] && ps.name in ports &&
                                    ComesFrom(address, endpoints, Itoa(ports[ps.name]), false, split, join))
  {
    if ps.numeric > 0 {
      ContributedIff(endpoints, Itoa(ps.numeric), true, split, join, address);
    } else if ps.name in ports {
      ContributedIff(endpoints, Itoa(ports[ps.name]), false, split, join, address);
    }
  }

  /** Under a selector that names a port, a permuted or duplicated reply filters to the same list. */
  lemma FilterDependsOnTheSet(a: seq<string>, b: seq<string>, ports: map<string, int>, ps: PortSelector, split: Split,
                              join: Join, r: Result<seq<string>, FilterError>, q: Result<seq<string>, FilterError>)
    requires Filtered(a, ports, ps, split, join, r) && Filtered(b, ports, ps, split, join, q)
    requires Elements(a) == Elements(b) && (ps.IsNumeric() || ps.IsNamed())
    ensures r == q
    ensures r.Ok? ==> Increasing(r.value, Before)
  {
    EmptyElements(a);
    EmptyElements(b);
    if a != [] && r.Ok? {
      var port := if ps.IsNumeric() then Itoa(ps.numeric) else Itoa(ports[ps.name]);
      SortedElementsUnique(r.value, q.value, Contributions(Elements(a), port, ps.IsNumeric(), split, join));
    }
  }

  lemma EmptyElements(xs: seq<string>)
    ensures Elements(xs) == {} <==> xs == []
  {
    if xs != [] {
      assert xs[0] in Elements(xs);
    }
  }

  /** Without a port the reply is passed on in its own order. */
  lemma EmptySelectorKeepsTheOrder(a: string, b: string, ports: map<string, int>, split: Split, join: Join)
    requires a != b
    ensures var ps := PortSelector(0, "");
            && Filtered([a, b], ports, ps, split, join, Ok([a, b]))
            && Filtered([b, a], ports, ps, split, join, Ok([b, a]))
            && Elements([a, b]) == Elements([b, a]) && [a, b] != [b, a]
  {
    assert [a, b][0] != [b, a][0];
  }
}
