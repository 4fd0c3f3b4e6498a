/** The function names advertised for the tools of connected MCP servers, and the three
    views of them that must agree: the specs, the lookup and the count. */
module ToolTable {
  import opened Text

  const MAX_NAME := 64

  datatype Tool = Tool(name: string, description: string, schema: string)

  datatype Server = Server(name: string, tools: seq<Tool>)

  /** A tool and the server that offers it. */
  datatype Offer = Offer(server: string, tool: Tool)

  datatype Spec = Spec(name: string, description: string, parameters: string)

  predicate IsNameChar(c: char) {
    'a' <= c <= 'z' || 'A' <= c <= 'Z' || '0' <= c <= '9' || c == '_' || c == '-'
  }

  function Mapped(s: string): (r: string)
    ensures |r| == |s| && forall k :: 0 <= k < |r| ==> r[k] == if IsNameChar(s[k]) then s[k] else '_'
  {
    seq(|s|, k requires 0 <= k < |s| => if IsNameChar(s[k]) then s[k] else '_')
  }

  /** What providers accept as a function name: 64 letters, digits, `_` or `-` at most. */
  function Sanitized(s: string): (r: string)
    ensures |r| <= 64 && forall k :: 0 <= k < |r| ==> IsNameChar(r[k])
    ensures |s| <= 64 && (forall k :: 0 <= k < |s| ==> IsNameChar(s[k])) ==> r == s
  {
    if |s| <= MAX_NAME then Mapped(s) else Mapped(s)[..MAX_NAME]
  }

  function QualifiedName(server: string, tool: string): string {
    Sanitized("mcp__" + server + "__" + tool)
  }

  function NameOf(o: Offer): string {
    QualifiedName(o.server, o.tool.name)
  }

  function SpecOf(o: Offer): Spec {
    Spec(NameOf(o), o.tool.description, o.tool.schema)
  }

  /** The name says which server and which tool, as far as 64 characters go and with every
      character a provider refuses written `_`. */
  lemma QualifiedNameShape(server: string, tool: string)
    ensures var full, name := "mcp__" + server + "__" + tool, QualifiedName(server, tool);
      && |name| == (if |full| < 64 then |full| else 64)
      && forall k | 0 <= k < |name| :: name[k] == if IsNameChar(full[k]) then full[k] else '_'
  {
  }

  // ---- all offers, in the table's order ----

  function OffersOf(server: string, tools: seq<Tool>): seq<Offer> {
    if tools == [] then [] else [Offer(server, tools[0])] + OffersOf(server, tools[1..])
  }

  function Offers(servers: seq<Server>): seq<Offer> {
    if servers == [] then [] else OffersOf(servers[0].name, servers[0].tools) + Offers(servers[1..])
  }

  function FirstNamed(offers: seq<Offer>, name: string): (r: Option<Offer>)
    ensures r.Some? ==> r.value in offers && NameOf(r.value) == name
    ensures r.None? <==> forall o :: o in offers ==> NameOf(o) != name
  {
    if offers == [] then None
    else if NameOf(offers[0]) == name then Some(offers[0])
    else FirstNamed(offers[1..], name)
  }

  /** `lookup`: the first server, and its first tool, whose advertised name is `name`. */
  function LookupIn(server: string, tools: seq<Tool>, name: string): Option<Offer> {
    if tools == [] then None
    else if QualifiedName(server, tools[0].name) == name then Some(Offer(server, tools[0]))
    else LookupIn(server, tools[1..], name)
  }

  function Lookup(servers: seq<Server>, name: string): Option<Offer> {
    if servers == [] then None else
    var here := LookupIn(servers[0].name, servers[0].tools, name);
    if here.Some? then here else Lookup(servers[1..], name)
  }

  predicate Handles(servers: seq<Server>, name: string) {
    Lookup(servers, name).Some?
  }

  lemma {:induction false} FirstNamedConcat(a: seq<Offer>, b: seq<Offer>, name: string)
    ensures FirstNamed(a + b, name) == if FirstNamed(a, name).Some? then FirstNamed(a, name) else FirstNamed(b, name)
  {
    hide NameOf;
    if a == [] {
      assert a + b == b;
    } else {
      assert (a + b)[0] == a[0] && (a + b)[1..] == a[1..] + b;
      FirstNamedConcat(a[1..], b, name);
    }
  }

  lemma {:induction false} LookupInIsFirst(server: string, tools: seq<Tool>, name: string)
    ensures LookupIn(server, tools, name) == FirstNamed(OffersOf(server, tools), name)
  {
    hide QualifiedName;
    if tools != [] { LookupInIsFirst(server, tools[1..], name); }
  }

  lemma {:induction false} LookupIsFirst(servers: seq<Server>, name: string)
    ensures Lookup(servers, name) == FirstNamed(Offers(servers), name)
  {
    hide NameOf, QualifiedName;
    if servers != [] {
      LookupInIsFirst(servers[0].name, servers[0].tools, name);
      LookupIsFirst(servers[1..], name);
      FirstNamedConcat(OffersOf(servers[0].name, servers[0].tools), Offers(servers[1..]), name);
    }
  }

  // ---- the advertised offers: the first of each name ----

  function Fresh(offers: seq<Offer>, seen: set<string>): seq<Offer> {
    if offers == [] then []
    else if NameOf(offers[0]) in seen then Fresh(offers[1..], seen)
    else [offers[0]] + Fresh(offers[1..], seen + {NameOf(offers[0])})
  }

  predicate DistinctNames(offers: seq<Offer>) {
    forall i, j | 0 <= i < j < |offers| :: NameOf(offers[i]) != NameOf(offers[j])
  }

  lemma {:induction false} FreshSpec(offers: seq<Offer>, seen: set<string>)
    ensures DistinctNames(Fresh(offers, seen))
    ensures forall o | o in Fresh(offers, seen) :: NameOf(o) !in seen && FirstNamed(offers, NameOf(o)) == Some(o)
    ensures forall o | o in offers && NameOf(o) !in seen :: exists f :: f in Fresh(offers, seen) && NameOf(f) == NameOf(o)
  {
    hide NameOf;
    if offers != [] {
      var n := NameOf(offers[0]);
      var next := if n in seen then seen else seen + {n};
      FreshSpec(offers[1..], next);
      var rest := Fresh(offers[1..], next);
      forall o | o in Fresh(offers, seen) ensures NameOf(o) !in seen && FirstNamed(offers, NameOf(o)) == Some(o) {
        assert o in rest || o == offers[0];
      }
      forall o | o in offers && NameOf(o) !in seen
        ensures exists f :: f in Fresh(offers, seen) && NameOf(f) == NameOf(o)
      {
        if NameOf(o) == n {
          assert offers[0] in Fresh(offers, seen);
        } else {
          assert o in offers[1..];
          var f :| f in rest && NameOf(f) == NameOf(o);
          assert f in Fresh(offers, seen);
        }
      }
    }
  }

  function Advertised(servers: seq<Server>): seq<Offer> {
    Fresh(Offers(servers), {})
  }

  function SpecsOf(offers: seq<Offer>): (r: seq<Spec>)
    ensures |r| == |offers| && forall k :: 0 <= k < |r| ==> r[k] == SpecOf(offers[k])
  {
    seq(|offers|, k requires 0 <= k < |offers| => SpecOf(offers[k]))
  }

  lemma NextServer(servers: seq<Server>, i: nat)
    requires i < |servers|
    ensures Offers(servers[i..]) == OffersOf(servers[i].name, servers[i].tools) + Offers(servers[i + 1..])
    ensures OffersOf(servers[i].name, []) + Offers(servers[i + 1..]) == Offers(servers[i + 1..])
  {
    assert servers[i..][0] == servers[i] && servers[i..][1..] == servers[i + 1..];
  }

  lemma NoneFresh(kept: seq<Offer>, seen: set<string>)
    ensures kept + Fresh(Offers([]), seen) == kept
  {
  }

  method Specs(servers: seq<Server>) returns (specs: seq<Spec>)
    ensures specs == SpecsOf(Advertised(servers))
  {
    hide NameOf, SpecOf, QualifiedName, Offers, OffersOf, Fresh;
    assert servers[0..] == servers && [] + Fresh(Offers(servers), {}) == Fresh(Offers(servers), {});
    ghost var kept: seq<Offer> := [];
    var seen: set<string> := {};
    specs := [];
    for i := 0 to |servers|
      invariant specs == SpecsOf(kept)
      invariant Advertised(servers) == kept + Fresh(Offers(servers[i..]), seen)
    {
      var s := servers[i];
      ghost var later := Offers(servers[i + 1..]);
      NextServer(servers, i);
      assert s.tools[0..] == s.tools;
      for j := 0 to |s.tools|
        invariant specs == SpecsOf(kept)
        invariant Advertised(servers) == kept + Fresh(OffersOf(s.name, s.tools[j..]) + later, seen)
      {
        var o := Offer(s.name, s.tools[j]);
        OfferStep(s.name, s.tools, j, later, seen, kept);
        if NameOf(o) !in seen {
          seen := seen + {NameOf(o)};
          specs := specs + [SpecOf(o)];
          kept := kept + [o];
        }
      }
      assert s.tools[|s.tools|..] == [];
    }
    assert servers[|servers|..] == [];
    NoneFresh(kept, seen);
  }

  lemma OfferStep(server: string, tools: seq<Tool>, j: nat, later: seq<Offer>, seen: set<string>, kept: seq<Offer>)
    requires j < |tools|
    ensures var o := Offer(server, tools[j]);
      kept + Fresh(OffersOf(server, tools[j..]) + later, seen) ==
        if NameOf(o) in seen then kept + Fresh(OffersOf(server, tools[j + 1..]) + later, seen)
        else kept + [o] + Fresh(OffersOf(server, tools[j + 1..]) + later, seen + {NameOf(o)})
  {
    hide NameOf;
    var all := OffersOf(server, tools[j..]) + later;
    assert tools[j..][1..] == tools[j + 1..];
    assert all[0] == Offer(server, tools[j]) && all[1..] == OffersOf(server, tools[j + 1..]) + later;
    ConcatAssoc(kept, [all[0]], Fresh(all[1..], seen + {NameOf(all[0])}));
  }

  function EnabledNames(offers: seq<Offer>, disabled: set<string>): set<string> {
    set o | o in offers && NameOf(o) !in disabled :: NameOf(o)
  }

  lemma NoneEnabled(disabled: set<string>)
    ensures EnabledNames(Offers([]), disabled) == {}
  {
  }

  /** `available_tool_count`: names not disabled, each once. */
  method AvailableToolCount(servers: seq<Server>, disabled: set<string>) returns (n: nat)
    ensures n == |EnabledNames(Offers(servers), disabled)|
  {
    hide NameOf, QualifiedName, EnabledNames, Offers, OffersOf;
    NoneEnabled(disabled);
    assert servers[0..] == servers;
    var seen: set<string> := {};
    n := 0;
    for i := 0 to |servers|
      invariant n == |seen|
      invariant EnabledNames(Offers(servers), disabled) == seen + EnabledNames(Offers(servers[i..]), disabled)
    {
      var s := servers[i];
      ghost var later := Offers(servers[i + 1..]);
      NextServer(servers, i);
      assert s.tools[0..] == s.tools;
      for j := 0 to |s.tools|
        invariant n == |seen|
        invariant EnabledNames(Offers(servers), disabled) == seen + EnabledNames(OffersOf(s.name, s.tools[j..]) + later, disabled)
      {
        var name := QualifiedName(s.name, s.tools[j].name);
        EnabledStep(s.name, s.tools, j, later, disabled);
        if name !in disabled && name !in seen {
          seen := seen + {name};
          n := n + 1;
        }
      }
      assert s.tools[|s.tools|..] == [];
    }
    assert servers[|servers|..] == [];
  }

  lemma EnabledStep(server: string, tools: seq<Tool>, j: nat, later: seq<Offer>, disabled: set<string>)
    requires j < |tools|
    ensures var n := QualifiedName(server, tools[j].name);
      EnabledNames(OffersOf(server, tools[j..]) + later, disabled) ==
        (if n in disabled then {} else {n}) + EnabledNames(OffersOf(server, tools[j + 1..]) + later, disabled)
  {
    hide QualifiedName;
    var all := OffersOf(server, tools[j..]) + later;
    var o := Offer(server, tools[j]);
    assert tools[j..][1..] == tools[j + 1..];
    assert all == [o] + (OffersOf(server, tools[j + 1..]) + later);
    assert NameOf(o) == QualifiedName(server, tools[j].name);
  }

  // ---- the three views agree ----

  /** Advertised names are unique; a name is handled exactly when it is advertised; and the
      lookup of an advertised name is the very tool advertised under it, collisions or not. */
  lemma ViewsAgree(servers: seq<Server>)
    ensures DistinctNames(Advertised(servers))
    ensures forall name :: Handles(servers, name) <==> exists o :: o in Advertised(servers) && NameOf(o) == name
    ensures forall o | o in Advertised(servers) :: Lookup(servers, NameOf(o)) == Some(o)
  {
    hide NameOf;
    FreshSpec(Offers(servers), {});
    forall name ensures Lookup(servers, name) == FirstNamed(Offers(servers), name) {
      LookupIsFirst(servers, name);
    }
  }

  /** Each advertised spec describes the very tool that its name is routed to. */
  lemma SpecsDescribeTools(servers: seq<Server>, k: nat)
    requires k < |SpecsOf(Advertised(servers))|
    ensures var spec := SpecsOf(Advertised(servers))[k]; var offer := Lookup(servers, spec.name);
      offer.Some? && spec.description == offer.value.tool.description && spec.parameters == offer.value.tool.schema
  {
    hide NameOf, Advertised;
    ViewsAgree(servers);
    assert Advertised(servers)[k] in Advertised(servers);
  }

  lemma {:induction false} CountOfDistinct(offers: seq<Offer>)
    requires DistinctNames(offers)
    ensures |EnabledNames(offers, {})| == |offers|
  {
    hide NameOf;
    if offers == [] {
      assert EnabledNames(offers, {}) == {};
    } else {
      var rest := offers[1..];
      CountOfDistinct(rest);
      assert offers == [offers[0]] + rest;
      assert EnabledNames(offers, {}) == {NameOf(offers[0])} + EnabledNames(rest, {});
      assert NameOf(offers[0]) !in EnabledNames(rest, {});
    }
  }

  /** The count is of advertised names: those not disabled, and with nothing disabled as
      many as there are specs. */
  lemma CountIsNumberOfSpecs(servers: seq<Server>, disabled: set<string>)
    ensures EnabledNames(Offers(servers), disabled) == EnabledNames(Advertised(servers), disabled)
    ensures |EnabledNames(Offers(servers), {})| == |Advertised(servers)|
  {
    hide NameOf;
    FreshSpec(Offers(servers), {});
    CountOfDistinct(Advertised(servers));
    assert EnabledNames(Offers(servers), {}) == EnabledNames(Advertised(servers), {});
  }
}
