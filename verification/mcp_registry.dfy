/** The tool registry: two maps keyed by tool name, one for discovery records and one for
    handlers. */
module McpRegistry {
  import opened Wrappers
  import opened Json
  import opened McpTypes

  /** A tool handler's two return values: the result and, when it failed, the error text. */
  datatype ToolOutcome = ToolOutcome(result: CallToolResult, err: Option<string>)

  type ToolFunc = map<string, Value> -> ToolOutcome

  datatype Registry = Registry(tools: map<string, Tool>, handlers: map<string, ToolFunc>)
  {
    /** What registration keeps true: both maps have the same names, and every record is
        filed under its own name. */
    predicate Valid() {
      && tools.Keys == handlers.Keys
      && forall name :: name in tools ==> tools[name].name == name
    }
  }

  function NewRegistry(): (r: Registry)
    ensures r.Valid()
    ensures r.tools.Keys == {} && r.handlers.Keys == {}
  {
    Registry(map[], map[])
  }

  /** Files `t` and `h` under `t.name`, replacing whatever was there; every other name keeps
      its record and handler. */
  function Register(reg: Registry, t: Tool, h: ToolFunc): (r: Registry)
    ensures t.name in r.tools && r.tools[t.name] == t
    ensures t.name in r.handlers && r.handlers[t.name] == h
    ensures r.tools.Keys == reg.tools.Keys + {t.name}
    ensures r.handlers.Keys == reg.handlers.Keys + {t.name}
    ensures forall n :: n in reg.tools && n != t.name ==> r.tools[n] == reg.tools[n]
    ensures forall n :: n in reg.handlers && n != t.name ==> r.handlers[n] == reg.handlers[n]
    ensures reg.Valid() ==> r.Valid()
  {
    Registry(reg.tools[t.name := t], reg.handlers[t.name := h])
  }

  /** Registering the same name twice leaves only the second registration. */
  lemma RegisterLastWins(reg: Registry, t1: Tool, h1: ToolFunc, t2: Tool, h2: ToolFunc)
    requires t1.name == t2.name
    ensures Register(Register(reg, t1, h1), t2, h2) == Register(reg, t2, h2)
  {
  }

  /** `order` lists each name of `names` exactly once. */
  predicate IsEnumeration(order: seq<string>, names: set<string>) {
    && (forall i :: 0 <= i < |order| ==> order[i] in names)
    && (forall i, j :: 0 <= i < j < |order| ==> order[i] != order[j])
    && (forall n :: n in names ==> n in order)
  }

  /** The listing Go's map loop produces when it happens to visit names in `order`: the
      record of each visited name, in visiting order. */
  function ListToolsIn(reg: Registry, order: seq<string>): (r: seq<Tool>)
    ensures |r| <= |order|
    ensures (forall i :: 0 <= i < |order| ==> order[i] in reg.tools) ==>
              |r| == |order| && forall i :: 0 <= i < |order| ==> r[i] == reg.tools[order[i]]
  {
    if |order| == 0 then []
    else
      var last := order[|order| - 1];
      ListToolsIn(reg, order[..|order| - 1]) + (if last in reg.tools then [reg.tools[last]] else [])
  }

  lemma {:induction false} DistinctCardinality(order: seq<string>)
    requires forall i, j :: 0 <= i < j < |order| ==> order[i] != order[j]
    ensures |set i | 0 <= i < |order| :: order[i]| == |order|
  {
    if |order| > 0 {
      var init := order[..|order| - 1];
      DistinctCardinality(init);
      var s := set i | 0 <= i < |init| :: init[i];
      var t := set i | 0 <= i < |order| :: order[i];
      assert t == s + {order[|order| - 1]};
      assert order[|order| - 1] !in s;
    }
  }

  /** An enumeration of a registry's names has as many entries as there are names. */
  lemma EnumerationLength(order: seq<string>, names: set<string>)
    requires IsEnumeration(order, names)
    ensures |order| == |names|
  {
    DistinctCardinality(order);
    assert (set i | 0 <= i < |order| :: order[i]) == names;
  }

  /** Visiting every registered name once lists every record once: as many entries as
      names, only registered records, each record present, and, in a valid registry, no
      name twice. */
  lemma EnumerationListing(reg: Registry, order: seq<string>)
    requires IsEnumeration(order, reg.tools.Keys)
    ensures var r := ListToolsIn(reg, order);
      && |r| == |reg.tools.Keys|
      && (forall i :: 0 <= i < |r| ==> r[i] in reg.tools.Values)
      && (forall n :: n in reg.tools ==> reg.tools[n] in r)
      && (reg.Valid() ==> forall i, j :: 0 <= i < j < |r| ==> r[i].name != r[j].name)
  {
    EnumerationLength(order, reg.tools.Keys);
    var r := ListToolsIn(reg, order);
    forall n | n in reg.tools
      ensures reg.tools[n] in r
    {
      var i :| 0 <= i < |order| && order[i] == n;
      assert r[i] == reg.tools[n];
    }
  }

  /** Whatever order the map is visited in, a listing of a valid registry has one entry per
      registered name, each name exactly once, each entry the record filed under it. */
  lemma ListingIsPermutation(reg: Registry, order: seq<string>)
    requires reg.Valid() && IsEnumeration(order, reg.tools.Keys)
    ensures var r := ListToolsIn(reg, order);
      && |r| == |reg.tools.Keys|
      && (forall i :: 0 <= i < |r| ==> r[i].name in reg.tools && reg.tools[r[i].name] == r[i])
      && (forall i, j :: 0 <= i < j < |r| ==> r[i].name != r[j].name)
      && (forall n :: n in reg.tools ==> reg.tools[n] in r)
  {
    EnumerationListing(reg, order);
  }

  /** A new registry lists nothing, whatever names the loop is asked to visit. */
  lemma {:induction false} NewRegistryListsNothing(order: seq<string>)
    ensures ListToolsIn(NewRegistry(), order) == []
  {
    if |order| > 0 {
      NewRegistryListsNothing(order[..|order| - 1]);
    }
  }

  /** After registering `t`, every listing contains `t`. */
  lemma ListingAfterRegister(reg: Registry, t: Tool, h: ToolFunc, order: seq<string>)
    requires IsEnumeration(order, Register(reg, t, h).tools.Keys)
    ensures t in ListToolsIn(Register(reg, t, h), order)
  {
  }

  /** Visiting one more registered name appends its record to the listing. */
  lemma ListToolsInSnoc(reg: Registry, order: seq<string>, name: string)
    requires name in reg.tools
    ensures ListToolsIn(reg, order + [name]) == ListToolsIn(reg, order) + [reg.tools[name]]
  {
  }

  /** The registry's listing, visiting the names in an order the model does not fix (as Go's
      map iteration does not). `order` records the order that was taken. */
  method ListTools(reg: Registry) returns (r: seq<Tool>, ghost order: seq<string>)
    ensures IsEnumeration(order, reg.tools.Keys) && r == ListToolsIn(reg, order)
    ensures |r| == |reg.tools.Keys|
    ensures forall i :: 0 <= i < |r| ==> r[i] in reg.tools.Values
    ensures forall n :: n in reg.tools ==> reg.tools[n] in r
    ensures reg.Valid() ==> forall i, j :: 0 <= i < j < |r| ==> r[i].name != r[j].name
  {
    r := [];
    order := [];
    var remaining := reg.tools.Keys;
    while remaining != {}
      invariant remaining <= reg.tools.Keys
      invariant forall i :: 0 <= i < |order| ==> order[i] in reg.tools && order[i] !in remaining
      invariant forall i, j :: 0 <= i < j < |order| ==> order[i] != order[j]
      invariant forall n :: n in reg.tools && n !in remaining ==> n in order
      invariant r == ListToolsIn(reg, order)
      decreases remaining
    {
      var name :| name in remaining;
      ListToolsInSnoc(reg, order, name);
      r := r + [reg.tools[name]];
      order := order + [name];
      remaining := remaining - {name};
    }
    EnumerationListing(reg, order);
  }

  /** Runs the handler filed under `name`; an unknown name gives the zero result and a
      "tool not found" error, and runs nothing. */
  function ExecuteTool(reg: Registry, name: string, args: map<string, Value>): (out: ToolOutcome)
    ensures name in reg.handlers ==> out == reg.handlers[name](args)
    ensures name !in reg.handlers ==>
              out.result == EmptyCallToolResult && out.err == Some("tool not found: " + name)
  {
    if name in reg.handlers then reg.handlers[name](args)
    else ToolOutcome(EmptyCallToolResult, Some("tool not found: " + name))
  }

  /** Register then execute: the call is answered by exactly the registered handler. */
  lemma ExecuteAfterRegister(reg: Registry, t: Tool, h: ToolFunc, args: map<string, Value>)
    ensures ExecuteTool(Register(reg, t, h), t.name, args) == h(args)
  {
  }

  /** Registering one tool does not change how any other name executes. */
  lemma ExecuteOtherAfterRegister(reg: Registry, t: Tool, h: ToolFunc, name: string, args: map<string, Value>)
    requires name != t.name
    ensures ExecuteTool(Register(reg, t, h), name, args) == ExecuteTool(reg, name, args)
  {
  }
}
