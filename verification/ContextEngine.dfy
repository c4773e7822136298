/** `ContextEngine`: the layer registry, `assemble` and the trimming loop, and what
    one assembly guarantees about its report and its messages. */
module ContextEngine {
  import opened Sorting
  import opened Text
  import opened Conversation
  import opened ContextTrim

  datatype LayerReport = LayerReport(name: string, priority: int, tokens: nat, required: bool, trimmed: bool, sent: bool)

  datatype Report = Report(total: nat, budget: int, layers: seq<LayerReport>, trimmed: seq<string>)

  datatype Assembly = UnknownLayer | Assembled(messages: seq<Message>)

  predicate UniqueNames(layers: seq<Layer>) {
    forall i, j :: 0 <= i < j < |layers| ==> layers[i].name != layers[j].name
  }

  predicate Registers(layers: seq<Layer>, name: string) {
    exists i :: 0 <= i < |layers| && layers[i].name == name
  }

  // ---- The layers of one assembly ----

  function WithOverride(layer: Layer, overrides: map<string, string>): Layer {
    if layer.name in overrides then layer.(content := overrides[layer.name]) else layer
  }

  function Working(layers: seq<Layer>, overrides: map<string, string>): (r: seq<Layer>)
    ensures |r| == |layers| && forall i :: 0 <= i < |r| ==> r[i] == WithOverride(layers[i], overrides)
  {
    seq(|layers|, i requires 0 <= i < |layers| => WithOverride(layers[i], overrides))
  }

  function Nonempty(layers: seq<Layer>): seq<Layer> {
    if layers == [] then []
    else
      var last := layers[|layers| - 1];
      Nonempty(layers[..|layers| - 1]) + (if last.content == "" then [] else [last])
  }

  function Negated(keys: seq<real>): (r: seq<real>)
    ensures |r| == |keys| && forall i :: 0 <= i < |r| ==> r[i] == 0.0 - keys[i]
  {
    seq(|keys|, i requires 0 <= i < |keys| => 0.0 - keys[i])
  }

  function Reordered(layers: seq<Layer>, order: seq<nat>): (r: seq<Layer>)
    requires Positions(order, |layers|)
    ensures |r| == |order| && forall i :: 0 <= i < |r| ==> r[i] == layers[order[i]]
  {
    seq(|order|, i requires 0 <= i < |order| => layers[order[i]])
  }

  /** Stably sorted by descending priority. */
  function ByPriority(layers: seq<Layer>): seq<Layer> {
    Reordered(layers, Argsort(Negated(Priorities(layers)), |layers|))
  }

  function Active(layers: seq<Layer>, overrides: map<string, string>): seq<Layer> {
    ByPriority(Nonempty(Working(layers, overrides)))
  }

  /** The layers as trimming leaves them. */
  function Outcome(count: Counter, budget: int, layers: seq<Layer>, overrides: map<string, string>): Trimming {
    TrimLayers(count, budget, Active(layers, overrides))
  }

  // ---- Which layers are sent, and how ----

  datatype Buckets = Buckets(notSent: seq<Layer>, system: seq<Layer>, conversation: Option<Layer>, user: Option<Layer>) {
    function Put(layer: Layer, budgetOnly: set<string>): Buckets {
      if layer.content == "" then this
      else if layer.name in budgetOnly then this.(notSent := notSent + [layer])
      else if layer.name == "user_message" then this.(user := Some(layer))
      else if layer.name == "conversation" then this.(conversation := Some(layer))
      else this.(system := system + [layer])
    }

    /** In the order of the report. */
    function Listed(): seq<Layer> { notSent + system + Listing(conversation) + Listing(user) }

    function Messages(): seq<Message> {
      SystemMessages(system)
      + (if conversation.Some? then Parse(conversation.value.content) else [])
      + (if user.Some? then [Message(User, user.value.content)] else [])
    }

    function Reports(count: Counter, trimmed: seq<string>): seq<LayerReport> {
      ReportAll(count, trimmed, notSent, false)
      + ReportAll(count, trimmed, system + Listing(conversation) + Listing(user), true)
    }
  }

  function Listing(o: Option<Layer>): seq<Layer> { if o.Some? then [o.value] else [] }

  function BucketsOf(layers: seq<Layer>, budgetOnly: set<string>): Buckets {
    if layers == [] then Buckets([], [], None, None)
    else BucketsOf(layers[..|layers| - 1], budgetOnly).Put(layers[|layers| - 1], budgetOnly)
  }

  function SystemMessages(layers: seq<Layer>): (r: seq<Message>)
    ensures |r| == |layers| && forall i :: 0 <= i < |r| ==> r[i] == Message(System, layers[i].content)
  {
    seq(|layers|, i requires 0 <= i < |layers| => Message(System, layers[i].content))
  }

  function ReportOne(count: Counter, trimmed: seq<string>, layer: Layer, sent: bool): LayerReport {
    LayerReport(layer.name, layer.priority, count(layer.content), layer.required, layer.name in trimmed, sent)
  }

  function ReportAll(count: Counter, trimmed: seq<string>, layers: seq<Layer>, sent: bool): (r: seq<LayerReport>)
    ensures |r| == |layers| && forall i :: 0 <= i < |r| ==> r[i] == ReportOne(count, trimmed, layers[i], sent)
  {
    seq(|layers|, i requires 0 <= i < |layers| => ReportOne(count, trimmed, layers[i], sent))
  }

  function SumTokens(reports: seq<LayerReport>): nat {
    if reports == [] then 0 else SumTokens(reports[..|reports| - 1]) + reports[|reports| - 1].tokens
  }

  function ReportOf(count: Counter, budget: int, outcome: Trimming, budgetOnly: set<string>): Report {
    var reports := BucketsOf(outcome.layers, budgetOnly).Reports(count, outcome.trimmed);
    Report(SumTokens(reports), budget, reports, outcome.trimmed)
  }

  // ---- The engine ----

  function Registered(layers: seq<Layer>, layer: Layer): seq<Layer> {
    if layers == [] then [layer]
    else if layers[0].name == layer.name then [layer] + layers[1..]
    else [layers[0]] + Registered(layers[1..], layer)
  }

  lemma {:induction false} RegisteredMembers(layers: seq<Layer>, layer: Layer)
    requires UniqueNames(layers)
    ensures forall l :: l in Registered(layers, layer) <==> l == layer || (l in layers && l.name != layer.name)
  {
    if layers != [] {
      assert layers == [layers[0]] + layers[1..];
      assert forall l :: l in layers[1..] ==> l.name != layers[0].name;
      if layers[0].name != layer.name { RegisteredMembers(layers[1..], layer); }
    }
  }

  lemma ConsUnique(first: Layer, rest: seq<Layer>)
    requires UniqueNames(rest) && forall l :: l in rest ==> l.name != first.name
    ensures UniqueNames([first] + rest)
  {
    assert forall i :: 0 <= i < |rest| ==> rest[i] in rest;
  }

  /** Registering replaces the layer of that name, if any, and keeps all others. */
  lemma {:induction false} RegisteredUnique(layers: seq<Layer>, layer: Layer)
    requires UniqueNames(layers)
    ensures UniqueNames(Registered(layers, layer))
    ensures forall l :: l in Registered(layers, layer) <==> l == layer || (l in layers && l.name != layer.name)
  {
    RegisteredMembers(layers, layer);
    if layers != [] && layers[0].name != layer.name {
      RegisteredUnique(layers[1..], layer);
      RegisteredMembers(layers[1..], layer);
      RestUnlike(layers, layers[0]);
      ConsUnique(layers[0], Registered(layers[1..], layer));
    } else if layers != [] {
      RestUnlike(layers, layer);
      ConsUnique(layer, layers[1..]);
    }
  }

  lemma RestUnlike(layers: seq<Layer>, like: Layer)
    requires UniqueNames(layers) && layers != [] && layers[0].name == like.name
    ensures UniqueNames(layers[1..]) && forall l :: l in layers[1..] ==> l.name != like.name
  {
  }

  class ContextEngine {
    const count: Counter
    const budget: int
    var layers: seq<Layer>
    var lastReport: Option<Report>

    ghost predicate Valid()
      reads this
    {
      UniqueNames(layers)
    }

    constructor (count: Counter, budget: int)
      ensures Valid() && this.count == count && this.budget == budget
      ensures layers == [] && lastReport == None
    {
      this.count, this.budget, layers, lastReport := count, budget, [], None;
    }

    method AddLayer(name: string, priority: int, content: string, required: bool, oldestFirst: bool)
      requires Valid()
      modifies this`layers
      ensures Valid()
      ensures
        var clamped := if priority < 0 then 0 else if priority > 10 then 10 else priority;
        layers == Registered(old(layers), Layer(name, clamped, content, required, oldestFirst))
    {
      var clamped := if priority < 0 then 0 else if priority > 10 then 10 else priority;
      var layer := Layer(name, clamped, content, required, oldestFirst);
      RegisteredUnique(layers, layer);
      layers := Registered(layers, layer);
    }

    /** Assembles the layers; the registry is not in the frame, so it never changes. */
    method Assemble(overrides: map<string, string>, budgetOnly: set<string>) returns (r: Assembly)
      requires Valid()
      modifies this`lastReport
      ensures r.UnknownLayer? <==> exists name :: name in overrides && forall i :: 0 <= i < |layers| ==> layers[i].name != name
      ensures r.UnknownLayer? ==> lastReport == old(lastReport)
      ensures r.Assembled? ==>
        var outcome := Outcome(count, budget, layers, overrides);
        && r.messages == BucketsOf(outcome.layers, budgetOnly).Messages()
        && lastReport == Some(ReportOf(count, budget, outcome, budgetOnly))
    {
      hide TrimLayers, Nonempty, ByPriority, BucketsOf, SumTokens, Total, Parse;
      if exists name :: name in overrides && !Registers(layers, name) {
        return UnknownLayer;
      }
      var collected := Collect(Working(layers, overrides));
      var active := ByPriority(collected);
      var total := SumOf(active);
      var trimmed: seq<string> := [];
      if total > budget {
        total, active, trimmed := TrimActive(active, total);
      } else {
        FitsUntouched(count, budget, active);
      }
      ghost var outcome := Outcome(count, budget, layers, overrides);
      assert active == outcome.layers && trimmed == outcome.trimmed;

      var buckets := Sort(active, budgetOnly);
      var reports := buckets.Reports(count, trimmed);
      var sum := SumReports(reports);
      lastReport := Some(Report(sum, budget, reports, trimmed));
      r := Assembled(buckets.Messages());
    }

    method Collect(working: seq<Layer>) returns (active: seq<Layer>)
      ensures active == Nonempty(working)
    {
      active := [];
      for i := 0 to |working|
        invariant active == Nonempty(working[..i])
      {
        assert working[..i + 1][..i] == working[..i];
        if working[i].content != "" {
          active := active + [working[i]];
        }
      }
      assert working[..|working|] == working;
    }

    method SumOf(active: seq<Layer>) returns (total: nat)
      ensures total == Total(count, active)
    {
      total := 0;
      for i := 0 to |active|
        invariant total == Total(count, active[..i])
      {
        assert active[..i + 1][..i] == active[..i];
        total := total + count(active[i].content);
      }
      assert active[..|active|] == active;
    }

    method SumReports(reports: seq<LayerReport>) returns (total: nat)
      ensures total == SumTokens(reports)
    {
      total := 0;
      for i := 0 to |reports|
        invariant total == SumTokens(reports[..i])
      {
        assert reports[..i + 1][..i] == reports[..i];
        total := total + reports[i].tokens;
      }
      assert reports[..|reports|] == reports;
    }

    method Sort(active: seq<Layer>, budgetOnly: set<string>) returns (buckets: Buckets)
      ensures buckets == BucketsOf(active, budgetOnly)
    {
      buckets := Buckets([], [], None, None);
      for i := 0 to |active|
        invariant buckets == BucketsOf(active[..i], budgetOnly)
      {
        assert active[..i + 1][..i] == active[..i];
        buckets := buckets.Put(active[i], budgetOnly);
      }
      assert active[..|active|] == active;
    }

    /** The trimming loop: cuts one candidate after another until the total fits. */
    method TrimActive(active: seq<Layer>, total: nat) returns (newTotal: int, left: seq<Layer>, trimmed: seq<string>)
      requires total == Total(count, active)
      ensures Trimming(left, newTotal, trimmed) == TrimLayers(count, budget, active)
    {
      hide CutAt, Candidates, Total;
      left, newTotal, trimmed := active, total, [];
      var overflow := total - budget;
      var candidates := Candidates(active);
      var k := 0;
      while k < |candidates| && overflow > 0
        invariant k <= |candidates| && |left| == |active|
        invariant overflow == newTotal - budget
        invariant TrimFrom(count, budget, Trimming(left, newTotal, trimmed), candidates, k) == TrimLayers(count, budget, active)
        decreases |candidates| - k
      {
        left, newTotal, trimmed := CutNext(left, newTotal, trimmed, candidates[k]);
        overflow := newTotal - budget;
        k := k + 1;
      }
    }

    method CutNext(layers: seq<Layer>, total: int, names: seq<string>, p: nat)
      returns (left: seq<Layer>, newTotal: int, trimmed: seq<string>)
      requires p < |layers|
      ensures Trimming(left, newTotal, trimmed) == CutAt(count, budget, Trimming(layers, total, names), p)
    {
      hide Trim, Search, RStrip, IsSpace;
      var layer := layers[p];
      var tokens := count(layer.content);
      var overflow := total - budget;
      newTotal, trimmed := total, names;
      if layer.oldestFirst && layer.name == "conversation" {
        var content, saved := TrimConversation(count, layer.content, tokens, overflow);
        left := layers[p := layer.(content := content)];
        newTotal := newTotal - saved;
        if saved > 0 { trimmed := trimmed + [layer.name]; }
      } else if overflow >= tokens {
        left := layers[p := layer.(content := "")];
        newTotal := newTotal - tokens;
        trimmed := trimmed + [layer.name];
      } else {
        var low := FindPrefix(count, layer.content, tokens - overflow);
        var content := RStrip(layer.content[..low]) + "...";
        left := layers[p := layer.(content := content)];
        newTotal := newTotal - (tokens - count(content));
        trimmed := trimmed + [layer.name];
      }
    }
  }
}
