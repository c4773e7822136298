/** What one `assemble` guarantees about the report and the messages it returns. */
module ContextAssembly {
  import opened Sorting
  import opened Text
  import opened Conversation
  import opened ContextTrim
  import opened ContextBudget
  import opened ContextFit
  import opened ContextEngine

  // ---- The active layers ----

  lemma {:induction false} NonemptyFacts(layers: seq<Layer>)
    requires UniqueNames(layers)
    ensures UniqueNames(Nonempty(layers))
    ensures forall l :: l in Nonempty(layers) <==> l in layers && l.content != ""
  {
    if layers != [] {
      var front, last := layers[..|layers| - 1], layers[|layers| - 1];
      NonemptyFacts(front);
      var kept := Nonempty(front);
      assert layers == front + [last];
      assert forall i :: 0 <= i < |kept| ==> kept[i] in kept;
    }
  }

  lemma ByPriorityMembers(layers: seq<Layer>)
    ensures forall l :: l in ByPriority(layers) <==> l in layers
  {
    hide Ranked;
    var order := Argsort(Negated(Priorities(layers)), |layers|);
    var r := ByPriority(layers);
    forall i | 0 <= i < |layers|
      ensures layers[i] in r
    {
      assert i in order;
      var p :| 0 <= p < |order| && order[p] == i;
      assert r[p] == layers[i];
    }
  }

  lemma ByPriorityFacts(layers: seq<Layer>)
    requires UniqueNames(layers)
    ensures UniqueNames(ByPriority(layers))
    ensures forall l :: l in ByPriority(layers) <==> l in layers
    ensures forall i, j :: 0 <= i < j < |ByPriority(layers)| ==> ByPriority(layers)[i].priority >= ByPriority(layers)[j].priority
  {
    var keys := Negated(Priorities(layers));
    var order := Argsort(keys, |layers|);
    var r := ByPriority(layers);
    ByPriorityMembers(layers);
    forall i, j | 0 <= i < j < |r|
      ensures r[i].name != r[j].name && r[i].priority >= r[j].priority
    {
      assert Ranked(keys, order[i], order[j]);
    }
  }

  /** The active layers are the nonempty ones, by descending priority. */
  lemma ActiveFacts(layers: seq<Layer>, overrides: map<string, string>)
    requires UniqueNames(layers)
    ensures
      var active := Active(layers, overrides);
      && UniqueNames(active)
      && (forall l :: l in active <==> l in Working(layers, overrides) && l.content != "")
      && (forall i, j :: 0 <= i < j < |active| ==> active[i].priority >= active[j].priority)
  {
    hide ByPriority, Nonempty;
    NonemptyFacts(Working(layers, overrides));
    ByPriorityFacts(Nonempty(Working(layers, overrides)));
  }

  // ---- What trimming leaves alone ----

  lemma {:induction false} TrimFromKeeps(count: Counter, budget: int, s: Trimming, order: seq<nat>, k: nat)
    requires k <= |order| && Positions(order, |s.layers|)
    ensures
      var r := TrimFrom(count, budget, s, order, k);
      && (forall i :: 0 <= i < |r.layers| ==> r.layers[i] == s.layers[i].(content := r.layers[i].content))
      && (forall i :: 0 <= i < |r.layers| && i !in order ==> r.layers[i] == s.layers[i])
    decreases |order| - k
  {
    hide CutLayer, IsConversation;
    if k < |order| && s.total > budget {
      var next := CutAt(count, budget, s, order[k]);
      TrimFromKeeps(count, budget, next, order, k + 1);
      assert order[k] in order;
    }
  }

  /** Whatever the tokenizer, trimming changes nothing but content and never a
      required layer. */
  lemma TrimKeeps(count: Counter, budget: int, active: seq<Layer>)
    ensures
      var r := TrimLayers(count, budget, active);
      && (forall i :: 0 <= i < |active| ==> r.layers[i] == active[i].(content := r.layers[i].content))
      && (forall i :: 0 <= i < |active| && active[i].required ==> r.layers[i] == active[i])
  {
    hide TrimFrom, Candidates;
    CandidatesAscend(active);
    TrimFromKeeps(count, budget, Trimming(active, Total(count, active), []), Candidates(active), 0);
  }

  // ---- Which layers are safe ----

  /** With no budget at all, an optional layer on its own is emptied. */
  lemma EmptiedAtZero(layer: Layer)
    requires Optional(layer)
    ensures Alone(0, layer) == ""
  {
    hide Estimate, Alone, Parse, Exchanges, Saved, Print, Flatten, Truncated;
    var text := layer.content;
    AloneIsCut(0, layer);
    EstimateIsPositive();
    if IsConversation(layer) && Parse(text) != [] {
      var groups := GroupsOf(text);
      var n := Removed(Estimate, groups, 0, Estimate(text));
      RemovingAllSavesAtMost(text);
      if n < |groups| { SavedGrows(Estimate, text, n, |groups|); }
      assert groups[n..] == [];
    }
  }

  /** Wherever `layer` is among the active layers, trimming leaves it as it is. */
  ghost predicate Safe(budget: int, active: seq<Layer>, layer: Layer) {
    forall i :: 0 <= i < |active| && active[i] == layer ==> TrimLayers(Estimate, budget, active).layers[i] == layer
  }

  /** A layer is never touched, under any budget and among any other layers, if and
      only if it is required. */
  lemma RequiredIsExact(layer: Layer)
    requires layer.content != ""
    ensures layer.required <==> forall budget: int, active: seq<Layer> :: Safe(budget, active, layer)
  {
    hide Estimate, Safe, TrimLayers;
    if layer.required {
      forall budget: int, active: seq<Layer>
        ensures Safe(budget, active, layer)
      {
        RequiredIsSafe(budget, active, layer);
      }
    } else {
      EmptiedAtZero(layer);
      EmptiedIsUnsafe(layer);
    }
  }

  lemma RequiredIsSafe(budget: int, active: seq<Layer>, layer: Layer)
    requires layer.required
    ensures Safe(budget, active, layer)
  {
    hide TrimLayers;
    TrimKeeps(Estimate, budget, active);
  }

  lemma EmptiedIsUnsafe(layer: Layer)
    requires layer.content != "" && Alone(0, layer) == ""
    ensures !Safe(0, [layer], layer)
  {
    hide TrimLayers;
    assert [layer][0] == layer;
  }

  /** Priority 9 does not make a layer safe: the built-in "flow" layer can be dropped. */
  lemma PriorityNineIsDropped()
    ensures
      var flow := Layer("flow", 9, "x", false, false);
      Alone(0, flow) == "" && !Safe(0, [flow], flow)
  {
    hide Alone, Safe;
    var flow := Layer("flow", 9, "x", false, false);
    EmptiedAtZero(flow);
    EmptiedIsUnsafe(flow);
  }

  // ---- The report ----

  lemma {:induction false} TotalConcat(count: Counter, a: seq<Layer>, b: seq<Layer>)
    ensures Total(count, a + b) == Total(count, a) + Total(count, b)
  {
    if b == [] {
      assert a + b == a;
    } else {
      assert (a + b)[..|a + b| - 1] == a + b[..|b| - 1];
      TotalConcat(count, a, b[..|b| - 1]);
    }
  }

  lemma ListedTotal(count: Counter, b: Buckets)
    ensures Total(count, b.Listed())
      == Total(count, b.notSent) + Total(count, b.system) + Total(count, Listing(b.conversation)) + Total(count, Listing(b.user))
  {
    TotalConcat(count, b.notSent, b.system);
    TotalConcat(count, b.notSent + b.system, Listing(b.conversation));
    TotalConcat(count, b.notSent + b.system + Listing(b.conversation), Listing(b.user));
  }

  /** Every nonempty layer lands in exactly one place of the report. */
  lemma {:induction false} BucketsKeepAll(count: Counter, layers: seq<Layer>, budgetOnly: set<string>)
    requires count("") == 0 && UniqueNames(layers)
    ensures
      var b := BucketsOf(layers, budgetOnly);
      && Total(count, b.Listed()) == Total(count, layers)
      && (forall l :: l in b.Listed() <==> l in layers && l.content != "")
      && (b.conversation.Some? ==> b.conversation.value.name == "conversation")
      && (b.user.Some? ==> b.user.value.name == "user_message")
  {
    if layers == [] {
      assert BucketsOf(layers, budgetOnly).Listed() == [];
    } else {
      var front, last := layers[..|layers| - 1], layers[|layers| - 1];
      assert layers == front + [last];
      BucketsKeepAll(count, front, budgetOnly);
      PutKeeps(count, BucketsOf(front, budgetOnly), front, last, budgetOnly);
    }
  }

  lemma PutKeeps(count: Counter, b: Buckets, front: seq<Layer>, last: Layer, budgetOnly: set<string>)
    requires forall l :: l in front ==> l.name != last.name
    requires forall l :: l in b.Listed() <==> l in front && l.content != ""
    requires b.conversation.Some? ==> b.conversation.value.name == "conversation"
    requires b.user.Some? ==> b.user.value.name == "user_message"
    ensures
      var r := b.Put(last, budgetOnly);
      && Total(count, r.Listed()) == Total(count, b.Listed()) + (if last.content == "" then 0 else count(last.content))
      && (forall l :: l in r.Listed() <==> l in front + [last] && l.content != "")
      && (r.conversation.Some? ==> r.conversation.value.name == "conversation")
      && (r.user.Some? ==> r.user.value.name == "user_message")
  {
    hide Total;
    var r := b.Put(last, budgetOnly);
    assert b.conversation.Some? ==> b.conversation.value in b.Listed();
    assert b.user.Some? ==> b.user.value in b.Listed();
    ListedTotal(count, b);
    ListedTotal(count, r);
    TotalOne(count, last);
    TotalConcat(count, b.notSent, [last]);
    TotalConcat(count, b.system, [last]);
  }

  lemma {:induction false} SumTokensConcat(a: seq<LayerReport>, b: seq<LayerReport>)
    ensures SumTokens(a + b) == SumTokens(a) + SumTokens(b)
  {
    if b == [] {
      assert a + b == a;
    } else {
      assert (a + b)[..|a + b| - 1] == a + b[..|b| - 1];
      SumTokensConcat(a, b[..|b| - 1]);
    }
  }

  lemma {:induction false} ReportAllSum(count: Counter, trimmed: seq<string>, layers: seq<Layer>, sent: bool)
    ensures SumTokens(ReportAll(count, trimmed, layers, sent)) == Total(count, layers)
  {
    if layers != [] {
      var front := layers[..|layers| - 1];
      ReportAllSum(count, trimmed, front, sent);
      assert ReportAll(count, trimmed, layers, sent)[..|layers| - 1] == ReportAll(count, trimmed, front, sent);
    }
  }

  /** The report accounts for every layer that is left, sent or budget-only: its
      total is the total of what trimming left. */
  lemma ReportIsTotal(count: Counter, budget: int, outcome: Trimming, budgetOnly: set<string>)
    requires count("") == 0 && UniqueNames(outcome.layers)
    ensures ReportOf(count, budget, outcome, budgetOnly).total == Total(count, outcome.layers)
  {
    hide Total, SumTokens;
    var b := BucketsOf(outcome.layers, budgetOnly);
    BucketsKeepAll(count, outcome.layers, budgetOnly);
    var shown := b.system + Listing(b.conversation) + Listing(b.user);
    ReportAllSum(count, outcome.trimmed, b.notSent, false);
    ReportAllSum(count, outcome.trimmed, shown, true);
    SumTokensConcat(ReportAll(count, outcome.trimmed, b.notSent, false), ReportAll(count, outcome.trimmed, shown, true));
    TotalConcat(count, b.notSent, shown);
    assert b.notSent + shown == b.Listed();
  }

  /** The budget guarantee of `assemble`, with the estimating counter: if the
      conversation text is fair, the report is within one token of the budget or
      lists required layers only. */
  lemma AssemblyWithinBudget(budget: int, layers: seq<Layer>, overrides: map<string, string>, budgetOnly: set<string>)
    requires UniqueNames(layers)
    requires forall l :: l in Working(layers, overrides) ==> FairLayer(l)
    ensures
      var report := ReportOf(Estimate, budget, Outcome(Estimate, budget, layers, overrides), budgetOnly);
      || report.total <= budget + 1
      || forall i :: 0 <= i < |report.layers| ==> report.layers[i].required
  {
    hide FairLayer, Estimate, Active, TrimLayers, BucketsOf, Total, SumTokens;
    var active := Active(layers, overrides);
    var outcome := Outcome(Estimate, budget, layers, overrides);
    ActiveFacts(layers, overrides);
    assert forall i :: 0 <= i < |active| ==> active[i] in active;
    BudgetBound(budget, active);
    TrimKeeps(Estimate, budget, active);
    ReportIsTotal(Estimate, budget, outcome, budgetOnly);
    var b := BucketsOf(outcome.layers, budgetOnly);
    BucketsKeepAll(Estimate, outcome.layers, budgetOnly);
    if forall i :: 0 <= i < |active| && !active[i].required ==> outcome.layers[i].content == "" {
      RequiredReports(outcome, b);
    }
  }

  /** The documented promise, exactly: the reported total is within the budget if and
      only if the active layers fit it. */
  lemma ReportMeetsBudget(budget: int, layers: seq<Layer>, overrides: map<string, string>, budgetOnly: set<string>)
    requires UniqueNames(layers)
    ensures ReportOf(Estimate, budget, Outcome(Estimate, budget, layers, overrides), budgetOnly).total <= budget
      <==> FitsBudget(budget, Active(layers, overrides))
  {
    hide Estimate, Active, TrimLayers, ReportOf, Total, FitsBudget;
    var active := Active(layers, overrides);
    ActiveFacts(layers, overrides);
    assert forall i :: 0 <= i < |active| ==> active[i] in active;
    TrimKeeps(Estimate, budget, active);
    ReportIsTotal(Estimate, budget, Outcome(Estimate, budget, layers, overrides), budgetOnly);
    TrimmingFits(budget, active);
  }

  lemma RequiredReports(outcome: Trimming, b: Buckets)
    requires forall l :: l in outcome.layers && l.content != "" ==> l.required
    requires forall l :: l in b.Listed() ==> l in outcome.layers && l.content != ""
    ensures forall i :: 0 <= i < |b.Reports(Estimate, outcome.trimmed)| ==> b.Reports(Estimate, outcome.trimmed)[i].required
  {
    var r := b.Reports(Estimate, outcome.trimmed);
    var shown := b.system + Listing(b.conversation) + Listing(b.user);
    assert b.notSent + shown == b.Listed();
    forall i | 0 <= i < |r|
      ensures r[i].required
    {
      assert b.Listed()[i] in b.Listed();
    }
  }

  /** Conversation text no shorter than its own reprint is enough; in particular
      text that parsing and printing leave as it is. */
  lemma CanonicalWithinBudget(budget: int, layers: seq<Layer>, overrides: map<string, string>, budgetOnly: set<string>)
    requires UniqueNames(layers)
    requires forall l :: l in Working(layers, overrides) && IsConversation(l) ==> |Print(Parse(l.content))| <= |l.content|
    ensures
      var report := ReportOf(Estimate, budget, Outcome(Estimate, budget, layers, overrides), budgetOnly);
      || report.total <= budget + 1
      || forall i :: 0 <= i < |report.layers| ==> report.layers[i].required
  {
    hide Parse, Print, Fair, ReportOf, Outcome;
    forall l | l in Working(layers, overrides)
      ensures FairLayer(l)
    {
      if IsConversation(l) { CanonicalIsFair(l.content); }
    }
    AssemblyWithinBudget(budget, layers, overrides, budgetOnly);
  }

  // ---- The messages ----

  predicate Descending(layers: seq<Layer>) {
    forall i, j :: 0 <= i < j < |layers| ==> layers[i].priority >= layers[j].priority
  }

  /** Which layers may be where. */
  predicate Placed(b: Buckets, layers: seq<Layer>, budgetOnly: set<string>) {
    && (forall l :: l in b.system ==> l in layers && l.name !in budgetOnly && l.name != "user_message" && l.name != "conversation")
    && (forall l :: l in b.notSent ==> l.name in budgetOnly)
    && (b.conversation.Some? ==> b.conversation.value.name !in budgetOnly)
    && (b.user.Some? ==> b.user.value.name !in budgetOnly)
  }

  lemma PutPlaced(b: Buckets, front: seq<Layer>, last: Layer, budgetOnly: set<string>)
    requires Placed(b, front, budgetOnly)
    ensures Placed(b.Put(last, budgetOnly), front + [last], budgetOnly)
  {
  }

  lemma PutDescending(b: Buckets, last: Layer, budgetOnly: set<string>)
    requires Descending(b.system) && forall l :: l in b.system ==> l.priority >= last.priority
    ensures Descending(b.Put(last, budgetOnly).system)
  {
    assert forall i :: 0 <= i < |b.system| ==> b.system[i] in b.system;
  }

  /** Bucketing keeps the priority order, sends exactly the layers that are not
      budget-only, and sends none of the special ones as a system message. */
  lemma {:induction false} BucketsInOrder(layers: seq<Layer>, budgetOnly: set<string>)
    requires Descending(layers)
    ensures Descending(BucketsOf(layers, budgetOnly).system) && Placed(BucketsOf(layers, budgetOnly), layers, budgetOnly)
  {
    hide Placed;
    if layers == [] {
      PlacedNothing(budgetOnly);
    } else {
      var front, last := layers[..|layers| - 1], layers[|layers| - 1];
      assert layers == front + [last];
      BucketsInOrder(front, budgetOnly);
      var b := BucketsOf(front, budgetOnly);
      PlacedInFront(b, front, budgetOnly);
      PutPlaced(b, front, last, budgetOnly);
      PutDescending(b, last, budgetOnly);
    }
  }

  lemma PlacedNothing(budgetOnly: set<string>)
    ensures Placed(Buckets([], [], None, None), [], budgetOnly)
  {
  }

  lemma PlacedInFront(b: Buckets, layers: seq<Layer>, budgetOnly: set<string>)
    requires Placed(b, layers, budgetOnly)
    ensures forall l :: l in b.system ==> l in layers
  {
  }

  /** System messages come first, from the highest priority to the lowest, each the
      content of one layer that is sent. */
  lemma SystemMessagesFirst(count: Counter, budget: int, layers: seq<Layer>, overrides: map<string, string>, budgetOnly: set<string>)
    requires UniqueNames(layers)
    ensures
      var b := BucketsOf(Outcome(count, budget, layers, overrides).layers, budgetOnly);
      && Descending(b.system)
      && SystemMessages(b.system) <= b.Messages()
      && (forall l :: l in b.system ==> l.name !in budgetOnly)
  {
    hide Active, TrimLayers, BucketsOf, Parse;
    var active := Active(layers, overrides);
    var left := Outcome(count, budget, layers, overrides).layers;
    ActiveFacts(layers, overrides);
    TrimKeeps(count, budget, active);
    assert forall p :: 0 <= p < |left| ==> left[p].priority == active[p].priority;
    BucketsInOrder(left, budgetOnly);
  }

  lemma {:induction false} BucketOfUser(layers: seq<Layer>, budgetOnly: set<string>, i: nat)
    requires UniqueNames(layers) && i < |layers|
    requires layers[i].name == "user_message" && layers[i].content != "" && "user_message" !in budgetOnly
    ensures BucketsOf(layers, budgetOnly).user == Some(layers[i])
  {
    if i < |layers| - 1 { BucketOfUser(layers[..|layers| - 1], budgetOnly, i); }
  }

  /** The user's message is never trimmed and always last. */
  lemma UserMessageLast(count: Counter, budget: int, layers: seq<Layer>, overrides: map<string, string>, budgetOnly: set<string>, user: Layer)
    requires UniqueNames(layers) && user in Working(layers, overrides)
    requires user.name == "user_message" && user.required && user.content != "" && user.name !in budgetOnly
    ensures
      var messages := BucketsOf(Outcome(count, budget, layers, overrides).layers, budgetOnly).Messages();
      messages != [] && messages[|messages| - 1] == Message(User, user.content)
  {
    hide Active, TrimLayers;
    var active := Active(layers, overrides);
    var outcome := Outcome(count, budget, layers, overrides);
    ActiveFacts(layers, overrides);
    TrimKeeps(count, budget, active);
    var i :| 0 <= i < |active| && active[i] == user;
    BucketOfUser(outcome.layers, budgetOnly, i);
  }

  // ---- Every message accounted for ----

  /** The override replaces the content, even by nothing, and changes nothing else; a
      layer without one keeps its own. */
  lemma OverridesApply(layers: seq<Layer>, overrides: map<string, string>, i: nat)
    requires i < |layers|
    ensures
      var w := Working(layers, overrides)[i];
      && w.content == (if layers[i].name in overrides then overrides[layers[i].name] else layers[i].content)
      && w == layers[i].(content := w.content)
  {
  }

  /** A layer whose content, override included, is not empty is active with it. */
  lemma OverriddenIsActive(layers: seq<Layer>, overrides: map<string, string>, i: nat)
    requires UniqueNames(layers) && i < |layers|
    ensures
      var content := if layers[i].name in overrides then overrides[layers[i].name] else layers[i].content;
      if content == "" then forall l :: l in Active(layers, overrides) ==> l.name != layers[i].name
      else layers[i].(content := content) in Active(layers, overrides)
  {
    hide Active;
    ActiveFacts(layers, overrides);
    OverridesApply(layers, overrides, i);
    var working := Working(layers, overrides);
    assert working[i] in working;
    forall l | l in working && l.name == layers[i].name
      ensures l == working[i]
    {
      var j :| 0 <= j < |working| && working[j] == l;
    }
  }

  /** A layer that is left, not empty and not budget-only. */
  predicate Sent(layers: seq<Layer>, budgetOnly: set<string>, l: Layer) {
    l in layers && l.content != "" && l.name !in budgetOnly
  }

  predicate Ordinary(l: Layer) { l.name != "user_message" && l.name != "conversation" }

  lemma {:induction false} BucketsExactly(layers: seq<Layer>, budgetOnly: set<string>)
    requires UniqueNames(layers)
    ensures
      var b := BucketsOf(layers, budgetOnly);
      && UniqueNames(b.system)
      && (forall l :: l in b.system <==> Sent(layers, budgetOnly, l) && Ordinary(l))
      && (forall l :: b.conversation == Some(l) <==> Sent(layers, budgetOnly, l) && l.name == "conversation")
      && (forall l :: b.user == Some(l) <==> Sent(layers, budgetOnly, l) && l.name == "user_message")
      && (forall l :: l in b.notSent <==> l in layers && l.content != "" && l.name in budgetOnly)
  {
    if layers != [] {
      var front, last := layers[..|layers| - 1], layers[|layers| - 1];
      BucketsExactly(front, budgetOnly);
      PutExactly(BucketsOf(front, budgetOnly), front, last, budgetOnly);
      assert layers == front + [last];
    }
  }

  lemma PutExactly(b: Buckets, front: seq<Layer>, last: Layer, budgetOnly: set<string>)
    requires UniqueNames(b.system) && forall l :: l in front ==> l.name != last.name
    requires forall l :: l in b.system <==> Sent(front, budgetOnly, l) && Ordinary(l)
    requires forall l :: b.conversation == Some(l) <==> Sent(front, budgetOnly, l) && l.name == "conversation"
    requires forall l :: b.user == Some(l) <==> Sent(front, budgetOnly, l) && l.name == "user_message"
    requires forall l :: l in b.notSent <==> l in front && l.content != "" && l.name in budgetOnly
    ensures
      var r := b.Put(last, budgetOnly);
      && UniqueNames(r.system)
      && (forall l :: l in r.system <==> Sent(front + [last], budgetOnly, l) && Ordinary(l))
      && (forall l :: r.conversation == Some(l) <==> Sent(front + [last], budgetOnly, l) && l.name == "conversation")
      && (forall l :: r.user == Some(l) <==> Sent(front + [last], budgetOnly, l) && l.name == "user_message")
      && (forall l :: l in r.notSent <==> l in front + [last] && l.content != "" && l.name in budgetOnly)
  {
    assert forall i :: 0 <= i < |b.system| ==> b.system[i] in b.system;
  }

  /** The whole list of messages of an assembly: a system message for each ordinary
      layer that is sent, by descending priority; what the sent conversation parses
      to; the user's message; and nothing else. */
  lemma MessagesExactly(count: Counter, budget: int, layers: seq<Layer>, overrides: map<string, string>, budgetOnly: set<string>)
    returns (system: seq<Layer>, history: seq<Message>, question: seq<Message>)
    requires UniqueNames(layers)
    ensures
      var left := Outcome(count, budget, layers, overrides).layers;
      var messages := BucketsOf(left, budgetOnly).Messages();
      && messages == seq(|system|, i requires 0 <= i < |system| => Message(System, system[i].content)) + history + question
      && UniqueNames(system) && Descending(system)
      && (forall l :: l in system <==> Sent(left, budgetOnly, l) && l.name != "user_message" && l.name != "conversation")
      && (forall l :: Sent(left, budgetOnly, l) && l.name == "conversation" ==> history == Parse(l.content))
      && (forall l :: Sent(left, budgetOnly, l) && l.name == "user_message" ==> question == [Message(User, l.content)])
      && ((forall l :: Sent(left, budgetOnly, l) ==> l.name != "conversation") ==> history == [])
      && ((forall l :: Sent(left, budgetOnly, l) ==> l.name != "user_message") ==> question == [])
  {
    hide Active, TrimLayers, BucketsOf, Parse, Sent;
    var active := Active(layers, overrides);
    var left := Outcome(count, budget, layers, overrides).layers;
    ActiveFacts(layers, overrides);
    TrimKeeps(count, budget, active);
    assert forall p :: 0 <= p < |left| ==> left[p].priority == active[p].priority && left[p].name == active[p].name;
    BucketsInOrder(left, budgetOnly);
    BucketsExactly(left, budgetOnly);
    var b := BucketsOf(left, budgetOnly);
    system := b.system;
    history := if b.conversation.Some? then Parse(b.conversation.value.content) else [];
    question := if b.user.Some? then [Message(User, b.user.value.content)] else [];
    assert SystemMessages(system) == seq(|system|, i requires 0 <= i < |system| => Message(System, system[i].content));
  }

  lemma ReportOneExactly(count: Counter, trimmed: seq<string>, b: Buckets, budgetOnly: set<string>, i: nat)
    requires forall l :: l in b.notSent ==> l.name in budgetOnly
    requires forall l :: l in b.system + Listing(b.conversation) + Listing(b.user) ==> l.name !in budgetOnly
    requires i < |b.Listed()|
    ensures |b.Reports(count, trimmed)| == |b.Listed()|
    ensures
      var l := b.Listed()[i];
      b.Reports(count, trimmed)[i]
      == LayerReport(l.name, l.priority, count(l.content), l.required, l.name in trimmed, l.name !in budgetOnly)
  {
    var shown := b.system + Listing(b.conversation) + Listing(b.user);
    assert b.Listed() == b.notSent + shown;
    if i < |b.notSent| {
      assert b.notSent[i] in b.notSent;
    } else {
      assert shown[i - |b.notSent|] in shown;
    }
  }

  lemma ListedExactly(layers: seq<Layer>, budgetOnly: set<string>)
    requires UniqueNames(layers)
    ensures
      var b := BucketsOf(layers, budgetOnly);
      && (forall l :: l in b.Listed() <==> l in layers && l.content != "")
      && (forall l :: l in b.notSent ==> l.name in budgetOnly)
      && (forall l :: l in b.system + Listing(b.conversation) + Listing(b.user) ==> l.name !in budgetOnly)
  {
    hide BucketsOf;
    BucketsExactly(layers, budgetOnly);
    var b := BucketsOf(layers, budgetOnly);
    forall l
      ensures l in Listing(b.conversation) <==> b.conversation == Some(l)
      ensures l in Listing(b.user) <==> b.user == Some(l)
    {
    }
  }

  /** The report lists every layer that is left and not empty, and says of each what it
      costs, whether it was trimmed and whether it is sent. */
  lemma ReportExactly(count: Counter, budget: int, layers: seq<Layer>, overrides: map<string, string>, budgetOnly: set<string>)
    returns (listed: seq<Layer>)
    requires UniqueNames(layers)
    ensures
      var outcome := Outcome(count, budget, layers, overrides);
      var report := ReportOf(count, budget, outcome, budgetOnly);
      && report.budget == budget && report.trimmed == outcome.trimmed && |report.layers| == |listed|
      && (forall l :: l in listed <==> l in outcome.layers && l.content != "")
      && forall i :: 0 <= i < |listed| ==>
           var l := listed[i];
           report.layers[i]
           == LayerReport(l.name, l.priority, count(l.content), l.required, l.name in outcome.trimmed, l.name !in budgetOnly)
  {
    hide Active, TrimLayers, BucketsOf, UniqueNames;
    var outcome := Outcome(count, budget, layers, overrides);
    LeftUnique(count, budget, layers, overrides);
    ListedExactly(outcome.layers, budgetOnly);
    var b := BucketsOf(outcome.layers, budgetOnly);
    listed := b.Listed();
    assert |b.Reports(count, outcome.trimmed)| == |listed|;
    forall i | 0 <= i < |listed|
      ensures
        var l := listed[i];
        b.Reports(count, outcome.trimmed)[i]
        == LayerReport(l.name, l.priority, count(l.content), l.required, l.name in outcome.trimmed, l.name !in budgetOnly)
    {
      ReportOneExactly(count, outcome.trimmed, b, budgetOnly, i);
    }
  }

  lemma LeftUnique(count: Counter, budget: int, layers: seq<Layer>, overrides: map<string, string>)
    requires UniqueNames(layers)
    ensures UniqueNames(Outcome(count, budget, layers, overrides).layers)
  {
    hide Active, TrimLayers;
    ActiveFacts(layers, overrides);
    TrimKeeps(count, budget, Active(layers, overrides));
  }
}
