/** What trimming promises: the budget bound with the estimating counter, the
    exact condition on conversation text, and the order layers are cut in. */
module ContextBudget {
  import opened Collections
  import opened Text
  import opened Conversation
  import opened ContextTrim

  // ---- Sizes of printed conversations ----

  function Chars(msgs: seq<Message>): nat {
    if msgs == [] then 0 else |msgs[0].content| + Chars(msgs[1..])
  }

  lemma {:induction false} CharsConcat(a: seq<Message>, b: seq<Message>)
    ensures Chars(a + b) == Chars(a) + Chars(b)
  {
    if a == [] {
      assert a + b == b;
    } else {
      assert (a + b)[1..] == a[1..] + b;
      CharsConcat(a[1..], b);
    }
  }

  lemma {:induction false} TokensConcat(count: Counter, a: seq<Message>, b: seq<Message>)
    ensures Tokens(count, a + b) == Tokens(count, a) + Tokens(count, b)
  {
    if a == [] {
      assert a + b == b;
    } else {
      assert (a + b)[1..] == a[1..] + b;
      TokensConcat(count, a[1..], b);
    }
  }

  predicate Nonblank(msgs: seq<Message>) {
    forall i :: 0 <= i < |msgs| ==> msgs[i].content != ""
  }

  /** Seven times the estimate is at most twice the characters and six a message. */
  lemma {:induction false} TokensBelowChars(msgs: seq<Message>)
    requires Nonblank(msgs)
    ensures |msgs| <= Tokens(Estimate, msgs)
    ensures 7 * Tokens(Estimate, msgs) <= 2 * Chars(msgs) + 6 * |msgs|
  {
    if msgs != [] { TokensBelowChars(msgs[1..]); }
  }

  /** Every printed message costs its prefix and a newline besides its content. */
  lemma {:induction false} PrintedSize(msgs: seq<Message>)
    requires msgs != []
    ensures |Print(msgs)| >= Chars(msgs) + 7 * |msgs| - 1
    decreases |msgs|
  {
    assert |PrintMessage(msgs[0])| >= |msgs[0].content| + 6;
    if |msgs| > 1 {
      PrintedSize(msgs[1..]);
      assert PrintedLines(msgs)[1..] == PrintedLines(msgs[1..]);
      assert |Print(msgs)| == |PrintMessage(msgs[0])| + 1 + |Print(msgs[1..])|;
    } else {
      assert msgs[1..] == [];
    }
  }

  lemma PrintConcat(a: seq<Message>, b: seq<Message>)
    requires a != [] && b != []
    ensures |Print(a + b)| == |Print(a)| + 1 + |Print(b)|
  {
    PrintedLinesConcat(a, b);
    JoinConcat(PrintedLines(a), PrintedLines(b), '\n');
  }

  // ---- Sizes of parsed conversations ----

  function LinesSize(lines: seq<string>): nat {
    if lines == [] then 0 else |lines[0]| + 1 + LinesSize(lines[1..])
  }

  lemma {:induction false} SplitSize(s: string)
    ensures LinesSize(Split(s, '\n')) == |s| + 1
  {
    if s == "" {
      assert [""][1..] == [];
    } else {
      SplitSize(s[1..]);
      var rest := Split(s[1..], '\n');
      if s[0] == '\n' {
        assert ([""] + rest)[1..] == rest;
      } else {
        assert ([[s[0]] + rest[0]] + rest[1..])[1..] == rest[1..];
      }
    }
  }

  /** A role prefix is at least "AI:". */
  lemma AfterColonSize(line: string)
    requires RoleOf(line).Some?
    ensures |AfterColon(line)| + 3 <= |line|
  {
    hide Strip;
    var i := IndexOf(line, ':');
    assert line[0] != ':' && line[1] != ':';
    assert i < |line| ==> line[i] == ':';
    assert i >= 2;
  }

  lemma StartSize(msgs: seq<Message>, m: Message)
    requires Nonblank(msgs) && m.content != ""
    ensures Chars(msgs + [m]) == Chars(msgs) + |m.content| && Nonblank(msgs + [m])
  {
    CharsConcat(msgs, [m]);
    assert [m][1..] == [];
  }

  lemma ExtendSize(msgs: seq<Message>, line: string)
    requires msgs != [] && Nonblank(msgs)
    ensures
      var last := msgs[|msgs| - 1];
      var r := msgs[..|msgs| - 1] + [last.(content := last.content + "\n" + line)];
      Chars(r) == Chars(msgs) + 1 + |line| && Nonblank(r)
  {
    hide Chars;
    var n := |msgs| - 1;
    var longer := msgs[n].(content := msgs[n].content + "\n" + line);
    assert msgs == msgs[..n] + [msgs[n]];
    assert Nonblank(msgs[..n]);
    StartSize(msgs[..n], msgs[n]);
    StartSize(msgs[..n], longer);
  }

  lemma ParseLineSize(msgs: seq<Message>, raw: string)
    requires Nonblank(msgs)
    ensures
      var r := ParseLine(msgs, raw);
      Chars(r) + 4 * |r| <= Chars(msgs) + 4 * |msgs| + |raw| + 1 && Nonblank(r)
  {
    hide Strip, RoleOf, AfterColon, Chars, Nonblank;
    var line := Strip(raw);
    if line != "" {
      match RoleOf(line) {
        case Some(role) =>
          AfterColonSize(line);
          if AfterColon(line) != "" { StartSize(msgs, Message(role, AfterColon(line))); }
        case None =>
          if msgs != [] { ExtendSize(msgs, line); }
      }
    }
  }

  lemma {:induction false} ParseFromSize(msgs: seq<Message>, lines: seq<string>)
    requires Nonblank(msgs)
    ensures
      var r := ParseFrom(msgs, lines);
      Chars(r) + 4 * |r| <= Chars(msgs) + 4 * |msgs| + LinesSize(lines) && Nonblank(r)
    decreases |lines|
  {
    hide ParseLine, Chars, Nonblank;
    if lines != [] {
      ParseLineSize(msgs, lines[0]);
      ParseFromSize(ParseLine(msgs, lines[0]), lines[1..]);
    }
  }

  /** The messages of a text fit in it, with their prefixes and newlines. */
  lemma ParsedSize(text: string)
    ensures Chars(Parse(text)) + 4 * |Parse(text)| <= |text| + 1
    ensures Nonblank(Parse(text))
  {
    hide ParseFrom, Split, LinesSize;
    ParseFromSize([], Split(text, '\n'));
    SplitSize(text);
  }

  // ---- What trimming a conversation saves ----

  lemma {:induction false} SavedIsTokens(count: Counter, groups: seq<seq<Message>>, k: nat)
    requires k <= |groups|
    ensures Saved(count, groups, k) == Tokens(count, Flatten(groups[..k]))
  {
    if k == 0 {
      assert groups[..0] == [];
    } else {
      SavedIsTokens(count, groups, k - 1);
      assert groups[..k] == groups[..k - 1] + [groups[k - 1]];
      FlattenAppend(groups[..k - 1], groups[k - 1]);
      TokensConcat(count, Flatten(groups[..k - 1]), groups[k - 1]);
    }
  }

  /** Cutting a text's groups in two cuts its messages in two nonempty runs. */
  lemma GroupsCut(text: string, k: nat)
    requires 0 < k < |GroupsOf(text)|
    ensures
      var gone := Flatten(GroupsOf(text)[..k]);
      var kept := Flatten(GroupsOf(text)[k..]);
      && gone != [] && kept != [] && gone + kept == Parse(text)
  {
    hide Parse;
    var groups := GroupsOf(text);
    ExchangesPartition([], Parse(text));
    assert [] + Parse(text) == Parse(text);
    FlattenSuffix(groups, k);
    assert groups[..k][0] == groups[0] && groups[k..][0] == groups[k];
  }

  /** Removing every exchange never counts more than the text held, whatever the text. */
  lemma RemovingAllSavesAtMost(text: string)
    requires Parse(text) != []
    ensures Saved(Estimate, GroupsOf(text), |GroupsOf(text)|) <= Estimate(text)
  {
    hide Parse;
    var groups := GroupsOf(text);
    ParsedSize(text);
    ExchangesPartition([], Parse(text));
    assert [] + Parse(text) == Parse(text);
    assert groups[..|groups|] == groups;
    SavedIsTokens(Estimate, groups, |groups|);
    TokensBelowChars(Parse(text));
  }

  /** Where the reprinted text is no longer than the text, removing some exchanges
      never counts more tokens than it frees. */
  lemma ReprintSavesAtMost(text: string, k: nat)
    requires |Print(Parse(text))| <= |text|
    requires 0 < k < |GroupsOf(text)|
    ensures Estimate(Print(Flatten(GroupsOf(text)[k..]))) + Saved(Estimate, GroupsOf(text), k) <= Estimate(text)
  {
    hide Parse, Print;
    var groups := GroupsOf(text);
    var gone, kept := Flatten(groups[..k]), Flatten(groups[k..]);
    GroupsCut(text, k);
    PrintConcat(gone, kept);
    PrintedSize(gone);
    ParsedSize(text);
    assert forall i :: 0 <= i < |gone| ==> gone[i] == Parse(text)[i];
    SavedIsTokens(Estimate, groups, k);
    TokensBelowChars(gone);
  }

  lemma {:induction false} FlattenMember(groups: seq<seq<Message>>, i: nat)
    requires i < |groups|
    ensures forall m :: m in groups[i] ==> m in Flatten(groups)
  {
    if i > 0 { FlattenMember(groups[1..], i - 1); }
  }

  lemma {:induction false} TokensPositive(count: Counter, msgs: seq<Message>)
    requires Positive(count) && msgs != [] && Nonblank(msgs)
    ensures Tokens(count, msgs) > 0
  {
  }

  /** Each exchange removed counts as something saved. */
  lemma {:induction false} SavedGrows(count: Counter, text: string, k: nat, n: nat)
    requires Positive(count) && Parse(text) != []
    requires k < n <= |GroupsOf(text)|
    ensures Saved(count, GroupsOf(text), k) < Saved(count, GroupsOf(text), n)
  {
    hide Parse, Positive, Exchanges;
    var groups := GroupsOf(text);
    if k < n - 1 { SavedGrows(count, text, k, n - 1); }
    var group := groups[n - 1];
    ParsedSize(text);
    ExchangesPartition([], Parse(text));
    assert [] + Parse(text) == Parse(text);
    FlattenMember(groups, n - 1);
    assert forall m :: m in Parse(text) ==> m.content != "";
    assert forall i :: 0 <= i < |group| ==> group[i] in group;
    TokensPositive(count, group);
  }

  // ---- The exact condition on conversation text ----

  /** At every boundary between exchanges, what is reprinted after it and what the
      removal counts as saved exceed the text's own tokens by at most one. */
  predicate FairAt(text: string, k: nat)
    requires k <= |GroupsOf(text)|
  {
    Estimate(Print(Flatten(GroupsOf(text)[k..]))) + Saved(Estimate, GroupsOf(text), k) <= Estimate(text) + 1
  }

  predicate Fair(text: string) {
    forall k :: 0 < k < |GroupsOf(text)| ==> FairAt(text, k)
  }

  /** Text that its own parse and print leave no longer meets the condition. */
  lemma CanonicalIsFair(text: string)
    requires |Print(Parse(text))| <= |text|
    ensures Fair(text)
  {
    forall k | 0 < k < |GroupsOf(text)|
      ensures FairAt(text, k)
    {
      ReprintSavesAtMost(text, k);
    }
  }

  // ---- Cutting one layer ----

  /** The ellipsis costs at most one token over the target. */
  lemma TruncatedOvershoot(text: string, target: nat)
    ensures Estimate(Truncated(Estimate, text, target)) <= target + 1
  {
    SearchWithin(Estimate, text, target, 0, |text|);
  }

  /** The estimating counter is monotone, so the search has a closed form. */
  lemma SearchClosedForm(text: string, target: nat)
    requires target < Estimate(text)
    ensures Search(Estimate, text, target, 0, |text|) == 7 * target / 2 < |text|
  {
    var r := Search(Estimate, text, target, 0, |text|);
    SearchWithin(Estimate, text, target, 0, |text|);
    assert Monotone(Estimate) by {
      forall s: string, i: nat, j: nat | i <= j <= |s|
        ensures Estimate(s[..i]) <= Estimate(s[..j])
      {
      }
    }
    assert text[..|text|] == text;
    assert r < |text|;
    SearchLongest(Estimate, text, target, 0, |text|, r + 1);
  }

  /** The characters `target` tokens hold leave room for an ellipsis after what is
      left of the text's own. */
  predicate Room(text: string, target: nat) {
    var chars := 7 * target / 2;
    |RStrip(if chars <= |text| then text[..chars] else text)| + 3 <= chars
  }

  /** Exactly when a truncation, ellipsis included, meets its target. */
  lemma TruncatedMeetsTarget(text: string, target: nat)
    requires target < Estimate(text)
    ensures Estimate(Truncated(Estimate, text, target)) <= target <==> Room(text, target)
  {
    SearchClosedForm(text, target);
  }

  /** Eight letters cut to two tokens keep seven, and end with three tokens. */
  lemma EllipsisOvershoots()
    ensures Estimate("aaaaaaaa") == 3 && Estimate(Truncated(Estimate, "aaaaaaaa", 2)) == 3
  {
    var text := "aaaaaaaa";
    SearchClosedForm(text, 2);
    assert text[..7] == "aaaaaaa" && RStrip("aaaaaaa") == "aaaaaaa";
  }

  /** Whatever the tokenizer, a truncation keeps a prefix within the target, right-
      stripped, and an ellipsis; for a monotone tokenizer no longer prefix fits. */
  lemma TruncatedKeepsPrefix(count: Counter, text: string, target: nat) returns (low: nat)
    requires count("") <= target
    ensures low <= |text| && Truncated(count, text, target) == RStrip(text[..low]) + "..."
    ensures count(text[..low]) <= target
    ensures Monotone(count) ==> forall i :: low < i <= |text| ==> count(text[..i]) > target
  {
    hide Search;
    low := Search(count, text, target, 0, |text|);
    assert text[..0] == "";
    SearchWithin(count, text, target, 0, |text|);
    if Monotone(count) {
      forall i | low < i <= |text|
        ensures count(text[..i]) > target
      {
        SearchLongest(count, text, target, 0, |text|, i);
      }
    }
  }

  /** The three ways to cut a layer.  Only the layer named "conversation", with its own
      strategy, loses whole exchanges; any other goes if the overflow is as large, and
      is truncated if not.  A cut is listed unless it is of a conversation and counts
      nothing as saved. */
  lemma CutKinds(count: Counter, budget: int, s: Trimming, p: nat) returns (n: nat)
    requires p < |s.layers| && s.total > budget
    ensures
      var layer, next := s.layers[p], CutAt(count, budget, s, p);
      var text, left, overflow := layer.content, next.layers[p].content, s.total - budget;
      var groups := GroupsOf(text);
      && next.layers == s.layers[p := layer.(content := left)]
      && if layer.name == "conversation" && layer.oldestFirst then
           && next.trimmed == (if s.total == next.total then s.trimmed else s.trimmed + [layer.name])
           && (if Parse(text) == [] then left == "" && s.total - next.total == count(text)
               else n <= |groups| && left == Print(Flatten(groups[n..])) && s.total - next.total == Saved(count, groups, n)
                    && (n < |groups| ==> Saved(count, groups, n) >= overflow)
                    && forall k :: 0 <= k < n ==> Saved(count, groups, k) < overflow)
         else
           && next.trimmed == s.trimmed + [layer.name] && s.total - next.total == count(text) - (if left == "" then 0 else count(left))
           && (if count(text) <= overflow then left == "" else n <= |text| && left == RStrip(text[..n]) + "...")
  {
    hide Parse, Exchanges, Print, Flatten, Saved, Search;
    var text := s.layers[p].content;
    if IsConversation(s.layers[p]) {
      n := if Parse(text) == [] then 0 else Removed(count, GroupsOf(text), 0, s.total - budget);
    } else {
      n := if count(text) <= s.total - budget then 0 else Search(count, text, count(text) - (s.total - budget), 0, |text|);
    }
  }

  // ---- The bound over all layers ----

  predicate FairLayer(layer: Layer) {
    IsConversation(layer) && Parse(layer.content) != [] ==> Fair(layer.content)
  }

  lemma {:induction false} TotalUpdate(count: Counter, layers: seq<Layer>, p: nat, layer: Layer)
    requires p < |layers|
    ensures Total(count, layers[p := layer]) == Total(count, layers) - count(layers[p].content) + count(layer.content)
  {
    var n := |layers| - 1;
    assert layers[p := layer][..n] == if p == n then layers[..n] else layers[..n][p := layer];
    if p < n { TotalUpdate(count, layers[..n], p, layer); }
  }

  /** One cut: either the layer is emptied and nothing is over-counted, or the
      total that is counted ends within one token of the budget and the real one
      with it. */
  lemma CutBound(layer: Layer, overflow: int)
    requires overflow > 0 && layer.content != "" && FairLayer(layer)
    ensures
      var cut := CutLayer(Estimate, layer, overflow);
      var freed := Estimate(layer.content) - Estimate(cut.content);
      || (cut.content == "" && 0 <= cut.saved <= freed)
      || (cut.saved >= overflow && cut.saved <= freed + 1)
      || (cut.saved >= overflow - 1 && cut.saved == freed)
  {
    hide Estimate, Parse, Print, Saved, Truncated, Fair, Flatten;
    if IsConversation(layer) {
      ConversationCutBound(layer.content, overflow);
    } else if overflow < Estimate(layer.content) {
      TruncatedOvershoot(layer.content, Estimate(layer.content) - overflow);
    }
  }

  lemma ConversationCutBound(text: string, overflow: int)
    requires overflow > 0 && (Parse(text) != [] ==> Fair(text))
    ensures
      var t := Trim(Estimate, text, Estimate(text), overflow);
      || (t.0 == "" && t.1 <= Estimate(text))
      || (t.1 >= overflow && t.1 <= Estimate(text) - Estimate(t.0) + 1)
  {
    hide Estimate, Parse, Saved, Flatten, Exchanges;
    if Parse(text) != [] {
      var groups := GroupsOf(text);
      var n := Removed(Estimate, groups, 0, overflow);
      if n == |groups| {
        RemovingAllSavesAtMost(text);
        assert groups[n..] == [];
      } else {
        assert FairAt(text, n);
      }
    }
  }

  predicate Emptied(layers: seq<Layer>, order: seq<nat>, k: nat)
    requires k <= |order| && Positions(order, |layers|)
  {
    forall j :: 0 <= j < k ==> layers[order[j]].content == ""
  }

  predicate Untouched(layers: seq<Layer>, order: seq<nat>, k: nat)
    requires k <= |order| && Positions(order, |layers|)
  {
    forall j :: k <= j < |order| ==> layers[order[j]].content != "" && FairLayer(layers[order[j]])
  }

  /** What one cut does to the counted and the real total. */
  lemma CutTotals(budget: int, s: Trimming, p: nat)
    requires p < |s.layers| && s.layers[p].content != "" && FairLayer(s.layers[p])
    requires Total(Estimate, s.layers) <= s.total && s.total > budget
    ensures
      var next := CutAt(Estimate, budget, s, p);
      var left := Total(Estimate, next.layers);
      || (next.layers[p].content == "" && left <= next.total <= s.total)
      || (next.total <= budget && left <= budget + 1)
      || (left <= next.total <= budget + 1)
  {
    hide Estimate, CutLayer, FairLayer, Total, IsConversation;
    CutBound(s.layers[p], s.total - budget);
    TotalUpdate(Estimate, s.layers, p, CutAt(Estimate, budget, s, p).layers[p]);
  }

  lemma {:induction false} BoundFrom(budget: int, s: Trimming, order: seq<nat>, k: nat)
    requires k <= |order| && Positions(order, |s.layers|) && NoDup(order)
    requires Total(Estimate, s.layers) <= s.total
    requires s.total <= budget + 1 || Emptied(s.layers, order, k)
    requires Untouched(s.layers, order, k)
    ensures
      var r := TrimFrom(Estimate, budget, s, order, k);
      Total(Estimate, r.layers) <= budget + 1 || Emptied(r.layers, order, |order|)
    decreases |order| - k
  {
    hide Estimate, CutLayer, FairLayer, Total, IsConversation;
    if k < |order| && s.total > budget {
      var next := CutAt(Estimate, budget, s, order[k]);
      CutTotals(budget, s, order[k]);
      if Total(Estimate, next.layers) <= next.total {
        BoundFrom(budget, next, order, k + 1);
      }
    }
  }

  /** What trimming leaves is within one token of the budget, or nothing of the
      layers that may be trimmed is left. */
  ghost predicate WithinBudget(budget: int, active: seq<Layer>) {
    var r := TrimLayers(Estimate, budget, active);
    || Total(Estimate, r.layers) <= budget + 1
    || forall i :: 0 <= i < |active| && !active[i].required ==> r.layers[i].content == ""
  }

  /** The budget bound.  With the estimating counter, and conversation text that is
      fair, what is left of the layers is within one token of the budget or holds
      nothing but required layers. */
  lemma BudgetBound(budget: int, active: seq<Layer>)
    requires forall i :: 0 <= i < |active| ==> active[i].content != "" && FairLayer(active[i])
    ensures WithinBudget(budget, active)
  {
    hide Estimate, FairLayer, TrimFrom, Candidates;
    var order := Candidates(active);
    CandidatesAscend(active);
    BoundFrom(budget, Trimming(active, Total(Estimate, active), []), order, 0);
    forall i | 0 <= i < |active| && !active[i].required
      ensures i in order
    {
    }
  }

  // ---- The condition is exact ----

  /** An assembly in which `layer` is the conversation. */
  predicate Around(active: seq<Layer>, layer: Layer) {
    && layer in active
    && forall l :: l in active ==> l.content != "" && (IsConversation(l) ==> l == layer)
  }

  /** What trimming leaves of a conversation that is the only layer. */
  function Alone(budget: int, layer: Layer): string {
    TrimLayers(Estimate, budget, [layer]).layers[0].content
  }

  lemma OneCandidate(layer: Layer)
    requires Optional(layer)
    ensures Candidates([layer]) == [0]
  {
    hide Candidates;
    var active := [layer];
    var order := Candidates(active);
    CandidatesAscend(active);
    assert Optional(active[0]);
    assert 0 in order;
    assert order[0] == 0 && order[|order| - 1] == 0;
    assert |order| == 1;
  }

  lemma TotalOne(count: Counter, layer: Layer)
    ensures Total(count, [layer]) == count(layer.content)
  {
    assert [layer][..0] == [];
  }

  /** A layer on its own is cut once, if it is over the budget. */
  lemma AloneIsCut(budget: int, layer: Layer)
    requires Optional(layer)
    ensures
      var tokens := Estimate(layer.content);
      Alone(budget, layer) == if tokens <= budget then layer.content else CutLayer(Estimate, layer, tokens - budget).content
  {
    hide Estimate, CutLayer, Candidates, Total;
    var tokens, active := Estimate(layer.content), [layer];
    OneCandidate(layer);
    TotalOne(Estimate, layer);
    var s := Trimming(active, tokens, []);
    assert Alone(budget, layer) == TrimFrom(Estimate, budget, s, [0], 0).layers[0].content;
    if tokens > budget {
      var cut := CutAt(Estimate, budget, s, 0);
      assert TrimFrom(Estimate, budget, s, [0], 0) == TrimFrom(Estimate, budget, cut, [0], 1) == cut;
    }
  }

  lemma AloneIsTrim(budget: int, layer: Layer)
    requires IsConversation(layer) && Optional(layer)
    ensures
      var text := layer.content;
      Alone(budget, layer)
      == if Estimate(text) <= budget then text else Trim(Estimate, text, Estimate(text), Estimate(text) - budget).0
  {
    hide Estimate, Trim, Alone;
    AloneIsCut(budget, layer);
  }

  /** An unfair boundary names a budget that trimming misses. */
  lemma UnfairBudget(layer: Layer) returns (budget: nat)
    requires IsConversation(layer) && Optional(layer) && Parse(layer.content) != [] && !Fair(layer.content)
    ensures Estimate(Alone(budget, layer)) > budget + 1 && Alone(budget, layer) != ""
  {
    hide Estimate, Parse, Alone, Exchanges, Saved, Print, Flatten, Positive;
    var text := layer.content;
    var groups := GroupsOf(text);
    var k :| 0 < k < |groups| && !FairAt(text, k);
    RemovingAllSavesAtMost(text);
    EstimateIsPositive();
    SavedGrows(Estimate, text, k, |groups|);
    SavedGrows(Estimate, text, 0, k);
    budget := Estimate(text) - Saved(Estimate, groups, k);
    AloneIsTrim(budget, layer);
    var n := Removed(Estimate, groups, 0, Saved(Estimate, groups, k));
    if n < k { SavedGrows(Estimate, text, n, k); }
  }

  /** One layer left over the budget, and not empty, misses the bound. */
  lemma AloneMisses(budget: int, layer: Layer)
    requires !layer.required && Estimate(Alone(budget, layer)) > budget + 1 && Alone(budget, layer) != ""
    ensures !WithinBudget(budget, [layer])
  {
    hide Estimate, TrimLayers;
    var left := TrimLayers(Estimate, budget, [layer]).layers;
    assert left[..0] == [];
    assert Total(Estimate, left[..0]) == 0;
  }

  /** The condition is exact: a conversation is fair if and only if every assembly
      around it, whatever the other layers, meets the bound under every budget. */
  lemma FairIsExact(layer: Layer)
    requires IsConversation(layer) && Optional(layer)
    ensures FairLayer(layer) <==> forall budget: int, active: seq<Layer> :: Around(active, layer) ==> WithinBudget(budget, active)
  {
    hide Estimate, Parse, Alone, Fair, WithinBudget;
    if FairLayer(layer) {
      forall budget: int, active: seq<Layer> | Around(active, layer)
        ensures WithinBudget(budget, active)
      {
        assert forall i :: 0 <= i < |active| ==> active[i] in active;
        BudgetBound(budget, active);
      }
    } else {
      var budget := UnfairBudget(layer);
      AloneMisses(budget, layer);
      assert Around([layer], layer);
    }
  }

  /** The built-in conversation layer. */
  function ConversationLayer(text: string): Layer { Layer("conversation", 1, text, false, true) }

  /** A text that breaks the bound: three tokens as it stands, but four
      once its second exchange is printed with the longer prefix. */
  lemma ShortPrefixesAreUnfair()
    ensures
      var text := "AI:x\nAI:y";
      && Estimate(text) == 3
      && Alone(2, ConversationLayer(text)) == "Assistant: y"
      && Estimate("Assistant: y") == 4
  {
    hide Parse, Alone, Exchanges;
    var text := "AI:x\nAI:y";
    ShortPrefixesParse();
    var x, y := Message(Assistant, "x"), Message(Assistant, "y");
    ShortExchanges(x, y);
    var groups := GroupsOf(text);
    AloneIsTrim(2, ConversationLayer(text));
    assert Tokens(Estimate, groups[0]) == 1 by { assert [x][1..] == []; }
    assert Saved(Estimate, groups, 1) == Saved(Estimate, groups, 0) + 1 == 1;
    assert Removed(Estimate, groups, 0, 1) == Removed(Estimate, groups, 1, 1) == 1;
    PrintOne(groups[1..], y);
  }

  lemma ShortExchanges(x: Message, y: Message)
    requires x.role == y.role == Assistant
    ensures Exchanges([], [x, y]) == [[x], [y]]
  {
    assert [x, y][1..] == [y] && [y][1..] == [];
    assert [] + [x] == [x] && [] + [y] == [y];
    assert Exchanges([], [y]) == [[y]] + Exchanges([], []);
  }

  lemma PrintOne(groups: seq<seq<Message>>, m: Message)
    requires groups == [[m]]
    ensures Print(Flatten(groups)) == PrintMessage(m)
  {
    assert groups[1..] == [];
    assert Flatten(groups) == [m] + Flatten([]) == [m];
  }

  lemma ParseShortPrefix(msgs: seq<Message>, content: string)
    requires content != "" && Trimmed(content)
    ensures ParseLine(msgs, "AI:" + content) == msgs + [Message(Assistant, content)]
  {
    hide Strip, IndexOf;
    var line := "AI:" + content;
    assert line[0] == 'A' && line[..3] == "AI:" && line[3..] == content;
    assert line[|line| - 1] == content[|content| - 1];
    StripTrimmed(line);
    StripTrimmed(content);
    IndexOfSplit("AI", ':', content);
    assert "AI" + [':'] + content == line;
  }

  lemma ShortPrefixesParse()
    ensures Parse("AI:x\nAI:y") == [Message(Assistant, "x"), Message(Assistant, "y")]
  {
    hide Split, ParseLine;
    var a, b := "AI:" + "x", "AI:" + "y";
    SplitConcat(a, b);
    SplitOneLine(a);
    SplitOneLine(b);
    assert a + "\n" + b == "AI:x\nAI:y";
    ParseShortPrefix([], "x");
    ParseShortPrefix([Message(Assistant, "x")], "y");
    var lines := [a] + [b];
    assert lines[1..] == [b] && [b][1..] == [];
    ParseConcat([], [a], [b]);
    assert [a][1..] == [];
    var x, y := Message(Assistant, "x"), Message(Assistant, "y");
    assert [] + [x] == [x] && [x] + [y] == [x, y];
    assert ParseFrom([], [a]) == ParseFrom([x], []) == [x];
    assert ParseFrom([x], [b]) == ParseFrom([x, y], []) == [x, y];
  }

  // ---- Which layers are cut ----

  function NamesAt(layers: seq<Layer>, order: seq<nat>): seq<string>
    requires Positions(order, |layers|)
  {
    if order == [] then []
    else NamesAt(layers, order[..|order| - 1]) + [layers[order[|order| - 1]].name]
  }

  /** `r` comes from `active` by cutting exactly the first `n` candidates: those are
      the names listed, every other layer is as it was, and no layer keeps anything
      but its content apart. */
  predicate CutPrefix(active: seq<Layer>, order: seq<nat>, n: nat, r: Trimming)
    requires n <= |order| && Positions(order, |active|) && |r.layers| == |active|
  {
    && r.trimmed == NamesAt(active, order[..n])
    && (forall i :: 0 <= i < |active| && i !in order[..n] ==> r.layers[i] == active[i])
    && (forall i :: 0 <= i < |active| ==> r.layers[i] == active[i].(content := r.layers[i].content))
  }

  lemma {:induction false} CutsInOrder(count: Counter, budget: int, active: seq<Layer>, order: seq<nat>, s: Trimming, k: nat)
    returns (n: nat)
    requires Positive(count) && Positions(order, |active|) && NoDup(order)
    requires k <= |order| && |s.layers| == |active| && CutPrefix(active, order, k, s)
    requires forall j :: k <= j < |order| ==> active[order[j]].content != ""
    ensures k <= n <= |order|
    ensures
      var r := TrimFrom(count, budget, s, order, k);
      && CutPrefix(active, order, n, r)
      && (n < |order| ==> r.total <= budget)
    decreases |order| - k
  {
    hide CutAt, CutPrefix, Positive;
    if k == |order| || s.total <= budget {
      n := k;
    } else {
      CutExtends(count, budget, active, order, s, k);
      n := CutsInOrder(count, budget, active, order, CutAt(count, budget, s, order[k]), k + 1);
    }
  }

  lemma CutExtends(count: Counter, budget: int, active: seq<Layer>, order: seq<nat>, s: Trimming, k: nat)
    requires Positive(count) && Positions(order, |active|) && NoDup(order)
    requires k < |order| && |s.layers| == |active| && CutPrefix(active, order, k, s)
    requires active[order[k]].content != "" && s.total > budget
    ensures CutPrefix(active, order, k + 1, CutAt(count, budget, s, order[k]))
  {
    hide CutLayer, Positive;
    var p := order[k];
    var done, more := order[..k], order[..k + 1];
    assert more == done + [p] && more[..k] == done;
    assert p !in done;
    assert s.layers[p] == active[p];
    if IsConversation(active[p]) { CutSavesSomething(count, active[p], s.total - budget); }
    var next := CutAt(count, budget, s, p);
    assert next.trimmed == s.trimmed + [active[p].name];
    assert NamesAt(active, more) == NamesAt(active, done) + [active[p].name];
  }

  lemma CutSavesSomething(count: Counter, layer: Layer, overflow: int)
    requires Positive(count) && overflow > 0 && layer.content != "" && IsConversation(layer)
    ensures CutLayer(count, layer, overflow).saved > 0
  {
    hide Parse, Exchanges, Print, Flatten, Truncated;
    var text := layer.content;
    if Parse(text) != [] {
      var groups := GroupsOf(text);
      ExchangesPartition([], Parse(text));
      assert groups != [] by {
        assert [] + Parse(text) == Parse(text);
      }
      var n := Removed(count, groups, 0, overflow);
      SavedGrows(count, text, 0, n);
    }
  }

  /** Trimming goes through the optional layers in priority order: it cuts a prefix
      of them, lists exactly those, leaves every other layer as it was, and stops
      short of the last one only once the total it counts fits. */
  lemma TrimsInPriorityOrder(count: Counter, budget: int, active: seq<Layer>) returns (n: nat)
    requires Positive(count) && forall i :: 0 <= i < |active| ==> active[i].content != ""
    ensures n <= |Candidates(active)|
    ensures
      var r := TrimLayers(count, budget, active);
      && CutPrefix(active, Candidates(active), n, r)
      && (n < |Candidates(active)| ==> r.total <= budget)
      && (forall i :: 0 <= i < |active| && active[i].required ==> r.layers[i] == active[i])
  {
    hide TrimFrom, Candidates;
    var order := Candidates(active);
    CandidatesAscend(active);
    assert order[..0] == [];
    n := CutsInOrder(count, budget, active, order, Trimming(active, Total(count, active), []), 0);
    assert forall i :: i in order[..n] ==> i in order;
  }
}
