/** Exactly when trimming meets the budget itself, not just within one token of it.

    The loop carries a counted total.  The real one can lie below it, because a
    conversation that is removed whole frees more than its messages count, and
    above it, because what is kept of a conversation is printed anew; and an
    ellipsis can leave one token of overflow that the next layer has to absorb. */
module ContextFit {
  import opened Collections
  import opened Text
  import opened Conversation
  import opened ContextTrim
  import opened ContextBudget

  /** What removing a whole conversation counts as saved. */
  function SavedInAll(text: string): nat {
    if Parse(text) == [] then Estimate(text) else Saved(Estimate, GroupsOf(text), |GroupsOf(text)|)
  }

  /** What a conversation costs once enough exchanges for `overflow` are gone. */
  function Reprinted(text: string, overflow: int): nat {
    if Parse(text) == [] then 0
    else Estimate(Print(Flatten(GroupsOf(text)[Removed(Estimate, GroupsOf(text), 0, overflow)..])))
  }

  /** Whether the candidates from position `k` on absorb `overflow` counted tokens,
      of which `slack` were in truth freed already.  A layer no larger than the
      overflow goes; a larger one absorbs it if its ellipsis fits, and otherwise
      leaves one token to the next. */
  predicate Fits(layers: seq<Layer>, order: seq<nat>, k: nat, overflow: int, slack: int)
    requires k <= |order| && Positions(order, |layers|)
    decreases |order| - k
  {
    if overflow <= 0 then true
    else if k == |order| then overflow <= slack
    else
      var text := layers[order[k]].content;
      var tokens := Estimate(text);
      if IsConversation(layers[order[k]]) then
        var all := SavedInAll(text);
        if all < overflow then Fits(layers, order, k + 1, overflow - all, slack + tokens - all)
        else Reprinted(text, overflow) + overflow <= tokens + slack
      else if overflow >= tokens then Fits(layers, order, k + 1, overflow - tokens, slack)
      else Room(text, tokens - overflow) || Fits(layers, order, k + 1, 1, slack)
  }

  // ---- One cut ----

  /** A truncation ends at its target or, where the ellipsis does not fit, just above. */
  lemma TruncationEnds(text: string, target: nat)
    requires target < Estimate(text)
    ensures
      var left := Estimate(Truncated(Estimate, text, target));
      if Room(text, target) then left <= target else left == target + 1
  {
    hide Estimate, Truncated, Room;
    TruncatedMeetsTarget(text, target);
    TruncatedOvershoot(text, target);
  }

  /** Enough is saved before the last exchange goes, or everything goes. */
  lemma ConversationEnds(text: string, overflow: int)
    requires overflow > 0
    ensures
      var t := Trim(Estimate, text, Estimate(text), overflow);
      if SavedInAll(text) < overflow then t == ("", SavedInAll(text))
      else t.1 >= overflow && Estimate(t.0) == Reprinted(text, overflow)
  {
    hide Estimate, Parse, Exchanges, Saved, Flatten, Print;
    if Parse(text) != [] {
      var groups := GroupsOf(text);
      var n := Removed(Estimate, groups, 0, overflow);
      if SavedInAll(text) < overflow {
        NotEnough(text, overflow, n);
        assert groups[n..] == [];
      }
    }
  }

  /** If even all exchanges do not save enough, no smaller number does. */
  lemma NotEnough(text: string, overflow: int, n: nat)
    requires Parse(text) != [] && SavedInAll(text) < overflow
    requires n <= |GroupsOf(text)| && (n < |GroupsOf(text)| ==> Saved(Estimate, GroupsOf(text), n) >= overflow)
    ensures n == |GroupsOf(text)|
  {
    hide Estimate, Parse, Exchanges, Saved;
    EstimateIsPositive();
    if n < |GroupsOf(text)| { SavedGrows(Estimate, text, n, |GroupsOf(text)|); }
  }

  lemma SavedInAllAtMost(text: string)
    ensures SavedInAll(text) <= Estimate(text)
  {
    hide Estimate, Parse, Exchanges, Saved;
    if Parse(text) != [] { RemovingAllSavesAtMost(text); }
  }

  /** Where one cut ends, in the cases of `Fits`. */
  lemma CutEnds(layer: Layer, overflow: int)
    requires overflow > 0 && layer.content != ""
    ensures
      var cut := CutLayer(Estimate, layer, overflow);
      var tokens, after := Estimate(layer.content), Estimate(cut.content);
      if IsConversation(layer) then
        if SavedInAll(layer.content) < overflow then after == 0 && cut.saved == SavedInAll(layer.content) <= tokens
        else cut.saved >= overflow && after == Reprinted(layer.content, overflow)
      else if overflow >= tokens then after == 0 && cut.saved == tokens
      else
        && cut.saved == tokens - after
        && (if Room(layer.content, tokens - overflow) then cut.saved >= overflow else cut.saved == overflow - 1)
  {
    hide Estimate, Trim, Truncated, Room, SavedInAll, Reprinted, IsConversation;
    if IsConversation(layer) {
      ConversationEnds(layer.content, overflow);
      SavedInAllAtMost(layer.content);
    } else if overflow < Estimate(layer.content) {
      TruncationEnds(layer.content, Estimate(layer.content) - overflow);
    }
  }

  // ---- The whole loop ----

  /** The candidates from `k` on have not been cut. */
  predicate Waiting(active: seq<Layer>, layers: seq<Layer>, order: seq<nat>, k: nat)
    requires Positions(order, |active|) && |layers| == |active| && k <= |order|
  {
    forall j :: k <= j < |order| ==> layers[order[j]] == active[order[j]] && active[order[j]].content != ""
  }

  lemma CutWaiting(active: seq<Layer>, s: Trimming, order: seq<nat>, k: nat, budget: int)
    requires Positions(order, |active|) && NoDup(order) && |s.layers| == |active| && k < |order|
    requires Waiting(active, s.layers, order, k)
    ensures Waiting(active, CutAt(Estimate, budget, s, order[k]).layers, order, k + 1)
  {
    hide CutLayer, Estimate;
  }

  /** The real total after one cut. */
  lemma CutTotal(s: Trimming, p: nat, budget: int)
    requires p < |s.layers|
    ensures
      var cut := CutLayer(Estimate, s.layers[p], s.total - budget);
      Total(Estimate, CutAt(Estimate, budget, s, p).layers)
        == Total(Estimate, s.layers) - Estimate(s.layers[p].content) + Estimate(cut.content)
  {
    hide CutLayer, Estimate, Total;
    TotalUpdate(Estimate, s.layers, p, CutAt(Estimate, budget, s, p).layers[p]);
  }

  lemma {:induction false} FitsFrom(budget: int, active: seq<Layer>, s: Trimming, order: seq<nat>, k: nat)
    requires Positions(order, |active|) && NoDup(order) && |s.layers| == |active| && k <= |order|
    requires Waiting(active, s.layers, order, k)
    requires Total(Estimate, s.layers) <= s.total
    ensures Total(Estimate, TrimFrom(Estimate, budget, s, order, k).layers) <= budget
      <==> Fits(active, order, k, s.total - budget, s.total - Total(Estimate, s.layers))
    decreases |order| - k
  {
    hide Estimate, Total, CutLayer, Room, SavedInAll, Reprinted, Waiting, IsConversation;
    if k < |order| && s.total > budget {
      var next := CutAt(Estimate, budget, s, order[k]);
      FirstWaiting(active, s.layers, order, k);
      CutWaiting(active, s, order, k, budget);
      CutTotal(s, order[k], budget);
      CutEnds(s.layers[order[k]], s.total - budget);
      if Total(Estimate, next.layers) <= next.total { FitsFrom(budget, active, next, order, k + 1); }
    }
  }

  lemma FirstWaiting(active: seq<Layer>, layers: seq<Layer>, order: seq<nat>, k: nat)
    requires Positions(order, |active|) && |layers| == |active| && k < |order|
    requires Waiting(active, layers, order, k)
    ensures layers[order[k]] == active[order[k]] && active[order[k]].content != ""
  {
  }

  /** Whether these layers can be trimmed into the budget. */
  predicate FitsBudget(budget: int, active: seq<Layer>) {
    Fits(active, Candidates(active), 0, Total(Estimate, active) - budget, 0)
  }

  /** Trimming meets the budget exactly when the layers fit. */
  lemma TrimmingFits(budget: int, active: seq<Layer>)
    requires forall i :: 0 <= i < |active| ==> active[i].content != ""
    ensures Total(Estimate, TrimLayers(Estimate, budget, active).layers) <= budget <==> FitsBudget(budget, active)
  {
    hide Estimate, Total, TrimFrom, Fits, Candidates;
    CandidatesAscend(active);
    FitsFrom(budget, active, Trimming(active, Total(Estimate, active), []), Candidates(active), 0);
  }

  /** A cut of any other layer counts what it frees. */
  lemma CutCounts(budget: int, s: Trimming, p: nat)
    requires p < |s.layers| && !IsConversation(s.layers[p]) && s.total == Total(Estimate, s.layers)
    ensures
      var next := CutAt(Estimate, budget, s, p);
      next.total == Total(Estimate, next.layers) && !IsConversation(next.layers[p])
  {
    hide Estimate, Total, Truncated, Trim;
    CutTotal(s, p, budget);
  }

  predicate NoConversation(layers: seq<Layer>) {
    forall i :: 0 <= i < |layers| ==> !IsConversation(layers[i])
  }

  lemma {:induction false} CountedFrom(budget: int, s: Trimming, order: seq<nat>, k: nat)
    requires k <= |order| && Positions(order, |s.layers|)
    requires s.total == Total(Estimate, s.layers) && NoConversation(s.layers)
    ensures
      var r := TrimFrom(Estimate, budget, s, order, k);
      r.total == Total(Estimate, r.layers)
    decreases |order| - k
  {
    hide Estimate, Total, CutLayer, IsConversation;
    if k < |order| && s.total > budget {
      CutCounts(budget, s, order[k]);
      CountedFrom(budget, CutAt(Estimate, budget, s, order[k]), order, k + 1);
    }
  }

  /** Without a conversation the total that trimming returns is the real one, so the
      same condition decides it. */
  lemma CountedFits(budget: int, active: seq<Layer>)
    requires NoConversation(active) && forall i :: 0 <= i < |active| ==> active[i].content != ""
    ensures TrimLayers(Estimate, budget, active).total == Total(Estimate, TrimLayers(Estimate, budget, active).layers)
    ensures TrimLayers(Estimate, budget, active).total <= budget <==> FitsBudget(budget, active)
  {
    hide Estimate, Total, TrimFrom, FitsBudget, Candidates;
    CountedFrom(budget, Trimming(active, Total(Estimate, active), []), Candidates(active), 0);
    TrimmingFits(budget, active);
  }

  // ---- Inputs on either side ----

  /** Eight letters in one layer: trimming for two tokens ends at three. */
  lemma EllipsisEndsOver()
    ensures
      var active := [Layer("memory", 3, "aaaaaaaa", false, false)];
      Total(Estimate, TrimLayers(Estimate, 2, active).layers) == 3
  {
    hide TrimLayers, Candidates;
    var memory := Layer("memory", 3, "aaaaaaaa", false, false);
    var active := [memory];
    OneCandidate(memory);
    TotalOne(Estimate, memory);
    NoRoom();
    assert Estimate(memory.content) == 3;
    assert !Fits(active, [0], 1, 1, 0);
    assert !Fits(active, [0], 0, 1, 0);
    TrimmingFits(2, active);
    assert FairLayer(memory);
    BudgetBound(2, active);
    TrimKeepsOne(memory);
  }

  lemma NoRoom()
    ensures !Room("aaaaaaaa", 2)
  {
    var text := "aaaaaaaa";
    assert text[..7] == "aaaaaaa" && RStrip("aaaaaaa") == "aaaaaaa";
  }

  /** A layer emptied is a total of nothing, which would be within any budget. */
  lemma TrimKeepsOne(layer: Layer)
    ensures
      var left := TrimLayers(Estimate, 2, [layer]).layers;
      |left| == 1 && (left[0].content == "" ==> Total(Estimate, left) == 0)
  {
    hide TrimLayers;
    var left := TrimLayers(Estimate, 2, [layer]).layers;
    assert left == [left[0]];
    TotalOne(Estimate, left[0]);
  }

  /** With one more letter in a second layer, and one more token of budget, the same
      truncation overshoots and trimming still ends within the budget. */
  lemma OvershootAbsorbed()
    ensures
      var active := [Layer("memory", 3, "aaaaaaaa", false, false), Layer("budget", 5, "b", false, false)];
      && !Room("aaaaaaaa", 2)
      && Total(Estimate, TrimLayers(Estimate, 3, active).layers) <= 3
  {
    hide TrimLayers, Candidates, Room;
    var memory, other := Layer("memory", 3, "aaaaaaaa", false, false), Layer("budget", 5, "b", false, false);
    var active := [memory, other];
    NoRoom();
    TwoCandidates(memory, other);
    assert active[..1] == [memory];
    TotalOne(Estimate, memory);
    assert Estimate(memory.content) == 3 && Estimate(other.content) == 1;
    assert Total(Estimate, active) == 4;
    assert Fits(active, [0, 1], 2, 0, 0);
    assert Fits(active, [0, 1], 1, 1, 0);
    assert Fits(active, [0, 1], 0, 1, 0);
    TrimmingFits(3, active);
  }

  lemma TwoCandidates(a: Layer, b: Layer)
    requires Optional(a) && Optional(b) && a.priority < b.priority
    ensures Candidates([a, b]) == [0, 1]
  {
    hide Candidates;
    var active := [a, b];
    var order := Candidates(active);
    CandidatesAscend(active);
    assert Optional(active[0]) && Optional(active[1]);
    var p :| 0 <= p < |order| && order[p] == 0;
    var q :| 0 <= q < |order| && order[q] == 1;
    assert forall i :: 0 <= i < |order| && order[i] == 0 ==> i == p;
    assert forall i :: 0 <= i < |order| && order[i] == 1 ==> i == q;
    assert p < q;
    assert order[0] < 2 && order[p + 1] < 2 && order[|order| - 1] < 2;
    assert p == 0 && q == 1 && |order| == 2;
  }
}
