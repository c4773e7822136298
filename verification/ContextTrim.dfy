/** Trimming the assembled context to a token budget: `_EstimateCounter.count`
    and `ContextEngine._trim`, over the layers of one assembly. */
module ContextTrim {
  import Collections
  import opened Sorting
  import opened Text
  import opened Conversation

  datatype Layer = Layer(name: string, priority: int, content: string, required: bool, oldestFirst: bool)

  /** `ceil(len / 3.5)`, at least 1 for nonempty text. */
  function Estimate(text: string): (n: nat)
    ensures n == 0 <==> text == ""
  {
    if text == "" then 0 else Collections.Max(1, (2 * |text| + 6) / 7)
  }

  /** A token counter that gives every nonempty text at least one token. */
  ghost predicate Positive(count: Counter) { forall s :: s != "" ==> count(s) > 0 }

  /** A token counter that never gives a prefix more tokens than the whole. */
  ghost predicate Monotone(count: Counter) {
    forall s: string, i: nat, j: nat :: i <= j <= |s| ==> count(s[..i]) <= count(s[..j])
  }

  lemma EstimateIsPositive()
    ensures Positive(Estimate)
  {
  }

  function Total(count: Counter, layers: seq<Layer>): (r: nat)
    ensures layers == [] ==> r == 0
  {
    if layers == [] then 0 else Total(count, layers[..|layers| - 1]) + count(layers[|layers| - 1].content)
  }

  // ---- Cutting one layer ----

  /** The binary search for the longest prefix within `target` tokens. */
  function Search(count: Counter, text: string, target: int, low: nat, high: nat): (r: nat)
    requires low <= high <= |text|
    ensures low <= r <= high
    decreases high - low
  {
    if low == high then low
    else
      var mid := (low + high + 1) / 2;
      if count(text[..mid]) <= target then Search(count, text, target, mid, high)
      else Search(count, text, target, low, mid - 1)
  }

  method FindPrefix(count: Counter, text: string, target: int) returns (r: nat)
    ensures r == Search(count, text, target, 0, |text|)
  {
    var low, high := 0, |text|;
    while low < high
      invariant 0 <= low <= high <= |text|
      invariant Search(count, text, target, low, high) == Search(count, text, target, 0, |text|)
    {
      var mid := (low + high + 1) / 2;
      if count(text[..mid]) <= target {
        low := mid;
      } else {
        high := mid - 1;
      }
    }
    r := low;
  }

  /** Whatever the tokenizer, the prefix found is within the target. */
  lemma {:induction false} SearchWithin(count: Counter, text: string, target: int, low: nat, high: nat)
    requires low <= high <= |text| && count(text[..low]) <= target
    ensures count(text[..Search(count, text, target, low, high)]) <= target
    decreases high - low
  {
    if low < high {
      var mid := (low + high + 1) / 2;
      if count(text[..mid]) <= target {
        SearchWithin(count, text, target, mid, high);
      } else {
        SearchWithin(count, text, target, low, mid - 1);
      }
    }
  }

  /** For a monotone tokenizer it is the longest one. */
  lemma {:induction false} SearchLongest(count: Counter, text: string, target: int, low: nat, high: nat, i: nat)
    requires low <= high <= |text| && Monotone(count)
    requires high < |text| ==> count(text[..high + 1]) > target
    requires Search(count, text, target, low, high) < i <= |text|
    ensures count(text[..i]) > target
    decreases high - low
  {
    if low < high {
      var mid := (low + high + 1) / 2;
      if count(text[..mid]) <= target {
        SearchLongest(count, text, target, mid, high, i);
      } else {
        SearchLongest(count, text, target, low, mid - 1, i);
      }
    } else {
      assert count(text[..high + 1]) <= count(text[..i]);
    }
  }

  function Truncated(count: Counter, text: string, target: int): string {
    RStrip(text[..Search(count, text, target, 0, |text|)]) + "..."
  }

  predicate IsConversation(layer: Layer) { layer.oldestFirst && layer.name == "conversation" }

  /** What a layer is cut to, and the tokens that counts as saved. */
  datatype Cut = Cut(content: string, saved: int)

  function CutLayer(count: Counter, layer: Layer, overflow: int): Cut {
    var tokens := count(layer.content);
    if IsConversation(layer) then
      var t := Trim(count, layer.content, tokens, overflow);
      Cut(t.0, t.1)
    else if overflow >= tokens then Cut("", tokens)
    else
      var content := Truncated(count, layer.content, tokens - overflow);
      Cut(content, tokens - count(content))
  }

  // ---- Cutting layers until the total fits ----

  /** The layers, their total as the trimming counts it, and the names it lists. */
  datatype Trimming = Trimming(layers: seq<Layer>, total: int, trimmed: seq<string>)

  function CutAt(count: Counter, budget: int, s: Trimming, p: nat): (r: Trimming)
    requires p < |s.layers|
    ensures |r.layers| == |s.layers|
  {
    var layer := s.layers[p];
    var cut := CutLayer(count, layer, s.total - budget);
    Trimming(
      s.layers[p := layer.(content := cut.content)],
      s.total - cut.saved,
      if IsConversation(layer) && cut.saved <= 0 then s.trimmed else s.trimmed + [layer.name])
  }

  predicate Positions(order: seq<nat>, n: nat) {
    forall i :: 0 <= i < |order| ==> order[i] < n
  }

  function TrimFrom(count: Counter, budget: int, s: Trimming, order: seq<nat>, k: nat): (r: Trimming)
    requires k <= |order| && Positions(order, |s.layers|)
    ensures |r.layers| == |s.layers|
    decreases |order| - k
  {
    if k == |order| || s.total <= budget then s
    else TrimFrom(count, budget, CutAt(count, budget, s, order[k]), order, k + 1)
  }

  // ---- The order in which layers are cut ----

  function Priorities(layers: seq<Layer>): (r: seq<real>)
    ensures |r| == |layers| && forall i :: 0 <= i < |r| ==> r[i] == layers[i].priority as real
  {
    seq(|layers|, i requires 0 <= i < |layers| => layers[i].priority as real)
  }

  predicate Optional(layer: Layer) { !layer.required && layer.content != "" }

  function Pick(layers: seq<Layer>, order: seq<nat>): (r: seq<nat>)
    requires Positions(order, |layers|)
    ensures Positions(r, |layers|)
  {
    if order == [] then []
    else (if Optional(layers[order[0]]) then [order[0]] else []) + Pick(layers, order[1..])
  }

  /** The optional layers, lowest priority first, equal ones in list order. */
  function Candidates(layers: seq<Layer>): (r: seq<nat>)
    ensures Positions(r, |layers|)
  {
    Pick(layers, Argsort(Priorities(layers), |layers|))
  }

  lemma {:induction false} PickKeepsOrder(keys: seq<real>, layers: seq<Layer>, order: seq<nat>)
    requires |keys| == |layers| && Positions(order, |layers|)
    requires forall p, q :: 0 <= p < q < |order| ==> Ranked(keys, order[p], order[q])
    ensures
      var r := Pick(layers, order);
      && (forall i :: 0 <= i < |layers| ==> (i in r <==> i in order && Optional(layers[i])))
      && (forall p, q :: 0 <= p < q < |r| ==> Ranked(keys, r[p], r[q]))
  {
    if order != [] {
      var rest := Pick(layers, order[1..]);
      PickKeepsOrder(keys, layers, order[1..]);
      assert order == [order[0]] + order[1..];
      assert forall q :: 0 <= q < |rest| ==> rest[q] in order[1..];
      assert forall i :: i in order[1..] ==> Ranked(keys, order[0], i);
    }
  }

  /** Exactly the optional layers are candidates, each once, by ascending priority. */
  lemma CandidatesAscend(layers: seq<Layer>)
    ensures
      var r := Candidates(layers);
      && (forall i :: 0 <= i < |layers| ==> (i in r <==> Optional(layers[i])))
      && (forall p, q :: 0 <= p < q < |r| ==> r[p] != r[q] && layers[r[p]].priority <= layers[r[q]].priority)
  {
    var keys := Priorities(layers);
    var order := Argsort(keys, |layers|);
    PickKeepsOrder(keys, layers, order);
    var r := Pick(layers, order);
    forall p, q | 0 <= p < q < |r|
      ensures r[p] != r[q] && layers[r[p]].priority <= layers[r[q]].priority
    {
      assert Ranked(keys, r[p], r[q]);
    }
  }

  /** The trimming of one assembly. */
  function TrimLayers(count: Counter, budget: int, active: seq<Layer>): (r: Trimming)
    ensures |r.layers| == |active|
  {
    TrimFrom(count, budget, Trimming(active, Total(count, active), []), Candidates(active), 0)
  }

  lemma FitsUntouched(count: Counter, budget: int, active: seq<Layer>)
    requires Total(count, active) <= budget
    ensures TrimLayers(count, budget, active) == Trimming(active, Total(count, active), [])
  {
  }
}
