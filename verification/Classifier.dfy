/** The decision hierarchy of `AutoApprovalClassifier`: deny, ask and allow rules,
    the read-only check, the LLM and the fallback handler, with its statistics. */
module Classifier {
  import opened Text

  // ---- Rules ----

  datatype Arguments = Serialized(json: string) | Unserializable

  /** `turn` tells one judging of a request from the next: a rule's condition or the
      LLM may answer the very same call differently another time. */
  datatype Request = Request(tool: string, user: Option<string>, arguments: Arguments, rawArguments: Option<Arguments>, turn: nat) {
    /** Rules and the LLM judge the real arguments when the gate passed them on. */
    function RuleView(): Request {
      if rawArguments.Some? then this.(arguments := rawArguments.value) else this
    }
  }

  datatype Answer = Yes | No | Raises

  datatype Rule = Rule(tool: string, user: string, argumentContains: string, condition: Option<Request -> Answer>)

  datatype Evaluation = Match | NoMatch | CannotEvaluate

  predicate Occurs(needle: string, text: string) {
    exists i :: 0 <= i <= |text| - |needle| && text[i..][..|needle|] == needle
  }

  /** Occurring is standing somewhere in the text with something before and after. */
  lemma OccursIsWithin(needle: string, text: string)
    ensures Occurs(needle, text) <==> exists before: string, after: string :: text == before + needle + after
  {
    if Occurs(needle, text) {
      var i :| 0 <= i <= |text| - |needle| && text[i..][..|needle|] == needle;
      assert text == text[..i] + needle + text[i + |needle|..];
    }
    if exists before: string, after: string :: text == before + needle + after {
      var before: string, after: string :| text == before + needle + after;
      assert text[|before|..] == needle + after;
      assert text[|before|..][..|needle|] == needle;
    }
  }

  /** `ApprovalRule.evaluate`, with `glob` for `fnmatch`. */
  function Evaluate(glob: (string, string) -> bool, rule: Rule, request: Request): Evaluation {
    if rule.tool != "" && !glob(request.tool, rule.tool) then NoMatch
    else if rule.user != "" && request.user != Some(rule.user) then NoMatch
    else if rule.argumentContains != "" && request.arguments.Unserializable? then CannotEvaluate
    else if rule.argumentContains != "" && !Occurs(rule.argumentContains, request.arguments.json) then NoMatch
    else if rule.condition.None? then Match
    else
      match rule.condition.value(request)
      case Yes => Match
      case No => NoMatch
      case Raises => CannotEvaluate
  }

  /** Whether a rule is about the request at all, as far as the filters can tell. */
  predicate Covers(glob: (string, string) -> bool, rule: Rule, request: Request) {
    && (rule.tool == "" || glob(request.tool, rule.tool))
    && (rule.user == "" || request.user == Some(rule.user))
    && (rule.argumentContains == "" || request.arguments.Unserializable? || Occurs(rule.argumentContains, request.arguments.json))
  }

  /** A rule fails only on a request it covers, when its arguments or its condition
      cannot be judged; it matches when nothing it asks for is missing. */
  lemma EvaluationIsExact(glob: (string, string) -> bool, rule: Rule, request: Request)
    ensures
      var unserializable := rule.argumentContains != "" && request.arguments.Unserializable?;
      var answer := if rule.condition.None? then Yes else rule.condition.value(request);
      && (Evaluate(glob, rule, request) == CannotEvaluate <==>
            Covers(glob, rule, request) && (unserializable || answer == Raises))
      && (Evaluate(glob, rule, request) == Match <==>
            Covers(glob, rule, request) && !unserializable && answer == Yes)
  {
  }

  // ---- Statistics ----

  datatype Stat =
    | AllowRuleHits | DenyRuleHits | AskRuleHits | ReadOnlyAllows | LlmAllows
    | LlmDenies | LlmEscalations | FallbackAllows | FallbackDenies | Errors

  type Stats = map<Stat, nat>

  function Get(stats: Stats, stat: Stat): nat { if stat in stats then stats[stat] else 0 }

  function Bump(stats: Stats, stat: Stat): Stats { stats[stat := Get(stats, stat) + 1] }

  function BumpAll(stats: Stats, counts: seq<Stat>): (r: Stats)
    ensures counts == [] ==> r == stats
    decreases |counts|
  {
    if counts == [] then stats else BumpAll(Bump(stats, counts[0]), counts[1..])
  }

  lemma BumpOne(stats: Stats, a: Stat)
    ensures BumpAll(stats, [a]) == Bump(stats, a)
  {
    assert [a][1..] == [];
  }

  lemma BumpTwo(stats: Stats, a: Stat, b: Stat)
    ensures BumpAll(stats, [a, b]) == Bump(Bump(stats, a), b)
  {
    assert [a, b][1..] == [b];
    BumpOne(Bump(stats, a), b);
  }

  function Approvals(stats: Stats): nat {
    Get(stats, AllowRuleHits) + Get(stats, ReadOnlyAllows) + Get(stats, LlmAllows) + Get(stats, FallbackAllows)
  }

  function Refusals(stats: Stats): nat {
    Get(stats, DenyRuleHits) + Get(stats, LlmDenies) + Get(stats, FallbackDenies)
  }

  // ---- The route a request takes ----

  datatype Layer =
    | DenyRule(i: nat) | AskRule(i: nat) | AllowRule(i: nat) | ReadOnly
    | LlmAllow | LlmDeny | LlmEscalate | Fallback | Error

  datatype LlmReply = Verdict(verdict: string) | LlmRaises

  datatype Policy = Policy(
    glob: (string, string) -> bool,
    deny: seq<Rule>,
    ask: seq<Rule>,
    allow: seq<Rule>,
    readOnlyAutoAllow: bool,
    isReadOnly: Request -> bool,
    llm: Option<Request -> LlmReply>)

  /** The first rule that matches or cannot be evaluated; none is `|rules|`. */
  function First(glob: (string, string) -> bool, rules: seq<Rule>, request: Request): (i: nat)
    ensures i <= |rules|
    ensures i < |rules| ==> Evaluate(glob, rules[i], request) != NoMatch
    ensures forall j :: 0 <= j < i ==> Evaluate(glob, rules[j], request) == NoMatch
  {
    if rules == [] || Evaluate(glob, rules[0], request) != NoMatch then 0
    else
      var rest := rules[1..];
      var i := First(glob, rest, request);
      assert forall j :: 1 <= j < |rules| ==> rules[j] == rest[j - 1];
      i + 1
  }

  /** Decided by the classifier, sent to the human, or failed on the way. */
  datatype Route =
    | Auto(approved: bool, layer: Layer, counts: seq<Stat>)
    | Human(layer: Layer, counts: seq<Stat>)
    | Fails

  function RouteOf(policy: Policy, request: Request): Route {
    var d := First(policy.glob, policy.deny, request);
    var a := First(policy.glob, policy.ask, request);
    var w := First(policy.glob, policy.allow, request);
    if d < |policy.deny| then
      Auto(false, DenyRule(d),
           if Evaluate(policy.glob, policy.deny[d], request) == CannotEvaluate then [DenyRuleHits, Errors] else [DenyRuleHits])
    else if a < |policy.ask| then
      Human(AskRule(a),
            if Evaluate(policy.glob, policy.ask[a], request) == CannotEvaluate then [Errors, AskRuleHits] else [AskRuleHits])
    else if w < |policy.allow| then
      if Evaluate(policy.glob, policy.allow[w], request) == CannotEvaluate then Human(Error, [Errors])
      else Auto(true, AllowRule(w), [AllowRuleHits])
    else if policy.readOnlyAutoAllow && policy.isReadOnly(request) then Auto(true, ReadOnly, [ReadOnlyAllows])
    else if policy.llm.None? then Human(Fallback, [])
    else
      match policy.llm.value(request)
      case LlmRaises => Fails
      case Verdict(v) =>
        if v == "allow" then Auto(true, LlmAllow, [LlmAllows])
        else if v == "deny" then Auto(false, LlmDeny, [LlmDenies])
        else Human(LlmEscalate, [LlmEscalations])
  }

  function FallbackStat(answer: Answer): Stat { if answer == Yes then FallbackAllows else FallbackDenies }

  datatype Outcome = Returned(approved: bool, byClassifier: bool, layer: Layer) | Raised

  /** One request: `inside` is the fallback's answer to `_classify`, `after` its answer
      when it is asked again because something raised. */
  datatype Call = Call(request: Request, inside: Answer, after: Answer)

  function Classified(policy: Policy, request: Request, inside: Answer, stats: Stats): (Outcome, Stats) {
    match RouteOf(policy, request)
    case Auto(approved, layer, counts) => (Returned(approved, true, layer), BumpAll(stats, counts))
    case Human(layer, counts) =>
      var counted := BumpAll(stats, counts);
      if inside == Raises then (Raised, counted)
      else (Returned(inside == Yes, false, layer), Bump(counted, FallbackStat(inside)))
    case Fails => (Raised, stats)
  }

  function Requested(policy: Policy, call: Call, stats: Stats): (Outcome, Stats) {
    var (outcome, counted) := Classified(policy, call.request.RuleView(), call.inside, stats);
    if outcome.Returned? then (outcome, counted)
    else
      var failed := Bump(counted, Errors);
      if call.after == Raises then (Raised, failed)
      else (Returned(call.after == Yes, false, Error), Bump(failed, FallbackStat(call.after)))
  }

  class AutoApprovalClassifier {
    const policy: Policy
    var stats: Stats
    var lastLayer: Option<Layer>

    constructor (policy: Policy)
      ensures this.policy == policy && stats == map[] && lastLayer == None
    {
      this.policy, stats, lastLayer := policy, map[], None;
    }

    method Count(stat: Stat)
      modifies this`stats
      ensures stats == Bump(old(stats), stat)
    {
      stats := stats[stat := Get(stats, stat) + 1];
    }

    /** The handler's decision, counted, unless it raises. */
    method AskFallback(answer: Answer, layer: Layer) returns (r: Outcome)
      modifies this`stats
      ensures answer == Raises ==> r == Raised && stats == old(stats)
      ensures answer != Raises ==> r == Returned(answer == Yes, false, layer) && stats == Bump(old(stats), FallbackStat(answer))
    {
      if answer == Raises {
        return Raised;
      }
      Count(if answer == Yes then FallbackAllows else FallbackDenies);
      r := Returned(answer == Yes, false, layer);
    }

    /** The next rule, from the first, that matches or cannot be evaluated. */
    method FindRule(rules: seq<Rule>, request: Request) returns (i: nat, evaluation: Evaluation)
      ensures i == First(policy.glob, rules, request)
      ensures evaluation == if i < |rules| then Evaluate(policy.glob, rules[i], request) else NoMatch
    {
      i, evaluation := 0, NoMatch;
      while i < |rules|
        invariant i <= |rules| && evaluation == NoMatch
        invariant forall j :: 0 <= j < i ==> Evaluate(policy.glob, rules[j], request) == NoMatch
      {
        evaluation := Evaluate(policy.glob, rules[i], request);
        if evaluation != NoMatch { break; }
        i := i + 1;
      }
      var first := First(policy.glob, rules, request);
      assert i < |rules| ==> Evaluate(policy.glob, rules[i], request) != NoMatch;
    }

    method Classify(request: Request, answer: Answer) returns (r: Outcome)
      modifies this`stats
      ensures (r, stats) == Classified(policy, request, answer, old(stats))
    {
      hide First, Evaluate, Bump, BumpAll;
      BumpTwo(stats, DenyRuleHits, Errors);
      BumpTwo(stats, Errors, AskRuleHits);
      forall stat: Stat
        ensures BumpAll(stats, [stat]) == Bump(stats, stat)
      {
        BumpOne(stats, stat);
      }
      var d, denied := FindRule(policy.deny, request);
      if d < |policy.deny| {
        Count(DenyRuleHits);
        if denied == CannotEvaluate { Count(Errors); }
        return Returned(false, true, DenyRule(d));
      }
      var a, asked := FindRule(policy.ask, request);
      if a < |policy.ask| {
        if asked == CannotEvaluate { Count(Errors); }
        Count(AskRuleHits);
        r := AskFallback(answer, AskRule(a));
        return;
      }
      var w, allowed := FindRule(policy.allow, request);
      if w < |policy.allow| {
        if allowed == CannotEvaluate {
          Count(Errors);
          r := AskFallback(answer, Error);
          return;
        }
        Count(AllowRuleHits);
        return Returned(true, true, AllowRule(w));
      }
      if policy.readOnlyAutoAllow && policy.isReadOnly(request) {
        Count(ReadOnlyAllows);
        return Returned(true, true, ReadOnly);
      }
      var layer := Fallback;
      if policy.llm.Some? {
        var reply := policy.llm.value(request);
        if reply == LlmRaises {
          return Raised;
        }
        if reply.verdict == "allow" {
          Count(LlmAllows);
          return Returned(true, true, LlmAllow);
        }
        if reply.verdict == "deny" {
          Count(LlmDenies);
          return Returned(false, true, LlmDeny);
        }
        Count(LlmEscalations);
        layer := LlmEscalate;
      }
      r := AskFallback(answer, layer);
    }

    method RequestApproval(call: Call) returns (r: Outcome)
      modifies this
      ensures (r, stats) == Requested(policy, call, old(stats))
      ensures lastLayer == if r.Returned? then Some(r.layer) else old(lastLayer)
    {
      hide RouteOf, Bump, BumpAll;
      r := Classify(call.request.RuleView(), call.inside);
      if r == Raised {
        Count(Errors);
        r := AskFallback(call.after, Error);
      }
      if r.Returned? { lastLayer := Some(r.layer); }
    }
  }

  // ---- Accounting over whole runs ----

  /** The statistics after a sequence of requests, and what came back. */
  function Run(policy: Policy, calls: seq<Call>, stats: Stats): (Stats, seq<Outcome>)
    decreases |calls|
  {
    if calls == [] then (stats, [])
    else
      var (before, outcomes) := Run(policy, calls[..|calls| - 1], stats);
      var (outcome, after) := Requested(policy, calls[|calls| - 1], before);
      (after, outcomes + [outcome])
  }

  function CountReturned(outcomes: seq<Outcome>, approved: bool): nat {
    if outcomes == [] then 0
    else
      var last := outcomes[|outcomes| - 1];
      CountReturned(outcomes[..|outcomes| - 1], approved) + (if last.Returned? && last.approved == approved then 1 else 0)
  }

  /** One request adds one to the approvals or the refusals, as it was decided, and
      nothing when it raised. */
  lemma RequestIsCounted(policy: Policy, call: Call, stats: Stats)
    ensures
      var (outcome, after) := Requested(policy, call, stats);
      && Approvals(after) == Approvals(stats) + (if outcome.Returned? && outcome.approved then 1 else 0)
      && Refusals(after) == Refusals(stats) + (if outcome.Returned? && !outcome.approved then 1 else 0)
  {
    hide RouteOf, Bump, BumpAll, Approvals, Refusals;
    var request := call.request.RuleView();
    RouteIsCounted(policy, request, stats);
    var counted := if RouteOf(policy, request).Fails? then stats else BumpAll(stats, RouteOf(policy, request).counts);
    BumpMoves(counted, FallbackStat(call.inside));
    BumpMoves(counted, Errors);
    BumpMoves(Bump(counted, Errors), FallbackStat(call.after));
  }

  /** Only a decision of the classifier's own moves the two sums on the way. */
  lemma RouteIsCounted(policy: Policy, request: Request, stats: Stats)
    ensures
      var route := RouteOf(policy, request);
      route.Fails?
      || var after := BumpAll(stats, route.counts);
         && Approvals(after) == Approvals(stats) + (if route.Auto? && route.approved then 1 else 0)
         && Refusals(after) == Refusals(stats) + (if route.Auto? && !route.approved then 1 else 0)
  {
    hide First, Evaluate, Bump, BumpAll, Approvals, Refusals;
    var route := RouteOf(policy, request);
    if !route.Fails? {
      match |route.counts| {
        case 0 =>
        case 1 =>
          BumpOne(stats, route.counts[0]);
          BumpMoves(stats, route.counts[0]);
        case _ =>
          var a, b := route.counts[0], route.counts[1];
          BumpTwo(stats, a, b);
          BumpMoves(stats, a);
          BumpMoves(Bump(stats, a), b);
      }
    }
  }

  lemma BumpMoves(stats: Stats, stat: Stat)
    ensures Approvals(Bump(stats, stat)) == Approvals(stats)
      + (if stat in {AllowRuleHits, ReadOnlyAllows, LlmAllows, FallbackAllows} then 1 else 0)
    ensures Refusals(Bump(stats, stat)) == Refusals(stats)
      + (if stat in {DenyRuleHits, LlmDenies, FallbackDenies} then 1 else 0)
  {
  }

  /** Over any sequence of requests the seven decision counters add up to the
      requests that returned: four to the approved ones, three to the denied ones. */
  lemma {:induction false} Accounting(policy: Policy, calls: seq<Call>)
    ensures
      var (stats, outcomes) := Run(policy, calls, map[]);
      && |outcomes| == |calls|
      && Approvals(stats) == CountReturned(outcomes, true)
      && Refusals(stats) == CountReturned(outcomes, false)
  {
    hide Requested, Approvals, Refusals;
    if calls == [] {
      assert Approvals(map[]) == Refusals(map[]) == 0 by { NothingCounted(); }
    } else {
      var (before, outcomes) := Run(policy, calls[..|calls| - 1], map[]);
      Accounting(policy, calls[..|calls| - 1]);
      var last := calls[|calls| - 1];
      RequestIsCounted(policy, last, before);
      var (outcome, after) := Requested(policy, last, before);
      assert (outcomes + [outcome])[..|outcomes|] == outcomes;
    }
  }

  lemma NothingCounted()
    ensures Approvals(map[]) == Refusals(map[]) == 0
  {
  }

  // ---- Who approves ----

  predicate NoneMatches(policy: Policy, rules: seq<Rule>, request: Request, n: nat)
    requires n <= |rules|
  {
    forall j :: 0 <= j < n ==> Evaluate(policy.glob, rules[j], request) == NoMatch
  }

  /** The `i`-th allow rule matches, and each one before it gave a definite no. */
  predicate AllowedBy(policy: Policy, request: Request, i: int) {
    && 0 <= i < |policy.allow|
    && Evaluate(policy.glob, policy.allow[i], request) == Match
    && NoneMatches(policy, policy.allow, request, i)
  }

  /** When the classifier may approve on its own. */
  ghost predicate MayApprove(policy: Policy, request: Request) {
    && NoneMatches(policy, policy.deny, request, |policy.deny|)
    && NoneMatches(policy, policy.ask, request, |policy.ask|)
    && (|| (exists i :: AllowedBy(policy, request, i))
        || (&& NoneMatches(policy, policy.allow, request, |policy.allow|)
            && (|| (policy.readOnlyAutoAllow && policy.isReadOnly(request))
                || (policy.llm.Some? && policy.llm.value(request) == Verdict("allow")))))
  }

  lemma FirstIs(policy: Policy, rules: seq<Rule>, request: Request, i: nat)
    requires i <= |rules| && NoneMatches(policy, rules, request, i)
    requires i < |rules| ==> Evaluate(policy.glob, rules[i], request) != NoMatch
    ensures First(policy.glob, rules, request) == i
  {
    hide Evaluate;
    var f := First(policy.glob, rules, request);
  }

  /** The classifier approves by itself exactly when every deny and ask rule gave a
      definite no, no allow rule before the matching one failed, and the allow rule,
      the read-only check or the LLM said yes. */
  lemma SelfApproval(policy: Policy, call: Call, stats: Stats)
    ensures
      var outcome := Requested(policy, call, stats).0;
      (outcome.Returned? && outcome.byClassifier && outcome.approved) <==> MayApprove(policy, call.request.RuleView())
  {
    hide Evaluate, First, BumpAll, Bump;
    var request := call.request.RuleView();
    var d, a := First(policy.glob, policy.deny, request), First(policy.glob, policy.ask, request);
    var w := First(policy.glob, policy.allow, request);
    assert d == |policy.deny| ==> NoneMatches(policy, policy.deny, request, d);
    assert a == |policy.ask| ==> NoneMatches(policy, policy.ask, request, a);
    assert NoneMatches(policy, policy.allow, request, w);
    assert w < |policy.allow| && Evaluate(policy.glob, policy.allow[w], request) == Match ==> AllowedBy(policy, request, w);
    if MayApprove(policy, request) {
      FirstIs(policy, policy.deny, request, |policy.deny|);
      FirstIs(policy, policy.ask, request, |policy.ask|);
      if NoneMatches(policy, policy.allow, request, |policy.allow|) {
        FirstIs(policy, policy.allow, request, |policy.allow|);
      } else {
        var i :| AllowedBy(policy, request, i);
        FirstIs(policy, policy.allow, request, i);
      }
    }
  }

  /** A deny rule that matches, or cannot be evaluated, denies: no allow rule, no
      read-only check, no LLM and no handler can turn that into an approval. */
  lemma DenyRulesWin(policy: Policy, call: Call, stats: Stats, i: nat)
    requires i < |policy.deny|
    requires Evaluate(policy.glob, policy.deny[i], call.request.RuleView()) != NoMatch
    ensures
      var outcome := Requested(policy, call, stats).0;
      outcome.Returned? && outcome.byClassifier && !outcome.approved && outcome.layer.DenyRule? && outcome.layer.i <= i
  {
    hide Evaluate, First, BumpAll, Bump;
    var f := First(policy.glob, policy.deny, call.request.RuleView());
  }

  /** Every other approval is the fallback handler's own answer. */
  lemma OtherApprovalsAreHuman(policy: Policy, call: Call, stats: Stats)
    requires !MayApprove(policy, call.request.RuleView())
    ensures
      var outcome := Requested(policy, call, stats).0;
      outcome.Returned? && outcome.approved ==>
        if RouteOf(policy, call.request.RuleView()).Fails? || call.inside == Raises then call.after == Yes
        else call.inside == Yes
  {
    hide Evaluate, First, BumpAll, Bump, MayApprove;
    SelfApproval(policy, call, stats);
  }

  /** Rules judge the real arguments: when the gate passed them on, what the reviewer
      is shown instead makes no difference; otherwise the request is judged as it is. */
  lemma RulesSeeRaw(policy: Policy, call: Call, stats: Stats, shown: Arguments)
    ensures
      var raw := call.request.rawArguments;
      && (raw.None? ==> call.request.RuleView() == call.request)
      && (raw.Some? ==>
            && call.request.RuleView() == call.request.(arguments := raw.value)
            && Requested(policy, call.(request := call.request.(arguments := shown)), stats) == Requested(policy, call, stats))
  {
    hide RouteOf, BumpAll, Bump;
  }

  // ---- Who decides, exactly ----

  /** Every rule gave a definite no. */
  predicate AllNo(policy: Policy, rules: seq<Rule>, request: Request) {
    NoneMatches(policy, rules, request, |rules|)
  }

  /** The first rule that did not give a definite no matched, or could not be evaluated. */
  predicate Stops(policy: Policy, rules: seq<Rule>, request: Request, e: Evaluation) {
    exists i :: 0 <= i < |rules| && StopsAt(policy, rules, request, e, i)
  }

  predicate StopsAt(policy: Policy, rules: seq<Rule>, request: Request, e: Evaluation, i: nat) {
    i < |rules| && Evaluate(policy.glob, rules[i], request) == e && NoneMatches(policy, rules, request, i)
  }

  /** No rule has a say, and the tool is not let through as read-only. */
  predicate Open(policy: Policy, request: Request) {
    && AllNo(policy, policy.deny, request) && AllNo(policy, policy.ask, request) && AllNo(policy, policy.allow, request)
    && !(policy.readOnlyAutoAllow && policy.isReadOnly(request))
  }

  predicate LlmSays(policy: Policy, request: Request, verdict: string) {
    policy.llm.Some? && policy.llm.value(request) == Verdict(verdict)
  }

  predicate LlmFails(policy: Policy, request: Request) {
    policy.llm.Some? && policy.llm.value(request) == LlmRaises
  }

  /** When the classifier denies on its own. */
  predicate MayDeny(policy: Policy, request: Request) {
    !AllNo(policy, policy.deny, request) || (Open(policy, request) && LlmSays(policy, request, "deny"))
  }

  /** When a person decides: an ask rule matched or failed, an allow rule failed, or
      nothing else decided. */
  predicate MustAsk(policy: Policy, request: Request) {
    && AllNo(policy, policy.deny, request)
    && (|| !AllNo(policy, policy.ask, request)
        || Stops(policy, policy.allow, request, CannotEvaluate)
        || (&& Open(policy, request) && !LlmFails(policy, request)
            && !LlmSays(policy, request, "allow") && !LlmSays(policy, request, "deny")))
  }

  lemma FirstStops(policy: Policy, rules: seq<Rule>, request: Request)
    ensures
      var i := First(policy.glob, rules, request);
      && (i == |rules| <==> AllNo(policy, rules, request))
      && forall e :: e != NoMatch ==> (Stops(policy, rules, request, e) <==> i < |rules| && Evaluate(policy.glob, rules[i], request) == e)
  {
    hide Evaluate;
    var i := First(policy.glob, rules, request);
    forall e | e != NoMatch
      ensures Stops(policy, rules, request, e) <==> i < |rules| && Evaluate(policy.glob, rules[i], request) == e
    {
      if Stops(policy, rules, request, e) {
        var j :| 0 <= j < |rules| && StopsAt(policy, rules, request, e, j);
        FirstIs(policy, rules, request, j);
      }
      if i < |rules| && Evaluate(policy.glob, rules[i], request) == e { assert StopsAt(policy, rules, request, e, i); }
    }
  }

  lemma FirstsStop(policy: Policy, request: Request)
    ensures
      var d, a, w := First(policy.glob, policy.deny, request), First(policy.glob, policy.ask, request), First(policy.glob, policy.allow, request);
      && (d == |policy.deny| <==> AllNo(policy, policy.deny, request))
      && (a == |policy.ask| <==> AllNo(policy, policy.ask, request))
      && (w == |policy.allow| <==> AllNo(policy, policy.allow, request))
      && forall e :: e != NoMatch ==>
           && (Stops(policy, policy.deny, request, e) <==> d < |policy.deny| && Evaluate(policy.glob, policy.deny[d], request) == e)
           && (Stops(policy, policy.ask, request, e) <==> a < |policy.ask| && Evaluate(policy.glob, policy.ask[a], request) == e)
           && (Stops(policy, policy.allow, request, e) <==> w < |policy.allow| && Evaluate(policy.glob, policy.allow[w], request) == e)
  {
    hide Evaluate, Stops, AllNo;
    FirstStops(policy, policy.deny, request);
    FirstStops(policy, policy.ask, request);
    FirstStops(policy, policy.allow, request);
  }

  /** The four ways a request can go. */
  lemma RouteIsExact(policy: Policy, request: Request)
    ensures
      var route := RouteOf(policy, request);
      && (route.Auto? && !route.approved <==> MayDeny(policy, request))
      && (route.Human? <==> MustAsk(policy, request))
      && (route.Fails? <==> Open(policy, request) && LlmFails(policy, request))
      && (route.Auto? && route.approved <==>
            && AllNo(policy, policy.deny, request) && AllNo(policy, policy.ask, request)
            && (|| Stops(policy, policy.allow, request, Match)
                || (&& AllNo(policy, policy.allow, request)
                    && ((policy.readOnlyAutoAllow && policy.isReadOnly(request)) || LlmSays(policy, request, "allow")))))
  {
    hide Evaluate, First, Stops, AllNo;
    FirstsStop(policy, request);
  }

  /** Whether the handler is asked again because something raised. */
  predicate Retried(policy: Policy, call: Call) {
    var request := call.request.RuleView();
    (MustAsk(policy, request) && call.inside == Raises) || (Open(policy, request) && LlmFails(policy, request))
  }

  /** Whose decision comes back, and what it is. */
  lemma DecisionIsExact(policy: Policy, call: Call, stats: Stats)
    ensures
      var request := call.request.RuleView();
      var outcome := Requested(policy, call, stats).0;
      && (MayDeny(policy, request) ==> outcome.Returned? && outcome.byClassifier && !outcome.approved)
      && (MustAsk(policy, request) && call.inside != Raises ==>
            outcome.Returned? && !outcome.byClassifier && outcome.approved == (call.inside == Yes))
      && (Retried(policy, call) ==>
            if call.after == Raises then outcome == Raised else outcome == Returned(call.after == Yes, false, Error))
      && (MayApprove(policy, request) ==> outcome.Returned? && outcome.byClassifier && outcome.approved)
  {
    hide RouteOf, BumpAll, Bump, MayDeny, MustAsk, Open, LlmFails, MayApprove;
    RouteIsExact(policy, call.request.RuleView());
    SelfApproval(policy, call, stats);
  }

  // ---- Every counter ----

  /** One or two counters in a row. */
  function Among(counts: seq<Stat>, stat: Stat): nat {
    One(|counts| > 0 && counts[0] == stat) + One(|counts| > 1 && counts[1] == stat)
  }

  lemma BumpAllGet(stats: Stats, counts: seq<Stat>, stat: Stat)
    requires |counts| <= 2
    ensures Get(BumpAll(stats, counts), stat) == Get(stats, stat) + Among(counts, stat)
  {
    hide Get, BumpAll;
    if |counts| == 1 {
      BumpOne(stats, counts[0]);
      BumpGet(stats, counts[0], stat);
      assert counts == [counts[0]];
    } else if |counts| == 2 {
      BumpTwo(stats, counts[0], counts[1]);
      BumpGet(stats, counts[0], stat);
      BumpGet(Bump(stats, counts[0]), counts[1], stat);
      assert counts == [counts[0], counts[1]];
    }
  }

  function One(b: bool): nat { if b then 1 else 0 }

  /** What one request adds to each of the ten counters. */
  lemma CountersAreExact(policy: Policy, call: Call, stats: Stats, stat: Stat)
    ensures
      var r := call.request.RuleView();
      var unruled := AllNo(policy, policy.deny, r) && AllNo(policy, policy.ask, r);
      Get(Requested(policy, call, stats).1, stat) == Get(stats, stat) +
        match stat
        case DenyRuleHits => One(!AllNo(policy, policy.deny, r))
        case AskRuleHits => One(AllNo(policy, policy.deny, r) && !AllNo(policy, policy.ask, r))
        case AllowRuleHits => One(unruled && Stops(policy, policy.allow, r, Match))
        case ReadOnlyAllows => One(unruled && AllNo(policy, policy.allow, r) && policy.readOnlyAutoAllow && policy.isReadOnly(r))
        case LlmAllows => One(Open(policy, r) && LlmSays(policy, r, "allow"))
        case LlmDenies => One(Open(policy, r) && LlmSays(policy, r, "deny"))
        case LlmEscalations =>
          One(Open(policy, r) && policy.llm.Some? && !LlmFails(policy, r) && !LlmSays(policy, r, "allow") && !LlmSays(policy, r, "deny"))
        case FallbackAllows => One((MustAsk(policy, r) && call.inside == Yes) || (Retried(policy, call) && call.after == Yes))
        case FallbackDenies => One((MustAsk(policy, r) && call.inside == No) || (Retried(policy, call) && call.after == No))
        case Errors =>
          One(|| Stops(policy, policy.deny, r, CannotEvaluate)
              || (AllNo(policy, policy.deny, r) && Stops(policy, policy.ask, r, CannotEvaluate))
              || (unruled && Stops(policy, policy.allow, r, CannotEvaluate)))
          + One(Retried(policy, call))
  {
    hide RouteOf, BumpAll, Bump, AllNo, Stops, MustAsk, Open, LlmFails, LlmSays, Get, Among;
    var r := call.request.RuleView();
    RouteIsExact(policy, r);
    RouteCounts(policy, r, stat);
    var counted := BumpAll(stats, Counts(policy, r));
    BumpAllGet(stats, Counts(policy, r), stat);
    BumpGet(counted, FallbackStat(call.inside), stat);
    BumpGet(counted, Errors, stat);
    BumpGet(Bump(counted, Errors), FallbackStat(call.after), stat);
  }

  lemma BumpGet(stats: Stats, bumped: Stat, stat: Stat)
    ensures Get(Bump(stats, bumped), stat) == Get(stats, stat) + One(bumped == stat)
  {
  }

  function Counts(policy: Policy, r: Request): seq<Stat> {
    if RouteOf(policy, r).Fails? then [] else RouteOf(policy, r).counts
  }

  /** What the rules, the read-only check and the LLM add on the way. */
  lemma RouteCounts(policy: Policy, r: Request, stat: Stat)
    ensures |Counts(policy, r)| <= 2
    ensures
      var unruled := AllNo(policy, policy.deny, r) && AllNo(policy, policy.ask, r);
      Among(Counts(policy, r), stat) ==
        match stat
        case DenyRuleHits => One(!AllNo(policy, policy.deny, r))
        case AskRuleHits => One(AllNo(policy, policy.deny, r) && !AllNo(policy, policy.ask, r))
        case AllowRuleHits => One(unruled && Stops(policy, policy.allow, r, Match))
        case ReadOnlyAllows => One(unruled && AllNo(policy, policy.allow, r) && policy.readOnlyAutoAllow && policy.isReadOnly(r))
        case LlmAllows => One(Open(policy, r) && LlmSays(policy, r, "allow"))
        case LlmDenies => One(Open(policy, r) && LlmSays(policy, r, "deny"))
        case LlmEscalations =>
          One(Open(policy, r) && policy.llm.Some? && !LlmFails(policy, r) && !LlmSays(policy, r, "allow") && !LlmSays(policy, r, "deny"))
        case FallbackAllows => 0
        case FallbackDenies => 0
        case Errors =>
          One(|| Stops(policy, policy.deny, r, CannotEvaluate)
              || (AllNo(policy, policy.deny, r) && Stops(policy, policy.ask, r, CannotEvaluate))
              || (unruled && Stops(policy, policy.allow, r, CannotEvaluate)))
  {
    hide Evaluate, First, Stops, AllNo;
    FirstsStop(policy, r);
  }

  /** What the recorded layer says of the request. */
  lemma TraceIsExact(policy: Policy, r: Request)
    ensures
      var route := RouteOf(policy, r);
      route.Fails? ||
      match route.layer
      case DenyRule(i) => StopsAt(policy, policy.deny, r, Match, i) || StopsAt(policy, policy.deny, r, CannotEvaluate, i)
      case AskRule(i) => StopsAt(policy, policy.ask, r, Match, i) || StopsAt(policy, policy.ask, r, CannotEvaluate, i)
      case AllowRule(i) => StopsAt(policy, policy.allow, r, Match, i)
      case ReadOnly => policy.readOnlyAutoAllow && policy.isReadOnly(r)
      case LlmAllow => LlmSays(policy, r, "allow")
      case LlmDeny => LlmSays(policy, r, "deny")
      case LlmEscalate => policy.llm.Some? && !LlmFails(policy, r) && !LlmSays(policy, r, "allow") && !LlmSays(policy, r, "deny")
      case Fallback => policy.llm.None? && Open(policy, r)
      case Error => Stops(policy, policy.allow, r, CannotEvaluate)
  {
    hide Evaluate, First;
    FirstsStop(policy, r);
  }
}
