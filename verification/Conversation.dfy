/** Conversation text: `_parse_conversation`, the printing half of
    `_trim_conversation`, and the trimming of whole exchanges between them. */
module Conversation {
  import opened Text

  datatype Role = User | Assistant | System

  datatype Message = Message(role: Role, content: string)

  // ---- Parsing ----

  predicate StartsWith(line: string, prefix: string) { prefix <= line }

  /** The role a line's prefix gives, or None for a continuation line. */
  function RoleOf(line: string): Option<Role> {
    if StartsWith(line, "User:") || StartsWith(line, "Human:") || StartsWith(line, "user:") then Some(User)
    else if StartsWith(line, "Assistant:") || StartsWith(line, "AI:") || StartsWith(line, "assistant:") then Some(Assistant)
    else if StartsWith(line, "System:") || StartsWith(line, "system:") then Some(System)
    else None
  }

  /** `line.split(":", 1)[1].strip()` */
  function AfterColon(line: string): string {
    var i := IndexOf(line, ':');
    if i == |line| then "" else Strip(line[i + 1..])
  }

  function ParseLine(msgs: seq<Message>, raw: string): seq<Message> {
    var line := Strip(raw);
    if line == "" then msgs
    else match RoleOf(line)
      case Some(role) =>
        if AfterColon(line) == "" then msgs else msgs + [Message(role, AfterColon(line))]
      case None =>
        if msgs == [] then msgs
        else
          var last := msgs[|msgs| - 1];
          msgs[..|msgs| - 1] + [last.(content := last.content + "\n" + line)]
  }

  function ParseFrom(msgs: seq<Message>, lines: seq<string>): seq<Message>
    decreases |lines|
  {
    if lines == [] then msgs else ParseFrom(ParseLine(msgs, lines[0]), lines[1..])
  }

  function Parse(text: string): seq<Message> { ParseFrom([], Split(text, '\n')) }

  method ParseConversation(text: string) returns (messages: seq<Message>)
    ensures messages == Parse(text)
  {
    messages := [];
    var lines := Split(text, '\n');
    for i := 0 to |lines|
      invariant ParseFrom(messages, lines[i..]) == Parse(text)
    {
      var line := Strip(lines[i]);
      assert lines[i..][1..] == lines[i + 1..];
      ghost var before := messages;
      if line != "" {
        var role := RoleOf(line);
        if role.Some? {
          var content := AfterColon(line);
          if content != "" {
            messages := messages + [Message(role.value, content)];
          }
        } else if messages != [] {
          var n := |messages| - 1;
          messages := messages[..n] + [messages[n].(content := messages[n].content + "\n" + line)];
        }
      }
      assert messages == ParseLine(before, lines[i]);
    }
  }

  // ---- Printing ----

  function Prefix(role: Role): string { if role == User then "User" else "Assistant" }

  function PrintMessage(m: Message): string { Prefix(m.role) + ": " + m.content }

  function PrintedLines(msgs: seq<Message>): (r: seq<string>)
    ensures |r| == |msgs| && forall i :: 0 <= i < |msgs| ==> r[i] == PrintMessage(msgs[i])
  {
    seq(|msgs|, i requires 0 <= i < |msgs| => PrintMessage(msgs[i]))
  }

  function Print(msgs: seq<Message>): (r: string)
    ensures msgs == [] ==> r == ""
  {
    Join(PrintedLines(msgs), '\n')
  }

  /** A message comes back as the role its printed prefix names. */
  function Relabel(m: Message): Message {
    if m.role == System then m.(role := Assistant) else m
  }

  function RelabelAll(msgs: seq<Message>): (r: seq<Message>)
    ensures |r| == |msgs| && forall i :: 0 <= i < |msgs| ==> r[i] == Relabel(msgs[i])
  {
    seq(|msgs|, i requires 0 <= i < |msgs| => Relabel(msgs[i]))
  }

  // ---- Which messages survive the text ----

  predicate Continuation(line: string) {
    line != "" && Trimmed(line) && RoleOf(line).None?
  }

  /** Every line trimmed and nonblank, and none after the first role-prefixed. */
  predicate Printable(m: Message) {
    var lines := Split(m.content, '\n');
    && lines[0] != "" && Trimmed(lines[0])
    && forall i :: 1 <= i < |lines| ==> Continuation(lines[i])
  }

  predicate AllPrintable(msgs: seq<Message>) {
    forall i :: 0 <= i < |msgs| ==> Printable(msgs[i])
  }

  // ---- Which lines start a message ----

  /** The prefixes of a line that starts a message, and whose message it is. */
  lemma RolePrefixes(rest: string)
    ensures forall p :: p in ["User:", "Human:", "user:"] ==> RoleOf(p + rest) == Some(User) && AfterColon(p + rest) == Strip(rest)
    ensures forall p :: p in ["Assistant:", "AI:", "assistant:"] ==> RoleOf(p + rest) == Some(Assistant) && AfterColon(p + rest) == Strip(rest)
    ensures forall p :: p in ["System:", "system:"] ==> RoleOf(p + rest) == Some(System) && AfterColon(p + rest) == Strip(rest)
  {
    hide RoleOf, AfterColon;
    StartsAs("User", User, rest);
    StartsAs("Human", User, rest);
    StartsAs("user", User, rest);
    StartsAs("Assistant", Assistant, rest);
    StartsAs("AI", Assistant, rest);
    StartsAs("assistant", Assistant, rest);
    StartsAs("System", System, rest);
    StartsAs("system", System, rest);
    assert "User" + ":" == "User:" && "Human" + ":" == "Human:" && "user" + ":" == "user:";
    assert "Assistant" + ":" == "Assistant:" && "AI" + ":" == "AI:" && "assistant" + ":" == "assistant:";
    assert "System" + ":" == "System:" && "system" + ":" == "system:";
  }

  lemma StartsAs(name: string, role: Role, rest: string)
    requires (name, role) in {("User", User), ("Human", User), ("user", User), ("Assistant", Assistant), ("AI", Assistant),
                              ("assistant", Assistant), ("System", System), ("system", System)}
    ensures RoleOf(name + ":" + rest) == Some(role) && AfterColon(name + ":" + rest) == Strip(rest)
  {
    hide Strip, IndexOf;
    var line := name + ":" + rest;
    assert line == name + [':'] + rest;
    assert line[0] == name[0] && line[1] == name[1] && line[..|name| + 1] == name + ":";
    IndexOfSplit(name, ':', rest);
    assert line[|name| + 1..] == rest;
  }

  /** Every other line continues the message before it. */
  lemma OtherLinesContinue(line: string)
    ensures RoleOf(line).None? <==>
      forall p :: p in {"User:", "Human:", "user:", "Assistant:", "AI:", "assistant:", "System:", "system:"} ==> !StartsWith(line, p)
  {
    var prefixes := {"User:", "Human:", "user:", "Assistant:", "AI:", "assistant:", "System:", "system:"};
    assert "User:" in prefixes && "Human:" in prefixes && "user:" in prefixes && "Assistant:" in prefixes;
    assert "AI:" in prefixes && "assistant:" in prefixes && "System:" in prefixes && "system:" in prefixes;
  }

  /** What each kind of line does: a blank one nothing, a prefix with text a new
      message, a prefix without text nothing, any other line one more line of the last
      message, if there is one. */
  lemma LineByLine(msgs: seq<Message>, raw: string)
    ensures
      var line, r := Strip(raw), ParseLine(msgs, raw);
      var role := RoleOf(line);
      && (line == "" ==> r == msgs)
      && (line != "" && role.Some? && AfterColon(line) == "" ==> r == msgs)
      && (line != "" && role.Some? && AfterColon(line) != "" ==> r == msgs + [Message(role.value, AfterColon(line))])
      && (line != "" && role.None? && msgs == [] ==> r == [])
      && (line != "" && role.None? && msgs != [] ==>
            && |r| == |msgs| && r[..|msgs| - 1] == msgs[..|msgs| - 1]
            && r[|msgs| - 1] == Message(msgs[|msgs| - 1].role, msgs[|msgs| - 1].content + "\n" + line))
  {
    hide Strip, RoleOf, AfterColon;
  }

  // ---- Splitting printed text back into lines ----

  lemma {:induction false} SplitConcat(a: string, b: string)
    ensures Split(a + "\n" + b, '\n') == Split(a, '\n') + Split(b, '\n')
  {
    if a == "" {
      assert (a + "\n" + b)[1..] == b;
    } else {
      var s := a + "\n" + b;
      assert s[1..] == a[1..] + "\n" + b;
      SplitConcat(a[1..], b);
    }
  }

  lemma JoinCons(a: string, rest: seq<string>)
    requires rest != []
    ensures Join([a] + rest, '\n') == a + "\n" + Join(rest, '\n')
  {
    assert ([a] + rest)[1..] == rest;
  }

  /** A character in front of the first part. */
  lemma JoinLonger(c: char, parts: seq<string>)
    requires parts != []
    ensures Join([[c] + parts[0]] + parts[1..], '\n') == [c] + Join(parts, '\n')
  {
    if |parts| > 1 {
      LongerFirst(c, parts[0], parts[1..]);
      assert parts == [parts[0]] + parts[1..];
    }
  }

  lemma LongerFirst(c: char, first: string, rest: seq<string>)
    requires rest != []
    ensures Join([[c] + first] + rest, '\n') == [c] + Join([first] + rest, '\n')
  {
    hide Join;
    JoinCons([c] + first, rest);
    JoinCons(first, rest);
    var tail := Join(rest, '\n');
    assert [c] + (first + "\n" + tail) == [c] + first + "\n" + tail;
  }

  lemma {:induction false} JoinSplit(s: string)
    ensures Join(Split(s, '\n'), '\n') == s
  {
    if s != "" {
      JoinSplit(s[1..]);
      var rest := Split(s[1..], '\n');
      assert s == [s[0]] + s[1..];
      if s[0] == '\n' {
        JoinCons("", rest);
        assert "" + "\n" + Join(rest, '\n') == [s[0]] + s[1..];
      } else {
        JoinLonger(s[0], rest);
      }
    }
  }

  lemma {:induction false} ParseConcat(msgs: seq<Message>, a: seq<string>, b: seq<string>)
    ensures ParseFrom(msgs, a + b) == ParseFrom(ParseFrom(msgs, a), b)
    decreases |a|
  {
    if a == [] {
      assert a + b == b;
    } else {
      assert (a + b)[1..] == a[1..] + b;
      ParseConcat(ParseLine(msgs, a[0]), a[1..], b);
    }
  }

  // ---- parse(print(m)) ----

  lemma PrintedRole(role: Role, rest: string)
    ensures RoleOf(Prefix(role) + ": " + rest) == Some(Relabel(Message(role, "")).role)
  {
    var line := Prefix(role) + ": " + rest;
    if role == User {
      assert line[..5] == "User:";
    } else {
      assert line[..10] == "Assistant:" && line[0] == 'A';
    }
  }

  lemma PrintedAfterColon(role: Role, first: string)
    requires Trimmed(first)
    ensures AfterColon(Prefix(role) + ": " + first) == first
  {
    hide Strip, IndexOf, RoleOf;
    var line := Prefix(role) + ": " + first;
    assert line == Prefix(role) + [':'] + (" " + first);
    IndexOfSplit(Prefix(role), ':', " " + first);
    assert line[|Prefix(role)| + 1..] == " " + first;
    StripLeadingSpace(first);
  }

  /** The first line of a printed message starts a message of its own. */
  lemma ParseFirstLine(msgs: seq<Message>, role: Role, first: string)
    requires first != "" && Trimmed(first)
    ensures ParseLine(msgs, Prefix(role) + ": " + first) == msgs + [Relabel(Message(role, first))]
  {
    hide AfterColon, RoleOf, Strip;
    var line := Prefix(role) + ": " + first;
    assert line[0] == Prefix(role)[0] && line[|line| - 1] == first[|first| - 1];
    StripTrimmed(line);
    PrintedRole(role, first);
    PrintedAfterColon(role, first);
  }

  /** Continuation lines extend the last message. */
  lemma {:induction false} ParseContinuations(msgs: seq<Message>, role: Role, head: string, lines: seq<string>)
    requires forall i :: 0 <= i < |lines| ==> Continuation(lines[i])
    ensures ParseFrom(msgs + [Message(role, head)], lines) == msgs + [Message(role, Join([head] + lines, '\n'))]
    decreases |lines|
  {
    if lines == [] {
      assert [head] + lines == [head];
    } else {
      var longer := head + "\n" + lines[0];
      StripTrimmed(lines[0]);
      var before := msgs + [Message(role, head)];
      assert before[..|before| - 1] == msgs;
      assert ParseLine(before, lines[0]) == msgs + [Message(role, longer)];
      ParseContinuations(msgs, role, longer, lines[1..]);
      JoinFold(head, lines);
    }
  }

  lemma JoinFold(head: string, lines: seq<string>)
    requires lines != []
    ensures Join([head] + lines, '\n') == Join([head + "\n" + lines[0]] + lines[1..], '\n')
  {
    JoinCons(head, lines);
    if |lines| == 1 {
      assert lines == [lines[0]];
      assert [head + "\n" + lines[0]] + lines[1..] == [head + "\n" + lines[0]];
    } else {
      FoldRest(head, lines[0], lines[1..]);
      assert lines == [lines[0]] + lines[1..];
    }
  }

  lemma FoldRest(a: string, b: string, rest: seq<string>)
    requires rest != []
    ensures a + "\n" + Join([b] + rest, '\n') == Join([a + "\n" + b] + rest, '\n')
  {
    hide Join;
    JoinCons(b, rest);
    JoinCons(a + "\n" + b, rest);
    var tail := Join(rest, '\n');
    assert a + "\n" + (b + "\n" + tail) == a + "\n" + b + "\n" + tail;
  }

  lemma ParsePrintedMessage(msgs: seq<Message>, m: Message)
    requires Printable(m)
    ensures ParseFrom(msgs, Split(PrintMessage(m), '\n')) == msgs + [Relabel(m)]
  {
    var lines := Split(m.content, '\n');
    var start := Prefix(m.role) + ": ";
    SplitPrefix(start, m.content, '\n');
    var first := start + lines[0];
    assert Split(PrintMessage(m), '\n') == [first] + lines[1..];
    assert ([first] + lines[1..])[1..] == lines[1..];
    ParseFirstLine(msgs, m.role, lines[0]);
    var role := Relabel(m).role;
    ParseContinuations(msgs, role, lines[0], lines[1..]);
    assert [lines[0]] + lines[1..] == lines;
    JoinSplit(m.content);
  }

  lemma PrintCons(msgs: seq<Message>)
    requires |msgs| > 1
    ensures Print(msgs) == PrintMessage(msgs[0]) + "\n" + Print(msgs[1..])
  {
    hide PrintMessage;
    assert PrintedLines(msgs) == [PrintMessage(msgs[0])] + PrintedLines(msgs[1..]);
    JoinCons(PrintMessage(msgs[0]), PrintedLines(msgs[1..]));
  }

  lemma RelabelCons(before: seq<Message>, msgs: seq<Message>)
    requires msgs != []
    ensures before + [Relabel(msgs[0])] + RelabelAll(msgs[1..]) == before + RelabelAll(msgs)
  {
    hide Relabel;
    assert RelabelAll(msgs) == [Relabel(msgs[0])] + RelabelAll(msgs[1..]);
  }

  lemma {:induction false} ParsePrintFrom(before: seq<Message>, msgs: seq<Message>)
    requires msgs != [] && AllPrintable(msgs)
    ensures ParseFrom(before, Split(Print(msgs), '\n')) == before + RelabelAll(msgs)
    decreases |msgs|
  {
    hide Split, ParseFrom, Printable, Relabel, RelabelAll, PrintMessage, Print;
    var head := PrintMessage(msgs[0]);
    ParsePrintedMessage(before, msgs[0]);
    RelabelCons(before, msgs);
    if |msgs| == 1 {
      PrintLast(msgs);
    } else {
      PrintCons(msgs);
      SplitConcat(head, Print(msgs[1..]));
      ParseConcat(before, Split(head, '\n'), Split(Print(msgs[1..]), '\n'));
      ParsePrintFrom(before + [Relabel(msgs[0])], msgs[1..]);
    }
  }

  lemma PrintLast(msgs: seq<Message>)
    requires |msgs| == 1
    ensures Print(msgs) == PrintMessage(msgs[0]) && RelabelAll(msgs[1..]) == []
  {
  }

  /** Printed messages parse back, system messages as the assistant's. */
  lemma ParsePrint(msgs: seq<Message>)
    requires AllPrintable(msgs)
    ensures Parse(Print(msgs)) == RelabelAll(msgs)
    ensures Parse(Print(msgs)) == msgs <==> forall m :: m in msgs ==> m.role != System
  {
    if msgs == [] {
      assert Split("", '\n') == [""];
      assert [""][1..] == [];
    } else {
      ParsePrintFrom([], msgs);
      assert [] + RelabelAll(msgs) == RelabelAll(msgs);
    }
    if forall m :: m in msgs ==> m.role != System {
      assert RelabelAll(msgs) == msgs;
    } else {
      var i :| 0 <= i < |msgs| && msgs[i].role == System;
      assert RelabelAll(msgs)[i] != msgs[i];
    }
  }

  // ---- What the parser yields is printable ----

  lemma SplitOneLine(s: string)
    requires '\n' !in s
    ensures Split(s, '\n') == [s]
  {
    SplitPrefix(s, "", '\n');
    assert s + "" == s;
    assert Split("", '\n') == [""];
  }

  lemma StartPrintable(msgs: seq<Message>, m: Message)
    requires AllPrintable(msgs) && '\n' !in m.content && m.content != "" && Trimmed(m.content)
    ensures AllPrintable(msgs + [m])
  {
    SplitOneLine(m.content);
    assert Printable(m);
    hide Printable;
    assert forall i :: 0 <= i < |msgs| ==> (msgs + [m])[i] == msgs[i];
  }

  lemma LongerPrintable(m: Message, line: string)
    requires Printable(m) && '\n' !in line && Continuation(line)
    ensures Printable(m.(content := m.content + "\n" + line))
  {
    hide Continuation;
    SplitConcat(m.content, line);
    SplitOneLine(line);
  }

  lemma ExtendPrintable(msgs: seq<Message>, line: string)
    requires msgs != [] && AllPrintable(msgs) && '\n' !in line && Continuation(line)
    ensures
      var last := msgs[|msgs| - 1];
      AllPrintable(msgs[..|msgs| - 1] + [last.(content := last.content + "\n" + line)])
  {
    hide Printable, Continuation;
    LongerPrintable(msgs[|msgs| - 1], line);
  }

  lemma ParseLinePrintable(msgs: seq<Message>, raw: string)
    requires AllPrintable(msgs) && '\n' !in raw
    ensures AllPrintable(ParseLine(msgs, raw))
  {
    hide AllPrintable, RoleOf, Strip, IndexOf;
    var line := Strip(raw);
    if line != "" {
      match RoleOf(line) {
        case Some(role) =>
          var content := AfterColon(line);
          if content != "" { StartPrintable(msgs, Message(role, content)); }
        case None =>
          if msgs != [] { ExtendPrintable(msgs, line); }
      }
    }
  }

  lemma {:induction false} ParseFromPrintable(msgs: seq<Message>, lines: seq<string>)
    requires AllPrintable(msgs) && forall l :: l in lines ==> '\n' !in l
    ensures AllPrintable(ParseFrom(msgs, lines))
    decreases |lines|
  {
    hide ParseLine, AllPrintable;
    if lines != [] {
      ParseLinePrintable(msgs, lines[0]);
      ParseFromPrintable(ParseLine(msgs, lines[0]), lines[1..]);
    }
  }

  /** Printing and parsing again is stable, on every text: the parsed messages
      come back, exactly as they were unless one is a system message. */
  lemma ParsePrintParse(text: string)
    ensures AllPrintable(Parse(text))
    ensures Parse(Print(Parse(text))) == RelabelAll(Parse(text))
    ensures Parse(Print(Parse(text))) == Parse(text) <==> forall m :: m in Parse(text) ==> m.role != System
  {
    ParseFromPrintable([], Split(text, '\n'));
    ParsePrint(Parse(text));
  }

  // ---- Exchanges ----

  /** Messages grouped into exchanges, each closed by an assistant message. */
  function Exchanges(current: seq<Message>, msgs: seq<Message>): seq<seq<Message>>
    decreases |msgs|
  {
    if msgs == [] then if current == [] then [] else [current]
    else if msgs[0].role == Assistant then [current + [msgs[0]]] + Exchanges([], msgs[1..])
    else Exchanges(current + [msgs[0]], msgs[1..])
  }

  function Flatten(groups: seq<seq<Message>>): (r: seq<Message>)
    ensures groups == [] ==> r == []
  {
    if groups == [] then [] else groups[0] + Flatten(groups[1..])
  }

  /** Only the last message of an exchange is the assistant's. */
  predicate Whole(group: seq<Message>) {
    && group != [] && group[|group| - 1].role == Assistant
    && forall i :: 0 <= i < |group| - 1 ==> group[i].role != Assistant
  }

  /** Grouping loses nothing, keeps the order and never splits an exchange: only
      the last group may lack the assistant's answer. */
  lemma {:induction false} ExchangesPartition(current: seq<Message>, msgs: seq<Message>)
    requires forall m :: m in current ==> m.role != Assistant
    ensures
      var g := Exchanges(current, msgs);
      && Flatten(g) == current + msgs
      && (forall i :: 0 <= i < |g| ==> g[i] != [])
      && (forall i :: 0 <= i < |g| - 1 ==> Whole(g[i]))
    decreases |msgs|
  {
    if msgs == [] {
      assert current + msgs == current;
      if current != [] { assert current + [] == current; }
    } else {
      assert current + msgs == current + [msgs[0]] + msgs[1..];
      if msgs[0].role == Assistant {
        ExchangesPartition([], msgs[1..]);
        var rest := Exchanges([], msgs[1..]);
        var head := current + [msgs[0]];
        assert [] + msgs[1..] == msgs[1..];
        assert forall i :: 0 <= i < |head| - 1 ==> head[i] in current;
        assert Exchanges(current, msgs) == [head] + rest;
      } else {
        ExchangesPartition(current + [msgs[0]], msgs[1..]);
      }
    }
  }

  // ---- Trimming ----

  type Counter = string -> nat

  function Tokens(count: Counter, msgs: seq<Message>): nat {
    if msgs == [] then 0 else count(msgs[0].content) + Tokens(count, msgs[1..])
  }

  /** What removing the first `k` exchanges counts as saved. */
  function Saved(count: Counter, groups: seq<seq<Message>>, k: nat): (r: nat)
    requires k <= |groups|
    ensures k == 0 ==> r == 0
  {
    if k == 0 then 0 else Saved(count, groups, k - 1) + Tokens(count, groups[k - 1])
  }

  /** How many exchanges go: the first number, from `k` up, that saves enough, or all. */
  function Removed(count: Counter, groups: seq<seq<Message>>, k: nat, overflow: int): (n: nat)
    requires k <= |groups|
    ensures k <= n <= |groups|
    ensures n < |groups| ==> Saved(count, groups, n) >= overflow
    ensures forall i :: k <= i < n ==> Saved(count, groups, i) < overflow
    decreases |groups| - k
  {
    if k < |groups| && Saved(count, groups, k) < overflow then Removed(count, groups, k + 1, overflow) else k
  }

  function GroupsOf(text: string): seq<seq<Message>> { Exchanges([], Parse(text)) }

  /** `_trim_conversation`: the text that is left, and what it counts as saved. */
  function Trim(count: Counter, text: string, tokens: nat, overflow: int): (string, nat) {
    var groups := GroupsOf(text);
    if Parse(text) == [] then ("", tokens)
    else
      var n := Removed(count, groups, 0, overflow);
      (Print(Flatten(groups[n..])), Saved(count, groups, n))
  }

  method TrimConversation(count: Counter, text: string, tokens: nat, overflow: int) returns (left: string, saved: nat)
    ensures (left, saved) == Trim(count, text, tokens, overflow)
  {
    var parsed := ParseConversation(text);
    if parsed == [] {
      return "", tokens;
    }
    var pairs := GroupExchanges(parsed);
    ghost var groups := pairs;
    ghost var k := 0;
    saved := 0;
    while pairs != [] && saved < overflow
      invariant k <= |groups| && pairs == groups[k..] && saved == Saved(count, groups, k)
      invariant Removed(count, groups, k, overflow) == Removed(count, groups, 0, overflow)
      decreases |pairs|
    {
      var removed := pairs[0];
      assert removed == groups[k];
      pairs := pairs[1..];
      for i := 0 to |removed|
        invariant saved == Saved(count, groups, k) + Tokens(count, removed[..i])
      {
        TokensAppend(count, removed[..i], removed[i]);
        assert removed[..i + 1] == removed[..i] + [removed[i]];
        saved := saved + count(removed[i].content);
      }
      assert removed[..|removed|] == removed;
      k := k + 1;
    }
    left := PrintPairs(pairs);
  }

  lemma {:induction false} TokensAppend(count: Counter, msgs: seq<Message>, m: Message)
    ensures Tokens(count, msgs + [m]) == Tokens(count, msgs) + count(m.content)
  {
    if msgs == [] {
      assert [m][1..] == [];
      assert msgs + [m] == [m];
    } else {
      assert (msgs + [m])[1..] == msgs[1..] + [m];
      TokensAppend(count, msgs[1..], m);
    }
  }

  method GroupExchanges(parsed: seq<Message>) returns (pairs: seq<seq<Message>>)
    ensures pairs == Exchanges([], parsed)
  {
    pairs := [];
    var current: seq<Message> := [];
    for i := 0 to |parsed|
      invariant pairs + Exchanges(current, parsed[i..]) == Exchanges([], parsed)
    {
      var rest := parsed[i..];
      assert rest[0] == parsed[i] && rest[1..] == parsed[i + 1..];
      current := current + [parsed[i]];
      if parsed[i].role == Assistant {
        assert pairs + ([current] + Exchanges([], rest[1..])) == pairs + [current] + Exchanges([], rest[1..]);
        pairs := pairs + [current];
        current := [];
      }
    }
    if current != [] {
      pairs := pairs + [current];
    }
  }

  lemma PrintedLinesConcat(a: seq<Message>, b: seq<Message>)
    ensures PrintedLines(a + b) == PrintedLines(a) + PrintedLines(b)
  {
  }

  method PrintPairs(pairs: seq<seq<Message>>) returns (text: string)
    ensures text == Print(Flatten(pairs))
  {
    hide PrintMessage, Join;
    var lines: seq<string> := [];
    assert pairs[..0] == [];
    for i := 0 to |pairs|
      invariant lines == PrintedLines(Flatten(pairs[..i]))
    {
      var pair := pairs[i];
      ghost var before := lines;
      for j := 0 to |pair|
        invariant lines == before + PrintedLines(pair[..j])
      {
        assert PrintedLines(pair[..j + 1]) == PrintedLines(pair[..j]) + [PrintMessage(pair[j])];
        lines := lines + [PrintMessage(pair[j])];
      }
      assert pair[..|pair|] == pair;
      FlattenAppend(pairs[..i], pair);
      assert pairs[..i + 1] == pairs[..i] + [pair];
      PrintedLinesConcat(Flatten(pairs[..i]), pair);
    }
    assert pairs[..|pairs|] == pairs;
    text := Join(lines, '\n');
  }

  lemma {:induction false} FlattenAppend(groups: seq<seq<Message>>, group: seq<Message>)
    ensures Flatten(groups + [group]) == Flatten(groups) + group
  {
    if groups == [] {
      assert [group][1..] == [];
      assert groups + [group] == [group];
      assert group + [] == group && [] + group == group;
    } else {
      assert (groups + [group])[1..] == groups[1..] + [group];
      FlattenAppend(groups[1..], group);
    }
  }

  lemma SuffixPrintable(a: seq<Message>, b: seq<Message>)
    requires AllPrintable(a + b)
    ensures AllPrintable(b)
  {
    hide Printable;
    assert forall i :: 0 <= i < |b| ==> b[i] == (a + b)[|a| + i];
  }

  /** Trimming leaves text that parses to the whole exchanges after the shortest
      prefix that saves enough, or to nothing when no proper prefix does. */
  lemma TrimLeavesExchanges(count: Counter, text: string, tokens: nat, overflow: int)
    requires Parse(text) != []
    ensures
      var groups := GroupsOf(text);
      var left := Trim(count, text, tokens, overflow).0;
      exists n :: 0 <= n <= |groups|
        && Parse(left) == RelabelAll(Flatten(groups[n..]))
        && (n < |groups| ==> Saved(count, groups, n) >= overflow)
        && (forall i :: 0 <= i < n ==> Saved(count, groups, i) < overflow)
  {
    hide Parse, Print, AllPrintable, Exchanges, Flatten, Saved, Removed, RelabelAll;
    var groups := GroupsOf(text);
    var n := Removed(count, groups, 0, overflow);
    ParsePrintParse(text);
    ExchangesPartition([], Parse(text));
    assert [] + Parse(text) == Parse(text);
    FlattenSuffix(groups, n);
    var rest := Flatten(groups[n..]);
    SuffixPrintable(Flatten(groups[..n]), rest);
    ParsePrint(rest);
  }

  lemma {:induction false} FlattenSuffix(groups: seq<seq<Message>>, n: nat)
    requires n <= |groups|
    ensures Flatten(groups) == Flatten(groups[..n]) + Flatten(groups[n..])
  {
    if n == 0 {
      assert groups[..n] == [] && groups[n..] == groups;
    } else {
      FlattenSuffix(groups[1..], n - 1);
      assert groups[1..][..n - 1] == groups[..n][1..];
      assert groups[1..][n - 1..] == groups[n..];
    }
  }
}
