/** The story of a Quest run, told from its events: what the decomposer was asked and how its answer was read, and what
    each attempt at each subtask asked and did (`crates/core/src/quest.rs`). */
module QuestTranscript {
  import opened Text
  import opened Permissions
  import opened Principals
  import opened Runtime
  import opened Executors
  import opened Planning
  import opened Quests
  import opened Transcript

  // ---------------------------------------------------------------- numbered lines

  predicate IsSeparator(c: char) { c == '.' || c == ')' || c == '-' }

  predicate AllDigits(s: string) { s != "" && forall c <- s :: IsDigit(c) }

  /** The line is a number, a separator and a description, with white space anywhere around them. */
  ghost predicate Numbers(raw: string, description: string) {
    description != "" && Bare(description) &&
    exists a, number, b, mark, c, d :: Spelled(raw, a, number, b, mark, c, description, d)
  }

  ghost predicate Spelled(raw: string, a: string, number: string, b: string, mark: char, c: string,
                          description: string, d: string) {
    && AllBlank(a) && AllBlank(b) && AllBlank(c) && AllBlank(d) && AllDigits(number) && IsSeparator(mark)
    && raw == a + number + b + [mark] + c + description + d
  }

  lemma DigitsAreBare(number: string)
    requires AllDigits(number)
    ensures Bare(number) && forall c <- number :: !IsSeparator(c)
  {
    assert number[0] in number && number[|number| - 1] in number;
  }

  lemma BlanksDoNotSeparate(s: string)
    requires AllBlank(s)
    ensures forall c <- s :: !IsSeparator(c)
  {
  }

  lemma {:induction false} SeparatorIsFirst(head: string, rest: string)
    requires (forall c <- head :: !IsSeparator(c)) && rest != "" && IsSeparator(rest[0])
    ensures Separator(head + rest) == |head|
  {
    if head == "" {
      assert head + rest == rest;
    } else {
      assert (head + rest)[1..] == head[1..] + rest && (head + rest)[0] == head[0] && head[0] in head;
      SeparatorIsFirst(head[1..], rest);
    }
  }

  lemma {:induction false} SeparatorFound(line: string)
    ensures var i := Separator(line);
            (i < |line| ==> IsSeparator(line[i])) && forall c <- line[..i] :: !IsSeparator(c)
  {
    if line != "" && !IsSeparator(line[0]) {
      SeparatorFound(line[1..]);
      var i := Separator(line);
      assert line[..i] == [line[0]] + line[1..][..i - 1];
    }
  }

  lemma SpelledIsRead(raw: string, a: string, number: string, b: string, mark: char, c: string, description: string,
                      d: string)
    requires Spelled(raw, a, number, b, mark, c, description, d) && description != "" && Bare(description)
    ensures NumberedLine(raw) == Some(description)
  {
    hide IsWhitespace, Trim, AllBlank, Separator;
    DigitsAreBare(number);
    BlanksDoNotSeparate(b);
    NoPadding();
    var head, rest := number + b, [mark] + c + description;
    var line := head + rest;
    assert line[0] == number[0] && line[|line| - 1] == description[|description| - 1];
    assert number[0] in number;
    assert raw == a + line + d;
    DigitNotBlank(number[0]);
    TrimExact(raw, line);
    SeparatorIsFirst(head, rest);
    assert line[..|head|] == head && line[|head| + 1..] == c + description;
    assert head == "" + number + b && c + description == c + description + "";
    TrimExact(head, number);
    TrimExact(c + description, description);
  }

  lemma DigitNotBlank(c: char)
    requires IsDigit(c)
    ensures !IsWhitespace(c)
  {
  }

  lemma ReadIsSpelled(raw: string)
    requires NumberedLine(raw).Some?
    ensures Numbers(raw, NumberedLine(raw).value)
  {
    hide IsWhitespace, Trim, AllBlank, Separator, Spelled;
    var line := Trim(raw);
    var cut := Separator(line);
    SeparatorFound(line);
    var head, tail := line[..cut], line[cut + 1..];
    TrimExact(raw, line);
    TrimExact(head, Trim(head));
    TrimExact(tail, Trim(tail));
    var p, q :| AllBlank(p) && AllBlank(q) && raw == p + line + q;
    var a, b :| AllBlank(a) && AllBlank(b) && head == a + Trim(head) + b;
    var c, d :| AllBlank(c) && AllBlank(d) && tail == c + Trim(tail) + d;
    assert line == head + [line[cut]] + tail;
    PartsSpell(raw, p, a, Trim(head), b, line[cut], c, Trim(tail), d, q);
    assert Spelled(raw, p + a, Trim(head), b, line[cut], c, Trim(tail), d + q);
  }

  lemma PartsSpell(raw: string, p: string, a: string, number: string, b: string, mark: char, c: string,
                   description: string, d: string, q: string)
    requires AllBlank(p) && AllBlank(a) && AllBlank(b) && AllBlank(c) && AllBlank(d) && AllBlank(q)
    requires AllDigits(number) && IsSeparator(mark)
    requires raw == p + ((a + number + b) + [mark] + (c + description + d)) + q
    ensures Spelled(raw, p + a, number, b, mark, c, description, d + q)
  {
    hide AllBlank;
    BlankConcat(p, a);
    BlankConcat(d, q);
  }

  /** A line is taken for a subtask exactly when it is a numbered line, and then the subtask is its description. */
  lemma NumberedLineExact(raw: string, description: string)
    ensures NumberedLine(raw) == Some(description) <==> Numbers(raw, description)
  {
    hide NumberedLine;
    if NumberedLine(raw) == Some(description) {
      ReadIsSpelled(raw);
    }
    if Numbers(raw, description) {
      var a, number, b, mark, c, d :| Spelled(raw, a, number, b, mark, c, description, d);
      SpelledIsRead(raw, a, number, b, mark, c, description, d);
    }
  }

  // ---------------------------------------------------------------- the decomposition

  ghost predicate IsNumbered(line: string) {
    exists d :: Numbers(line, d)
  }

  /** `picked` are, in order, the numbers of exactly those lines that are numbered lines. */
  ghost predicate PicksNumbered(lines: seq<string>, picked: seq<nat>) {
    && (forall i :: 0 <= i < |picked| ==> picked[i] < |lines|)
    && (forall i, j :: 0 <= i < j < |picked| ==> picked[i] < picked[j])
    && (forall k: nat :: k in picked <==> k < |lines| && IsNumbered(lines[k]))
  }

  /** The list is one pending subtask for each numbered line, numbered from 1, with the line's description. */
  ghost predicate ListsLines(lines: seq<string>, picked: seq<nat>, subtasks: seq<SubTask>) {
    && PicksNumbered(lines, picked) && |subtasks| == |picked|
    && forall i :: 0 <= i < |picked| ==>
         && Numbers(lines[picked[i]], subtasks[i].description)
         && subtasks[i].id == "st-" + Decimal(i + 1) && subtasks[i].status == Pending
  }

  lemma PicksMore(front: seq<string>, raw: string, before: seq<nat>)
    requires PicksNumbered(front, before)
    ensures PicksNumbered(front + [raw], if IsNumbered(raw) then before + [|front|] else before)
  {
    hide IsNumbered;
    var lines, picked := front + [raw], if IsNumbered(raw) then before + [|front|] else before;
    forall k: nat ensures k in picked <==> k < |lines| && IsNumbered(lines[k]) {
      assert k in picked <==> k in before || (IsNumbered(raw) && k == |front|);
      assert k < |front| ==> lines[k] == front[k];
    }
  }

  lemma NumberedIsRead(raw: string)
    ensures IsNumbered(raw) <==> NumberedLine(raw).Some?
    ensures NumberedLine(raw).Some? ==> Numbers(raw, NumberedLine(raw).value)
  {
    hide NumberedLine, Numbers;
    if d :| Numbers(raw, d) {
      NumberedLineExact(raw, d);
    }
    if NumberedLine(raw).Some? {
      NumberedLineExact(raw, NumberedLine(raw).value);
    }
  }

  lemma {:induction false} NumberedLinesRead(lines: seq<string>) returns (picked: seq<nat>)
    ensures ListsLines(lines, picked, NumberedLines(lines, 0))
    decreases |lines|
  {
    hide NumberedLine, NumberedLines, ListsLines, NewSubTask;
    picked := [];
    if lines == [] {
      NothingListed();
    } else {
      var front, raw := lines[..|lines| - 1], lines[|lines| - 1];
      var before := NumberedLinesRead(front);
      assert lines == front + [raw];
      NumberedLinesSnoc(front, raw, 0);
      picked := if NumberedLine(raw).Some? then before + [|front|] else before;
      OneMoreLine(front, raw, before, NumberedLines(front, 0));
      assert NumberedLines(front, 0) + [] == NumberedLines(front, 0);
    }
  }

  lemma NothingListed()
    ensures ListsLines([], [], NumberedLines([], 0))
  {
  }

  lemma OneMoreLine(front: seq<string>, raw: string, before: seq<nat>, subtasks: seq<SubTask>)
    requires ListsLines(front, before, subtasks)
    ensures match NumberedLine(raw)
            case None => ListsLines(front + [raw], before, subtasks)
            case Some(d) =>
              ListsLines(front + [raw], before + [|front|], subtasks + [NewSubTask(|subtasks| + 1, d)])
  {
    hide NumberedLine, Numbers, Decimal, PicksNumbered, IsNumbered;
    PicksMore(front, raw, before);
    NumberedIsRead(raw);
    InBounds(front, before);
    assert forall k :: 0 <= k < |front| ==> (front + [raw])[k] == front[k];
  }

  lemma InBounds(lines: seq<string>, picked: seq<nat>)
    requires PicksNumbered(lines, picked)
    ensures forall i :: 0 <= i < |picked| ==> picked[i] < |lines|
  {
  }

  lemma {:induction false} NumberedLinesSnoc(lines: seq<string>, raw: string, found: nat)
    ensures NumberedLines(lines + [raw], found)
         == NumberedLines(lines, found)
            + match NumberedLine(raw)
              case None => []
              case Some(d) => [NewSubTask(found + |NumberedLines(lines, found)| + 1, d)]
  {
    hide NumberedLine, NewSubTask;
    if lines == [] {
      assert (lines + [raw])[1..] == [];
    } else {
      assert (lines + [raw])[1..] == lines[1..] + [raw];
      NumberedLinesSnoc(lines[1..], raw, if NumberedLine(lines[0]).Some? then found + 1 else found);
    }
  }

  /** The prompt quotes the goal as it is. */
  lemma DecompositionQuotesGoal() returns (before: string, after: string)
    ensures forall goal :: DecompositionPrompt(goal) == before + goal + after
  {
    before, after := DECOMPOSITION_LEAD, DECOMPOSITION_REQUEST;
  }

  ghost predicate OnlySubtask(goal: string, subtasks: seq<SubTask>) {
    subtasks == [SubTask("st-1", goal, Pending)]
  }

  /** The LLM was asked once, about the goal; the subtasks are the numbered lines of its answer. Without any, or without
      an answer, the goal is the one subtask. */
  ghost predicate Decomposed(goal: string, w: World, w': World, subtasks: seq<SubTask>) {
    exists answer ::
      && w'.log == w.log + [Thought(Decomposition, DecompositionPrompt(goal), answer)]
      && (answer.Err? ==> OnlySubtask(goal, subtasks))
      && (answer.Ok? ==>
            || (exists picked :: picked != [] && ListsLines(Lines(answer.value), picked, subtasks))
            || (PicksNumbered(Lines(answer.value), []) && OnlySubtask(goal, subtasks)))
  }

  lemma DecompositionTold(env: Env, goal: string, w: World)
    ensures var (w', subtasks) := Decompose(env, FromLlm, goal, w);
            Decomposed(goal, w, w', subtasks)
  {
    hide DecompositionPrompt, NumberedLines, Lines, Decimal, PicksNumbered;
    var (w', answer) := Think(env, w, Decomposition, DecompositionPrompt(goal));
    assert "st-" + Decimal(1) == "st-1" by { DecimalOne(); }
    if answer.Ok? {
      var lines := Lines(answer.value);
      var picked := NumberedLinesRead(lines);
    }
  }

  lemma DecimalOne()
    ensures Decimal(1) == "1" && "st-" + "1" == "st-1"
  {
  }

  // ---------------------------------------------------------------- the attempts at a subtask

  /** One attempt is a planner run about the subtask's description, over a window of 16, with no chunks; it succeeds
      when the run's answer is "task finished". With a step to use it begins by asking about the description. */
  ghost predicate Tried(env: Env, cfg: QuestConfig, principal: Principal, st: SubTask, before: World, after: World,
                        ok: bool) {
    var agent := Agent(principal, QuestExecutor(cfg, st.id), cfg.maxSteps, Rolling);
    && (exists result, turns, cut ::
          && Told(env, agent, 16, st.description, [], before, after, result, turns, cut)
          && (ok <==> result.Ok? && result.value.finalAnswer == "task finished"))
    && (cfg.maxSteps > 0 ==> Asks(st.description, before, after))
  }

  /** The first event is a planning thought about nothing but this goal. */
  ghost predicate Asks(goal: string, before: World, after: World) {
    && |before.log| < |after.log| && before.log <= after.log
    && var first := after.log[|before.log|];
       first.Thought? && first.purpose == Planning && first.prompt == "[0] goal: " + goal + "\n"
  }

  lemma ExecuteTold(env: Env, cfg: QuestConfig, principal: Principal, st: SubTask, w: World)
    ensures var (w', result) := ExecuteSubtask(env, cfg, principal, st, w);
            Tried(env, cfg, principal, st, w, w', result == Ok(true))
  {
    hide RunPlanner, Told, QuestExecutor;
    var agent := QuestAgent(cfg, principal, st.id);
    var turns, cut, _, _ := TraceIsTranscript(env, agent, st.description, [], w);
    var (w', result) := RunPlanner(env, agent, st.description, w);
    assert result.Ok? || result.Err?;
    if cfg.maxSteps > 0 {
      ToldFirst(env, agent, 16, st.description, w, w', result, turns, cut);
    }
  }

  /** The attempts one after another: all but the last fail, the last succeeds exactly when the subtask does, and a
      subtask that fails has used every retry. */
  ghost predicate TriedInTurn(env: Env, cfg: QuestConfig, principal: Principal, st: SubTask, marks: seq<World>,
                              ok: bool) {
    && 2 <= |marks| <= cfg.subtaskMaxRetries + 2 && (!ok ==> |marks| == cfg.subtaskMaxRetries + 2)
    && forall j :: 0 <= j < |marks| - 1 ==>
         Tried(env, cfg, principal, st, marks[j], marks[j + 1], ok && j == |marks| - 2)
  }

  lemma {:induction false} AttemptsTold(env: Env, cfg: QuestConfig, principal: Principal, st: SubTask, attempt: nat,
                                        w: World)
    returns (marks: seq<World>)
    requires attempt <= cfg.subtaskMaxRetries
    ensures var (w', ok) := Attempts(env, cfg, principal, st, attempt, w);
            && 2 <= |marks| <= cfg.subtaskMaxRetries - attempt + 2 && marks[0] == w && marks[|marks| - 1] == w'
            && (!ok ==> |marks| == cfg.subtaskMaxRetries - attempt + 2)
            && forall j :: 0 <= j < |marks| - 1 ==>
                 Tried(env, cfg, principal, st, marks[j], marks[j + 1], ok && j == |marks| - 2)
    decreases cfg.subtaskMaxRetries - attempt
  {
    hide ExecuteSubtask, Tried;
    var (w1, result) := ExecuteSubtask(env, cfg, principal, st, w);
    ExecuteTold(env, cfg, principal, st, w);
    if result == Ok(true) || attempt == cfg.subtaskMaxRetries {
      marks := [w, w1];
      assert result != Ok(true) ==> Attempts(env, cfg, principal, st, attempt + 1, w1) == (w1, false);
    } else {
      var rest := AttemptsTold(env, cfg, principal, st, attempt + 1, w1);
      marks := [w] + rest;
      forall j | 0 <= j < |marks| - 1
        ensures Tried(env, cfg, principal, st, marks[j], marks[j + 1],
                    Attempts(env, cfg, principal, st, attempt, w).1 && j == |marks| - 2)
      {
        if j > 0 { assert marks[j] == rest[j - 1] && marks[j + 1] == rest[j]; }
      }
    }
  }

  // ---------------------------------------------------------------- the whole run

  /** What happens between two marks: nothing for a skipped subtask; for any other the attempts at it, and the report
      says how they ended. */
  ghost predicate Chapter(env: Env, cfg: QuestConfig, principal: Principal, tries: seq<World>, before: World,
                          after: World, planned: SubTask, reported: SubTask) {
    && reported.id == planned.id && reported.description == planned.description
    && if planned.status == Skipped then after == before && reported.status == Skipped
       else
         && TriedInTurn(env, cfg, principal, planned, tries, reported.status == Success)
         && tries[0] == before && tries[|tries| - 1] == after
         && (reported.status == Success || reported.status == Failed)
  }

  /** The subtasks in order, each in its own stretch of the run. */
  ghost predicate Chapters(env: Env, cfg: QuestConfig, principal: Principal, marks: seq<World>,
                           tries: seq<seq<World>>, planned: seq<SubTask>, reported: seq<SubTask>) {
    && |reported| == |tries| == |planned| && |marks| == |planned| + 1
    && forall j :: 0 <= j < |planned| ==>
         Chapter(env, cfg, principal, tries[j], marks[j], marks[j + 1], planned[j], reported[j])
  }

  lemma StretchTold(env: Env, cfg: QuestConfig, principal: Principal, before: World, after: World, planned: SubTask,
                    reported: SubTask)
    returns (tries: seq<World>)
    requires Stretch(env, cfg, principal, before, after, planned, reported)
    ensures Chapter(env, cfg, principal, tries, before, after, planned, reported)
  {
    hide Attempts, Filed, Tried;
    tries := [];
    if planned.status != Skipped {
      tries := AttemptsTold(env, cfg, principal, planned, 0, before);
    }
  }

  lemma {:induction false} SplitsTold(env: Env, cfg: QuestConfig, principal: Principal, marks: seq<World>,
                                      planned: seq<SubTask>, reported: seq<SubTask>, n: nat)
    returns (tries: seq<seq<World>>)
    requires |reported| == |planned| && |marks| == |planned| + 1 && n <= |planned|
    requires forall j :: 0 <= j < |planned| ==>
               Stretch(env, cfg, principal, marks[j], marks[j + 1], planned[j], reported[j])
    ensures |tries| == n
    ensures forall j :: 0 <= j < n ==>
              Chapter(env, cfg, principal, tries[j], marks[j], marks[j + 1], planned[j], reported[j])
  {
    hide Stretch, Chapter;
    tries := [];
    if n > 0 {
      var before := SplitsTold(env, cfg, principal, marks, planned, reported, n - 1);
      var last := StretchTold(env, cfg, principal, marks[n - 1], marks[n], planned[n - 1], reported[n - 1]);
      tries := before + [last];
    }
  }

  /** A Quest run, whatever the LLM answers: the goal is put to it, the numbered lines of its answer are the subtasks,
      those over the budget are skipped, and each of the others is tried, in order, by planner runs that begin by asking
      about its description, until one is answered "task finished" or no retry is left. With another decomposer, its
      list takes the place of the answer's. */
  lemma QuestIsTold(env: Env, decomposer: Decomposer, cfg: QuestConfig, principal: Principal, goal: string, w: World)
    returns (subtasks: seq<SubTask>, marks: seq<World>, tries: seq<seq<World>>)
    ensures var (w', report) := RunQuest(env, decomposer, cfg, principal, goal, w);
            && Chapters(env, cfg, principal, marks, tries, MarkOverflow(subtasks, cfg.maxSubtasks), report.subtasks)
            && marks[|subtasks|] == w'
    ensures match decomposer
            case FromLlm => Decomposed(goal, w, marks[0], subtasks)
            case Custom(decompose) => marks[0] == w && subtasks == decompose(w.log, goal)
  {
    hide RunQuest, Stretch, Chapter, Decomposed, DecompositionPrompt, ParseSubtasks;
    marks := QuestSplits(env, decomposer, cfg, principal, goal, w);
    var (w1, decomposed) := Decompose(env, decomposer, goal, w);
    subtasks := decomposed;
    DecompositionTold(env, goal, w);
    var report := RunQuest(env, decomposer, cfg, principal, goal, w).1;
    tries := SplitsTold(env, cfg, principal, marks, MarkOverflow(subtasks, cfg.maxSubtasks), report.subtasks,
        |subtasks|);
  }
}
