/** Working memory of the agent: rolling window, typed chunks, token budget
    (`crates/core/src/context_manager.rs`). */
module Context {
  import opened Text

  datatype Priority = Low | Medium | High {
    function Rank(): nat { match this case Low => 0 case Medium => 1 case High => 2 }
  }

  datatype Source = OpenFile | Selection | Diagnostic | Symbol | RecentEdit {
    function Name(): string {
      match this
      case OpenFile => "OpenFile"
      case Selection => "Selection"
      case Diagnostic => "Diagnostic"
      case Symbol => "Symbol"
      case RecentEdit => "RecentEdit"
    }
  }

  datatype Chunk = Chunk(source: Source, uri: string, content: string, priority: Priority, tokenEst: nat)

  /** About four bytes a token, rounded up. */
  function EstimateTokens(text: string): nat { (ByteLen(text) + 3) / 4 }

  function NewChunk(source: Source, uri: string, content: string, priority: Priority): Chunk {
    Chunk(source, uri, content, priority, EstimateTokens(content))
  }

  function WindowTokens(window: seq<string>): nat {
    if window == [] then 0 else EstimateTokens(window[0]) + WindowTokens(window[1..])
  }

  function ChunkTokens(chunks: seq<Chunk>): nat {
    if chunks == [] then 0 else chunks[0].tokenEst + ChunkTokens(chunks[1..])
  }

  /** An estimate is a quarter of the bytes, rounded up. */
  lemma EstimateIsQuarter(text: string)
    ensures 4 * EstimateTokens(text) >= ByteLen(text)
    ensures EstimateTokens(text) > 0 ==> 4 * (EstimateTokens(text) - 1) < ByteLen(text)
  {
  }

  /** The tokens of a window or of chunks are the sum over the items. */
  lemma {:induction false} TokensAreSums(window: seq<string>, item: string, chunks: seq<Chunk>, c: Chunk)
    ensures WindowTokens(window + [item]) == WindowTokens(window) + EstimateTokens(item)
    ensures ChunkTokens(chunks + [c]) == ChunkTokens(chunks) + c.tokenEst
    decreases |window| + |chunks|
  {
    hide EstimateTokens;
    if window != [] {
      assert (window + [item])[1..] == window[1..] + [item];
      TokensAreSums(window[1..], item, [], c);
    } else {
      assert (window + [item])[1..] == [] && WindowTokens([]) == 0;
    }
    if chunks != [] {
      assert (chunks + [c])[1..] == chunks[1..] + [c];
      TokensAreSums([], item, chunks[1..], c);
    } else {
      assert (chunks + [c])[1..] == [] && ChunkTokens([]) == 0;
    }
  }

  // ---------------------------------------------------------------- rendering

  function SnapshotFrom(window: seq<string>, i: nat): string
    decreases |window| - i
  {
    if i >= |window| then "" else "[" + Decimal(i) + "] " + window[i] + "\n" + SnapshotFrom(window, i + 1)
  }

  function RenderChunks(chunks: seq<Chunk>): string {
    if chunks == [] then ""
    else
      "[" + chunks[0].source.Name() + "] " + chunks[0].uri + ": " + chunks[0].content + "\n"
      + RenderChunks(chunks[1..])
  }

  /** The value of a context manager. */
  datatype State = State(window: seq<string>, maxItems: nat, chunks: seq<Chunk>, budget: nat) {
    function Push(item: string): State {
      var room := if |window| == maxItems && window != [] then window[1..] else window;
      this.(window := room + [item])
    }

    function Snapshot(): string { SnapshotFrom(window, 0) }

    function BuildPrompt(): string {
      "=== Context ===\n" + RenderChunks(chunks) + "=== Working memory ===\n" + Snapshot()
    }

    function Trimmed(): State {
      this.(chunks := TrimToBudget(chunks, WindowTokens(window), budget))
    }
  }

  /** `ContextManager::new` and `with_budget`: the window holds at least one item. */
  function Fresh(maxItems: nat, budget: nat): State {
    State([], if maxItems == 0 then 1 else maxItems, [], if budget == 0 then 1 else budget)
  }

  // ---------------------------------------------------------------- budget trimming

  /** The state after pushing items one after another. */
  function PushAll(st: State, items: seq<string>): State {
    var n := |items|;
    if n == 0 then st else PushAll(st, items[..n - 1]).Push(items[n - 1])
  }

  /** Whatever is pushed, the window holds the last `maxItems` items, at least one, in order; nothing else changes. */
  lemma {:induction false} WindowKeepsLast(maxItems: nat, budget: nat, items: seq<string>)
    ensures var start := Fresh(maxItems, budget);
            PushAll(start, items) == start.(window := LastOf(items, if maxItems == 0 then 1 else maxItems))
    decreases |items|
  {
    hide LastOf;
    var n, bound := |items|, if maxItems == 0 then 1 else maxItems;
    if n == 0 {
      assert LastOf(items, bound) == [];
    } else {
      var before, item := items[..n - 1], items[n - 1];
      WindowKeepsLast(maxItems, budget, before);
      LastOfSnoc(before, item, bound);
      LastOfBound(before, bound);
      PushSlides(Fresh(maxItems, budget).(window := LastOf(before, bound)), item);
      assert items == before + [item];
    }
  }

  lemma LastOfBound(items: seq<string>, n: nat)
    ensures |LastOf(items, n)| <= n
  {
  }

  /** One push drops the oldest item when the window is full. */
  lemma PushSlides(st: State, item: string)
    requires |st.window| <= st.maxItems && st.maxItems >= 1
    ensures st.Push(item)
         == st.(window := (if |st.window| == st.maxItems then st.window[1..] else st.window) + [item])
  {
  }

  predicate AllHigh(chunks: seq<Chunk>) {
    forall c <- chunks :: c.priority == High
  }

  /** Index of the first chunk of the lowest priority. */
  function Worst(chunks: seq<Chunk>): (w: nat)
    requires chunks != []
    ensures w < |chunks|
    ensures forall k :: 0 <= k < |chunks| ==> chunks[w].priority.Rank() <= chunks[k].priority.Rank()
    ensures forall k :: 0 <= k < w ==> chunks[w].priority.Rank() < chunks[k].priority.Rank()
  {
    var n := |chunks| - 1;
    if n == 0 then 0
    else
      var w := Worst(chunks[..n]);
      if chunks[n].priority.Rank() < chunks[w].priority.Rank() then n else w
  }

  function RemoveAt<T>(s: seq<T>, i: nat): seq<T>
    requires i < |s|
  {
    s[..i] + s[i + 1..]
  }

  /** What is left once the lowest-priority chunk has been dropped again and again until the budget is met
      or only High chunks remain. */
  function TrimToBudget(chunks: seq<Chunk>, windowTokens: nat, budget: nat): seq<Chunk>
    decreases |chunks|
  {
    if windowTokens + ChunkTokens(chunks) <= budget || AllHigh(chunks) then chunks
    else TrimToBudget(RemoveAt(chunks, Worst(chunks)), windowTokens, budget)
  }

  predicate InRange(indices: seq<nat>, bound: nat) {
    forall k :: 0 <= k < |indices| ==> indices[k] < bound
  }

  /** Strictly increasing positions below `bound`. */
  predicate Ascending(indices: seq<nat>, bound: nat) {
    && InRange(indices, bound)
    && forall a, b :: 0 <= a < b < |indices| ==> indices[a] < indices[b]
  }

  function Pick(chunks: seq<Chunk>, indices: seq<nat>): seq<Chunk>
    requires InRange(indices, |chunks|)
  {
    seq(|indices|, k requires 0 <= k < |indices| => chunks[indices[k]])
  }

  predicate Lower(a: Priority, b: Priority) {
    (a == Low && b != Low) || (a == Medium && b == High)
  }

  /** Chunk `i` comes before chunk `j` in the drop order: by priority, then by position. */
  predicate Before(chunks: seq<Chunk>, i: nat, j: nat)
    requires i < |chunks| && j < |chunks|
  {
    var a, b := chunks[i].priority, chunks[j].priority;
    Lower(a, b) || (a == b && i < j)
  }

  /** `kept` lists, in position order, what remains when some prefix of the drop order, High chunks
      excluded, is removed. */
  ghost predicate DropsPrefix(chunks: seq<Chunk>, kept: seq<nat>) {
    && Ascending(kept, |chunks|)
    && (forall d, s :: 0 <= d < |chunks| && d !in kept && s in kept ==> Before(chunks, d, s))
    && (forall d :: 0 <= d < |chunks| && d !in kept ==> chunks[d].priority != High)
  }

  ghost predicate Fits(chunks: seq<Chunk>, kept: seq<nat>, windowTokens: nat, budget: nat) {
    InRange(kept, |chunks|) && windowTokens + ChunkTokens(Pick(chunks, kept)) <= budget
  }

  /** No way to drop a prefix that fits, among those keeping at most `limit` chunks, keeps more than `kept`. */
  ghost predicate KeepsMost(chunks: seq<Chunk>, kept: seq<nat>, limit: nat, windowTokens: nat, budget: nat) {
    forall other: seq<nat> ::
      DropsPrefix(chunks, other) && Fits(chunks, other, windowTokens, budget) && |other| <= limit ==> |other| <= |kept|
  }

  /** Trimming drops exactly the shortest prefix of the (priority, position) order of the chunks that are
      not High that makes the rest fit, or all of them when none suffices. */
  lemma TrimDropsShortestPrefix(chunks: seq<Chunk>, windowTokens: nat, budget: nat) returns (kept: seq<nat>)
    ensures DropsPrefix(chunks, kept)
    ensures TrimToBudget(chunks, windowTokens, budget) == Pick(chunks, kept)
    ensures Fits(chunks, kept, windowTokens, budget) || AllHigh(Pick(chunks, kept))
    ensures KeepsMost(chunks, kept, |chunks|, windowTokens, budget)
  {
    var all: seq<nat> := seq(|chunks|, i requires 0 <= i < |chunks| => i);
    assert Pick(chunks, all) == chunks;
    assert forall i :: 0 <= i < |chunks| ==> all[i] == i;
    forall i: nat | i < |chunks| ensures i in all {
      assert all[i] == i;
    }
    kept := TrimFrom(chunks, all, windowTokens, budget);
  }

  lemma {:induction false} TrimFrom(chunks: seq<Chunk>, live: seq<nat>, windowTokens: nat, budget: nat)
    returns (kept: seq<nat>)
    requires DropsPrefix(chunks, live)
    ensures DropsPrefix(chunks, kept)
    ensures TrimToBudget(Pick(chunks, live), windowTokens, budget) == Pick(chunks, kept)
    ensures Fits(chunks, kept, windowTokens, budget) || AllHigh(Pick(chunks, kept))
    ensures KeepsMost(chunks, kept, |live|, windowTokens, budget)
    decreases |live|
  {
    var present := Pick(chunks, live);
    if windowTokens + ChunkTokens(present) <= budget || AllHigh(present) {
      kept := live;
    } else {
      var w := Worst(present);
      var next := RemoveAt(live, w);
      DropWorst(chunks, live, w);
      PickWithout(chunks, live, w);
      kept := TrimFrom(chunks, next, windowTokens, budget);
      OverfullIsNoOption(chunks, live, kept, windowTokens, budget);
    }
  }

  lemma PickWithout(chunks: seq<Chunk>, live: seq<nat>, w: nat)
    requires InRange(live, |chunks|) && w < |live|
    ensures InRange(RemoveAt(live, w), |chunks|)
    ensures Pick(chunks, RemoveAt(live, w)) == RemoveAt(Pick(chunks, live), w)
  {
  }

  lemma OverfullIsNoOption(chunks: seq<Chunk>, live: seq<nat>, kept: seq<nat>, windowTokens: nat, budget: nat)
    requires DropsPrefix(chunks, live) && live != [] && !Fits(chunks, live, windowTokens, budget)
    requires KeepsMost(chunks, kept, |live| - 1, windowTokens, budget)
    ensures KeepsMost(chunks, kept, |live|, windowTokens, budget)
  {
    forall other: seq<nat> | DropsPrefix(chunks, other) && Fits(chunks, other, windowTokens, budget)
        && |other| == |live|
      ensures false
    {
      PrefixUnique(chunks, live, other);
    }
  }

  lemma RemoveAtMembers(s: seq<nat>, w: nat, bound: nat)
    requires Ascending(s, bound) && w < |s|
    ensures Ascending(RemoveAt(s, w), bound)
    ensures forall i :: i in RemoveAt(s, w) <==> i in s && i != s[w]
  {
    var next := RemoveAt(s, w);
    assert forall k :: 0 <= k < |next| ==> next[k] == if k < w then s[k] else s[k + 1];
    forall i | i in s && i != s[w] ensures i in next {
      var k :| 0 <= k < |s| && s[k] == i;
      assert i == if k < w then next[k] else next[k - 1];
    }
  }

  lemma WorstIsNext(chunks: seq<Chunk>, live: seq<nat>, w: nat, s: nat)
    requires DropsPrefix(chunks, live) && live != [] && w == Worst(Pick(chunks, live))
    requires s in live && s != live[w]
    ensures Before(chunks, live[w], s)
  {
    var k :| 0 <= k < |live| && live[k] == s;
    assert Pick(chunks, live)[k] == chunks[s];
  }

  lemma DropWorst(chunks: seq<Chunk>, live: seq<nat>, w: nat)
    requires DropsPrefix(chunks, live) && live != [] && !AllHigh(Pick(chunks, live))
    requires w == Worst(Pick(chunks, live))
    ensures DropsPrefix(chunks, RemoveAt(live, w))
  {
    var present, next := Pick(chunks, live), RemoveAt(live, w);
    RemoveAtMembers(live, w, |chunks|);
    var c :| c in present && c.priority != High;
    var k :| 0 <= k < |present| && present[k] == c;
    assert present[w].priority.Rank() <= present[k].priority.Rank();
    assert present[w] == chunks[live[w]];
    forall d, s | 0 <= d < |chunks| && d !in next && s in next ensures Before(chunks, d, s) {
      if d == live[w] {
        WorstIsNext(chunks, live, w, s);
      } else {
        assert d !in live && s in live;
      }
    }
  }

  lemma {:induction false} IncreasingIsShort(s: seq<nat>, bound: nat)
    requires Ascending(s, bound)
    ensures |s| <= bound
  {
    if s != [] {
      IncreasingIsShort(s[..|s| - 1], s[|s| - 1]);
    }
  }

  /** A prefix of the drop order is determined by its length. */
  lemma PrefixUnique(chunks: seq<Chunk>, a: seq<nat>, b: seq<nat>)
    requires DropsPrefix(chunks, a) && DropsPrefix(chunks, b) && |a| == |b|
    ensures a == b
  {
    var sa, sb := set i | i in a, set i | i in b;
    IncreasingSize(a, sa);
    IncreasingSize(b, sb);
    if exists x :: x in sa && x !in sb {
      var x :| x in sa && x !in sb;
      if sb <= sa {
        SubsetSameSize(sb, sa);
      }
      var y :| y in sb && y !in sa;
      assert false;
    } else {
      SubsetSameSize(sa, sb);
      forall x: nat ensures x in a <==> x in b {
        assert x in sa <==> x in sb;
      }
      SameMembersSameOrder(a, b, |chunks|);
    }
  }

  lemma SubsetSameSize(a: set<nat>, b: set<nat>)
    requires a <= b && |a| == |b|
    ensures a == b
  {
    assert |b - a| == |b| - |a|;
  }

  lemma {:induction false} IncreasingSize(s: seq<nat>, members: set<nat>)
    requires forall a, b :: 0 <= a < b < |s| ==> s[a] < s[b]
    requires members == set i | i in s
    ensures |members| == |s|
  {
    if s != [] {
      var init, last := s[..|s| - 1], s[|s| - 1];
      assert s == init + [last] && last !in init && last in members;
      assert members - {last} == set i | i in init;
      IncreasingSize(init, members - {last});
    }
  }

  lemma {:induction false} SameMembersSameOrder(a: seq<nat>, b: seq<nat>, bound: nat)
    requires Ascending(a, bound) && Ascending(b, bound)
    requires |a| == |b| && forall x: nat :: x in a <==> x in b
    ensures a == b
  {
    if a != [] {
      var n := |a| - 1;
      assert a[n] in b && b[n] in a;
      assert a[n] == b[n];
      RemoveAtMembers(a, n, bound);
      RemoveAtMembers(b, n, bound);
      assert RemoveAt(a, n) == a[..n] && RemoveAt(b, n) == b[..n];
      SameMembersSameOrder(a[..n], b[..n], bound);
      assert a == a[..n] + [a[n]] && b == b[..n] + [b[n]];
    }
  }

  // ---------------------------------------------------------------- compression

  const CAP: nat := 2000
  const ELLIPSIS: string := "\U{2026}"
  const SUFFIX: string := ELLIPSIS + "[truncated]"

  /** `&s[..n]` in bytes; `None` is the panic raised when byte `n` is inside a character. */
  function TakeBytes(s: string, n: nat): (r: Option<string>)
    ensures r.Some? ==> r.value <= s && ByteLen(r.value) == n
  {
    if n == 0 then Some("")
    else if s == "" || Utf8Len(s[0]) > n then None
    else
      var rest := TakeBytes(s[1..], n - Utf8Len(s[0]));
      if rest.None? then None else Some([s[0]] + rest.value)
  }

  /** The first chunk of each content, given the contents already seen. */
  function Dedup(chunks: seq<Chunk>, seen: set<string>): seq<Chunk> {
    if chunks == [] then []
    else if chunks[0].content in seen then Dedup(chunks[1..], seen)
    else [chunks[0]] + Dedup(chunks[1..], seen + {chunks[0].content})
  }

  function TruncateContent(content: string): Option<string> {
    if ByteLen(content) <= CAP then Some(content)
    else
      var head := TakeBytes(content, CAP);
      if head.None? then None else Some(head.value + SUFFIX)
  }

  function TruncateChunk(c: Chunk): Option<Chunk> {
    if ByteLen(c.content) <= CAP then Some(c)
    else
      var content := TruncateContent(c.content);
      if content.None? then None else Some(c.(content := content.value, tokenEst := EstimateTokens(content.value)))
  }

  /** The chunks after the truncation loop, and whether it panicked on the way; after a panic the chunks
      from the offending one on are untouched. */
  datatype Truncation = Truncation(chunks: seq<Chunk>, panicked: bool)

  function TruncateAll(chunks: seq<Chunk>): Truncation {
    if chunks == [] then Truncation([], false)
    else
      var c := TruncateChunk(chunks[0]);
      if c.None? then Truncation(chunks, true)
      else
        var rest := TruncateAll(chunks[1..]);
        Truncation([c.value] + rest.chunks, rest.panicked)
  }

  function Behind(done: seq<Chunk>, rest: Truncation): Truncation {
    Truncation(done + rest.chunks, rest.panicked)
  }

  lemma TruncateAllStep(chunks: seq<Chunk>)
    requires chunks != []
    ensures var c := TruncateChunk(chunks[0]);
            TruncateAll(chunks)
            == if c.None? then Truncation(chunks, true) else Behind([c.value], TruncateAll(chunks[1..]))
  {
    hide TruncateChunk;
  }

  lemma TruncateNone()
    ensures TruncateAll([]) == Truncation([], false)
  {
  }

  function Compress(chunks: seq<Chunk>): Truncation {
    TruncateAll(Dedup(chunks, {}))
  }

  lemma {:induction false} AsciiLen(s: string)
    requires forall k :: 0 <= k < |s| ==> s[k] as int < 0x80
    ensures ByteLen(s) == |s|
  {
    if s != "" { AsciiLen(s[1..]); }
  }

  lemma OneChar(s: string)
    requires |s| == 1
    ensures ByteLen(s) == Utf8Len(s[0])
  {
    assert s[1..] == "";
  }

  lemma SuffixLen()
    ensures ByteLen(SUFFIX) == 14
  {
    hide ByteLen;
    ByteLenAppend(ELLIPSIS, "[truncated]");
    AsciiLen("[truncated]");
    OneChar(ELLIPSIS);
  }

  /** Taking a prefix depends only on the prefix taken. */
  lemma {:induction false} TakeBytesOfAppend(head: string, tail: string)
    ensures TakeBytes(head + tail, ByteLen(head)) == Some(head)
  {
    if head != "" {
      assert (head + tail)[1..] == head[1..] + tail;
      TakeBytesOfAppend(head[1..], tail);
      assert [head[0]] + head[1..] == head;
    }
  }

  /** A truncated content is at most 2014 bytes long and truncating it again changes nothing. */
  lemma TruncateTwice(content: string)
    requires TruncateContent(content).Some?
    ensures ByteLen(TruncateContent(content).value) <= CAP + 14
    ensures TruncateContent(TruncateContent(content).value) == Some(TruncateContent(content).value)
  {
    SuffixLen();
    if ByteLen(content) > CAP {
      var head := TakeBytes(content, CAP).value;
      ByteLenAppend(head, SUFFIX);
      TakeBytesOfAppend(head, SUFFIX);
    }
  }

  ghost predicate DistinctContents(chunks: seq<Chunk>) {
    forall i, j :: 0 <= i < j < |chunks| ==> chunks[i].content != chunks[j].content
  }

  /** Every chunk is already as truncation would leave it. */
  ghost predicate AllTruncated(chunks: seq<Chunk>) {
    forall i :: 0 <= i < |chunks| ==> TruncateChunk(chunks[i]) == Some(chunks[i])
  }

  /** `kept` gives, in order, the position of the first chunk of each content not in `seen`. */
  ghost predicate FirstOccurrences(chunks: seq<Chunk>, seen: set<string>, kept: seq<nat>) {
    && Ascending(kept, |chunks|)
    && forall i: nat :: i < |chunks| ==> (i in kept <==> IsFirst(chunks, seen, i))
  }

  function Shift(s: seq<nat>): seq<nat> {
    seq(|s|, k requires 0 <= k < |s| => s[k] + 1)
  }

  lemma ShiftMembers(s: seq<nat>)
    ensures forall i: nat :: i in Shift(s) <==> i > 0 && i - 1 in s
  {
    forall i: nat | i > 0 && i - 1 in s ensures i in Shift(s) {
      var k :| 0 <= k < |s| && s[k] == i - 1;
      assert Shift(s)[k] == i;
    }
  }

  /** Whether chunk `i` is the first one of its content, and that content is new. */
  predicate IsFirst(chunks: seq<Chunk>, seen: set<string>, i: nat)
    requires i < |chunks|
  {
    chunks[i].content !in seen && forall j :: 0 <= j < i ==> chunks[j].content != chunks[i].content
  }

  lemma IsFirstShift(chunks: seq<Chunk>, seen: set<string>, i: nat)
    requires 0 < i < |chunks|
    ensures IsFirst(chunks, seen, i) <==> IsFirst(chunks[1..], seen + {chunks[0].content}, i - 1)
  {
    var rest := chunks[1..];
    assert forall j :: 0 <= j < |rest| ==> rest[j] == chunks[j + 1];
    if IsFirst(rest, seen + {chunks[0].content}, i - 1) {
      forall j | 0 <= j < i ensures chunks[j].content != chunks[i].content {
        if j > 0 { assert rest[j - 1].content != rest[i - 1].content; }
      }
    }
  }

  lemma DedupMembers(chunks: seq<Chunk>, seen: set<string>, tail: seq<nat>)
    requires chunks != []
    requires FirstOccurrences(chunks[1..], seen + {chunks[0].content}, tail)
    ensures FirstOccurrences(chunks, seen, (if chunks[0].content !in seen then [0] else []) + Shift(tail))
  {
    var head: seq<nat> := if chunks[0].content !in seen then [0] else [];
    var kept := head + Shift(tail);
    ShiftMembers(tail);
    forall i: nat | i < |chunks| ensures i in kept <==> IsFirst(chunks, seen, i) {
      if i > 0 {
        IsFirstShift(chunks, seen, i);
        assert i in kept <==> i in Shift(tail);
      } else {
        assert i !in Shift(tail);
      }
    }
    assert Ascending(Shift(tail), |chunks|);
  }

  lemma {:induction false} DedupFirstOccurrences(chunks: seq<Chunk>, seen: set<string>) returns (kept: seq<nat>)
    ensures FirstOccurrences(chunks, seen, kept)
    ensures Dedup(chunks, seen) == Pick(chunks, kept)
  {
    if chunks == [] {
      kept := [];
    } else {
      var c := chunks[0].content;
      var tail := DedupFirstOccurrences(chunks[1..], seen + {c});
      ShiftMembers(tail);
      kept := (if c !in seen then [0] else []) + Shift(tail);
      DedupMembers(chunks, seen, tail);
      assert Pick(chunks, Shift(tail)) == Pick(chunks[1..], tail);
      if c !in seen {
        assert Pick(chunks, kept) == [chunks[0]] + Pick(chunks, Shift(tail));
      } else {
        assert kept == Shift(tail) && seen == seen + {c};
      }
    }
  }

  lemma DedupDistinct(chunks: seq<Chunk>)
    ensures DistinctContents(Dedup(chunks, {}))
  {
    var kept := DedupFirstOccurrences(chunks, {});
    forall i, j | 0 <= i < j < |kept| ensures chunks[kept[i]].content != chunks[kept[j]].content {
      assert IsFirst(chunks, {}, kept[j]);
    }
  }

  lemma {:induction false} DedupOfDistinct(chunks: seq<Chunk>, seen: set<string>)
    requires DistinctContents(chunks) && forall c <- chunks :: c.content !in seen
    ensures Dedup(chunks, seen) == chunks
  {
    if chunks != [] {
      assert forall k :: 0 <= k < |chunks| - 1 ==> chunks[1..][k] == chunks[k + 1];
      DedupOfDistinct(chunks[1..], seen + {chunks[0].content});
    }
  }

  lemma {:induction false} TruncateAllPointwise(chunks: seq<Chunk>)
    ensures !TruncateAll(chunks).panicked <==> forall c <- chunks :: TruncateChunk(c).Some?
    ensures |TruncateAll(chunks).chunks| == |chunks|
    ensures !TruncateAll(chunks).panicked ==>
              forall i :: 0 <= i < |chunks| ==> Some(TruncateAll(chunks).chunks[i]) == TruncateChunk(chunks[i])
  {
    if chunks != [] {
      TruncateAllPointwise(chunks[1..]);
      assert forall c :: c in chunks <==> c == chunks[0] || c in chunks[1..];
    }
  }

  lemma TruncateSettles(chunks: seq<Chunk>)
    requires !TruncateAll(chunks).panicked
    ensures AllTruncated(TruncateAll(chunks).chunks)
  {
    TruncateAllPointwise(chunks);
    var out := TruncateAll(chunks).chunks;
    forall i | 0 <= i < |out| ensures TruncateChunk(out[i]) == Some(out[i]) {
      TruncateTwice(chunks[i].content);
    }
  }

  lemma TruncatedIsFixed(chunks: seq<Chunk>)
    requires AllTruncated(chunks)
    ensures TruncateAll(chunks) == Truncation(chunks, false)
  {
    TruncateAllPointwise(chunks);
  }

  lemma DedupKeepsTruncated(chunks: seq<Chunk>)
    requires AllTruncated(chunks)
    ensures AllTruncated(Dedup(chunks, {}))
  {
    var kept := DedupFirstOccurrences(chunks, {});
  }

  /** Too long, and byte 2000 is no character boundary: where the cut panics. */
  ghost predicate CutsCharacter(content: string) {
    ByteLen(content) > CAP && forall k: nat :: k <= |content| ==> ByteLen(content[..k]) != CAP
  }

  lemma {:induction false} NoBoundaryIffNone(s: string, n: nat)
    ensures TakeBytes(s, n).None? <==> forall k: nat :: k <= |s| ==> ByteLen(s[..k]) != n
    decreases |s|
  {
    var r := TakeBytes(s, n);
    if r.Some? {
      assert s[..|r.value|] == r.value;
    } else {
      forall k: nat | k <= |s| ensures ByteLen(s[..k]) != n {
        if ByteLen(s[..k]) == n {
          assert s[..k] + s[k..] == s;
          TakeBytesOfAppend(s[..k], s[k..]);
        }
      }
    }
  }

  lemma CutPanicsIff(c: Chunk)
    ensures TruncateChunk(c).None? <==> CutsCharacter(c.content)
  {
    NoBoundaryIffNone(c.content, CAP);
  }

  /** No chunk has the cap inside a character. */
  ghost predicate CutsCleanly(chunks: seq<Chunk>) {
    forall c <- chunks :: !CutsCharacter(c.content)
  }

  function Contents(chunks: seq<Chunk>): set<string> {
    if chunks == [] then {} else {chunks[0].content} + Contents(chunks[1..])
  }

  lemma {:induction false} DedupKeepsContents(chunks: seq<Chunk>, seen: set<string>)
    ensures Contents(Dedup(chunks, seen)) == Contents(chunks) - seen
  {
    if chunks != [] {
      var c, more := chunks[0], seen + {chunks[0].content};
      DedupKeepsContents(chunks[1..], more);
      if c.content in seen {
        assert more == seen;
      } else {
        var rest := Dedup(chunks[1..], more);
        assert Dedup(chunks, seen) == [c] + rest && ([c] + rest)[1..] == rest;
      }
    }
  }

  lemma {:induction false} TruncateAllPanicsIff(chunks: seq<Chunk>)
    ensures TruncateAll(chunks).panicked <==> exists t :: t in Contents(chunks) && CutsCharacter(t)
  {
    hide CutsCharacter, TruncateChunk;
    if chunks != [] {
      TruncateAllStep(chunks);
      CutPanicsIff(chunks[0]);
      TruncateAllPanicsIff(chunks[1..]);
      assert chunks[0].content in Contents(chunks);
    }
  }

  /** Compression panics exactly when some content is over the cap with no character boundary at it. */
  lemma CompressPanicsIff(chunks: seq<Chunk>)
    ensures Compress(chunks).panicked <==> !CutsCleanly(chunks)
  {
    hide CutsCharacter, TruncateAll, Dedup;
    TruncateAllPanicsIff(Dedup(chunks, {}));
    DedupKeepsContents(chunks, {});
    InContents(chunks);
  }

  lemma {:induction false} InContents(chunks: seq<Chunk>)
    ensures forall t :: t in Contents(chunks) <==> exists c :: c in chunks && c.content == t
  {
    if chunks != [] {
      assert chunks == [chunks[0]] + chunks[1..];
      InContents(chunks[1..]);
    }
  }

  /** 1999 one-byte characters and one of two bytes. */
  lemma CompressCanPanic() returns (chunks: seq<Chunk>)
    ensures Compress(chunks).panicked
  {
    var head := seq(CAP - 1, i => 'x');
    var content := head + "\U{00E9}";
    chunks := [NewChunk(OpenFile, "a", content, Low)];
    AsciiLen(head);
    OneChar("\U{00E9}");
    ByteLenAppend(head, "\U{00E9}");
    forall k: nat | k <= |content| ensures ByteLen(content[..k]) != CAP {
      if k < |content| {
        assert content[..k] == head[..k];
        AsciiLen(head[..k]);
      } else {
        assert content[..k] == content;
      }
    }
    assert CutsCharacter(chunks[0].content);
    CompressPanicsIff(chunks);
  }

  /** When no cut falls inside a character, neither the first pass nor the second panics, and the second reaches a fixed
      point: a third changes nothing, contents are pairwise distinct and none is longer than 2014 bytes. */
  lemma CompressTwiceIsFixed(chunks: seq<Chunk>)
    requires CutsCleanly(chunks)
    ensures !Compress(chunks).panicked
    ensures var once := Compress(chunks).chunks;
            var twice := Compress(once);
            && !twice.panicked
            && Compress(twice.chunks) == twice
            && DistinctContents(twice.chunks)
            && twice.chunks == Dedup(once, {})
            && forall c <- twice.chunks :: ByteLen(c.content) <= 2014
  {
    CompressPanicsIff(chunks);
    var once := Compress(chunks).chunks;
    TruncateSettles(Dedup(chunks, {}));
    DedupKeepsTruncated(once);
    var deduped := Dedup(once, {});
    TruncatedIsFixed(deduped);
    DedupDistinct(once);
    DedupOfDistinct(deduped, {});
    forall c | c in deduped ensures ByteLen(c.content) <= 2014 {
      TruncateTwice(c.content);
    }
  }

  /** Two different contents that truncation would make equal. */
  predicate Merge(c: Chunk, d: Chunk) {
    c.content != d.content && TruncateContent(c.content) == TruncateContent(d.content)
  }

  ghost predicate NothingMerges(chunks: seq<Chunk>) {
    forall i, j :: 0 <= i < |chunks| && 0 <= j < |chunks| ==> !Merge(chunks[i], chunks[j])
  }

  /** One pass is already a fixed point exactly when truncation makes no two different contents equal. */
  lemma CompressOnceIsFixedIff(chunks: seq<Chunk>)
    requires CutsCleanly(chunks)
    ensures Compress(Compress(chunks).chunks) == Compress(chunks) <==> NothingMerges(chunks)
  {
    var once := Compress(chunks).chunks;
    CompressTwiceIsFixed(chunks);
    DistinctAfterOnePass(chunks);
    if DistinctContents(once) {
      DedupOfDistinct(once, {});
    }
  }

  lemma DistinctAfterOnePass(chunks: seq<Chunk>)
    requires !Compress(chunks).panicked
    ensures DistinctContents(Compress(chunks).chunks) <==> NothingMerges(chunks)
  {
    hide Dedup, TruncateAll, IsFirst, TakeBytes;
    var deduped, once := Dedup(chunks, {}), Compress(chunks).chunks;
    var kept := DedupFirstOccurrences(chunks, {});
    DedupDistinct(chunks);
    TruncateAllPointwise(deduped);
    assert forall i :: 0 <= i < |once| ==> Some(once[i].content) == TruncateContent(chunks[kept[i]].content);
    if NothingMerges(chunks) {
      forall i, j | 0 <= i < j < |once| ensures once[i].content != once[j].content {
        var a, b := chunks[kept[i]], chunks[kept[j]];
        assert a == deduped[i] && b == deduped[j] && a.content != b.content;
        assert !Merge(a, b);
      }
    }
    if DistinctContents(once) {
      forall i: nat, j: nat | i < |chunks| && j < |chunks| ensures !Merge(chunks[i], chunks[j]) {
        var a := FirstOf(chunks, kept, i);
        var b := FirstOf(chunks, kept, j);
      }
    }
  }

  lemma {:induction false} FirstOf(chunks: seq<Chunk>, kept: seq<nat>, i: nat) returns (k: nat)
    requires FirstOccurrences(chunks, {}, kept) && i < |chunks|
    ensures k < |kept| && chunks[kept[k]].content == chunks[i].content
    decreases i
  {
    if j: nat :| j < i && chunks[j].content == chunks[i].content {
      k := FirstOf(chunks, kept, j);
    } else {
      assert IsFirst(chunks, {}, i);
      k :| 0 <= k < |kept| && kept[k] == i;
    }
  }

  /** `d` is `c`, cut after 2000 bytes and marked as cut when it is longer, with its tokens counted anew. */
  ghost predicate Shortened(c: Chunk, d: Chunk) {
    if ByteLen(c.content) <= 2000 then d == c
    else
      exists head ::
        && head <= c.content && ByteLen(head) == 2000
        && d == Chunk(c.source, c.uri, head + SUFFIX, c.priority, EstimateTokens(head + SUFFIX))
  }

  lemma TruncateShortens(c: Chunk)
    ensures TruncateChunk(c).Some? ==> Shortened(c, TruncateChunk(c).value)
    ensures TruncateChunk(c).None? <==> CutsCharacter(c.content)
  {
    NoBoundaryIffNone(c.content, CAP);
  }

  /** The chunks of the loop: the first `n` shortened, and when it panicked at chunk `n`, the others as they were. */
  ghost predicate ShortenedUpTo(chunks: seq<Chunk>, t: Truncation, n: nat) {
    && |t.chunks| == |chunks| && n <= |chunks| && (t.panicked <==> n < |chunks|)
    && (forall i :: 0 <= i < n ==> Shortened(chunks[i], t.chunks[i]))
    && (n < |chunks| ==> CutsCharacter(chunks[n].content))
    && (forall i :: n <= i < |chunks| ==> t.chunks[i] == chunks[i])
  }

  lemma {:induction false} TruncateAllShortens(chunks: seq<Chunk>) returns (n: nat)
    ensures ShortenedUpTo(chunks, TruncateAll(chunks), n)
  {
    hide Shortened, CutsCharacter, TruncateChunk;
    n := 0;
    if chunks != [] {
      TruncateShortens(chunks[0]);
      if TruncateChunk(chunks[0]).Some? {
        var rest := TruncateAllShortens(chunks[1..]);
        n := rest + 1;
      }
    }
  }

  /** What compression leaves: the first chunk of each content, in order; each shortened, up to the one whose cut
      panics, and untouched from there on. */
  lemma CompressShortens(chunks: seq<Chunk>) returns (kept: seq<nat>, n: nat)
    ensures FirstOccurrences(chunks, {}, kept) && ShortenedUpTo(Pick(chunks, kept), Compress(chunks), n)
  {
    hide ShortenedUpTo, Dedup, TruncateAll;
    kept := DedupFirstOccurrences(chunks, {});
    n := TruncateAllShortens(Dedup(chunks, {}));
  }

  /** One pass need not be a fixed point: 2000 equal characters followed by different ones. */
  lemma CompressOnceCanLeaveDuplicates() returns (chunks: seq<Chunk>)
    ensures !Compress(chunks).panicked
    ensures Compress(Compress(chunks).chunks) != Compress(chunks)
  {
    var head := seq(CAP, i => 'x');
    AsciiLen(head);
    var a, b := NewChunk(OpenFile, "a", head + "a", Low), NewChunk(OpenFile, "b", head + "b", Low);
    AsciiLen("a");
    AsciiLen("b");
    ByteLenAppend(head, "a");
    ByteLenAppend(head, "b");
    TakeBytesOfAppend(head, "a");
    TakeBytesOfAppend(head, "b");
    assert (head + "a")[CAP] != (head + "b")[CAP];
    chunks := [a, b];
    TruncateAllPointwise(Dedup(chunks, {}));
    var kept := DedupFirstOccurrences(chunks, {});
    assert Merge(chunks[0], chunks[1]);
    CompressPanicsIff(chunks);
    CompressOnceIsFixedIff(chunks);
  }

  // ---------------------------------------------------------------- the manager

  datatype TrimReport = TrimReport(dropped: nat, kept: nat)

  class ContextManager {
    var window: seq<string>
    const maxItems: nat
    var chunks: seq<Chunk>
    const budgetTokens: nat

    function Value(): State
      reads this
    {
      State(window, maxItems, chunks, budgetTokens)
    }

    constructor (maxItems: nat, budget: nat)
      ensures Value() == Fresh(maxItems, budget)
    {
      this.window, this.chunks := [], [];
      this.maxItems := if maxItems == 0 then 1 else maxItems;
      this.budgetTokens := if budget == 0 then 1 else budget;
    }

    method Push(item: string)
      modifies this`window
      ensures Value() == old(Value()).Push(item)
    {
      if |window| == maxItems && window != [] {
        window := window[1..];
      }
      window := window + [item];
    }

    method AddChunk(chunk: Chunk)
      modifies this`chunks
      ensures chunks == old(chunks) + [chunk]
    {
      chunks := chunks + [chunk];
    }

    method TotalTokens() returns (total: nat)
      ensures total == WindowTokens(window) + ChunkTokens(chunks)
    {
      total := 0;
      for i := 0 to |window|
        invariant total + WindowTokens(window[i..]) == WindowTokens(window)
      {
        total := total + EstimateTokens(window[i]);
      }
      for i := 0 to |chunks|
        invariant total + ChunkTokens(chunks[i..]) == WindowTokens(window) + ChunkTokens(chunks)
      {
        total := total + chunks[i].tokenEst;
      }
    }

    method FindWorst() returns (worst: nat)
      requires chunks != []
      ensures worst == Worst(chunks)
    {
      var worstPriority := chunks[0].priority;
      worst := 0;
      for i := 1 to |chunks|
        invariant worst == Worst(chunks[..i]) && worstPriority == chunks[worst].priority
      {
        assert chunks[..i + 1][..i] == chunks[..i];
        if chunks[i].priority.Rank() < worstPriority.Rank() {
          worst, worstPriority := i, chunks[i].priority;
        }
      }
      assert chunks[..|chunks|] == chunks;
    }

    /** The chunks left are the trimmed ones, and every chunk is either kept or counted as dropped. */
    method BudgetTrim() returns (report: TrimReport)
      modifies this`chunks
      ensures Value() == old(Value()).Trimmed()
      ensures report.kept == |chunks| && report.dropped + report.kept == |old(chunks)|
    {
      var dropped := 0;
      var total := TotalTokens();
      ghost var goal := TrimToBudget(chunks, WindowTokens(window), budgetTokens);
      while total > budgetTokens && chunks != []
        invariant total == WindowTokens(window) + ChunkTokens(chunks)
        invariant TrimToBudget(chunks, WindowTokens(window), budgetTokens) == goal
        invariant dropped + |chunks| == |old(chunks)|
        decreases |chunks|
      {
        var worst := FindWorst();
        if chunks[worst].priority == High {
          WorstHigh(chunks);
          break;
        }
        chunks := RemoveAt(chunks, worst);
        dropped := dropped + 1;
        total := TotalTokens();
      }
      report := TrimReport(dropped, |chunks|);
    }

    method Deduplicate()
      modifies this`chunks
      ensures chunks == Dedup(old(chunks), {})
    {
      var retained: seq<Chunk>, seen: set<string> := [], {};
      for i := 0 to |chunks|
        invariant chunks == old(chunks)
        invariant retained + Dedup(chunks[i..], seen) == Dedup(chunks, {})
      {
        assert chunks[i..][1..] == chunks[i + 1..];
        if chunks[i].content !in seen {
          retained := retained + [chunks[i]];
          seen := seen + {chunks[i].content};
        }
      }
      chunks := retained;
    }

    method TruncateOversized() returns (panicked: bool)
      modifies this`chunks
      ensures Truncation(chunks, panicked) == TruncateAll(old(chunks))
    {
      hide TruncateChunk, TruncateAll;
      ghost var was := chunks;
      for i := 0 to |chunks|
        invariant |chunks| == |was| && chunks[i..] == was[i..]
        invariant TruncateAll(was) == Behind(chunks[..i], TruncateAll(was[i..]))
      {
        assert was[i..][0] == chunks[i] && was[i..][1..] == was[i + 1..];
        TruncateAllStep(was[i..]);
        var c := TruncateChunk(chunks[i]);
        if c.None? {
          assert chunks == chunks[..i] + was[i..];
          return true;
        }
        ghost var done := chunks[..i];
        chunks := chunks[i := c.value];
        assert chunks[..i + 1] == done + [c.value] && chunks[i + 1..] == was[i + 1..];
        assert chunks[..i + 1] + TruncateAll(was[i + 1..]).chunks
            == done + ([c.value] + TruncateAll(was[i + 1..]).chunks);
      }
      assert was[|was|..] == [] && chunks[..|was|] == chunks;
      TruncateNone();
      panicked := false;
    }

    /** De-duplicates, then truncates in place; `panicked` says that a cut fell inside a character. */
    method CompressChunks() returns (panicked: bool)
      modifies this`chunks
      ensures Truncation(chunks, panicked) == Compress(old(chunks))
    {
      Deduplicate();
      panicked := TruncateOversized();
    }
  }

  lemma WorstHigh(chunks: seq<Chunk>)
    requires chunks != [] && chunks[Worst(chunks)].priority == High
    ensures AllHigh(chunks)
  {
    forall c | c in chunks ensures c.priority == High {
      var k :| 0 <= k < |chunks| && chunks[k] == c;
      assert chunks[Worst(chunks)].priority.Rank() <= chunks[k].priority.Rank();
    }
  }
}
