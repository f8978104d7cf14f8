/** Every diagnostic of the bracket matcher, from which bracket goes with which (`scripts/ci/rs_static_check.py`,
    `check_delimiters`). */
module Pairing {
  import opened Delimiters

  // ---------------------------------------------------------------- which bracket goes with which

  predicate IsOpen(code: string, k: nat) { k < |code| && Classify(code[k]).Opening? }

  predicate IsClose(code: string, k: nat) { k < |code| && Classify(code[k]).Closing? }

  /** Opening bracket `o` stands before `c`, and no closing bracket before `c` goes with it. */
  ghost predicate Waiting(code: string, partner: map<nat, nat>, o: nat, c: nat) {
    o < c && IsOpen(code, o) && forall d :: d in partner && d < c ==> partner[d] != o
  }

  /** Closing bracket `c` goes with the nearest waiting opening bracket, of whatever kind, or with none when none
      waits. */
  ghost predicate Nearest(code: string, partner: map<nat, nat>, c: nat) {
    if c in partner then
      && Waiting(code, partner, partner[c], c)
      && forall o: nat :: Waiting(code, partner, o, c) ==> o <= partner[c]
    else forall o: nat :: !Waiting(code, partner, o, c)
  }

  /** `partner` gives for the closing brackets before `n` the opening bracket each goes with. */
  ghost predicate Paired(code: string, partner: map<nat, nat>, n: nat) {
    && (forall c :: c in partner ==> c < n && IsClose(code, c))
    && (forall c: nat :: c < n && IsClose(code, c) ==> Nearest(code, partner, c))
  }

  // ---------------------------------------------------------------- what is to be said about it

  function KindAt(code: string, k: nat): Kind
    requires IsOpen(code, k) || IsClose(code, k)
  {
    Classify(code[k]).kind
  }

  function MarkAt(code: string, o: nat): Mark
    requires IsOpen(code, o)
  {
    Mark(KindAt(code, o), LineAt(code, o))
  }

  ghost predicate PairsBrackets(code: string, partner: map<nat, nat>) {
    forall c :: c in partner ==> IsClose(code, c) && IsOpen(code, partner[c])
  }

  /** About a closing bracket: that it has no partner, or one of another kind. */
  ghost function AboutClosing(code: string, partner: map<nat, nat>, c: nat): seq<Diagnostic>
    requires PairsBrackets(code, partner) && IsClose(code, c)
  {
    if c !in partner then [Extra(KindAt(code, c), LineAt(code, c))]
    else if KindAt(code, partner[c]) != KindAt(code, c) then
      [Mismatch(KindAt(code, c), LineAt(code, c), MarkAt(code, partner[c]))]
    else []
  }

  /** About the closing brackets before `n`, in order. */
  ghost function AboutClosings(code: string, partner: map<nat, nat>, n: nat): seq<Diagnostic>
    requires PairsBrackets(code, partner) && n <= |code|
  {
    if n == 0 then []
    else AboutClosings(code, partner, n - 1) + if IsClose(code, n - 1) then AboutClosing(code, partner, n - 1) else []
  }

  /** About the opening brackets before `n` that no closing bracket goes with, in order. */
  ghost function AboutOpenings(code: string, partner: map<nat, nat>, n: nat): seq<Diagnostic>
    requires n <= |code|
  {
    if n == 0 then []
    else
      AboutOpenings(code, partner, n - 1)
      + if Waiting(code, partner, n - 1, |code|) then [Unclosed(MarkAt(code, n - 1))] else []
  }

  // ---------------------------------------------------------------- the pairing

  lemma PairedPairsBrackets(code: string, partner: map<nat, nat>, n: nat)
    requires Paired(code, partner, n)
    ensures PairsBrackets(code, partner)
  {
    forall c | c in partner ensures IsClose(code, c) && IsOpen(code, partner[c]) {
      assert Nearest(code, partner, c);
    }
  }

  /** No two closing brackets go with the same opening one, and no two pairs cross. */
  lemma PairsDoNotCross(code: string, partner: map<nat, nat>, n: nat, c: nat, d: nat)
    requires Paired(code, partner, n) && c in partner && d in partner && c < d
    ensures partner[c] < c && partner[d] < d && (partner[d] < partner[c] || c < partner[d])
  {
    assert Nearest(code, partner, c) && Nearest(code, partner, d);
    var o := partner[d];
    assert partner[c] != o;
    assert Waiting(code, partner, o, c) ==> o <= partner[c];
    assert IsOpen(code, o) && IsClose(code, c);
  }

  /** A text has one pairing. */
  lemma {:induction false} PairingUnique(code: string, p: map<nat, nat>, q: map<nat, nat>, n: nat, c: nat)
    requires Paired(code, p, n) && Paired(code, q, n)
    ensures (c in p <==> c in q) && (c in p ==> p[c] == q[c])
    decreases c
  {
    forall d: nat | d < c ensures (d in p <==> d in q) && (d in p ==> p[d] == q[d]) {
      PairingUnique(code, p, q, n, d);
    }
    if c < n && IsClose(code, c) {
      forall o: nat ensures Waiting(code, p, o, c) <==> Waiting(code, q, o, c) {
      }
      assert Nearest(code, p, c) && Nearest(code, q, c);
    }
  }

  // ---------------------------------------------------------------- the matcher finds it

  /** The stack holds the waiting opening brackets, and the diagnostics are those due so far. */
  ghost predicate Tracks(code: string, k: nat, partner: map<nat, nat>, open: seq<nat>, m: Matcher) {
    && k <= |code| && Paired(code, partner, k) && PairsBrackets(code, partner)
    && (forall i, j :: 0 <= i < j < |open| ==> open[i] < open[j])
    && (forall o: nat :: o in open <==> Waiting(code, partner, o, k))
    && |m.stack| == |open|
    && (forall i :: 0 <= i < |open| ==> IsOpen(code, open[i]) && m.stack[i] == MarkAt(code, open[i]))
    && m.line == LineAt(code, k) && m.errs == AboutClosings(code, partner, k)
  }

  /** A later pair changes nothing for the brackets before it. */
  lemma WaitingBefore(code: string, partner: map<nat, nat>, k: nat, p: nat, o: nat, c: nat)
    requires c <= k && k !in partner
    ensures Waiting(code, partner[k := p], o, c) <==> Waiting(code, partner, o, c)
  {
    var more := partner[k := p];
    assert forall d :: d < k ==> (d in more <==> d in partner) && (d in more ==> more[d] == partner[d]);
  }

  lemma PairedMore(code: string, partner: map<nat, nat>, k: nat, o: nat)
    requires Paired(code, partner, k) && IsClose(code, k)
    requires Waiting(code, partner, o, k) && forall x: nat :: Waiting(code, partner, x, k) ==> x <= o
    ensures Paired(code, partner[k := o], k + 1) && PairsBrackets(code, partner[k := o])
  {
    var more := partner[k := o];
    forall c: nat | c < k + 1 && IsClose(code, c) ensures Nearest(code, more, c) {
      forall x: nat ensures Waiting(code, more, x, c) <==> Waiting(code, partner, x, c) {
        WaitingBefore(code, partner, k, o, x, c);
      }
      if c < k { assert Nearest(code, partner, c); }
    }
    PairedPairsBrackets(code, more, k + 1);
  }

  lemma PairedOn(code: string, partner: map<nat, nat>, k: nat)
    requires Paired(code, partner, k) && (IsClose(code, k) ==> forall o: nat :: !Waiting(code, partner, o, k))
    ensures Paired(code, partner, k + 1)
  {
    forall c: nat | c < k + 1 && IsClose(code, c) ensures Nearest(code, partner, c) {
      if c < k { assert Nearest(code, partner, c); }
    }
  }

  lemma {:induction false} AboutClosingsKept(code: string, partner: map<nat, nat>, k: nat, o: nat, n: nat)
    requires PairsBrackets(code, partner) && PairsBrackets(code, partner[k := o]) && n <= k && n <= |code|
    ensures AboutClosings(code, partner[k := o], n) == AboutClosings(code, partner, n)
  {
    if n > 0 { AboutClosingsKept(code, partner, k, o, n - 1); }
  }

  /** Nothing that waits at `k` is `k` itself or later; at `k + 1` the bracket at `k` may wait too. */
  lemma WaitingOn(code: string, partner: map<nat, nat>, k: nat, o: nat)
    requires k !in partner && (forall c :: c in partner ==> c < k && IsOpen(code, partner[c]) && partner[c] < k)
    ensures Waiting(code, partner, o, k + 1) <==> Waiting(code, partner, o, k) || (o == k && IsOpen(code, k))
  {
  }

  lemma PartnersBefore(code: string, partner: map<nat, nat>, n: nat)
    requires Paired(code, partner, n)
    ensures forall c :: c in partner ==> c < n && IsOpen(code, partner[c]) && partner[c] < c
  {
    forall c | c in partner ensures c < n && IsOpen(code, partner[c]) && partner[c] < c {
      assert Nearest(code, partner, c);
    }
  }

  lemma StepOpens(code: string, k: nat, partner: map<nat, nat>, open: seq<nat>, m: Matcher)
    requires Tracks(code, k, partner, open, m) && IsOpen(code, k)
    ensures Tracks(code, k + 1, partner, open + [k], Step(m, code[k]))
  {
    hide Waiting, Nearest, AboutClosing, AboutClosings;
    var more := open + [k];
    PairedOn(code, partner, k);
    PartnersBefore(code, partner, k);
    WaitsBefore(code, partner, k);
    forall o: nat ensures o in more <==> Waiting(code, partner, o, k + 1) {
      WaitingOn(code, partner, k, o);
      assert o in more <==> o in open || o == k;
      assert o in open <==> Waiting(code, partner, o, k);
    }
    forall i | 0 <= i < |open| ensures open[i] < k {
      assert open[i] in open;
    }
    AboutClosingsOn(code, partner, k);
  }

  lemma WaitsBefore(code: string, partner: map<nat, nat>, k: nat)
    ensures forall o: nat :: Waiting(code, partner, o, k) ==> o < k && IsOpen(code, o)
  {
  }

  lemma AboutClosingsOn(code: string, partner: map<nat, nat>, k: nat)
    requires PairsBrackets(code, partner) && k < |code|
    ensures AboutClosings(code, partner, k + 1)
         == AboutClosings(code, partner, k) + if IsClose(code, k) then AboutClosing(code, partner, k) else []
  {
  }

  /** A closing bracket that finds nothing waiting, or no bracket at all. */
  lemma StepKeeps(code: string, k: nat, partner: map<nat, nat>, open: seq<nat>, m: Matcher)
    requires Tracks(code, k, partner, open, m) && k < |code| && !IsOpen(code, k) && (IsClose(code, k) ==> open == [])
    ensures Tracks(code, k + 1, partner, open, Step(m, code[k]))
  {
    hide Waiting, Nearest, AboutClosings;
    forall o: nat ensures IsClose(code, k) ==> !Waiting(code, partner, o, k) {
      assert o in open <==> Waiting(code, partner, o, k);
    }
    PairedOn(code, partner, k);
    PartnersBefore(code, partner, k);
    forall o: nat ensures o in open <==> Waiting(code, partner, o, k + 1) {
      WaitingOn(code, partner, k, o);
    }
    AboutClosingsOn(code, partner, k);
    assert AboutClosings(code, partner, k) + [] == AboutClosings(code, partner, k);
  }

  /** A closing bracket takes the last waiting one off the stack. */
  lemma StepCloses(code: string, k: nat, partner: map<nat, nat>, open: seq<nat>, m: Matcher)
    requires Tracks(code, k, partner, open, m) && IsClose(code, k) && open != []
    ensures var n := |open| - 1;
            Tracks(code, k + 1, partner[k := open[n]], open[..n], Step(m, code[k]))
  {
    hide Waiting, Nearest, AboutClosings;
    var n := |open| - 1;
    var o, left := open[n], open[..n];
    var more := partner[k := o];
    assert o in open;
    forall x: nat | Waiting(code, partner, x, k) ensures x <= o {
      assert x in open;
      var i :| 0 <= i < |open| && open[i] == x;
    }
    PartnersBefore(code, partner, k);
    PairedMore(code, partner, k, o);
    forall x: nat ensures x in left <==> Waiting(code, more, x, k + 1) {
      assert x in open <==> Waiting(code, partner, x, k);
      assert open == left + [o];
      PairTakes(code, partner, k, o, x);
    }
    AboutClosingsOn(code, more, k);
    AboutClosingsKept(code, partner, k, o, k);
    assert m.stack[n] == MarkAt(code, o);
    assert AboutClosings(code, partner, k) + [] == AboutClosings(code, partner, k);
  }

  /** With a new pair the opening bracket waits no longer, and the others as before. */
  lemma PairTakes(code: string, partner: map<nat, nat>, k: nat, o: nat, x: nat)
    requires k !in partner && IsClose(code, k) && forall c :: c in partner ==> c < k
    ensures Waiting(code, partner[k := o], x, k + 1) <==> Waiting(code, partner, x, k) && x != o
  {
    var more := partner[k := o];
    assert forall d :: d in partner ==> d in more && more[d] == partner[d];
    assert more[k] == o;
  }

  lemma {:induction false} RunTracks(code: string, k: nat, partner: map<nat, nat>, open: seq<nat>, m: Matcher)
    returns (all: map<nat, nat>, left: seq<nat>)
    requires Tracks(code, k, partner, open, m)
    ensures Tracks(code, |code|, all, left, Run(m, code[k..]))
    decreases |code| - k
  {
    hide Tracks, Step;
    all, left := partner, open;
    if k < |code| {
      assert code[k..][0] == code[k] && code[k..][1..] == code[k + 1..];
      var next := Step(m, code[k]);
      if IsOpen(code, k) {
        StepOpens(code, k, partner, open, m);
        all, left := RunTracks(code, k + 1, partner, open + [k], next);
      } else if IsClose(code, k) && open != [] {
        StepCloses(code, k, partner, open, m);
        all, left := RunTracks(code, k + 1, partner[k := open[|open| - 1]], open[..|open| - 1], next);
      } else {
        StepKeeps(code, k, partner, open, m);
        all, left := RunTracks(code, k + 1, partner, open, next);
      }
    } else {
      TracksToEnd(code, k, partner, open, m);
    }
  }

  lemma TracksToEnd(code: string, k: nat, partner: map<nat, nat>, open: seq<nat>, m: Matcher)
    requires Tracks(code, k, partner, open, m) && k >= |code|
    ensures k == |code| && code[k..] == ""
  {
  }

  /** `open` lists, in order, the opening brackets before `n` that no closing bracket goes with. */
  ghost predicate Lists(code: string, partner: map<nat, nat>, open: seq<nat>, n: nat) {
    && Ascending(open, n)
    && (forall o: nat :: o in open <==> o < n && Waiting(code, partner, o, |code|))
  }

  predicate Ascending(open: seq<nat>, n: nat) {
    && (forall i :: 0 <= i < |open| ==> open[i] < n)
    && (forall i, j :: 0 <= i < j < |open| ==> open[i] < open[j])
  }

  lemma {:induction false} AscendingIsShort(open: seq<nat>, n: nat)
    requires Ascending(open, n)
    ensures |open| <= n
    decreases |open|
  {
    if open != [] { AscendingIsShort(open[..|open| - 1], open[|open| - 1]); }
  }

  lemma TopIsLast(open: seq<nat>, n: nat)
    requires Ascending(open, n) && n > 0 && n - 1 in open
    ensures open != [] && open[|open| - 1] == n - 1
    ensures Ascending(open[..|open| - 1], n - 1)
    ensures forall o: nat :: o in open[..|open| - 1] <==> o in open && o < n - 1
  {
    var last := |open| - 1;
    var i :| 0 <= i < |open| && open[i] == n - 1;
    assert open[last] == n - 1;
    assert open == open[..last] + [n - 1];
  }

  lemma TopIsMissing(open: seq<nat>, n: nat)
    requires Ascending(open, n) && n > 0 && n - 1 !in open
    ensures Ascending(open, n - 1)
  {
    assert forall k :: 0 <= k < |open| ==> open[k] in open;
  }

  lemma ListsOneLess(code: string, partner: map<nat, nat>, open: seq<nat>, n: nat)
    requires n > 0 && Lists(code, partner, open, n)
    ensures if Waiting(code, partner, n - 1, |code|) then
              open != [] && open[|open| - 1] == n - 1 && Lists(code, partner, open[..|open| - 1], n - 1)
            else Lists(code, partner, open, n - 1)
  {
    hide Waiting, Ascending;
    assert n - 1 in open <==> Waiting(code, partner, n - 1, |code|);
    if Waiting(code, partner, n - 1, |code|) {
      TopIsLast(open, n);
    } else {
      TopIsMissing(open, n);
    }
  }

  /** What waits at the end is left over, in order. */
  lemma {:induction false} LeftoverIsAboutOpenings(code: string, partner: map<nat, nat>, open: seq<nat>,
                                                   stack: seq<Mark>, n: nat)
    requires n <= |code| && Lists(code, partner, open, n) && |stack| == |open|
    requires forall i :: 0 <= i < |open| ==> IsOpen(code, open[i]) && stack[i] == MarkAt(code, open[i])
    ensures Leftover(stack) == AboutOpenings(code, partner, n)
  {
    hide Waiting, Lists, MarkAt, IsOpen;
    if n == 0 {
      NothingListed(code, partner, open);
    } else {
      ListsOneLess(code, partner, open, n);
      if Waiting(code, partner, n - 1, |code|) {
        var last := |open| - 1;
        LeftoverIsAboutOpenings(code, partner, open[..last], stack[..last], n - 1);
        assert Leftover(stack) == Leftover(stack[..last]) + [Unclosed(stack[last])];
      } else {
        LeftoverIsAboutOpenings(code, partner, open, stack, n - 1);
        assert AboutOpenings(code, partner, n - 1) + [] == AboutOpenings(code, partner, n - 1);
      }
    }
  }

  lemma NothingListed(code: string, partner: map<nat, nat>, open: seq<nat>)
    requires Lists(code, partner, open, 0)
    ensures open == []
  {
    AscendingIsShort(open, 0);
  }

  /** A pairing of all closing brackets, the only one, and the diagnostics in full: one for each closing bracket without
      a partner or with one of another kind, in the order of the text, then one for each opening bracket no closing one
      goes with. */
  lemma CheckReportsPairing(code: string) returns (partner: map<nat, nat>)
    ensures Paired(code, partner, |code|) && PairsBrackets(code, partner)
    ensures forall other :: Paired(code, other, |code|) ==> other == partner
    ensures Check(code) == AboutClosings(code, partner, |code|) + AboutOpenings(code, partner, |code|)
  {
    hide Paired, AboutClosings, AboutOpenings, Run, Waiting;
    var start := Matcher([], 1, []);
    StartTracks(code);
    var open;
    partner, open := RunTracks(code, 0, map[], [], start);
    assert code[0..] == code;
    var m := Run(start, code);
    WaitsBefore(code, partner, |code|);
    assert forall i :: 0 <= i < |open| ==> open[i] in open;
    LeftoverIsAboutOpenings(code, partner, open, m.stack, |code|);
    forall other | Paired(code, other, |code|) ensures other == partner {
      forall c: nat ensures (c in other <==> c in partner) && (c in other ==> other[c] == partner[c]) {
        PairingUnique(code, other, partner, |code|, c);
      }
    }
  }

  lemma StartTracks(code: string)
    ensures Tracks(code, 0, map[], [], Matcher([], 1, []))
  {
  }
}
