/** Finding the last boxed answer in a solution, and taking the box off. */
module BoxedAnswer {
  import opened Wrappers

  function Boxed(): string {
    "\\boxed"
  }

  function BoxedSpace(): string {
    "\\boxed "
  }

  function BoxedBrace(): string {
    "\\boxed{"
  }

  function Fbox(): string {
    "\\fbox"
  }

  predicate MatchAt(s: string, sub: string, i: nat) {
    i + |sub| <= |s| && s[i..i + |sub|] == sub
  }

  /** `s[: k + 1].rfind(sub)` for matches that start at `k` or before. */
  function RFindUpTo(s: string, sub: string, k: nat): Option<nat> {
    if MatchAt(s, sub, k) then Some(k)
    else if k == 0 then None
    else RFindUpTo(s, sub, k - 1)
  }

  function RFind(s: string, sub: string): Option<nat> {
    RFindUpTo(s, sub, |s|)
  }

  predicate Contains(s: string, sub: string) {
    RFind(s, sub).Some?
  }

  lemma {:induction false} RFindUpToIs(s: string, sub: string, k: nat)
    ensures var r := RFindUpTo(s, sub, k);
      && (r.Some? ==> r.value <= k && MatchAt(s, sub, r.value) && forall i: nat :: r.value < i <= k ==> !MatchAt(s, sub, i))
      && (r.None? ==> forall i: nat :: i <= k ==> !MatchAt(s, sub, i))
  {
    if !MatchAt(s, sub, k) && k > 0 {
      RFindUpToIs(s, sub, k - 1);
    }
  }

  /** The last match and no other. */
  lemma RFindIff(s: string, sub: string, i: nat)
    ensures RFind(s, sub) == Some(i) <==> MatchAt(s, sub, i) && forall k: nat :: i < k ==> !MatchAt(s, sub, k)
    ensures RFind(s, sub) == None <==> forall k: nat :: !MatchAt(s, sub, k)
  {
    RFindUpToIs(s, sub, |s|);
  }

  /** `s.split(c)[0]` */
  function Before(s: string, c: char): string {
    if s == [] || s[0] == c then [] else [s[0]] + Before(s[1..], c)
  }

  // ----- last_boxed_only_string

  function Opens(c: char): int {
    if c == '{' then 1 else if c == '}' then -1 else 0
  }

  /** The first closing brace, from `i` on, that brings the counter to 0. */
  function Close(s: string, i: nat, open: int): Option<nat>
    decreases |s| - i
  {
    if i >= |s| then None
    else if s[i] == '}' && open - 1 == 0 then Some(i)
    else Close(s, i + 1, open + Opens(s[i]))
  }

  /** What is found from `idx` on: up to the brace that closes the first one opened. */
  function Scan(s: string, idx: nat): Option<string>
    requires idx <= |s|
  {
    var e := Close(s, idx, 0);
    CloseRange(s, idx, 0);
    if e.None? then None else Some(s[idx..e.value + 1])
  }

  lemma {:induction false} CloseRange(s: string, i: nat, open: int)
    ensures Close(s, i, open).Some? ==> i <= Close(s, i, open).value < |s|
    decreases |s| - i
  {
    if i < |s| {
      CloseRange(s, i + 1, open + Opens(s[i]));
    }
  }

  function LastBoxed(s: string): Option<string> {
    var space := RFind(s, BoxedSpace());
    var boxed := RFind(s, Boxed());
    var fbox := RFind(s, Fbox());
    RFindIff(s, BoxedSpace(), if space.Some? then space.value else 0);
    RFindIff(s, Boxed(), if boxed.Some? then boxed.value else 0);
    RFindIff(s, Fbox(), if fbox.Some? then fbox.value else 0);
    if space.Some? then Some(BoxedSpace() + Before(s[space.value + |BoxedSpace()|..], '$'))
    else if boxed.Some? then Scan(s, boxed.value)
    else if fbox.Some? then Scan(s, fbox.value)
    else None
  }

  method LastBoxedOnlyString(s: string) returns (r: Option<string>)
    ensures IsFound(s, r)
    ensures r == LastBoxed(s)
  {
    LastBoxedFinds(s);
    hide IsFound;
    hide RFind, Contains;
    var space, idx := RFind(s, BoxedSpace()), RFind(s, Boxed());
    RFindIff(s, BoxedSpace(), if space.Some? then space.value else 0);
    if space.Some? {
      return Some(BoxedSpace() + Before(s[space.value + |BoxedSpace()|..], '$'));
    }
    RFindIff(s, Boxed(), if idx.Some? then idx.value else 0);
    if idx.None? {
      idx := RFind(s, Fbox());
      RFindIff(s, Fbox(), if idx.Some? then idx.value else 0);
      if idx.None? {
        return None;
      }
    }
    r := ScanBraces(s, idx.value);
  }

  /** The loop over the braces. */
  method ScanBraces(s: string, idx: nat) returns (r: Option<string>)
    requires idx <= |s|
    ensures r == Scan(s, idx)
  {
    var i := idx;
    var rightBrace: Option<nat> := None;
    var open := 0;
    while i < |s|
      invariant idx <= i <= |s| && Close(s, i, open) == Close(s, idx, 0)
    {
      if s[i] == '{' {
        open := open + 1;
      }
      if s[i] == '}' {
        open := open - 1;
        if open == 0 {
          return Some(s[idx..i + 1]);
        }
      }
      i := i + 1;
    }
    r := None;
  }

  // ----- remove_boxed

  /** `Failure` stands for a failing assertion. */
  function RemoveBoxed(s: string): Result<string> {
    if Contains(s, BoxedSpace()) then
      if BoxedSpace() <= s then Success(s[|BoxedSpace()|..]) else Failure
    else if BoxedBrace() <= s && s[|s| - 1] == '}' then Success(s[|BoxedBrace()|..|s| - 1])
    else Failure
  }

  // ----- what is found

  function Depth(s: string): int {
    if s == [] then 0 else Depth(s[..|s| - 1]) + Opens(s[|s| - 1])
  }

  /** As many braces closed as opened, and never more closed than opened. */
  ghost predicate Balanced(s: string) {
    Depth(s) == 0 && forall k :: 0 <= k <= |s| ==> Depth(s[..k]) >= 0
  }

  lemma {:induction false} DepthConcat(a: string, b: string)
    ensures Depth(a + b) == Depth(a) + Depth(b)
  {
    if b == [] {
      assert a + b == a;
    } else {
      assert (a + b)[..|a + b| - 1] == a + b[..|b| - 1];
      DepthConcat(a, b[..|b| - 1]);
    }
  }

  lemma DepthOne(c: char)
    ensures Depth([c]) == Opens(c)
  {
    assert [c][..0] == [];
  }

  /** The counter behind position `k`, counting from `i`. */
  function DepthThrough(s: string, i: nat, k: nat): int
    requires i <= k < |s|
  {
    Depth(s[i..k + 1])
  }

  /** Closing position `e` from `i` on: the counter is 0 there, and at no closing brace before. */
  ghost predicate ClosesAt(s: string, i: nat, open: int, e: nat) {
    && i <= e < |s| && s[e] == '}' && open + DepthThrough(s, i, e) == 0
    && forall k :: i <= k < e && s[k] == '}' ==> open + DepthThrough(s, i, k) != 0
  }

  lemma DepthCons(s: string, i: nat, k: nat)
    requires i <= k < |s|
    ensures DepthThrough(s, i, k) == Opens(s[i]) + if k == i then 0 else DepthThrough(s, i + 1, k)
  {
    assert s[i..k + 1] == [s[i]] + s[i + 1..k + 1];
    DepthConcat([s[i]], s[i + 1..k + 1]);
    DepthOne(s[i]);
    if k == i {
      assert s[i + 1..k + 1] == [];
    }
  }

  lemma {:induction false} CloseIff(s: string, i: nat, open: int, e: nat)
    ensures Close(s, i, open) == Some(e) <==> ClosesAt(s, i, open, e)
    decreases |s| - i
  {
    if i < |s| {
      CloseIff(s, i + 1, open + Opens(s[i]), e);
      forall k | i <= k < |s|
        ensures DepthThrough(s, i, k) == Opens(s[i]) + if k == i then 0 else DepthThrough(s, i + 1, k)
      {
        DepthCons(s, i, k);
      }
      hide DepthThrough;
    }
  }

  /** A solution with a boxed answer. */
  function Solution(pre: string, answer: string, post: string): string {
    pre + BoxedBrace() + answer + "}" + post
  }

  lemma {:induction false} DepthWithoutBraces(s: string)
    requires '{' !in s && '}' !in s
    ensures Depth(s) == 0
  {
    if s != [] {
      DepthWithoutBraces(s[..|s| - 1]);
    }
  }

  lemma BoxedBraceDepth()
    ensures |BoxedBrace()| == 7 && Depth(BoxedBrace()) == 1 && '}' !in BoxedBrace()
  {
    assert BoxedBrace() == Boxed() + "{";
    DepthWithoutBraces(Boxed());
    DepthOne('{');
    DepthConcat(Boxed(), "{");
  }

  /** Inside the box the counter is one more than in the answer. */
  lemma CounterInBox(pre: string, a: string, post: string, k: nat)
    requires k < |a|
    ensures |Solution(pre, a, post)| == |pre| + 7 + |a| + 1 + |post|
    ensures Solution(pre, a, post)[|pre| + 7 + k] == a[k]
    ensures DepthThrough(Solution(pre, a, post), |pre|, |pre| + 7 + k) == 1 + Depth(a[..k + 1])
  {
    hide BoxedBrace, Depth;
    BoxedBraceDepth();
    var s := Solution(pre, a, post);
    assert s[|pre|..|pre| + 7 + k + 1] == BoxedBrace() + a[..k + 1];
    DepthConcat(BoxedBrace(), a[..k + 1]);
  }

  lemma CounterAtEnd(pre: string, a: string, post: string)
    ensures |Solution(pre, a, post)| == |pre| + 7 + |a| + 1 + |post|
    ensures Solution(pre, a, post)[|pre| + 7 + |a|] == '}'
    ensures DepthThrough(Solution(pre, a, post), |pre|, |pre| + 7 + |a|) == Depth(a)
  {
    hide BoxedBrace, Depth;
    BoxedBraceDepth();
    var s := Solution(pre, a, post);
    assert s[|pre|..|pre| + 7 + |a| + 1] == BoxedBrace() + a + "}";
    DepthConcat(BoxedBrace() + a, "}");
    DepthConcat(BoxedBrace(), a);
    DepthOne('}');
  }

  lemma BeforeBox(pre: string, a: string, post: string, k: nat)
    requires |pre| <= k < |pre| + 7
    ensures |Solution(pre, a, post)| == |pre| + 7 + |a| + 1 + |post|
    ensures Solution(pre, a, post)[k] != '}'
  {
    BoxedBraceDepth();
    assert Solution(pre, a, post)[k] == BoxedBrace()[k - |pre|];
  }

  lemma BalancedCloses(pre: string, a: string, post: string)
    requires Balanced(a)
    ensures ClosesAt(Solution(pre, a, post), |pre|, 0, |pre| + 7 + |a|)
  {
    CounterAtEnd(pre, a, post);
    hide DepthThrough, Depth, Solution;
    var s := Solution(pre, a, post);
    forall k | |pre| <= k < |pre| + 7 + |a| && s[k] == '}'
      ensures DepthThrough(s, |pre|, k) != 0
    {
      if k < |pre| + 7 {
        BeforeBox(pre, a, post, k);
      } else {
        CounterInBox(pre, a, post, k - |pre| - 7);
        assert Depth(a[..k - |pre| - 7 + 1]) >= 0;
      }
    }
  }

  lemma {:induction false} NeverNegative(pre: string, a: string, post: string, n: nat)
    requires ClosesAt(Solution(pre, a, post), |pre|, 0, |pre| + 7 + |a|) && n <= |a|
    ensures forall k :: 0 <= k <= n ==> Depth(a[..k]) >= 0
  {
    if n > 0 {
      NeverNegative(pre, a, post, n - 1);
      CounterInBox(pre, a, post, n - 1);
      hide DepthThrough, Solution;
      assert a[..n][..n - 1] == a[..n - 1];
    }
  }

  /** The scan ends right behind the answer if and only if the answer is balanced. */
  lemma ScanIff(pre: string, a: string, post: string)
    ensures Close(Solution(pre, a, post), |pre|, 0) == Some(|pre| + 7 + |a|) <==> Balanced(a)
  {
    hide Close, Solution, DepthThrough, Depth;
    CloseIff(Solution(pre, a, post), |pre|, 0, |pre| + 7 + |a|);
    if Balanced(a) {
      BalancedCloses(pre, a, post);
    } else if ClosesAt(Solution(pre, a, post), |pre|, 0, |pre| + 7 + |a|) {
      CounterAtEnd(pre, a, post);
      NeverNegative(pre, a, post, |a|);
    }
  }

  /**
   * For an answer whose box is the last one, with no box written `\boxed ` anywhere: extracting finds
   * exactly the boxed answer if and only if it is balanced, and unwrapping gives the answer back.
   */
  lemma UnboxIff(pre: string, a: string, post: string)
    requires RFind(Solution(pre, a, post), Boxed()) == Some(|pre|) && !Contains(Solution(pre, a, post), BoxedSpace())
    ensures LastBoxed(Solution(pre, a, post)) == Some(BoxedBrace() + a + "}") <==> Balanced(a)
    ensures RemoveBoxed(BoxedBrace() + a + "}") == Success(a)
  {
    ScanIff(pre, a, post);
    BoxHasNoSpace(pre, a, post);
    FoundIs(pre, a, post);
    hide RFind, RemoveBoxed, Close, Balanced, Solution, Scan;
  }

  lemma FoundIs(pre: string, a: string, post: string)
    ensures |pre| <= |Solution(pre, a, post)|
    ensures Scan(Solution(pre, a, post), |pre|) == Some(BoxedBrace() + a + "}")
       <==> Close(Solution(pre, a, post), |pre|, 0) == Some(|pre| + 7 + |a|)
  {
    var s := Solution(pre, a, post);
    assert s[|pre|..|pre| + 7 + |a| + 1] == BoxedBrace() + a + "}";
    CloseRange(s, |pre|, 0);
    hide Close, BoxedBrace;
    BoxedBraceDepth();
    var e := Close(s, |pre|, 0);
    if e.Some? {
      assert |s[|pre|..e.value + 1]| == e.value + 1 - |pre|;
    }
  }

  lemma BoxHasNoSpace(pre: string, a: string, post: string)
    requires !Contains(Solution(pre, a, post), BoxedSpace())
    ensures !Contains(BoxedBrace() + a + "}", BoxedSpace())
    ensures RemoveBoxed(BoxedBrace() + a + "}") == Success(a)
  {
    var s, box := Solution(pre, a, post), BoxedBrace() + a + "}";
    RFindIff(s, BoxedSpace(), 0);
    RFindIff(box, BoxedSpace(), 0);
    forall k: nat
      ensures !MatchAt(box, BoxedSpace(), k)
    {
      if k + 7 <= |box| {
        assert s[|pre| + k..|pre| + k + 7] == box[k..k + 7];
        assert !MatchAt(s, BoxedSpace(), |pre| + k);
      }
    }
    assert box[..7] == BoxedBrace() && box[7..|box| - 1] == a;
  }

  lemma {:induction false} BeforeIs(a: string, c: char, rest: string)
    requires c !in a
    ensures Before(a + [c] + rest, c) == a
  {
    if a != [] {
      assert (a + [c] + rest)[1..] == a[1..] + [c] + rest;
      BeforeIs(a[1..], c, rest);
    }
  }

  /** The other notation, `$\boxed a$`: the answer ends at the next dollar sign. */
  lemma UnboxWithSpace(pre: string, a: string, post: string)
    requires '$' !in a
    requires RFind(pre + BoxedSpace() + a + "$" + post, BoxedSpace()) == Some(|pre|)
    ensures LastBoxed(pre + BoxedSpace() + a + "$" + post) == Some(BoxedSpace() + a)
    ensures RemoveBoxed(BoxedSpace() + a) == Success(a)
  {
    var s, box := pre + BoxedSpace() + a + "$" + post, BoxedSpace() + a;
    assert s[|pre| + 7..] == a + "$" + post;
    BeforeIs(a, '$', post);
    RFindIff(box, BoxedSpace(), 0);
    assert MatchAt(box, BoxedSpace(), 0);
  }

  /** A box found through `\fbox` cannot be unwrapped. */
  lemma FboxStaysBoxed(s: string)
    requires !Contains(s, Boxed()) && Contains(s, Fbox()) && LastBoxed(s).Some?
    ensures RemoveBoxed(LastBoxed(s).value).Failure?
  {
    var idx := RFind(s, Fbox()).value;
    RFindIff(s, Fbox(), idx);
    NoBoxedNoSpace(s);
    var found := LastBoxed(s).value;
    CloseRange(s, idx, 0);
    var e := Close(s, idx, 0).value;
    assert found == s[idx..e + 1];
    assert s[idx..idx + 5] == Fbox();
    assert s[idx + 1] == s[idx..idx + 5][1] == 'f';
    NotABox(found);
  }

  lemma NotABox(s: string)
    requires |s| >= 2 ==> s[1] == 'f'
    ensures !(BoxedBrace() <= s) && !(BoxedSpace() <= s)
  {
    assert BoxedBrace()[1] == 'b' && BoxedSpace()[1] == 'b';
  }

  lemma NoBoxedNoSpace(s: string)
    requires !Contains(s, Boxed())
    ensures !Contains(s, BoxedSpace())
  {
    RFindIff(s, Boxed(), 0);
    RFindIff(s, BoxedSpace(), 0);
    forall k: nat
      ensures !MatchAt(s, BoxedSpace(), k)
    {
      assert !MatchAt(s, Boxed(), k);
      if k + 7 <= |s| {
        assert s[k..k + 6] == s[k..k + 7][..6];
      }
    }
  }

  // ----- what is found, on every text

  ghost predicate IsLast(s: string, sub: string, i: nat) {
    MatchAt(s, sub, i) && forall k: nat :: i < k ==> !MatchAt(s, sub, k)
  }

  ghost predicate Occurs(s: string, sub: string) {
    exists i: nat :: IsLast(s, sub, i)
  }

  /** `t` is `s` up to the first `c`, or all of it when there is none. */
  predicate IsBefore(s: string, c: char, t: string) {
    t <= s && c !in t && (t == s || s[|t|] == c)
  }

  /** From `i` to the brace that closes the first one opened, if there is such a brace. */
  ghost predicate IsScan(s: string, i: nat, r: Option<string>) {
    if exists e :: ClosesAt(s, i, 0, e) then exists e :: ClosesAt(s, i, 0, e) && r == Some(s[i..e + 1]) else r == None
  }

  ghost predicate IsSpaced(s: string, r: Option<string>) {
    exists i: nat, t: string ::
      IsLast(s, "\\boxed ", i) && i + 7 <= |s| && IsBefore(s[i + 7..], '$', t) && r == Some("\\boxed " + t)
  }

  /** The last box with a space up to the next dollar sign; else the last `\boxed`, else the last `\fbox`, scanned. */
  ghost predicate IsFound(s: string, r: Option<string>) {
    if Occurs(s, "\\boxed ") then IsSpaced(s, r)
    else if Occurs(s, "\\boxed") then exists i: nat :: IsLast(s, "\\boxed", i) && IsScan(s, i, r)
    else if Occurs(s, "\\fbox") then exists i: nat :: IsLast(s, "\\fbox", i) && IsScan(s, i, r)
    else r == None
  }

  lemma OccursIff(s: string, sub: string)
    ensures Occurs(s, sub) <==> Contains(s, sub)
    ensures Contains(s, sub) ==> IsLast(s, sub, RFind(s, sub).value)
  {
    hide RFind;
    if Contains(s, sub) {
      RFindIff(s, sub, RFind(s, sub).value);
      assert IsLast(s, sub, RFind(s, sub).value);
    } else {
      RFindIff(s, sub, 0);
    }
  }

  lemma {:induction false} BeforeLaw(s: string, c: char)
    ensures IsBefore(s, c, Before(s, c))
  {
    if s != "" && s[0] != c {
      BeforeLaw(s[1..], c);
      assert s == [s[0]] + s[1..];
    }
  }

  lemma ScanIs(s: string, i: nat)
    requires i <= |s|
    ensures IsScan(s, i, Scan(s, i))
  {
    hide Close, ClosesAt;
    CloseRange(s, i, 0);
    forall e: nat
      ensures Close(s, i, 0) == Some(e) <==> ClosesAt(s, i, 0, e)
    {
      CloseIff(s, i, 0, e);
    }
  }

  lemma LastBoxedFinds(s: string)
    ensures IsFound(s, LastBoxed(s))
  {
    hide RFind, Scan, Before, IsLast, Occurs, IsScan, IsBefore, MatchAt;
    OccursIff(s, BoxedSpace());
    OccursIff(s, Boxed());
    OccursIff(s, Fbox());
    if Contains(s, BoxedSpace()) {
      var i := RFind(s, BoxedSpace()).value;
      MatchBounds(s, BoxedSpace(), i);
      BeforeLaw(s[i + 7..], '$');
    } else if Contains(s, Boxed()) {
      MatchBounds(s, Boxed(), RFind(s, Boxed()).value);
      ScanIs(s, RFind(s, Boxed()).value);
    } else if Contains(s, Fbox()) {
      MatchBounds(s, Fbox(), RFind(s, Fbox()).value);
      ScanIs(s, RFind(s, Fbox()).value);
    }
  }

  lemma MatchBounds(s: string, sub: string, i: nat)
    requires IsLast(s, sub, i)
    ensures i + |sub| <= |s|
  {
  }

  /** What unwrapping accepts, and what it gives. */
  lemma RemovesIff(s: string, a: string)
    ensures RemoveBoxed(s) == Success(a) <==>
      s == "\\boxed " + a || (!Contains(s, "\\boxed ") && s == "\\boxed{" + a + "}")
  {
    RFindIff(s, BoxedSpace(), 0);
    if s == BoxedSpace() + a {
      assert MatchAt(s, BoxedSpace(), 0);
    }
    if BoxedBrace() <= s && s[|s| - 1] == '}' {
      LongEnough(s);
      assert s == BoxedBrace() + s[7..|s| - 1] + "}";
    }
    if s == BoxedBrace() + a + "}" {
      assert s[7..|s| - 1] == a;
    }
  }

  lemma LongEnough(s: string)
    requires BoxedBrace() <= s && s[|s| - 1] == '}'
    ensures |s| >= 8
  {
    assert BoxedBrace()[6] == '{';
  }

  // ----- when unwrapping succeeds

  /** With the space the box itself is put in front of what follows, so it always unwraps. */
  lemma SpaceUnwraps(rest: string)
    ensures RemoveBoxed(BoxedSpace() + rest).Success?
  {
    RFindIff(BoxedSpace() + rest, BoxedSpace(), 0);
    assert MatchAt(BoxedSpace() + rest, BoxedSpace(), 0);
  }

  /** A part of a text has no `\boxed ` when the text has none. */
  lemma PartHasNoSpace(s: string, from: nat, to: nat)
    requires from <= to <= |s| && !Contains(s, BoxedSpace())
    ensures !Contains(s[from..to], BoxedSpace())
  {
    RFindIff(s, BoxedSpace(), 0);
    RFindIff(s[from..to], BoxedSpace(), 0);
    forall k: nat
      ensures !MatchAt(s[from..to], BoxedSpace(), k)
    {
      assert !MatchAt(s, BoxedSpace(), from + k);
      if k + 7 <= to - from {
        SliceOfSlice(s, from, to, k, k + 7);
      }
    }
  }

  /** A scan that starts at `\boxed{` ends behind the brace. */
  lemma ScanKeepsBrace(s: string, idx: nat, e: nat)
    requires idx <= e < |s| && s[e] == '}'
    ensures BoxedBrace() <= s[idx..e + 1] <==> MatchAt(s, BoxedBrace(), idx)
  {
    BoxedBraceDepth();
    hide BoxedBrace;
    if e < idx + 7 {
      MatchChar(s, BoxedBrace(), idx, e - idx);
      assert |s[idx..e + 1]| >= 7 ==> e - idx == 6;
    }
    if idx + 7 <= e + 1 {
      SliceOfSlice(s, idx, e + 1, 0, 7);
    }
  }

  lemma SliceOfSlice(s: string, a: nat, b: nat, from: nat, to: nat)
    requires a <= b <= |s| && from <= to <= b - a
    ensures s[a..b][from..to] == s[a + from..a + to]
  {
    var l, r := s[a..b][from..to], s[a + from..a + to];
    assert |l| == |r| == to - from;
    assert forall k :: 0 <= k < |l| ==> l[k] == s[a..b][from + k] && r[k] == s[a + from + k];
    assert l == r;
  }

  lemma MatchChar(s: string, sub: string, i: nat, j: nat)
    requires j < |sub|
    ensures MatchAt(s, sub, i) ==> i + j < |s| && s[i + j] == sub[j]
  {
    if i + |sub| <= |s| {
      assert s[i..i + |sub|][j] == s[i + j];
    }
  }

  /** What a scan finds unwraps if and only if a brace follows the box directly. */
  lemma ScannedUnwrapsIff(s: string, idx: nat)
    requires idx <= |s| && Scan(s, idx).Some? && !Contains(s, BoxedSpace())
    ensures RemoveBoxed(Scan(s, idx).value).Success? <==> MatchAt(s, BoxedBrace(), idx)
  {
    CloseRange(s, idx, 0);
    var e := Close(s, idx, 0).value;
    CloseIff(s, idx, 0, e);
    PartHasNoSpace(s, idx, e + 1);
    ScanKeepsBrace(s, idx, e);
    hide Close, BoxedBrace, BoxedSpace, MatchAt;
    assert s[idx..e + 1][|s[idx..e + 1]| - 1] == '}';
  }

  /** The text that is extracted unwraps exactly when this holds of the solution. */
  predicate Unwrappable(s: string) {
    Contains(s, BoxedSpace()) || (Contains(s, Boxed()) && MatchAt(s, BoxedBrace(), RFind(s, Boxed()).value))
  }

  /**
   * For every solution in which a box is found: it can be unwrapped if and only if some box is written
   * `\boxed `, or a brace follows the last `\boxed` directly.
   */
  lemma UnwrapsIff(s: string)
    requires LastBoxed(s).Some?
    ensures RemoveBoxed(LastBoxed(s).value).Success? <==> Unwrappable(s)
  {
    hide RFind, RemoveBoxed, Scan, Before;
    if Contains(s, BoxedSpace()) {
      var at := RFind(s, BoxedSpace()).value;
      RFindIff(s, BoxedSpace(), at);
      SpaceUnwraps(Before(s[at + |BoxedSpace()|..], '$'));
    } else if Contains(s, Boxed()) {
      var at := RFind(s, Boxed()).value;
      RFindIff(s, Boxed(), at);
      ScannedUnwrapsIff(s, at);
    } else {
      FboxStaysBoxed(s);
    }
  }

  lemma {:induction false} CloseSkips(s: string, i: nat, n: nat, open: int)
    requires i + n <= |s| && forall k :: i <= k < i + n ==> s[k] != '{' && s[k] != '}'
    ensures Close(s, i, open) == Close(s, i + n, open)
    decreases n
  {
    if n > 0 {
      CloseSkips(s, i + 1, n - 1, open);
    }
  }

  /** `\fbox{x}` is found but does not unwrap. */
  lemma FboxInput()
    ensures LastBoxed("\\fbox{x}") == Some("\\fbox{x}") && RemoveBoxed("\\fbox{x}").Failure?
  {
    var s := "\\fbox{x}";
    forall k: nat
      ensures !MatchAt(s, Boxed(), k) && (k > 0 ==> !MatchAt(s, Fbox(), k))
    {
      MatchChar(s, Boxed(), k, 0);
      MatchChar(s, Boxed(), k, 1);
      MatchChar(s, Fbox(), k, 0);
    }
    assert MatchAt(s, Fbox(), 0);
    RFindIff(s, Boxed(), 0);
    RFindIff(s, Fbox(), 0);
    NoBoxedNoSpace(s);
    CloseSkips(s, 0, 5, 0);
    CloseSkips(s, 6, 1, 1);
    assert Close(s, 0, 0) == Some(7) && s[0..8] == s;
    hide RFind, RemoveBoxed;
    FboxStaysBoxed(s);
  }

  function Frac(): string {
    "\\boxed\\frac{1}{2}"
  }

  lemma FracMatches()
    ensures RFind(Frac(), BoxedSpace()) == None && RFind(Frac(), Boxed()) == Some(0)
    ensures !MatchAt(Frac(), BoxedBrace(), 0)
  {
    var s := Frac();
    forall k: nat
      ensures !MatchAt(s, BoxedSpace(), k) && (k > 0 ==> !MatchAt(s, Boxed(), k))
    {
      MatchChar(s, BoxedSpace(), k, 0);
      MatchChar(s, BoxedSpace(), k, 1);
      MatchChar(s, BoxedSpace(), k, 6);
      MatchChar(s, Boxed(), k, 0);
      MatchChar(s, Boxed(), k, 1);
    }
    assert MatchAt(s, Boxed(), 0);
    RFindIff(s, BoxedSpace(), 0);
    RFindIff(s, Boxed(), 0);
    MatchChar(s, BoxedBrace(), 0, 6);
  }

  lemma FracScan()
    ensures Scan(Frac(), 0) == Some("\\boxed\\frac{1}")
  {
    var s := Frac();
    CloseSkips(s, 0, 11, 0);
    CloseSkips(s, 12, 1, 1);
    assert Close(s, 11, 0) == Close(s, 12, 1);
    assert Close(s, 13, 1) == Some(13);
    assert s[0..14] == "\\boxed\\frac{1}";
  }

  /** In `\boxed\frac{1}{2}` the scan stops behind the first group, and what is found does not unwrap. */
  lemma FracInput()
    ensures LastBoxed("\\boxed\\frac{1}{2}") == Some("\\boxed\\frac{1}")
    ensures RemoveBoxed("\\boxed\\frac{1}").Failure?
  {
    hide RFind, RemoveBoxed, Scan, MatchAt;
    FracMatches();
    FracScan();
    UnwrapsIff(Frac());
  }
}
