/** Text helpers of the memory agents: Python's `str.strip` and the payload of the merge prompt. */
module Text {
  import opened Wrappers
  import opened Sequences

  const NO_MEMORY: string := "No previous memory"

  /** The characters that `str.strip` removes (Python's `str.isspace`). */
  predicate IsSpace(c: char) {
    var u := c as int;
    || 0x09 <= u <= 0x0d || 0x1c <= u <= 0x20 || u == 0x85 || u == 0xa0 || u == 0x1680
    || 0x2000 <= u <= 0x200a || u == 0x2028 || u == 0x2029 || u == 0x202f || u == 0x205f || u == 0x3000
  }

  function StripLeft(s: string): (r: string)
    ensures r != "" ==> !IsSpace(r[0])
    ensures |r| <= |s| && r == s[|s| - |r|..]
  {
    if s != "" && IsSpace(s[0]) then StripLeft(s[1..]) else s
  }

  function StripRight(s: string): (r: string)
    ensures r != "" ==> !IsSpace(r[|r| - 1])
    ensures r <= s
  {
    if s != "" && IsSpace(s[|s| - 1]) then StripRight(s[..|s| - 1]) else s
  }

  function Strip(s: string): (r: string)
    ensures r != "" ==> !IsSpace(r[0]) && !IsSpace(r[|r| - 1])
  {
    StripRight(StripLeft(s))
  }

  // ----- what stripping is

  predicate AllSpace(s: string) {
    forall k :: 0 <= k < |s| ==> IsSpace(s[k])
  }

  /** `t` is what is left of `s` when the white space on both sides is taken away, and nothing else. */
  ghost predicate Trims(s: string, t: string) {
    && (t != "" ==> !IsSpace(t[0]) && !IsSpace(t[|t| - 1]))
    && exists l: string, r: string :: AllSpace(l) && AllSpace(r) && s == l + t + r
  }

  /** Of the ASCII characters exactly these are white space. */
  lemma AsciiSpaces(c: char)
    requires c as int < 0x80
    ensures IsSpace(c) <==>
      c in [' ', '\t', '\n', '\r', 0x0b as char, 0x0c as char, 0x1c as char, 0x1d as char, 0x1e as char, 0x1f as char]
  {
  }

  lemma SpaceBefore(s: string, n: nat)
    requires n < |s| && IsSpace(s[0]) && AllSpace(s[1..][..n])
    ensures AllSpace(s[..n + 1])
  {
    hide IsSpace;
    forall k | 0 < k <= n
      ensures IsSpace(s[k])
    {
      assert s[k] == s[1..][..n][k - 1];
    }
  }

  lemma SpaceBehind(s: string, m: nat)
    requires m < |s| && IsSpace(s[|s| - 1]) && AllSpace(s[..|s| - 1][m..])
    ensures AllSpace(s[m..])
  {
    hide IsSpace;
    forall k | m <= k < |s| - 1
      ensures IsSpace(s[k])
    {
      assert s[k] == s[..|s| - 1][m..][k - m];
    }
  }

  lemma {:induction false} LeftSpace(s: string)
    ensures AllSpace(s[..|s| - |StripLeft(s)|])
  {
    hide IsSpace, AllSpace;
    if s != "" && IsSpace(s[0]) {
      LeftSpace(s[1..]);
      SpaceBefore(s, |s| - 1 - |StripLeft(s[1..])|);
    } else {
      AllSpaceNone();
    }
  }

  lemma {:induction false} RightSpace(s: string)
    ensures AllSpace(s[|StripRight(s)|..])
  {
    hide IsSpace, AllSpace;
    if s != "" && IsSpace(s[|s| - 1]) {
      RightSpace(s[..|s| - 1]);
      SpaceBehind(s, |StripRight(s[..|s| - 1])|);
    } else {
      assert s[|s|..] == "";
      AllSpaceNone();
    }
  }

  lemma StripTrims(s: string)
    ensures Trims(s, Strip(s))
  {
    hide IsSpace, AllSpace, StripLeft, StripRight;
    LeftSpace(s);
    RightSpace(StripLeft(s));
    var n, m := |s| - |StripLeft(s)|, |Strip(s)|;
    assert Strip(s) + s[n..][m..] == s[n..];
    Associative(s[..n], Strip(s), s[n..][m..]);
    TrimmedBy(s[..n], Strip(s), s[n..][m..]);
    assert s[..n] + s[n..] == s;
  }

  lemma TrimmedBy(l: string, t: string, r: string)
    requires AllSpace(l) && AllSpace(r) && (t != "" ==> !IsSpace(t[0]) && !IsSpace(t[|t| - 1]))
    ensures Trims(l + t + r, t)
  {
  }

  lemma {:induction false} StripLeftSkips(l: string, s: string)
    requires AllSpace(l)
    ensures StripLeft(l + s) == StripLeft(s)
  {
    hide IsSpace;
    if l == "" {
      assert l + s == s;
    } else {
      assert (l + s)[1..] == l[1..] + s;
      StripLeftSkips(l[1..], s);
    }
  }

  lemma {:induction false} StripRightSkips(s: string, r: string)
    requires AllSpace(r)
    ensures StripRight(s + r) == StripRight(s)
  {
    hide IsSpace;
    if r == "" {
      assert s + r == s;
    } else {
      assert (s + r)[..|s + r| - 1] == s + r[..|r| - 1];
      StripRightSkips(s, r[..|r| - 1]);
    }
  }

  lemma StripBetween(l: string, t: string, r: string)
    requires AllSpace(l) && AllSpace(r) && (t != "" ==> !IsSpace(t[0]) && !IsSpace(t[|t| - 1]))
    ensures Strip(l + t + r) == t
  {
    hide IsSpace;
    assert l + t + r == l + (t + r);
    StripLeftSkips(l, t + r);
    if t == "" {
      StripLeftSkips(r, "");
      assert t + r == r && r + "" == r;
    } else {
      StripRightSkips(t, r);
      assert StripLeft(t + r) == t + r && StripRight(t) == t;
    }
  }

  /** There is only one such text: stripping is determined by what it takes away. */
  lemma TrimsIff(s: string, t: string)
    ensures Trims(s, t) <==> t == Strip(s)
  {
    StripTrims(s);
    hide Strip, AllSpace;
    if Trims(s, t) {
      var l: string, r: string :| AllSpace(l) && AllSpace(r) && s == l + t + r;
      StripBetween(l, t, r);
    }
  }

  lemma SpaceConcat(l: string, r: string)
    requires AllSpace(l) && AllSpace(r)
    ensures AllSpace(l + "" + r)
  {
    hide IsSpace;
  }

  lemma BlankIff(s: string)
    ensures Strip(s) == "" <==> AllSpace(s)
  {
    hide IsSpace, Strip, AllSpace;
    StripTrims(s);
    AllSpaceNone();
    if AllSpace(s) {
      assert s == s + "" + "";
      TrimsIff(s, "");
    } else if Strip(s) == "" {
      var l: string, r: string :| AllSpace(l) && AllSpace(r) && s == l + "" + r;
      SpaceConcat(l, r);
    }
  }

  /** Stripping twice is stripping once: the batch agent strips earlier than the async one. */
  lemma StripIdempotent(s: string)
    ensures Strip(Strip(s)) == Strip(s)
  {
    var t := Strip(s);
    assert StripLeft(t) == t;
    assert StripRight(t) == t;
  }

  lemma StripNoMemory()
    ensures Strip(NO_MEMORY) == NO_MEMORY
  {
    assert NO_MEMORY[0] == 'N' && NO_MEMORY[|NO_MEMORY| - 1] == 'y';
  }

  function Digit(d: nat): char
    requires d < 10
  {
    ('0' as int + d) as char
  }

  function Decimal(n: nat): string {
    if n < 10 then [Digit(n)] else Decimal(n / 10) + [Digit(n % 10)]
  }

  // ----- what a numeral is

  function DigitValue(c: char): nat {
    if '0' <= c <= '9' then c as int - '0' as int else 0
  }

  /** The number that decimal digits stand for. */
  function Value(s: string): nat {
    if s == "" then 0 else 10 * Value(s[..|s| - 1]) + DigitValue(s[|s| - 1])
  }

  /** `str(n)`: digits only, no leading zero, and they read as `n`. */
  predicate IsNumeral(s: string, n: nat) {
    && s != "" && (forall k :: 0 <= k < |s| ==> '0' <= s[k] <= '9')
    && (s[0] == '0' ==> s == "0") && Value(s) == n
  }

  lemma {:induction false} DecimalReads(n: nat)
    ensures IsNumeral(Decimal(n), n) && (n > 0 ==> Decimal(n)[0] != '0')
  {
    if n < 10 {
      assert [Digit(n)][..0] == "";
    } else {
      DecimalReads(n / 10);
      var s := Decimal(n / 10);
      assert (s + [Digit(n % 10)])[..|s|] == s;
    }
  }

  function LabelSection(idx: nat, mem: string): string {
    "[Section " + Decimal(idx) + "]:\n" + mem
  }

  function LabelPrevious(mem: string): string {
    "[Previous Memory]:\n" + mem
  }

  /** The labelled section of the `idx`-th new memory (one-based); blank memories get none. */
  function Section(idx: nat, mem: string): seq<string> {
    if Strip(mem) == "" then [] else [LabelSection(idx, Strip(mem))]
  }

  function Sections(news: seq<string>): seq<string> {
    if news == [] then []
    else Sections(news[..|news| - 1]) + Section(|news|, news[|news| - 1])
  }

  function PreviousPart(previous: Option<string>): seq<string> {
    if previous.Some? && previous.value != "" && Strip(previous.value) != "" && Strip(previous.value) != NO_MEMORY
    then [LabelPrevious(Strip(previous.value))]
    else []
  }

  function Join(parts: seq<string>): string {
    if parts == [] then ""
    else if |parts| == 1 then parts[0]
    else parts[0] + "\n\n" + Join(parts[1..])
  }

  lemma {:induction false} JoinConcat(a: seq<string>, b: seq<string>)
    requires a != [] && b != []
    ensures Join([a[0]]) == a[0] && Join(a + b) == Join(a) + "\n\n" + Join(b)
  {
    if |a| == 1 {
      assert (a + b)[1..] == b;
    } else {
      assert (a + b)[1..] == a[1..] + b;
      JoinConcat(a[1..], b);
    }
  }

  // ----- what the payload is

  /** The previous memory is shown unless it is missing, blank or the placeholder. */
  ghost predicate ShowsPrevious(previous: Option<string>) {
    previous.Some? && !AllSpace(previous.value) && !Trims(previous.value, "No previous memory")
  }

  ghost predicate IsPrevious(previous: Option<string>, parts: seq<string>) {
    if ShowsPrevious(previous)
    then exists t: string :: Trims(previous.value, t) && parts == ["[Previous Memory]:\n" + t]
    else parts == []
  }

  /** The section of one memory: its number, counted from 1, and its text. */
  ghost predicate IsSection(part: string, number: nat, memory: string) {
    exists d: string, t: string :: IsNumeral(d, number) && Trims(memory, t) && part == "[Section " + d + "]:\n" + t
  }

  /** One section for each memory that is not blank, in order, numbered by its place. */
  ghost predicate AreSections(news: seq<string>, parts: seq<string>, at: seq<nat>) {
    && |at| == |parts| && Ascending(at)
    && (forall k :: 0 <= k < |at| ==> at[k] < |news|)
    && (forall j :: 0 <= j < |news| ==> (j in at <==> !AllSpace(news[j])))
    && forall k :: 0 <= k < |at| ==> IsSection(parts[k], at[k] + 1, news[at[k]])
  }

  /** The text between the tags of the merge prompt. */
  ghost predicate IsPayload(previous: Option<string>, news: seq<string>, text: string) {
    exists first: seq<string>, sections: seq<string>, at: seq<nat> ::
      IsPrevious(previous, first) && AreSections(news, sections, at)
      && text == if first + sections == [] then "No previous memory" else Join(first + sections)
  }

  lemma PreviousIs(previous: Option<string>)
    ensures IsPrevious(previous, PreviousPart(previous))
  {
    hide Strip, Trims, AllSpace;
    if previous.Some? {
      StripTrims(previous.value);
      TrimsIff(previous.value, "No previous memory");
      BlankIff(previous.value);
      BlankIff("");
      assert AllSpace("") by { AllSpaceNone(); }
    }
  }

  lemma AllSpaceNone()
    ensures AllSpace("")
  {
  }

  lemma SectionIs(idx: nat, memory: string)
    ensures Section(idx, memory) == [] <==> AllSpace(memory)
    ensures Section(idx, memory) != [] ==> |Section(idx, memory)| == 1 && IsSection(Section(idx, memory)[0], idx, memory)
  {
    hide Strip, Decimal, IsNumeral, Trims, AllSpace;
    BlankIff(memory);
    DecimalReads(idx);
    StripTrims(memory);
  }

  lemma {:induction false} SectionsAre(news: seq<string>) returns (at: seq<nat>)
    ensures AreSections(news, Sections(news), at)
  {
    hide Section, IsSection, AllSpace;
    if news == [] {
      at := [];
    } else {
      var n := |news| - 1;
      at := SectionsAre(news[..n]);
      SectionIs(|news|, news[n]);
      if Section(|news|, news[n]) != [] {
        at := at + [n];
      }
    }
  }

  lemma MergeTextIs(previous: Option<string>, news: seq<string>)
    ensures IsPayload(previous, news, MergeText(previous, news))
  {
    PreviousIs(previous);
    var at := SectionsAre(news);
    hide AreSections, IsPrevious, Sections, PreviousPart, Join;
  }

  /** The text that goes between the <extracted_information> tags. */
  function MergeText(previous: Option<string>, news: seq<string>): string {
    var parts := PreviousPart(previous) + Sections(news);
    if parts == [] then NO_MEMORY else Join(parts)
  }

  method BuildMergeMemories(previous: Option<string>, news: seq<string>) returns (text: string)
    ensures IsPayload(previous, news, text)
    ensures text == MergeText(previous, news)
  {
    MergeTextIs(previous, news);
    hide IsPayload;
    hide Strip, Decimal, LabelSection, LabelPrevious, Sections, Join;
    var parts := [];
    if previous.Some? && previous.value != "" && Strip(previous.value) != "" && Strip(previous.value) != NO_MEMORY {
      parts := parts + [LabelPrevious(Strip(previous.value))];
    }
    SectionsNone();
    for i := 0 to |news|
      invariant parts == PreviousPart(previous) + Sections(news[..i])
    {
      SectionsSnoc(news[..i], news[i]);
      assert news[..i + 1] == news[..i] + [news[i]];
      var mem := Strip(news[i]);
      if mem != "" {
        parts := parts + [LabelSection(i + 1, mem)];
      }
    }
    assert news[..|news|] == news;
    text := if parts == [] then NO_MEMORY else Join(parts);
  }

  lemma SectionsNone()
    ensures Sections([]) == []
  {
  }

  lemma SectionsSnoc(news: seq<string>, mem: string)
    ensures Sections(news + [mem]) == Sections(news) + Section(|news| + 1, mem)
  {
    hide Section;
    assert (news + [mem])[..|news|] == news;
  }

  function StripAll(news: seq<string>): (r: seq<string>)
    ensures |r| == |news|
    ensures forall j :: 0 <= j < |news| ==> r[j] == Strip(news[j])
  {
    seq(|news|, j requires 0 <= j < |news| => Strip(news[j]))
  }

  lemma {:induction false} SectionsOfStripped(news: seq<string>)
    ensures Sections(StripAll(news)) == Sections(news)
  {
    hide Strip, LabelSection, Decimal;
    if news != [] {
      var init := news[..|news| - 1];
      assert StripAll(news)[..|news| - 1] == StripAll(init);
      SectionsOfStripped(init);
      StripIdempotent(news[|news| - 1]);
    }
  }

  /**
   * The two agents hand different values to the builder: the batch agent passes `None` until the
   * first merge and strips every memory beforehand, the async agent passes the text
   * "No previous memory" and the raw replies. The merge payload is the same.
   */
  lemma MergeTextAgrees(memory: Option<string>, news: seq<string>)
    ensures MergeText(if memory.Some? then Some(Strip(memory.value)) else None, StripAll(news))
         == MergeText(Some(if memory.Some? then Strip(memory.value) else NO_MEMORY), news)
  {
    hide Strip, Decimal, LabelSection, LabelPrevious;
    SectionsOfStripped(news);
    if memory.None? {
      StripNoMemory();
      assert PreviousPart(Some(NO_MEMORY)) == PreviousPart(None);
    }
  }
}
