/** `concat_output`: prompts and responses of all turns become rows of equal length, with masks and positions. */
module SequenceAssembly {
  import opened Wrappers
  import opened Sequences
  import opened TensorRows
  import opened Masks

  type Token = int

  /** One recorded conversation; `responseMask` marks the tokens of the response that are trained on. */
  datatype Conversation = Conversation(prompt: seq<Token>, response: seq<Token>, responseMask: seq<Token>)

  datatype Row = Row(inputIds: seq<Token>, attention: seq<bool>, positions: seq<nat>, responseMask: seq<Token>)

  function MaxLength(lists: seq<seq<Token>>): nat {
    if lists == [] then 0
    else
      var m, n := MaxLength(lists[..|lists| - 1]), |lists[|lists| - 1]|;
      if n > m then n else m
  }

  lemma {:induction false} AtMostMax(lists: seq<seq<Token>>, i: nat)
    requires i < |lists|
    ensures |lists[i]| <= MaxLength(lists)
  {
    if i < |lists| - 1 {
      AtMostMax(lists[..|lists| - 1], i);
    }
  }

  function Fill<T>(n: nat, value: T): (r: seq<T>)
    ensures |r| == n
  {
    seq(n, _ => value)
  }

  /** One list, filled up to `target` on the left or on the right. */
  function Padded(list: seq<Token>, target: nat, pad: Token, leftPad: bool): (r: seq<Token>)
    requires |list| <= target
    ensures |r| == target
  {
    if leftPad then Fill(target - |list|, pad) + list else list + Fill(target - |list|, pad)
  }

  /** The columns of one row that hold the list. */
  function RowMask(length: nat, target: nat, leftPad: bool): (r: seq<bool>)
    requires length <= target
    ensures |r| == target
  {
    if leftPad then Fill(target - length, false) + Fill(length, true)
    else Fill(length, true) + Fill(target - length, false)
  }

  /** The first index of the slice `[from:]`: a negative start counts from the end. */
  function SliceStart(n: nat, from: int): nat {
    if from < 0 then (if n + from < 0 then 0 else n + from)
    else if from < n then from
    else n
  }

  /** The masks of `pad_tensor_list_to_length`, written in place. */
  method WriteMasks(lists: seq<seq<Token>>, target: nat, leftPad: bool) returns (mask: array2<bool>)
    requires forall i :: 0 <= i < |lists| ==> |lists[i]| <= target
    ensures mask.Length0 == |lists| && mask.Length1 == target && fresh(mask)
    ensures forall i, j :: 0 <= i < |lists| && 0 <= j < target ==>
      (mask[i, j] <==> if leftPad then j >= target - |lists[i]| else j < |lists[i]|)
    ensures forall i, j :: 0 <= i < |lists| && 0 <= j < target ==> mask[i, j] == RowMask(|lists[i]|, target, leftPad)[j]
  {
    mask := new bool[|lists|, target]((_, _) => true);
    for i := 0 to |lists|
      invariant forall k, j :: 0 <= k < i && 0 <= j < target ==> mask[k, j] == RowMask(|lists[k]|, target, leftPad)[j]
      invariant forall k, j :: i <= k < |lists| && 0 <= j < target ==> mask[k, j]
    {
      var missing := target - |lists[i]|;
      if leftPad {
        ClearRow(mask, i, 0, missing);
      } else if missing > 0 {
        // [-0:] would be the whole row
        ClearRow(mask, i, SliceStart(target, -missing), target);
      }
    }
  }

  method ClearRow(mask: array2<bool>, i: nat, from: nat, to: nat)
    requires i < mask.Length0 && from <= to <= mask.Length1
    modifies mask
    ensures forall k, j :: 0 <= k < mask.Length0 && 0 <= j < mask.Length1 ==>
      mask[k, j] == (old(mask[k, j]) && !(k == i && from <= j < to))
  {
    for c := from to to
      invariant forall k, j :: 0 <= k < mask.Length0 && 0 <= j < mask.Length1 ==>
        mask[k, j] == (old(mask[k, j]) && !(k == i && from <= j < c))
    {
      mask[i, c] := false;
    }
  }

  /** `clamp_min(cumsum(mask) - 1, 0)` */
  function PositionIds(mask: seq<bool>): (r: seq<nat>)
    ensures |r| == |mask|
  {
    if mask == [] then []
    else PositionIds(mask[..|mask| - 1]) + [if Count(mask) == 0 then 0 else Count(mask) - 1]
  }

  /** Whatever the mask, the attended columns have the positions 0, 1, 2, ... in order. */
  lemma {:induction false} PositionsCount(mask: seq<bool>)
    ensures Select(PositionIds(mask), mask) == UpTo(Count(mask))
  {
    if mask != [] {
      PositionsCount(mask[..|mask| - 1]);
    }
  }

  /** The padding on the left has position 0. */
  lemma {:induction false} PositionsBefore(mask: seq<bool>, i: nat)
    requires i < |mask| && Count(mask[..i + 1]) == 0
    ensures PositionIds(mask)[i] == 0
  {
    if i < |mask| - 1 {
      assert mask[..|mask| - 1][..i + 1] == mask[..i + 1];
      PositionsBefore(mask[..|mask| - 1], i);
    } else {
      assert mask[..i + 1] == mask;
    }
  }

  /** The position of every column, attended or not: one less than the attended columns up to it. */
  lemma {:induction false} PositionAt(mask: seq<bool>, i: nat)
    requires i < |mask|
    ensures PositionIds(mask)[i] == if Count(mask[..i + 1]) == 0 then 0 else Count(mask[..i + 1]) - 1
  {
    if i < |mask| - 1 {
      assert mask[..|mask| - 1][..i + 1] == mask[..i + 1];
      PositionAt(mask[..|mask| - 1], i);
    } else {
      assert mask[..i + 1] == mask;
    }
  }

  function Drop<T>(s: seq<T>, n: nat): seq<T> {
    if n <= |s| then s[n..] else []
  }

  /** The row of one conversation: a left-padded prompt and a right-padded response without its start. */
  function AssembledRow(c: Conversation, prompts: nat, responses: nat, start: nat, pad: Token): Row
    requires |c.prompt| <= prompts && |c.response| <= responses && |c.responseMask| <= responses
  {
    var attention := RowMask(|c.prompt|, prompts, true) + Drop(RowMask(|c.response|, responses, false), start);
    Row(Padded(c.prompt, prompts, pad, true) + Drop(Padded(c.response, responses, pad, false), start),
        attention, PositionIds(attention), Drop(Padded(c.responseMask, responses, 0, false), start))
  }

  lemma LeftSelected(list: seq<Token>, target: nat, pad: Token)
    requires |list| <= target
    ensures Select(Padded(list, target, pad, true), RowMask(|list|, target, true)) == list
  {
    SelectConcat(Fill(target - |list|, pad), list, Fill(target - |list|, false), Fill(|list|, true));
    SelectNone(Fill(target - |list|, pad), Fill(target - |list|, false));
    SelectAll(list, Fill(|list|, true));
  }

  lemma RightSelected(list: seq<Token>, target: nat, pad: Token, start: nat)
    requires |list| <= target
    ensures Select(Drop(Padded(list, target, pad, false), start), Drop(RowMask(|list|, target, false), start)) == Drop(list, start)
  {
    if start <= |list| {
      var rest := list[start..];
      assert Drop(Padded(list, target, pad, false), start) == rest + Fill(target - |list|, pad);
      assert Drop(RowMask(|list|, target, false), start) == Fill(|rest|, true) + Fill(target - |list|, false);
      SelectConcat(rest, Fill(target - |list|, pad), Fill(|rest|, true), Fill(target - |list|, false));
      SelectNone(Fill(target - |list|, pad), Fill(target - |list|, false));
      SelectAll(rest, Fill(|rest|, true));
    } else {
      SelectNone(Drop(Padded(list, target, pad, false), start), Drop(RowMask(|list|, target, false), start));
    }
  }

  /**
   * What the attention mask selects is the prompt followed by the response without its first `start`
   * tokens, at positions 0, 1, 2, ..., whatever tokens occur; the response mask lines up with the response.
   */
  lemma RowSelects(c: Conversation, prompts: nat, responses: nat, start: nat, pad: Token)
    requires |c.prompt| <= prompts && |c.response| <= responses && |c.responseMask| == |c.response|
    ensures var row := AssembledRow(c, prompts, responses, start, pad);
      && |row.inputIds| == |row.attention| == |row.positions| == prompts + |row.responseMask|
      && Select(row.inputIds, row.attention) == c.prompt + Drop(c.response, start)
      && Select(row.positions, row.attention) == UpTo(|c.prompt| + |Drop(c.response, start)|)
      && Select(row.responseMask, row.attention[prompts..]) == Drop(c.responseMask, start)
  {
    var left, right := RowMask(|c.prompt|, prompts, true), Drop(RowMask(|c.response|, responses, false), start);
    var a, b := Padded(c.prompt, prompts, pad, true), Drop(Padded(c.response, responses, pad, false), start);
    SelectConcat(a, b, left, right);
    LeftSelected(c.prompt, prompts, pad);
    RightSelected(c.response, responses, pad, start);
    RightSelected(c.responseMask, responses, 0, start);
    SelectLength(a + b, left + right);
    PositionsCount(left + right);
    assert (left + right)[prompts..] == right;
  }

  /** A response that begins with the start of an assistant turn: exactly that start is cut off. */
  lemma StripsPrefix(c: Conversation, starting: seq<Token>, rest: seq<Token>)
    ensures c.response == starting + rest <==> starting <= c.response && Drop(c.response, |starting|) == rest
  {
    if starting <= c.response {
      assert c.response == starting + c.response[|starting|..];
    }
  }

  function Prompts(cs: seq<Conversation>): (r: seq<seq<Token>>)
    ensures |r| == |cs| && forall i :: 0 <= i < |cs| ==> r[i] == cs[i].prompt
  {
    seq(|cs|, i requires 0 <= i < |cs| => cs[i].prompt)
  }

  function Responses(cs: seq<Conversation>): (r: seq<seq<Token>>)
    ensures |r| == |cs| && forall i :: 0 <= i < |cs| ==> r[i] == cs[i].response
  {
    seq(|cs|, i requires 0 <= i < |cs| => cs[i].response)
  }

  /** What a row has to say about its conversation. */
  ghost predicate Faithful(row: Row, c: Conversation, start: nat) {
    && |row.inputIds| == |row.attention| == |row.positions| >= |row.responseMask|
    && Select(row.inputIds, row.attention) == c.prompt + Drop(c.response, start)
    && Select(row.positions, row.attention) == UpTo(|c.prompt| + |Drop(c.response, start)|)
    && Select(row.responseMask, row.attention[|row.attention| - |row.responseMask|..]) == Drop(c.responseMask, start)
  }

  /**
   * Where everything stands in a row of `prompts + responses` columns: the prompt ends at column `prompts`, the
   * response without its start begins there, all these columns and no others are attended, and the others
   * hold the pad token. The response mask stands as the response does, with zeros behind it.
   */
  ghost predicate Placed(row: Row, c: Conversation, start: nat, prompts: nat, responses: nat, pad: Token) {
    var n := if start <= |c.response| then |c.response| - start else 0;
    && |row.inputIds| == |row.attention| == |row.positions| == prompts + responses
    && |row.responseMask| == responses && |c.responseMask| == |c.response| && |c.prompt| <= prompts && n <= responses
    && row.inputIds[prompts - |c.prompt|..prompts] == c.prompt
    && row.inputIds[prompts..prompts + n] == c.response[|c.response| - n..]
    && (forall j :: 0 <= j < prompts + responses ==>
         (row.attention[j] <==> prompts - |c.prompt| <= j < prompts + n))
    && (forall j :: 0 <= j < prompts + responses && !row.attention[j] ==> row.inputIds[j] == pad)
    && row.responseMask[..n] == c.responseMask[|c.response| - n..]
    && forall j :: n <= j < responses ==> row.responseMask[j] == 0
  }

  lemma PromptPlaced(list: seq<Token>, target: nat, pad: Token)
    requires |list| <= target
    ensures var padded, mask := Padded(list, target, pad, true), RowMask(|list|, target, true);
      && padded[target - |list|..] == list
      && forall j :: 0 <= j < target ==>
           (mask[j] <==> target - |list| <= j) && (!mask[j] ==> padded[j] == pad)
  {
  }

  lemma ResponsePlaced(list: seq<Token>, target: nat, start: nat, pad: Token)
    requires |list| <= target
    ensures var padded, mask := Drop(Padded(list, target, pad, false), start), Drop(RowMask(|list|, target, false), start);
      var n := if start <= |list| then |list| - start else 0;
      && |padded| == |mask| == Rest(target, start) >= n
      && padded[..n] == list[|list| - n..]
      && forall j :: 0 <= j < |mask| ==> (mask[j] <==> j < n) && (!mask[j] ==> padded[j] == pad)
  {
  }

  /** Prompt columns `a` and response columns `b` side by side. */
  lemma SideBySide(a: seq<Token>, ma: seq<bool>, from: nat, b: seq<Token>, mb: seq<bool>, n: nat, pad: Token)
    requires |a| == |ma| && |b| == |mb| && from <= |a| && n <= |b|
    requires forall j :: 0 <= j < |a| ==> (ma[j] <==> from <= j) && (!ma[j] ==> a[j] == pad)
    requires forall j :: 0 <= j < |b| ==> (mb[j] <==> j < n) && (!mb[j] ==> b[j] == pad)
    ensures var ids, mask := a + b, ma + mb;
      && ids[from..|a|] == a[from..] && ids[|a|..|a| + n] == b[..n]
      && forall j :: 0 <= j < |ids| ==> (mask[j] <==> from <= j < |a| + n) && (!mask[j] ==> ids[j] == pad)
  {
    var ids, mask := a + b, ma + mb;
    assert forall j :: 0 <= j < |ids| ==> ids[j] == (if j < |a| then a[j] else b[j - |a|]);
    assert forall j :: 0 <= j < |ids| ==> mask[j] == (if j < |a| then ma[j] else mb[j - |a|]);
  }

  lemma ZerosBehind(list: seq<Token>, mask: seq<bool>, n: nat)
    requires |list| == |mask| && n <= |list|
    requires forall j :: 0 <= j < |list| ==> (mask[j] <==> j < n) && (!mask[j] ==> list[j] == 0)
    ensures forall j :: n <= j < |list| ==> list[j] == 0
  {
  }

  lemma RowPlaced(c: Conversation, prompts: nat, responses: nat, start: nat, pad: Token)
    requires |c.prompt| <= prompts && |c.response| == |c.responseMask| <= responses
    ensures Placed(AssembledRow(c, prompts, responses, start, pad), c, start, prompts, Rest(responses, start), pad)
  {
    hide Padded, RowMask, Drop, PositionIds;
    PromptPlaced(c.prompt, prompts, pad);
    ResponsePlaced(c.response, responses, start, pad);
    ResponsePlaced(c.responseMask, responses, start, 0);
    var a, ma := Padded(c.prompt, prompts, pad, true), RowMask(|c.prompt|, prompts, true);
    var b, mb := Drop(Padded(c.response, responses, pad, false), start), Drop(RowMask(|c.response|, responses, false), start);
    var n := if start <= |c.response| then |c.response| - start else 0;
    SideBySide(a, ma, prompts - |c.prompt|, b, mb, n, pad);
    ZerosBehind(Drop(Padded(c.responseMask, responses, 0, false), start), mb, n);
  }

  /** `width` is the length of the longest of the lists. */
  predicate IsLongest(lists: seq<seq<Token>>, width: nat) {
    && (forall i :: 0 <= i < |lists| ==> |lists[i]| <= width)
    && if lists == [] then width == 0 else exists i :: 0 <= i < |lists| && |lists[i]| == width
  }

  lemma {:induction false} MaxIsLongest(lists: seq<seq<Token>>)
    ensures IsLongest(lists, MaxLength(lists))
  {
    if lists != [] {
      var n := |lists| - 1;
      MaxIsLongest(lists[..n]);
      assert forall i :: 0 <= i < n ==> lists[..n][i] == lists[i];
      if MaxLength(lists) == |lists[n]| {
        assert |lists[n]| == MaxLength(lists);
      } else {
        var i :| 0 <= i < n && |lists[..n][i]| == MaxLength(lists[..n]);
        assert |lists[i]| == MaxLength(lists);
      }
    }
  }

  /** All rows are laid out over the same columns: the longest prompt, and the longest response without the start. */
  ghost predicate Stackable(rows: seq<Row>, cs: seq<Conversation>, start: nat, pad: Token) {
    exists prompts: nat, responses: nat ::
      && IsLongest(Prompts(cs), prompts) && IsLongest(Responses(cs), responses)
      && LaidOut(rows, cs, start, prompts, if start <= responses then responses - start else 0, pad)
  }

  ghost predicate LaidOut(rows: seq<Row>, cs: seq<Conversation>, start: nat, prompts: nat, responses: nat, pad: Token) {
    |rows| == |cs| && forall i :: 0 <= i < |rows| ==> Placed(rows[i], cs[i], start, prompts, responses, pad)
  }

  /** How many of `n` columns are left behind the first `start`. */
  function Rest(n: nat, start: nat): nat {
    if start <= n then n - start else 0
  }

  /** One row of a mask. */
  method MaskRow(mask: array2<bool>, i: nat) returns (row: seq<bool>)
    requires i < mask.Length0
    ensures |row| == mask.Length1 && forall j :: 0 <= j < |row| ==> row[j] == mask[i, j]
  {
    row := [];
    for c := 0 to mask.Length1
      invariant |row| == c && forall j :: 0 <= j < c ==> row[j] == mask[i, j]
    {
      row := row + [mask[i, c]];
    }
  }

  method AssembleRow(c: Conversation, promptMask: seq<bool>, responseMask: seq<bool>, start: nat, pad: Token)
      returns (row: Row)
    requires |c.prompt| <= |promptMask| && |c.response| == |c.responseMask| <= |responseMask|
    requires promptMask == RowMask(|c.prompt|, |promptMask|, true)
    requires responseMask == RowMask(|c.response|, |responseMask|, false)
    ensures Faithful(row, c, start)
    ensures Placed(row, c, start, |promptMask|, Rest(|responseMask|, start), pad)
  {
    RowPlaced(c, |promptMask|, |responseMask|, start, pad);
    RowSelects(c, |promptMask|, |responseMask|, start, pad);
    var promptIds := Padded(c.prompt, |promptMask|, pad, true);
    var responseIds := Drop(Padded(c.response, |responseMask|, pad, false), start);
    var attention := promptMask + Drop(responseMask, start);
    row := Row(promptIds + responseIds, attention, PositionIds(attention),
               Drop(Padded(c.responseMask, |responseMask|, 0, false), start));
    hide Select, Padded, RowMask, PositionIds, Drop;
  }

  predicate SameLengths(turns: seq<seq<Conversation>>) {
    forall t, i :: 0 <= t < |turns| && 0 <= i < |turns[t]| ==> |turns[t][i].responseMask| == |turns[t][i].response|
  }

  lemma {:induction false} FlattenLengths(turns: seq<seq<Conversation>>, i: nat)
    requires SameLengths(turns) && i < |Flatten(turns)|
    ensures |Flatten(turns)[i].responseMask| == |Flatten(turns)[i].response|
  {
    var init := turns[..|turns| - 1];
    if i < |Flatten(init)| {
      FlattenLengths(init, i);
    } else {
      assert turns[|turns| - 1][i - |Flatten(init)|] == Flatten(turns)[i];
    }
  }

  /** One row for each conversation of each turn, in order. Only the first response is checked for the start. */
  method ConcatOutput(turns: seq<seq<Conversation>>, starting: seq<Token>, pad: Token) returns (r: Result<seq<Row>>)
    requires SameLengths(turns)
    ensures r.Success? <==> turns != [] && turns[0] != [] && starting <= turns[0][0].response
    ensures r.Success? ==> |r.value| == |Flatten(turns)|
    ensures r.Success? ==> forall i :: 0 <= i < |r.value| ==> Faithful(r.value[i], Flatten(turns)[i], |starting|)
    ensures r.Success? ==> Stackable(r.value, Flatten(turns), |starting|, pad)
  {
    hide Faithful, Placed, RowMask, Flatten, MaxLength;
    if turns == [] || turns[0] == [] || !(starting <= turns[0][0].response) {
      return Failure;
    }
    var cs := Flatten(turns);
    var prompts, responses := MaxLength(Prompts(cs)), MaxLength(Responses(cs));
    forall i | 0 <= i < |cs|
      ensures |Prompts(cs)[i]| <= prompts && |Responses(cs)[i]| <= responses
    {
      AtMostMax(Prompts(cs), i);
      AtMostMax(Responses(cs), i);
    }
    var promptMasks := WriteMasks(Prompts(cs), prompts, true);
    var responseMasks := WriteMasks(Responses(cs), responses, false);
    var rows: seq<Row> := [];
    for i := 0 to |cs|
      invariant |rows| == i
      invariant forall k :: 0 <= k < i ==> Faithful(rows[k], cs[k], |starting|)
      invariant forall k :: 0 <= k < i ==>
        Placed(rows[k], cs[k], |starting|, prompts, Rest(responses, |starting|), pad)
      modifies {}
    {
      var promptMask := MaskRow(promptMasks, i);
      var responseMask := MaskRow(responseMasks, i);
      assert promptMask == RowMask(|cs[i].prompt|, prompts, true);
      assert responseMask == RowMask(|cs[i].response|, responses, false);
      FlattenLengths(turns, i);
      var row := AssembleRow(cs[i], promptMask, responseMask, |starting|, pad);
      rows := rows + [row];
    }
    MaxIsLongest(Prompts(cs));
    MaxIsLongest(Responses(cs));
    assert LaidOut(rows, cs, |starting|, prompts, Rest(responses, |starting|), pad);
    r := Success(rows);
  }

  /** So exactly for a response that has the start, the row selects the prompt and what follows the start. */
  lemma WithStart(row: Row, c: Conversation, starting: seq<Token>)
    requires Faithful(row, c, |starting|)
    ensures starting <= c.response <==>
      exists rest :: c.response == starting + rest && Select(row.inputIds, row.attention) == c.prompt + rest
  {
    StripsPrefix(c, starting, Drop(c.response, |starting|));
  }
}
