/** Padding a batch so that every worker gets the same number of rows and at most one of them is padding. */
module GracefulPadding {
  import opened Arith
  import opened Sequences
  import opened TensorRows
  import opened Masks

  function GroupSize(bsz: nat, groups: nat): nat
    requires groups >= 1
  {
    bsz / groups + 1
  }

  /** True for a real row: every row of the first groups, every row but the first of the others. */
  predicate Real(bsz: nat, groups: nat, i: nat)
    requires groups >= 1
  {
    var size := GroupSize(bsz, groups);
    i / size < bsz % groups || i % size != 0
  }

  function Mask(bsz: nat, groups: nat): seq<bool>
    requires groups >= 1
  {
    if bsz % groups == 0 then seq(bsz, _ => true)
    else seq(groups * GroupSize(bsz, groups), i requires 0 <= i => Real(bsz, groups, i))
  }

  /** `cumsum(mask) - 1` where the mask is set, and -1 elsewhere. */
  function Indices(mask: seq<bool>): (r: seq<int>)
    ensures |r| == |mask|
    ensures forall i :: 0 <= i < |r| ==> r[i] < Count(mask)
  {
    if mask == [] then []
    else
      var init := mask[..|mask| - 1];
      Indices(init) + [if mask[|mask| - 1] then Count(init) else -1]
  }

  /** `graceful_padding`: the index of each row of the padded batch, and which rows are real. */
  function PaddingIndex(bsz: nat, groups: nat): (seq<int>, seq<bool>)
    requires groups >= 1
  {
    (Indices(Mask(bsz, groups)), Mask(bsz, groups))
  }

  /** Indexing with -1 selects the last row. */
  function At<T>(rows: seq<T>, i: int): T
    requires -1 <= i < |rows| && rows != []
  {
    if i < 0 then rows[|rows| - 1] else rows[i]
  }

  /** `padding_by_index`: the padding goes behind the batch, then every index selects its row. */
  function PadByIndex<T>(rows: seq<T>, padding: T, indices: seq<int>): (r: seq<T>)
    requires forall i :: 0 <= i < |indices| ==> -1 <= indices[i] < |rows|
    ensures |r| == |indices|
  {
    seq(|indices|, i requires 0 <= i < |indices| => At(rows + [padding], indices[i]))
  }

  // ----- how the padding is spread

  lemma RealAt(bsz: nat, groups: nat, g: nat, j: nat)
    requires groups >= 1 && j < GroupSize(bsz, groups)
    ensures Real(bsz, groups, g * GroupSize(bsz, groups) + j) <==> g < bsz % groups || j != 0
  {
    DivModUnique(g * GroupSize(bsz, groups) + j, g, j, GroupSize(bsz, groups));
  }

  /** The part of the mask that belongs to one worker. */
  function GroupMask(bsz: nat, groups: nat, g: nat): seq<bool>
    requires groups >= 1
  {
    var size := GroupSize(bsz, groups);
    Slice(Mask(bsz, groups), g * size, (g + 1) * size)
  }

  /** Group `g` has no padding, or exactly its first row is padding. */
  lemma GroupMaskIs(bsz: nat, groups: nat, g: nat)
    requires groups >= 1 && bsz % groups != 0 && g < groups
    ensures GroupMask(bsz, groups, g)
         == [g < bsz % groups] + seq(GroupSize(bsz, groups) - 1, _ => true)
  {
    var size := GroupSize(bsz, groups);
    LessTimes(g, groups, size);
    assert (g + 1) * size == g * size + size;
    var rest := seq(size - 1, _ => true);
    forall j | 0 <= j < size
      ensures GroupMask(bsz, groups, g)[j] == ([g < bsz % groups] + rest)[j]
    {
      RealAt(bsz, groups, g, j);
      assert GroupMask(bsz, groups, g)[j] == Mask(bsz, groups)[g * size + j];
    }
  }

  /** So every worker gets the same number of rows, and their real rows differ by at most one. */
  lemma Balanced(bsz: nat, groups: nat, g: nat)
    requires groups >= 1 && bsz % groups != 0 && g < groups
    ensures |GroupMask(bsz, groups, g)| == GroupSize(bsz, groups)
    ensures Count(GroupMask(bsz, groups, g)) == GroupSize(bsz, groups) - if g < bsz % groups then 0 else 1
  {
    GroupMaskIs(bsz, groups, g);
    var rest := seq(GroupSize(bsz, groups) - 1, _ => true);
    CountConcat([g < bsz % groups], rest);
    CountAll(GroupSize(bsz, groups) - 1);
    assert [g < bsz % groups][..0] == [];
  }

  lemma {:induction false} CountGroups(bsz: nat, groups: nat, g: nat)
    requires groups >= 1 && bsz % groups != 0 && g <= groups
    ensures g * GroupSize(bsz, groups) <= |Mask(bsz, groups)|
    ensures Count(Mask(bsz, groups)[..g * GroupSize(bsz, groups)])
         == g * GroupSize(bsz, groups) - if g <= bsz % groups then 0 else g - bsz % groups
  {
    hide Real, GroupSize;
    var size, mask := GroupSize(bsz, groups), Mask(bsz, groups);
    MulMono(g, groups, size);
    if g == 0 {
      assert 0 * size == 0 && mask[..0] == [];
    } else {
      var at := (g - 1) * size;
      assert g * size == at + size;
      CountGroups(bsz, groups, g - 1);
      Balanced(bsz, groups, g - 1);
      CountConcat(mask[..at], GroupMask(bsz, groups, g - 1));
      hide Count, Mask;
      assert mask[..at + size] == mask[..at] + GroupMask(bsz, groups, g - 1);
    }
  }

  lemma GroupRows(bsz: nat, groups: nat)
    requires groups >= 1
    ensures groups * GroupSize(bsz, groups) == bsz - bsz % groups + groups
    ensures (groups * GroupSize(bsz, groups)) % groups == 0
  {
    var size := GroupSize(bsz, groups);
    assert bsz == bsz / groups * groups + bsz % groups;
    assert groups * size == size * groups == bsz / groups * groups + groups;
    DivModUnique(groups * size, size, 0, groups);
  }

  /** The padded batch has `groups * group_size` rows, of which exactly `bsz` are real. */
  lemma MaskCounts(bsz: nat, groups: nat)
    requires groups >= 1
    ensures Count(Mask(bsz, groups)) == bsz
    ensures |Mask(bsz, groups)| == if bsz % groups == 0 then bsz else groups * GroupSize(bsz, groups)
    ensures |Mask(bsz, groups)| % groups == 0
  {
    hide Real, Count, GroupSize;
    if bsz % groups == 0 {
      CountAll(bsz);
    } else {
      CountGroups(bsz, groups, groups);
      GroupRows(bsz, groups);
      assert Mask(bsz, groups)[..groups * GroupSize(bsz, groups)] == Mask(bsz, groups);
    }
  }

  // ----- padding and selecting

  /** Every row that is not real is the padding row. */
  lemma {:induction false} PadsArePadding<T>(rows: seq<T>, padding: T, mask: seq<bool>, i: nat)
    requires Count(mask) <= |rows| && i < |mask| && !mask[i]
    ensures Indices(mask)[i] == -1
    ensures At(rows + [padding], Indices(mask)[i]) == padding
  {
    if i < |mask| - 1 {
      PadsArePadding(rows, padding, mask[..|mask| - 1], i);
    }
  }

  lemma {:induction false} SelectPrefix<T>(rows: seq<T>, padding: T, mask: seq<bool>)
    requires Count(mask) <= |rows|
    ensures forall i :: 0 <= i < |mask| ==> -1 <= Indices(mask)[i] < |rows|
    ensures Select(PadByIndex(rows, padding, Indices(mask)), mask) == rows[..Count(mask)]
  {
    if mask != [] {
      var init := mask[..|mask| - 1];
      SelectPrefix(rows, padding, init);
      var padded := PadByIndex(rows, padding, Indices(mask));
      assert padded[..|padded| - 1] == PadByIndex(rows, padding, Indices(init));
    }
  }

  /** `generate_with_graceful_padding`, the workers computing `generate` row by row on their groups. */
  function Generate<T, U>(rows: seq<T>, padding: T, groups: nat, generate: T -> U): seq<U>
    requires groups >= 1
  {
    if |rows| % groups == 0 then OnWorkers(rows, groups, generate)
    else
      var (indices, mask) := PaddingIndex(|rows|, groups);
      MaskCounts(|rows|, groups);
      SelectPrefix(rows, padding, mask);
      WorkersMap(PadByIndex(rows, padding, indices), groups, generate);
      Select(OnWorkers(PadByIndex(rows, padding, indices), groups, generate), mask)
  }

  /** Every worker gets an equal share of the rows; the results are put together in order. */
  function OnWorkers<T, U>(rows: seq<T>, groups: nat, generate: T -> U): seq<U>
    requires groups >= 1
  {
    Flatten(MapEach(generate, Shards(rows, groups)))
  }

  lemma WorkersMap<T, U>(rows: seq<T>, groups: nat, generate: T -> U)
    requires groups >= 1 && |rows| % groups == 0
    ensures OnWorkers(rows, groups, generate) == Map(generate, rows)
  {
    MapFlatten(generate, Shards(rows, groups));
    ShardsJoin(rows, groups);
  }

  /** Padding, generating on the workers and dropping the padding is generating on the batch itself. */
  lemma PaddingIsTransparent<T, U>(rows: seq<T>, padding: T, groups: nat, generate: T -> U)
    requires groups >= 1
    ensures Generate(rows, padding, groups, generate) == Map(generate, rows)
  {
    if |rows| % groups == 0 {
      WorkersMap(rows, groups, generate);
    } else {
      var (indices, mask) := PaddingIndex(|rows|, groups);
      MaskCounts(|rows|, groups);
      SelectPrefix(rows, padding, mask);
      WorkersMap(PadByIndex(rows, padding, indices), groups, generate);
      SelectMap(generate, PadByIndex(rows, padding, indices), mask);
      assert rows[..|rows|] == rows;
    }
  }
}
