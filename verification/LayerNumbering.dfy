/**
 * Merging the state dictionaries of all pipeline and virtual-pipeline stages into one: each stage
 * numbers its layers from 0, and a running offset turns these numbers into global ones.
 */
module LayerNumbering {
  import opened Arith
  import opened Sequences

  /** A key of a stage: a parameter of a layer, a parameter outside the layers, or extra state. */
  datatype Key = Layer(local: nat, param: string) | Whole(name: string) | Head(name: string) | Extra(name: string)

  /** A key of the merged dictionary. */
  datatype HfKey = HfLayer(number: nat, param: string) | HfWhole(name: string)

  /** One tensor that is written, merged across tensor-parallel ranks. */
  datatype Entry<V> = Entry(key: Key, value: V)

  type Stage<V> = seq<Entry<V>>

  /** Extra state is dropped, and so is the output layer when it is tied to the embedding. */
  predicate Skipped(key: Key, tied: bool) {
    key.Extra? || (tied && key.Head?)
  }

  function HfName(key: Key, offset: nat): HfKey {
    if key.Layer? then HfLayer(key.local + offset, key.param) else HfWhole(key.name)
  }

  /** `layers_handled`: the largest local layer number, 0 when there is none. */
  function Handled<V>(stage: Stage<V>, tied: bool): nat {
    if stage == [] then 0
    else
      var init, last := Handled(stage[..|stage| - 1], tied), stage[|stage| - 1].key;
      if !Skipped(last, tied) && last.Layer? && last.local > init then last.local else init
  }

  function PutStage<V>(dict: map<HfKey, V>, stage: Stage<V>, offset: nat, tied: bool): map<HfKey, V> {
    if stage == [] then dict
    else
      var init, last := PutStage(dict, stage[..|stage| - 1], offset, tied), stage[|stage| - 1];
      if Skipped(last.key, tied) then init else init[HfName(last.key, offset) := last.value]
  }

  /** `layers_cum` before the stage that is visited next. */
  function Offset<V>(visited: seq<Stage<V>>, tied: bool): nat {
    if visited == [] then 0
    else Offset(visited[..|visited| - 1], tied) + Handled(visited[|visited| - 1], tied) + 1
  }

  function Merged<V>(visited: seq<Stage<V>>, tied: bool): map<HfKey, V> {
    if visited == [] then map[]
    else
      var init := visited[..|visited| - 1];
      PutStage(Merged(init, tied), visited[|visited| - 1], Offset(init, tied), tied)
  }

  // ----- one key becomes one, two or three

  /** What merging across tensor-parallel ranks returns: one tensor, gate and up, or query, key and value. */
  datatype Tensors<V> = Single(whole: V) | GateUp(gate: V, up: V) | Qkv(q: V, k: V, v: V)

  /** A key of a stage with the merged tensors of all its tensor-parallel ranks. */
  datatype Parameter<V> = Parameter(key: Key, merged: Tensors<V>)

  /** `s.replace(from, to)` */
  function Replace(s: string, from: string, to: string): string {
    if |s| < |from| || from == "" then s
    else if s[..|from|] == from then to + Replace(s[|from|..], from, to)
    else [s[0]] + Replace(s[1..], from, to)
  }

  predicate OccursAt(s: string, part: string, k: nat) {
    k + |part| <= |s| && s[k..k + |part|] == part
  }

  /** Replacing the only occurrence, whatever stands before and behind it. */
  lemma {:induction false} ReplaceOnly(a: string, from: string, b: string, to: string)
    requires from != "" && forall k: nat :: OccursAt(a + from + b, from, k) ==> k == |a|
    ensures Replace(a + from + b, from, to) == a + to + b
  {
    var s := a + from + b;
    if a == "" {
      assert s[..|from|] == from && s[|from|..] == b;
      forall k: nat
        ensures !OccursAt(b, from, k)
      {
        if OccursAt(b, from, k) {
          assert s[|from| + k..|from| + k + |from|] == b[k..k + |from|];
          assert OccursAt(s, from, |from| + k);
        }
      }
      ReplaceNothing(b, from, to);
    } else {
      assert !OccursAt(s, from, 0);
      assert s[1..] == a[1..] + from + b;
      forall k: nat | OccursAt(s[1..], from, k)
        ensures k == |a| - 1
      {
        assert s[1..][k..k + |from|] == s[k + 1..k + 1 + |from|];
        assert OccursAt(s, from, k + 1);
      }
      ReplaceOnly(a[1..], from, b, to);
      assert [s[0]] + (a[1..] + to + b) == a + to + b;
    }
  }

  lemma {:induction false} ReplaceNothing(s: string, from: string, to: string)
    requires from != "" && forall k: nat :: !OccursAt(s, from, k)
    ensures Replace(s, from, to) == s
  {
    if |s| >= |from| {
      assert !OccursAt(s, from, 0);
      forall k: nat
        ensures !OccursAt(s[1..], from, k)
      {
        assert !OccursAt(s, from, k + 1);
        if k + |from| <= |s[1..]| {
          assert s[1..][k..k + |from|] == s[k + 1..k + 1 + |from|];
        }
      }
      ReplaceNothing(s[1..], from, to);
      assert s == [s[0]] + s[1..];
    }
  }

  function Renamed(key: Key, from: string, to: string): Key {
    match key
    case Layer(local, param) => Layer(local, Replace(param, from, to))
    case Whole(name) => Whole(Replace(name, from, to))
    case Head(name) => Head(Replace(name, from, to))
    case Extra(name) => Extra(Replace(name, from, to))
  }

  /** The entries that one key is written as. */
  function Parts<V>(p: Parameter<V>): (r: Stage<V>)
    ensures r != [] && forall k :: 0 <= k < |r| ==> SameKind(r[k].key, p.key)
  {
    match p.merged
    case Single(whole) => [Entry(p.key, whole)]
    case GateUp(gate, up) => [Entry(Renamed(p.key, "gate_up", "gate"), gate), Entry(Renamed(p.key, "gate_up", "up"), up)]
    case Qkv(q, k, v) =>
      [Entry(Renamed(p.key, "qkv", "q"), q), Entry(Renamed(p.key, "qkv", "k"), k), Entry(Renamed(p.key, "qkv", "v"), v)]
  }

  /** Renaming a parameter changes neither its kind nor its layer. */
  predicate SameKind(a: Key, b: Key) {
    && (a.Layer? <==> b.Layer?) && (a.Head? <==> b.Head?) && (a.Extra? <==> b.Extra?)
    && (a.Layer? && b.Layer? ==> a.local == b.local)
  }

  /** A stage as the entries that its keys are written as. */
  function Split<V>(stage: seq<Parameter<V>>): Stage<V> {
    if stage == [] then [] else Split(stage[..|stage| - 1]) + Parts(stage[|stage| - 1])
  }

  function SplitAll<V>(visited: seq<seq<Parameter<V>>>): (r: seq<Stage<V>>)
    ensures |r| == |visited| && forall p :: 0 <= p < |r| ==> r[p] == Split(visited[p])
  {
    seq(|visited|, p requires 0 <= p < |visited| => Split(visited[p]))
  }

  lemma {:induction false} PutConcat<V>(dict: map<HfKey, V>, a: Stage<V>, b: Stage<V>, offset: nat, tied: bool)
    ensures PutStage(dict, a + b, offset, tied) == PutStage(PutStage(dict, a, offset, tied), b, offset, tied)
  {
    if b == [] {
      assert a + b == a;
    } else {
      assert (a + b)[..|a + b| - 1] == a + b[..|b| - 1];
      PutConcat(dict, a, b[..|b| - 1], offset, tied);
    }
  }

  /** Whether a part is skipped and how high its layer is depend on the key only. */
  lemma {:induction false} HandledParts<V>(a: Stage<V>, parts: Stage<V>, key: Key, tied: bool)
    requires parts != [] && forall k :: 0 <= k < |parts| ==> SameKind(parts[k].key, key)
    ensures Handled(a + parts, tied)
         == var init := Handled(a, tied);
            if !Skipped(key, tied) && key.Layer? && key.local > init then key.local else init
  {
    var n := |parts| - 1;
    assert (a + parts)[..|a + parts| - 1] == a + parts[..n];
    if n > 0 {
      HandledParts(a, parts[..n], key, tied);
    } else {
      assert a + parts[..n] == a;
    }
  }

  lemma {:induction false} PutSkipped<V>(dict: map<HfKey, V>, parts: Stage<V>, offset: nat, tied: bool)
    requires forall k :: 0 <= k < |parts| ==> Skipped(parts[k].key, tied)
    ensures PutStage(dict, parts, offset, tied) == dict
  {
    if parts != [] {
      PutSkipped(dict, parts[..|parts| - 1], offset, tied);
    }
  }

  /** One more key of the stage. */
  lemma SplitSnoc<V>(dict: map<HfKey, V>, stage: seq<Parameter<V>>, k: nat, offset: nat, tied: bool)
    requires k < |stage|
    ensures PutStage(dict, Split(stage[..k + 1]), offset, tied)
         == var before := PutStage(dict, Split(stage[..k]), offset, tied);
            if Skipped(stage[k].key, tied) then before else PutStage(before, Parts(stage[k]), offset, tied)
    ensures Handled(Split(stage[..k + 1]), tied)
         == var init := Handled(Split(stage[..k]), tied);
            if !Skipped(stage[k].key, tied) && stage[k].key.Layer? && stage[k].key.local > init
            then stage[k].key.local else init
  {
    assert stage[..k + 1][..k] == stage[..k];
    var a, parts := Split(stage[..k]), Parts(stage[k]);
    PutConcat(dict, a, parts, offset, tied);
    HandledParts(a, parts, stage[k].key, tied);
    if Skipped(stage[k].key, tied) {
      PutSkipped(PutStage(dict, a, offset, tied), parts, offset, tied);
    }
  }

  // ----- _merge_state_dicts

  /** Every pipeline rank has the same number of virtual stages. */
  predicate Grid<S>(stages: seq<seq<S>>, vppSize: nat) {
    forall r :: 0 <= r < |stages| ==> |stages[r]| == vppSize
  }

  /** The stages in the order of the loops, up to pipeline rank `r` of virtual rank `v`. */
  function Visited<S>(stages: seq<seq<S>>, vppSize: nat, v: nat, r: nat): seq<S>
    requires Grid(stages, vppSize) && r <= |stages| && (v < vppSize || (v == vppSize && r == 0))
    decreases v, r
  {
    if r > 0 then Visited(stages, vppSize, v, r - 1) + [stages[r - 1][v]]
    else if v > 0 then Visited(stages, vppSize, v - 1, |stages|)
    else []
  }

  /** Writes the tensors of one key under its global name or names. */
  method PutParameter<V>(dict: map<HfKey, V>, p: Parameter<V>, offset: nat, tied: bool) returns (dict': map<HfKey, V>)
    requires !Skipped(p.key, tied)
    ensures dict' == PutStage(dict, Parts(p), offset, tied)
  {
    dict' := dict;
    var parts := Parts(p);
    for k := 0 to |parts|
      invariant dict' == PutStage(dict, parts[..k], offset, tied)
    {
      StageSnoc(dict, parts, k, offset, tied);
      dict' := dict'[HfName(parts[k].key, offset) := parts[k].value];
    }
    assert parts[..|parts|] == parts;
  }

  method MergeStateDicts<V>(stages: seq<seq<seq<Parameter<V>>>>, tied: bool) returns (dict: map<HfKey, V>)
    requires stages != [] && Grid(stages, |stages[0]|)
    ensures IsMergeOf(dict, Visited(stages, |stages[0]|, |stages[0]|, 0), tied)
    ensures dict == Merged(SplitAll(Visited(stages, |stages[0]|, |stages[0]|, 0)), tied)
  {
    hide AreHeights, IsDictionary, Merged, SplitAll, Visited;
    dict := MergeLoops(stages, tied);
    MergedIs(Visited(stages, |stages[0]|, |stages[0]|, 0), tied);
  }

  /** The loops over virtual ranks and pipeline ranks. */
  method MergeLoops<V>(stages: seq<seq<seq<Parameter<V>>>>, tied: bool) returns (dict: map<HfKey, V>)
    requires stages != [] && Grid(stages, |stages[0]|)
    ensures dict == Merged(SplitAll(Visited(stages, |stages[0]|, |stages[0]|, 0)), tied)
  {
    hide Merged, Offset, PutStage, Split, SplitAll;
    MergedNone<V>(tied);
    dict := map[];
    var vppSize := |stages[0]|;
    var layersCum := 0;
    NoStages<V>();
    for v := 0 to vppSize
      invariant dict == Merged(SplitAll(Visited(stages, vppSize, v, 0)), tied)
      invariant layersCum == Offset(SplitAll(Visited(stages, vppSize, v, 0)), tied)
    {
      for r := 0 to |stages|
        invariant dict == Merged(SplitAll(Visited(stages, vppSize, v, r)), tied)
        invariant layersCum == Offset(SplitAll(Visited(stages, vppSize, v, r)), tied)
      {
        StageMerged(Visited(stages, vppSize, v, r), stages[r][v], tied);
        var layersHandled;
        dict, layersHandled := MergeStage(dict, stages[r][v], layersCum, tied);
        layersCum := layersCum + layersHandled + 1;
      }
    }
  }

  /** The loop over the keys of one stage. */
  method MergeStage<V>(dict: map<HfKey, V>, stage: seq<Parameter<V>>, layersCum: nat, tied: bool)
      returns (dict': map<HfKey, V>, layersHandled: nat)
    ensures dict' == PutStage(dict, Split(stage), layersCum, tied) && layersHandled == Handled(Split(stage), tied)
  {
    hide PutStage, Split, Handled, Parts;
    dict', layersHandled := dict, 0;
    NoKeys(dict, layersCum, tied);
    assert stage[..0] == [];
    for k := 0 to |stage|
      invariant dict' == PutStage(dict, Split(stage[..k]), layersCum, tied)
      invariant layersHandled == Handled(Split(stage[..k]), tied)
    {
      SplitSnoc(dict, stage, k, layersCum, tied);
      var key := stage[k].key;
      if !Skipped(key, tied) {
        if key.Layer? && key.local > layersHandled {
          layersHandled := key.local;
        }
        dict' := PutParameter(dict', stage[k], layersCum, tied);
      }
    }
    assert stage[..|stage|] == stage;
  }

  lemma NoKeys<V>(dict: map<HfKey, V>, offset: nat, tied: bool)
    ensures Split<V>([]) == [] && PutStage(dict, [], offset, tied) == dict && Handled<V>([], tied) == 0
  {
  }

  lemma NoStages<V>()
    ensures SplitAll<V>([]) == []
  {
  }

  lemma StageMerged<V>(visited: seq<seq<Parameter<V>>>, stage: seq<Parameter<V>>, tied: bool)
    ensures Merged(SplitAll(visited + [stage]), tied)
         == PutStage(Merged(SplitAll(visited), tied), Split(stage), Offset(SplitAll(visited), tied), tied)
    ensures Offset(SplitAll(visited + [stage]), tied) == Offset(SplitAll(visited), tied) + Handled(Split(stage), tied) + 1
  {
    MergedSnoc(SplitAll(visited), Split(stage), tied);
    assert SplitAll(visited + [stage]) == SplitAll(visited) + [Split(stage)];
  }

  lemma MergedNone<V>(tied: bool)
    ensures Merged<V>([], tied) == map[] && Offset<V>([], tied) == 0
  {
  }

  lemma MergedSnoc<V>(visited: seq<Stage<V>>, stage: Stage<V>, tied: bool)
    ensures Merged(visited + [stage], tied) == PutStage(Merged(visited, tied), stage, Offset(visited, tied), tied)
    ensures Offset(visited + [stage], tied) == Offset(visited, tied) + Handled(stage, tied) + 1
  {
    assert (visited + [stage])[..|visited|] == visited;
  }

  lemma StageSnoc<V>(dict: map<HfKey, V>, stage: Stage<V>, k: nat, offset: nat, tied: bool)
    requires k < |stage|
    ensures PutStage(dict, stage[..k + 1], offset, tied)
         == if Skipped(stage[k].key, tied) then PutStage(dict, stage[..k], offset, tied)
            else PutStage(dict, stage[..k], offset, tied)[HfName(stage[k].key, offset) := stage[k].value]
    ensures Handled(stage[..k + 1], tied)
         == var init := Handled(stage[..k], tied);
            if !Skipped(stage[k].key, tied) && stage[k].key.Layer? && stage[k].key.local > init
            then stage[k].key.local else init
  {
    assert stage[..k + 1][..k] == stage[..k];
  }

  /** Virtual ranks are the outer loop and pipeline ranks the inner one. */
  lemma {:induction false} VisitedAt<S>(stages: seq<seq<S>>, vppSize: nat, v: nat, r: nat)
    requires Grid(stages, vppSize) && v < vppSize && r <= |stages|
    ensures |Visited(stages, vppSize, v, r)| == v * |stages| + r
    ensures |Visited(stages, vppSize, v + 1, 0)| == v * |stages| + |stages|
    ensures r < |stages| ==>
      v * |stages| + r < |Visited(stages, vppSize, v + 1, 0)|
      && Visited(stages, vppSize, v + 1, 0)[v * |stages| + r] == stages[r][v]
    decreases v, |stages| - r
  {
    VisitedLength(stages, vppSize, v, r);
    VisitedLength(stages, vppSize, v, |stages|);
    if r < |stages| {
      VisitedPrefix(stages, vppSize, v, r + 1, |stages|);
      assert Visited(stages, vppSize, v, r + 1)[v * |stages| + r] == stages[r][v];
    }
  }

  lemma {:induction false} VisitedLength<S>(stages: seq<seq<S>>, vppSize: nat, v: nat, r: nat)
    requires Grid(stages, vppSize) && v < vppSize && r <= |stages|
    ensures |Visited(stages, vppSize, v, r)| == v * |stages| + r
    decreases v, r
  {
    if r > 0 {
      VisitedLength(stages, vppSize, v, r - 1);
    } else if v > 0 {
      VisitedLength(stages, vppSize, v - 1, |stages|);
      assert v * |stages| == (v - 1) * |stages| + |stages|;
    }
  }

  lemma {:induction false} VisitedPrefix<S>(stages: seq<seq<S>>, vppSize: nat, v: nat, r: nat, r': nat)
    requires Grid(stages, vppSize) && v < vppSize && r <= r' <= |stages|
    ensures |Visited(stages, vppSize, v, r)| <= |Visited(stages, vppSize, v, r')|
    ensures Visited(stages, vppSize, v, r')[..|Visited(stages, vppSize, v, r)|] == Visited(stages, vppSize, v, r)
    decreases r'
  {
    if r < r' {
      VisitedPrefix(stages, vppSize, v, r, r' - 1);
    }
  }

  // ----- the numbers

  /** Keys of one stage are distinct, as those of a dictionary are. */
  predicate DistinctKeys<V>(stage: Stage<V>) {
    forall i, j :: 0 <= i < j < |stage| ==> stage[i].key != stage[j].key
  }

  lemma {:induction false} LocalAtMost<V>(stage: Stage<V>, k: nat, tied: bool)
    requires k < |stage| && stage[k].key.Layer?
    ensures stage[k].key.local <= Handled(stage, tied)
  {
    if k < |stage| - 1 {
      LocalAtMost(stage[..|stage| - 1], k, tied);
    }
  }

  lemma {:induction false} OffsetGrows<V>(visited: seq<Stage<V>>, p: nat, tied: bool)
    requires p < |visited|
    ensures Offset(visited[..p], tied) + Handled(visited[p], tied) + 1 <= Offset(visited, tied)
  {
    var init := visited[..|visited| - 1];
    if p < |visited| - 1 {
      assert init[..p] == visited[..p];
      OffsetGrows(init, p, tied);
    }
  }

  /** The global number of layer `local` of the stage visited at position `p`. */
  function GlobalNo<V>(visited: seq<Stage<V>>, p: nat, local: nat, tied: bool): nat
    requires p <= |visited|
  {
    Offset(visited[..p], tied) + local
  }

  predicate HasLayer<V>(visited: seq<Stage<V>>, p: nat, k: nat, local: nat) {
    p < |visited| && k < |visited[p]| && visited[p][k].key.Layer? && visited[p][k].key.local == local
  }

  /** The numbers follow the order of the visit, so no two layers share one. */
  lemma InVisitingOrder<V>(visited: seq<Stage<V>>, p: nat, k: nat, p': nat, k': nat, local: nat, local': nat, tied: bool)
    requires HasLayer(visited, p, k, local) && HasLayer(visited, p', k', local')
    ensures GlobalNo(visited, p, local, tied) < GlobalNo(visited, p', local', tied)
       <==> p < p' || (p == p' && local < local')
    ensures GlobalNo(visited, p, local, tied) == GlobalNo(visited, p', local', tied) <==> p == p' && local == local'
  {
    LocalAtMost(visited[p], k, tied);
    LocalAtMost(visited[p'], k', tied);
    if p < p' {
      OffsetGrows(visited[..p'], p, tied);
      assert visited[..p'][..p] == visited[..p];
    } else if p' < p {
      OffsetGrows(visited[..p], p', tied);
      assert visited[..p][..p'] == visited[..p'];
    }
  }

  // ----- the merged dictionary

  ghost predicate Writes<V>(stage: Stage<V>, offset: nat, tied: bool, key: HfKey) {
    exists k :: 0 <= k < |stage| && !Skipped(stage[k].key, tied) && HfName(stage[k].key, offset) == key
  }

  lemma {:induction false} PutStageDomain<V>(dict: map<HfKey, V>, stage: Stage<V>, offset: nat, tied: bool, key: HfKey)
    ensures key in PutStage(dict, stage, offset, tied) <==> key in dict || Writes(stage, offset, tied, key)
    ensures !Writes(stage, offset, tied, key) && key in dict ==> PutStage(dict, stage, offset, tied)[key] == dict[key]
  {
    if stage != [] {
      var init, n := stage[..|stage| - 1], |stage| - 1;
      PutStageDomain(dict, init, offset, tied, key);
      if Writes(init, offset, tied, key) {
        var k :| 0 <= k < |init| && !Skipped(init[k].key, tied) && HfName(init[k].key, offset) == key;
        assert stage[k] == init[k];
      }
      assert stage[n].key == stage[|stage| - 1].key;
    }
  }

  lemma {:induction false} PutStageHas<V>(dict: map<HfKey, V>, stage: Stage<V>, offset: nat, tied: bool, k: nat)
    requires DistinctKeys(stage) && k < |stage| && stage[k].key.Layer?
    ensures HfName(stage[k].key, offset) in PutStage(dict, stage, offset, tied)
    ensures PutStage(dict, stage, offset, tied)[HfName(stage[k].key, offset)] == stage[k].value
  {
    if k < |stage| - 1 {
      PutStageHas(dict, stage[..|stage| - 1], offset, tied, k);
      assert stage[k].key != stage[|stage| - 1].key;
    }
  }

  /** No layer key is overwritten: each parameter of each layer is found under its global number. */
  lemma {:induction false} LayersKept<V>(visited: seq<Stage<V>>, p: nat, k: nat, tied: bool)
    requires forall q :: 0 <= q < |visited| ==> DistinctKeys(visited[q])
    requires p < |visited| && k < |visited[p]| && visited[p][k].key.Layer?
    ensures var e := visited[p][k];
      var key := HfLayer(GlobalNo(visited, p, e.key.local, tied), e.key.param);
      key in Merged(visited, tied) && Merged(visited, tied)[key] == e.value
  {
    var init, last := visited[..|visited| - 1], visited[|visited| - 1];
    var e := visited[p][k];
    if p < |visited| - 1 {
      LayersKept(init, p, k, tied);
      assert init[..p] == visited[..p];
      OffsetGrows(init, p, tied);
      LocalAtMost(visited[p], k, tied);
      PutStageDomain(Merged(init, tied), last, Offset(init, tied), tied, HfLayer(GlobalNo(visited, p, e.key.local, tied), e.key.param));
    } else {
      PutStageHas(Merged(init, tied), last, Offset(init, tied), tied, k);
    }
  }

  /** And nothing else is in the merged dictionary under a layer number. */
  lemma {:induction false} OnlyLayers<V>(visited: seq<Stage<V>>, number: nat, param: string, tied: bool)
      returns (p: nat, k: nat)
    requires HfLayer(number, param) in Merged(visited, tied)
    ensures p < |visited| && k < |visited[p]| && visited[p][k].key.Layer? && visited[p][k].key.param == param
    ensures GlobalNo(visited, p, visited[p][k].key.local, tied) == number
  {
    var init, last := visited[..|visited| - 1], visited[|visited| - 1];
    PutStageDomain(Merged(init, tied), last, Offset(init, tied), tied, HfLayer(number, param));
    if HfLayer(number, param) in Merged(init, tied) {
      p, k := OnlyLayers(init, number, param, tied);
      assert init[..p] == visited[..p];
    } else {
      p := |visited| - 1;
      k :| 0 <= k < |last| && !Skipped(last[k].key, tied) && HfName(last[k].key, Offset(init, tied)) == HfLayer(number, param);
    }
  }

  // ----- the merged dictionary, said of the keys and tensors of the stages

  function NameOf(key: Key): string {
    match key
    case Layer(_, param) => param
    case Whole(name) => name
    case Head(name) => name
    case Extra(name) => name
  }

  function PartCount<V>(q: Parameter<V>): nat {
    match q.merged
    case Single(_) => 1
    case GateUp(_, _) => 2
    case Qkv(_, _, _) => 3
  }

  /** The name that part `j` is written under. */
  function PartName<V>(q: Parameter<V>, j: nat): string {
    var name := NameOf(q.key);
    match q.merged
    case Single(_) => name
    case GateUp(_, _) => if j == 0 then Replace(name, "gate_up", "gate") else Replace(name, "gate_up", "up")
    case Qkv(_, _, _) =>
      if j == 0 then Replace(name, "qkv", "q") else if j == 1 then Replace(name, "qkv", "k") else Replace(name, "qkv", "v")
  }

  function PartValue<V>(q: Parameter<V>, j: nat): V {
    match q.merged
    case Single(whole) => whole
    case GateUp(gate, up) => if j == 0 then gate else up
    case Qkv(query, key, value) => if j == 0 then query else if j == 1 then key else value
  }

  /** One more than the highest local layer number, and 1 for a stage without layers. */
  ghost predicate IsHeight<V>(stage: seq<Parameter<V>>, height: nat) {
    && height >= 1
    && (forall k :: 0 <= k < |stage| && stage[k].key.Layer? ==> stage[k].key.local < height)
    && (height > 1 ==> exists k :: 0 <= k < |stage| && stage[k].key.Layer? && stage[k].key.local == height - 1)
  }

  ghost predicate AreHeights<V>(visited: seq<seq<Parameter<V>>>, heights: seq<nat>) {
    |heights| == |visited| && forall p :: 0 <= p < |visited| ==> IsHeight(visited[p], heights[p])
  }

  /** One write: part `part` of key `key` of the stage visited at `stage`. */
  datatype Place = Place(stage: nat, key: nat, part: nat)

  predicate Before(x: Place, y: Place) {
    x.stage < y.stage || (x.stage == y.stage && (x.key < y.key || (x.key == y.key && x.part < y.part)))
  }

  /**
   * This write goes to `name`: extra state is not written, nor is a tied output layer; a layer has its local
   * number plus the heights of the stages before it.
   */
  predicate WritesTo<V>(visited: seq<seq<Parameter<V>>>, heights: seq<nat>, tied: bool, w: Place, name: HfKey) {
    && |heights| == |visited| && w.stage < |visited| && w.key < |visited[w.stage]|
    && var q := visited[w.stage][w.key];
    && w.part < PartCount(q) && !q.key.Extra? && !(q.key.Head? && tied)
    && name == if q.key.Layer? then HfLayer(Sum(heights[..w.stage]) + q.key.local, PartName(q, w.part))
               else HfWhole(PartName(q, w.part))
  }

  /** No later write goes to the same name. */
  ghost predicate LastWrite<V>(visited: seq<seq<Parameter<V>>>, heights: seq<nat>, tied: bool, w: Place, name: HfKey) {
    && WritesTo(visited, heights, tied, w, name)
    && forall later: Place :: WritesTo(visited, heights, tied, later, name) ==> !Before(w, later)
  }

  /** Exactly the names that are written to are in the dictionary, each with the tensor of its last write. */
  ghost predicate IsDictionary<V>(dict: map<HfKey, V>, visited: seq<seq<Parameter<V>>>, heights: seq<nat>, tied: bool) {
    && (forall name: HfKey :: name in dict <==> exists w: Place :: WritesTo(visited, heights, tied, w, name))
    && forall w: Place, name: HfKey :: LastWrite(visited, heights, tied, w, name) ==> Stored(dict, visited, w, name)
  }

  /** The name holds the tensor of this write. */
  ghost predicate Stored<V>(dict: map<HfKey, V>, visited: seq<seq<Parameter<V>>>, w: Place, name: HfKey) {
    && w.stage < |visited| && w.key < |visited[w.stage]|
    && name in dict && dict[name] == PartValue(visited[w.stage][w.key], w.part)
  }

  /** The dictionary of all stages, the layers of each numbered from the heights of the stages before it. */
  ghost predicate IsMergeOf<V>(dict: map<HfKey, V>, visited: seq<seq<Parameter<V>>>, tied: bool) {
    exists heights: seq<nat> :: AreHeights(visited, heights) && IsDictionary(dict, visited, heights, tied)
  }

  lemma PartsAre<V>(q: Parameter<V>, j: nat, offset: nat)
    ensures |Parts(q)| == PartCount(q)
    ensures j < PartCount(q) ==>
      && Parts(q)[j].value == PartValue(q, j)
      && HfName(Parts(q)[j].key, offset)
           == if q.key.Layer? then HfLayer(offset + q.key.local, PartName(q, j)) else HfWhole(PartName(q, j))
  {
  }

  /** `at[a]` is the key, and the part of it, that entry `a` of the split stage comes from. */
  ghost predicate SplitPlaces<V>(at: seq<(nat, nat)>, stage: seq<Parameter<V>>) {
    && |at| == |Split(stage)|
    && (forall a :: 0 <= a < |at| ==>
         at[a].0 < |stage| && at[a].1 < |Parts(stage[at[a].0])| && Split(stage)[a] == Parts(stage[at[a].0])[at[a].1])
    && (forall a, b :: 0 <= a < b < |at| ==> at[a].0 < at[b].0 || (at[a].0 == at[b].0 && at[a].1 < at[b].1))
    && forall k, j :: 0 <= k < |stage| && 0 <= j < |Parts(stage[k])| ==> (k, j) in at
  }

  function LastPlaces(k: nat, n: nat): (r: seq<(nat, nat)>)
    ensures |r| == n && forall j :: 0 <= j < n ==> r[j] == (k, j)
  {
    seq(n, j requires 0 <= j => (k, j))
  }

  lemma {:induction false} PlacesOfSplit<V>(stage: seq<Parameter<V>>) returns (at: seq<(nat, nat)>)
    ensures SplitPlaces(at, stage)
  {
    if stage == [] {
      at := [];
    } else {
      var n := |stage| - 1;
      at := PlacesOfSplit(stage[..n]);
      PlacesSnoc(at, stage);
      at := at + LastPlaces(n, |Parts(stage[n])|);
    }
  }

  lemma PlacesSnoc<V>(at: seq<(nat, nat)>, stage: seq<Parameter<V>>)
    requires stage != [] && SplitPlaces(at, stage[..|stage| - 1])
    ensures SplitPlaces(at + LastPlaces(|stage| - 1, |Parts(stage[|stage| - 1])|), stage)
  {
    var n := |stage| - 1;
    var own := LastPlaces(n, |Parts(stage[n])|);
    assert Split(stage) == Split(stage[..n]) + Parts(stage[n]);
    hide Parts, Split;
    EarlierPlaces(at, stage);
    PlacesInOrder(at, own, n);
    PlacesComplete(at, own, stage);
    EntriesFrom(at, own, stage);
    hide LastPlaces;
  }

  lemma EntriesFrom<V>(at: seq<(nat, nat)>, own: seq<(nat, nat)>, stage: seq<Parameter<V>>)
    requires stage != [] && SplitPlaces(at, stage[..|stage| - 1])
    requires own == LastPlaces(|stage| - 1, |Parts(stage[|stage| - 1])|)
    requires Split(stage) == Split(stage[..|stage| - 1]) + Parts(stage[|stage| - 1])
    ensures var all := at + own;
      |all| == |Split(stage)| && forall a :: 0 <= a < |all| ==>
        all[a].0 < |stage| && all[a].1 < |Parts(stage[all[a].0])| && Split(stage)[a] == Parts(stage[all[a].0])[all[a].1]
  {
    hide Parts, Split;
    EarlierPlaces(at, stage);
    var all, n := at + own, |stage| - 1;
    forall a | 0 <= a < |all|
      ensures all[a].0 < |stage| && all[a].1 < |Parts(stage[all[a].0])|
      ensures Split(stage)[a] == Parts(stage[all[a].0])[all[a].1]
    {
      if a < |at| {
        assert all[a] == at[a] && Split(stage)[a] == Split(stage[..n])[a];
      } else {
        assert all[a] == (n, a - |at|) && Split(stage)[a] == Parts(stage[n])[a - |at|];
      }
    }
  }

  lemma EarlierPlaces<V>(at: seq<(nat, nat)>, stage: seq<Parameter<V>>)
    requires stage != [] && SplitPlaces(at, stage[..|stage| - 1])
    ensures forall a :: 0 <= a < |at| ==>
      at[a].0 < |stage| - 1 && at[a].1 < |Parts(stage[at[a].0])|
      && Split(stage[..|stage| - 1])[a] == Parts(stage[at[a].0])[at[a].1]
  {
    hide Parts, Split;
  }

  lemma PlacesInOrder(at: seq<(nat, nat)>, own: seq<(nat, nat)>, n: nat)
    requires forall a, b :: 0 <= a < b < |at| ==> at[a].0 < at[b].0 || (at[a].0 == at[b].0 && at[a].1 < at[b].1)
    requires forall a :: 0 <= a < |at| ==> at[a].0 < n
    requires forall j :: 0 <= j < |own| ==> own[j] == (n, j)
    ensures var all := at + own;
      forall a, b :: 0 <= a < b < |all| ==> all[a].0 < all[b].0 || (all[a].0 == all[b].0 && all[a].1 < all[b].1)
  {
  }

  lemma PlacesComplete<V>(at: seq<(nat, nat)>, own: seq<(nat, nat)>, stage: seq<Parameter<V>>)
    requires stage != [] && SplitPlaces(at, stage[..|stage| - 1])
    requires own == LastPlaces(|stage| - 1, |Parts(stage[|stage| - 1])|)
    ensures forall k, j :: 0 <= k < |stage| && 0 <= j < |Parts(stage[k])| ==> (k, j) in at + own
  {
    hide Parts, Split;
    var n := |stage| - 1;
    forall k, j | 0 <= k < |stage| && 0 <= j < |Parts(stage[k])|
      ensures (k, j) in at + own
    {
      if k < n {
        assert stage[..n][k] == stage[k];
        assert (k, j) in at;
      } else {
        assert own[j] == (k, j);
      }
    }
  }

  // ----- the same, of the entries

  predicate EntryWrites<V>(visited: seq<Stage<V>>, tied: bool, p: nat, a: nat, name: HfKey) {
    && p < |visited| && a < |visited[p]| && !Skipped(visited[p][a].key, tied)
    && HfName(visited[p][a].key, Offset(visited[..p], tied)) == name
  }

  lemma {:induction false} MergedDomain<V>(visited: seq<Stage<V>>, tied: bool, name: HfKey)
    ensures name in Merged(visited, tied) <==> exists p: nat, a: nat :: EntryWrites(visited, tied, p, a, name)
  {
    if visited != [] {
      var n := |visited| - 1;
      var init := visited[..n];
      MergedDomain(init, tied, name);
      PutStageDomain(Merged(init, tied), visited[n], Offset(init, tied), tied, name);
      hide PutStage, Offset;
      if p: nat, a: nat :| EntryWrites(init, tied, p, a, name) {
        assert init[..p] == visited[..p];
        assert EntryWrites(visited, tied, p, a, name);
      }
      if Writes(visited[n], Offset(init, tied), tied, name) {
        var a :| 0 <= a < |visited[n]| && !Skipped(visited[n][a].key, tied) && HfName(visited[n][a].key, Offset(init, tied)) == name;
        assert EntryWrites(visited, tied, n, a, name);
      }
      if p: nat, a: nat :| EntryWrites(visited, tied, p, a, name) {
        if p < n {
          assert init[..p] == visited[..p];
          assert EntryWrites(init, tied, p, a, name);
        }
      }
    }
  }

  lemma {:induction false} PutStageLast<V>(dict: map<HfKey, V>, stage: Stage<V>, offset: nat, tied: bool, a: nat)
    requires a < |stage| && !Skipped(stage[a].key, tied)
    requires forall b :: a < b < |stage| && !Skipped(stage[b].key, tied) ==>
      HfName(stage[b].key, offset) != HfName(stage[a].key, offset)
    ensures HfName(stage[a].key, offset) in PutStage(dict, stage, offset, tied)
    ensures PutStage(dict, stage, offset, tied)[HfName(stage[a].key, offset)] == stage[a].value
  {
    if a < |stage| - 1 {
      PutStageLast(dict, stage[..|stage| - 1], offset, tied, a);
    }
  }

  predicate LastEntry<V>(visited: seq<Stage<V>>, tied: bool, p: nat, a: nat, name: HfKey) {
    && EntryWrites(visited, tied, p, a, name)
    && forall q: nat, b: nat :: q < |visited| && b < |visited[q]| && EntryWrites(visited, tied, q, b, name) ==>
         q < p || (q == p && b <= a)
  }

  lemma {:induction false} LastEntryWins<V>(visited: seq<Stage<V>>, tied: bool, p: nat, a: nat, name: HfKey)
    requires LastEntry(visited, tied, p, a, name)
    ensures name in Merged(visited, tied) && Merged(visited, tied)[name] == visited[p][a].value
  {
    var n := |visited| - 1;
    var init := visited[..n];
    if p < n {
      EarlierLast(visited, tied, p, a, name);
      LastEntryWins(init, tied, p, a, name);
      if Writes(visited[n], Offset(init, tied), tied, name) {
        var b :| 0 <= b < |visited[n]| && !Skipped(visited[n][b].key, tied) && HfName(visited[n][b].key, Offset(init, tied)) == name;
        assert EntryWrites(visited, tied, n, b, name);
      }
      PutStageDomain(Merged(init, tied), visited[n], Offset(init, tied), tied, name);
    } else {
      forall b | a < b < |visited[n]| && !Skipped(visited[n][b].key, tied)
        ensures HfName(visited[n][b].key, Offset(init, tied)) != name
      {
        if HfName(visited[n][b].key, Offset(init, tied)) == name {
          assert EntryWrites(visited, tied, n, b, name);
        }
      }
      PutStageLast(Merged(init, tied), visited[n], Offset(init, tied), tied, a);
    }
  }

  lemma EarlierLast<V>(visited: seq<Stage<V>>, tied: bool, p: nat, a: nat, name: HfKey)
    requires LastEntry(visited, tied, p, a, name) && p < |visited| - 1
    ensures LastEntry(visited[..|visited| - 1], tied, p, a, name)
  {
    var init := visited[..|visited| - 1];
    hide Offset;
    assert init[..p] == visited[..p];
    forall q: nat, b: nat | q < |init| && b < |init[q]| && EntryWrites(init, tied, q, b, name)
      ensures q < p || (q == p && b <= a)
    {
      assert init[..q] == visited[..q];
      assert EntryWrites(visited, tied, q, b, name);
    }
  }

  // ----- keys and entries

  lemma HeightIs<V>(stage: seq<Parameter<V>>, tied: bool)
    ensures IsHeight(stage, Handled(Split(stage), tied) + 1)
  {
    hide Parts, Split, Handled;
    var at := PlacesOfSplit(stage);
    var split := Split(stage);
    forall k | 0 <= k < |stage| && stage[k].key.Layer?
      ensures stage[k].key.local <= Handled(split, tied)
    {
      assert (k, 0) in at;
      var a :| 0 <= a < |at| && at[a] == (k, 0);
      assert SameKind(split[a].key, stage[k].key);
      LocalAtMost(split, a, tied);
    }
    HandledReached(split, tied);
    if Handled(split, tied) > 0 {
      var a :| 0 <= a < |split| && split[a].key.Layer? && split[a].key.local == Handled(split, tied);
      assert SameKind(split[a].key, stage[at[a].0].key);
    }
  }

  function HeightsOf<V>(visited: seq<seq<Parameter<V>>>, tied: bool): (r: seq<nat>)
    ensures |r| == |visited| && forall p :: 0 <= p < |r| ==> r[p] == Handled(Split(visited[p]), tied) + 1
  {
    seq(|visited|, p requires 0 <= p < |visited| => Handled(Split(visited[p]), tied) + 1)
  }

  lemma {:induction false} OffsetsAre<V>(visited: seq<seq<Parameter<V>>>, tied: bool, p: nat)
    requires p <= |visited|
    ensures Offset(SplitAll(visited)[..p], tied) == Sum(HeightsOf(visited, tied)[..p])
  {
    hide Handled, Split;
    if p > 0 {
      OffsetsAre(visited, tied, p - 1);
      assert SplitAll(visited)[..p][..p - 1] == SplitAll(visited)[..p - 1];
      assert HeightsOf(visited, tied)[..p][..p - 1] == HeightsOf(visited, tied)[..p - 1];
    }
  }

  /** A write of a key is the write of one entry. */
  lemma WriteIsEntry<V>(visited: seq<seq<Parameter<V>>>, tied: bool, at: seq<(nat, nat)>, w: Place, a: nat, name: HfKey)
    requires w.stage < |visited| && SplitPlaces(at, visited[w.stage]) && a < |at| && at[a] == (w.key, w.part)
    ensures WritesTo(visited, HeightsOf(visited, tied), tied, w, name)
       <==> EntryWrites(SplitAll(visited), tied, w.stage, a, name)
    ensures w.key < |visited[w.stage]| && SplitAll(visited)[w.stage][a].value == PartValue(visited[w.stage][w.key], w.part)
  {
    hide Parts, Split, Offset, PartName, PartValue, PartCount, HfName, Skipped, Sum;
    var q := visited[w.stage][w.key];
    OffsetsAre(visited, tied, w.stage);
    EntryIs(q, w.part, Offset(SplitAll(visited)[..w.stage], tied), tied);
  }

  lemma EntryIs<V>(q: Parameter<V>, j: nat, offset: nat, tied: bool)
    requires j < |Parts(q)|
    ensures j < PartCount(q) && Parts(q)[j].value == PartValue(q, j)
    ensures Skipped(Parts(q)[j].key, tied) <==> q.key.Extra? || (q.key.Head? && tied)
    ensures HfName(Parts(q)[j].key, offset)
         == if q.key.Layer? then HfLayer(offset + q.key.local, PartName(q, j)) else HfWhole(PartName(q, j))
  {
    PartsAre(q, j, offset);
    hide Parts, PartName, PartValue, PartCount, HfName;
    assert SameKind(Parts(q)[j].key, q.key);
  }

  ghost predicate AllPlaces<V>(ats: seq<seq<(nat, nat)>>, visited: seq<seq<Parameter<V>>>) {
    |ats| == |visited| && forall p :: 0 <= p < |visited| ==> SplitPlaces(ats[p], visited[p])
  }

  lemma {:induction false} PlacesOfAll<V>(visited: seq<seq<Parameter<V>>>) returns (ats: seq<seq<(nat, nat)>>)
    ensures AllPlaces(ats, visited)
  {
    hide SplitPlaces;
    if visited == [] {
      ats := [];
    } else {
      var n := |visited| - 1;
      ats := PlacesOfAll(visited[..n]);
      var own := PlacesOfSplit(visited[n]);
      ats := ats + [own];
    }
  }

  /** The entry of a write. */
  lemma EntryOf<V>(visited: seq<seq<Parameter<V>>>, tied: bool, ats: seq<seq<(nat, nat)>>, w: Place, name: HfKey)
      returns (a: nat)
    requires AllPlaces(ats, visited) && WritesTo(visited, HeightsOf(visited, tied), tied, w, name)
    ensures w.stage < |visited| && a < |ats[w.stage]| && ats[w.stage][a] == (w.key, w.part)
    ensures EntryWrites(SplitAll(visited), tied, w.stage, a, name)
  {
    hide Parts, Split, Offset, PartName, HfName;
    PartsAre(visited[w.stage][w.key], w.part, 0);
    assert (w.key, w.part) in ats[w.stage];
    a :| 0 <= a < |ats[w.stage]| && ats[w.stage][a] == (w.key, w.part);
    WriteIsEntry(visited, tied, ats[w.stage], w, a, name);
  }

  /** The write of an entry. */
  lemma WriteOf<V>(visited: seq<seq<Parameter<V>>>, tied: bool, ats: seq<seq<(nat, nat)>>, p: nat, a: nat, name: HfKey)
      returns (w: Place)
    requires AllPlaces(ats, visited) && EntryWrites(SplitAll(visited), tied, p, a, name)
    ensures p < |visited| && a < |ats[p]| && w == Place(p, ats[p][a].0, ats[p][a].1)
    ensures WritesTo(visited, HeightsOf(visited, tied), tied, w, name)
  {
    hide Parts, Split, Offset, PartName, HfName;
    w := Place(p, ats[p][a].0, ats[p][a].1);
    WriteIsEntry(visited, tied, ats[p], w, a, name);
  }

  lemma LastIsLast<V>(visited: seq<seq<Parameter<V>>>, tied: bool, ats: seq<seq<(nat, nat)>>, w: Place, a: nat, name: HfKey)
    requires AllPlaces(ats, visited) && LastWrite(visited, HeightsOf(visited, tied), tied, w, name)
    requires w.stage < |visited| && a < |ats[w.stage]| && ats[w.stage][a] == (w.key, w.part)
    requires EntryWrites(SplitAll(visited), tied, w.stage, a, name)
    ensures LastEntry(SplitAll(visited), tied, w.stage, a, name)
  {
    hide WritesTo, EntryWrites, Split, Parts;
    var split := SplitAll(visited);
    forall q: nat, b: nat | q < |split| && b < |split[q]| && EntryWrites(split, tied, q, b, name)
      ensures q < w.stage || (q == w.stage && b <= a)
    {
      var later := WriteOf(visited, tied, ats, q, b, name);
      assert !Before(w, later);
    }
  }

  /** Merging the split stages gives exactly the dictionary of their last writes. */
  lemma MergedIs<V>(visited: seq<seq<Parameter<V>>>, tied: bool)
    ensures AreHeights(visited, HeightsOf(visited, tied))
    ensures IsDictionary(Merged(SplitAll(visited), tied), visited, HeightsOf(visited, tied), tied)
  {
    hide WritesTo, EntryWrites, Split, Parts, Handled, Merged, LastEntry, IsHeight, AllPlaces;
    forall p | 0 <= p < |visited|
      ensures IsHeight(visited[p], Handled(Split(visited[p]), tied) + 1)
    {
      HeightIs(visited[p], tied);
    }
    var split, heights := SplitAll(visited), HeightsOf(visited, tied);
    var ats := PlacesOfAll(visited);
    forall name: HfKey
      ensures name in Merged(split, tied) <==> exists w: Place :: WritesTo(visited, heights, tied, w, name)
    {
      MergedDomain(split, tied, name);
      if p: nat, a: nat :| EntryWrites(split, tied, p, a, name) {
        var w := WriteOf(visited, tied, ats, p, a, name);
      }
      if w: Place :| WritesTo(visited, heights, tied, w, name) {
        var a := EntryOf(visited, tied, ats, w, name);
      }
    }
    forall w: Place, name: HfKey | LastWrite(visited, heights, tied, w, name)
      ensures Stored(Merged(split, tied), visited, w, name)
    {
      LastWriteKept(visited, tied, ats, w, name);
    }
  }

  lemma LastWriteKept<V>(visited: seq<seq<Parameter<V>>>, tied: bool, ats: seq<seq<(nat, nat)>>, w: Place, name: HfKey)
    requires AllPlaces(ats, visited) && LastWrite(visited, HeightsOf(visited, tied), tied, w, name)
    ensures Stored(Merged(SplitAll(visited), tied), visited, w, name)
  {
    hide WritesTo, EntryWrites, Split, Parts, Merged, LastEntry, PartValue;
    var a := EntryOf(visited, tied, ats, w, name);
    WriteIsEntry(visited, tied, ats[w.stage], w, a, name);
    LastIsLast(visited, tied, ats, w, a, name);
    LastEntryWins(SplitAll(visited), tied, w.stage, a, name);
  }

  // ----- no two layers share a name

  /** No two parts of one stage that belong to one layer are written under one name. */
  ghost predicate NamesApart<V>(stage: seq<Parameter<V>>) {
    forall k, j, k', j' ::
      0 <= k < |stage| && 0 <= k' < |stage| && 0 <= j < PartCount(stage[k]) && 0 <= j' < PartCount(stage[k']) ==>
        stage[k].key.Layer? && stage[k'].key.Layer? && stage[k].key.local == stage[k'].key.local ==>
          PartName(stage[k], j) == PartName(stage[k'], j') ==> k == k' && j == j'
  }

  lemma {:induction false} SumGrowing(heights: seq<nat>, p: nat, q: nat)
    requires p < q <= |heights|
    ensures Sum(heights[..p]) + heights[p] <= Sum(heights[..q])
  {
    assert heights[..q][..p] == heights[..p];
    SumPrefix(heights[..q], p);
  }

  /** Two writes to one layer name are the same write. */
  lemma OneWriter<V>(visited: seq<seq<Parameter<V>>>, heights: seq<nat>, tied: bool, w: Place, x: Place, name: HfKey)
    requires AreHeights(visited, heights) && forall p :: 0 <= p < |visited| ==> NamesApart(visited[p])
    requires name.HfLayer? && WritesTo(visited, heights, tied, w, name) && WritesTo(visited, heights, tied, x, name)
    ensures w == x
  {
    hide PartName, PartCount;
    var a, b := visited[w.stage][w.key].key.local, visited[x.stage][x.key].key.local;
    assert IsHeight(visited[w.stage], heights[w.stage]) && IsHeight(visited[x.stage], heights[x.stage]);
    if w.stage < x.stage {
      SumGrowing(heights, w.stage, x.stage);
    } else if x.stage < w.stage {
      SumGrowing(heights, x.stage, w.stage);
    }
  }

  lemma LayerWrite<V>(visited: seq<seq<Parameter<V>>>, heights: seq<nat>, tied: bool, w: Place)
    requires |heights| == |visited| && w.stage < |visited| && w.key < |visited[w.stage]|
    requires visited[w.stage][w.key].key.Layer? && w.part < PartCount(visited[w.stage][w.key])
    ensures var q := visited[w.stage][w.key];
      WritesTo(visited, heights, tied, w, HfLayer(Sum(heights[..w.stage]) + q.key.local, PartName(q, w.part)))
  {
    hide PartName, PartCount, Sum;
  }

  /**
   * So every part of every layer parameter, query, key, value, gate or up, is found under the layer's global
   * number and its own name, as long as no two parts of one layer are written under one name.
   */
  lemma PartsKept<V>(dict: map<HfKey, V>, visited: seq<seq<Parameter<V>>>, heights: seq<nat>, tied: bool,
                     p: nat, k: nat, j: nat)
    requires AreHeights(visited, heights) && IsDictionary(dict, visited, heights, tied)
    requires forall q :: 0 <= q < |visited| ==> NamesApart(visited[q])
    requires p < |visited| && k < |visited[p]| && visited[p][k].key.Layer? && j < PartCount(visited[p][k])
    ensures var name := HfLayer(Sum(heights[..p]) + visited[p][k].key.local, PartName(visited[p][k], j));
      name in dict && dict[name] == PartValue(visited[p][k], j)
  {
    hide WritesTo, NamesApart, PartName, PartCount, PartValue, Sum, IsHeight;
    var w := Place(p, k, j);
    var name := HfLayer(Sum(heights[..p]) + visited[p][k].key.local, PartName(visited[p][k], j));
    LayerWrite(visited, heights, tied, w);
    forall later: Place | WritesTo(visited, heights, tied, later, name)
      ensures !Before(w, later)
    {
      OneWriter(visited, heights, tied, w, later, name);
    }
    assert LastWrite(visited, heights, tied, w, name);
  }

  // ----- no gaps

  /** Stage `p` has exactly the local layers `0 .. counts[p] - 1`. */
  ghost predicate Contiguous<V>(visited: seq<Stage<V>>, counts: seq<nat>) {
    && |counts| == |visited|
    && (forall p, k :: 0 <= p < |visited| && 0 <= k < |visited[p]| && visited[p][k].key.Layer? ==>
         visited[p][k].key.local < counts[p])
    && forall p, local :: 0 <= p < |visited| && 0 <= local < counts[p] ==> Present(visited, p, local)
  }

  ghost predicate Present<V>(visited: seq<Stage<V>>, p: nat, local: nat) {
    exists k :: HasLayer(visited, p, k, local)
  }

  ghost predicate Used<V>(visited: seq<Stage<V>>, number: nat, tied: bool) {
    exists p: nat, k: nat, local: nat :: HasLayer(visited, p, k, local) && GlobalNo(visited, p, local, tied) == number
  }

  /** No stage with layers comes after one without. */
  predicate EmptyOnesLast(counts: seq<nat>) {
    forall p, q :: 0 <= p < q < |counts| && counts[p] == 0 ==> counts[q] == 0
  }

  lemma HandledIs<V>(visited: seq<Stage<V>>, counts: seq<nat>, p: nat, tied: bool)
    requires Contiguous(visited, counts) && p < |visited|
    ensures Handled(visited[p], tied) + 1 == if counts[p] == 0 then 1 else counts[p]
  {
    if counts[p] > 0 {
      assert Present(visited, p, counts[p] - 1);
      var k :| HasLayer(visited, p, k, counts[p] - 1);
      LocalAtMost(visited[p], k, tied);
    }
    HandledReached(visited[p], tied);
  }

  lemma {:induction false} HandledReached<V>(stage: Stage<V>, tied: bool)
    ensures Handled(stage, tied) == 0
      || exists k :: 0 <= k < |stage| && stage[k].key.Layer? && stage[k].key.local == Handled(stage, tied)
  {
    if stage != [] {
      var init := stage[..|stage| - 1];
      HandledReached(init, tied);
      if Handled(init, tied) != 0 {
        var k :| 0 <= k < |init| && init[k].key.Layer? && init[k].key.local == Handled(init, tied);
        assert stage[k] == init[k];
      }
    }
  }

  /** The offset counts the layers so far, and 1 for every stage without layers. */
  lemma {:induction false} OffsetIs<V>(visited: seq<Stage<V>>, counts: seq<nat>, p: nat, tied: bool)
    requires Contiguous(visited, counts) && p <= |visited|
    ensures Offset(visited[..p], tied) >= Sum(counts[..p])
    ensures Offset(visited[..p], tied) == Sum(counts[..p]) <==> forall q :: 0 <= q < p ==> counts[q] > 0
  {
    if p > 0 {
      OffsetIs(visited, counts, p - 1, tied);
      assert visited[..p][..p - 1] == visited[..p - 1] && counts[..p][..p - 1] == counts[..p - 1];
      HandledIs(visited, counts, p - 1, tied);
    }
  }

  lemma {:induction false} Locate(counts: seq<nat>, number: nat) returns (p: nat)
    requires number < Sum(counts)
    ensures p < |counts| && Sum(counts[..p]) <= number < Sum(counts[..p]) + counts[p]
  {
    var init := counts[..|counts| - 1];
    if number < Sum(init) {
      p := Locate(init, number);
      assert init[..p] == counts[..p];
    } else {
      p := |counts| - 1;
    }
  }

  lemma {:induction false} SumPrefix(counts: seq<nat>, p: nat)
    requires p < |counts|
    ensures Sum(counts[..p]) + counts[p] <= Sum(counts)
  {
    if p < |counts| - 1 {
      assert counts[..|counts| - 1][..p] == counts[..p];
      SumPrefix(counts[..|counts| - 1], p);
    }
  }

  lemma {:induction false} LastNonEmpty(counts: seq<nat>, q: nat) returns (last: nat)
    requires q < |counts| && counts[q] > 0
    ensures q <= last < |counts| && counts[last] > 0 && Sum(counts[..last]) + counts[last] == Sum(counts)
  {
    if counts[|counts| - 1] > 0 {
      last := |counts| - 1;
    } else {
      last := LastNonEmpty(counts[..|counts| - 1], q);
      assert counts[..|counts| - 1][..last] == counts[..last];
    }
  }

  lemma UsedIsBelow<V>(visited: seq<Stage<V>>, counts: seq<nat>, number: nat, tied: bool)
    requires Contiguous(visited, counts) && EmptyOnesLast(counts) && Used(visited, number, tied)
    ensures number < Sum(counts)
  {
    var p: nat, k: nat, local: nat :| HasLayer(visited, p, k, local) && GlobalNo(visited, p, local, tied) == number;
    assert local < counts[p];
    OffsetIs(visited, counts, p, tied);
    SumPrefix(counts, p);
  }

  lemma BelowIsUsed<V>(visited: seq<Stage<V>>, counts: seq<nat>, number: nat, tied: bool)
    requires Contiguous(visited, counts) && EmptyOnesLast(counts) && number < Sum(counts)
    ensures Used(visited, number, tied)
  {
    var p := Locate(counts, number);
    OffsetIs(visited, counts, p, tied);
    assert Present(visited, p, number - Sum(counts[..p]));
  }

  /** The number of the last layer is too high when a stage without layers came before it. */
  lemma GapUsesTooHigh<V>(visited: seq<Stage<V>>, counts: seq<nat>, p: nat, q: nat, tied: bool) returns (number: nat)
    requires Contiguous(visited, counts) && p < q < |counts| && counts[p] == 0 && counts[q] > 0
    ensures Used(visited, number, tied) && number >= Sum(counts)
  {
    var last := LastNonEmpty(counts, q);
    OffsetIs(visited, counts, last, tied);
    assert Present(visited, last, counts[last] - 1);
    var k :| HasLayer(visited, last, k, counts[last] - 1);
    number := GlobalNo(visited, last, counts[last] - 1, tied);
  }

  /**
   * When every stage numbers its layers from 0 without gaps, the merged layers are numbered
   * 0 .. total - 1 if and only if no stage with layers is visited after one without.
   */
  lemma NoGapsIff<V>(visited: seq<Stage<V>>, counts: seq<nat>, tied: bool)
    requires Contiguous(visited, counts)
    ensures (forall number: nat :: Used(visited, number, tied) <==> number < Sum(counts)) <==> EmptyOnesLast(counts)
  {
    if EmptyOnesLast(counts) {
      forall number: nat
        ensures Used(visited, number, tied) <==> number < Sum(counts)
      {
        if Used(visited, number, tied) {
          UsedIsBelow(visited, counts, number, tied);
        } else if number < Sum(counts) {
          BelowIsUsed(visited, counts, number, tied);
        }
      }
    } else {
      var p, q :| 0 <= p < q < |counts| && counts[p] == 0 && counts[q] > 0;
      var number := GapUsesTooHigh(visited, counts, p, q, tied);
    }
  }
}
