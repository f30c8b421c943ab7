/** `parse_state_region`: one state-region block to a record whose keys are present
    only when their patterns match. */
module StateRegionParser {
  import opened Options
  import opened Scan
  import opened Patterns
  import opened Fields

  /** `STATE_(\w+)` */
  const StateNamePattern := Tag("STATE_")
  /** `id\s*=\s*(\d+)` */
  const StateIdPattern := Assign(Key("id"), Number)
  /** `arable_land\s*=\s*(\d+)` */
  const ArableLandPattern := Assign(Key("arable_land"), Number)
  /** `traits\s*=\s*{([^}]+)}` */
  const TraitsPattern := Assign(Key("traits"), Braced(true, true))
  /** `arable_resources\s*=\s*{([^}]+)}` */
  const ArableResourcesPattern := Assign(Key("arable_resources"), Braced(true, true))
  /** `capped_resources\s*=\s*{([^}]+)}` */
  const CappedResourcesPattern := Assign(Key("capped_resources"), Braced(true, true))
  /** `(\w+)\s*=\s*(\d+)`, applied inside the capped-resources block */
  const ResourcePairPattern := Assign(Named(""), Number)

  /** The dictionary `state_data`; None stands for a missing key. */
  datatype StateRegion = StateRegion(
    stateName: Option<string>,
    stateId: Option<int>,
    arableLand: Option<int>,
    traits: Option<seq<string>>,
    arableResources: Option<seq<string>>,
    cappedResources: Option<map<string, int>>)

  /** The `(name, int(value))` pairs that `re.findall` finds in a capped-resources
      block, in order of appearance. */
  function ResourcePairs(t: string): (ps: seq<(string, int)>)
    ensures |ps| == |FindAll(ResourcePairPattern, t, 0)|
  {
    var ms := FindAll(ResourcePairPattern, t, 0);
    FindAllShapes(ResourcePairPattern, t, 0);
    seq(|ms|, k requires 0 <= k < |ms| => (ms[k].groups[0], DecimalValue(ms[k].groups[1])))
  }

  /** A dictionary filled from the pairs left to right: a later pair overwrites an
      earlier one with the same name. */
  function Collect(ps: seq<(string, int)>): map<string, int> {
    if ps == [] then map[] else Collect(ps[..|ps| - 1])[ps[|ps| - 1].0 := ps[|ps| - 1].1]
  }

  function CappedResourcesOf(block: string): Option<map<string, int>> {
    match Search(CappedResourcesPattern, block, 0)
    case None => None
    case Some(m) => Some(Collect(ResourcePairs(m.groups[0])))
  }

  /** What `parse_state_region` returns for `block`. */
  function StateRegionOf(block: string): StateRegion {
    StateRegion(
      FirstGroup(StateNamePattern, block),
      FirstNumber(StateIdPattern, block),
      FirstNumber(ArableLandPattern, block),
      FirstTokens(TraitsPattern, block),
      FirstTokens(ArableResourcesPattern, block),
      CappedResourcesOf(block))
  }

  /** The loop of lines 99-101: every `(name, value)` match of the capped-resources
      block is written into the dictionary in turn. */
  method CollectResources(block: string) returns (cappedResources: map<string, int>)
    ensures cappedResources == Collect(ResourcePairs(block))
  {
    var found := FindAll(ResourcePairPattern, block, 0);
    FindAllShapes(ResourcePairPattern, block, 0);
    ghost var pairs := ResourcePairs(block);
    cappedResources := map[];
    for k := 0 to |found|
      invariant cappedResources == Collect(pairs[..k])
    {
      assert pairs[..k + 1][..k] == pairs[..k];
      cappedResources := cappedResources[found[k].groups[0] := DecimalValue(found[k].groups[1])];
    }
    assert pairs[..|found|] == pairs;
  }

  /** The source's assembly: one search per field, each key written only when its
      search matched. */
  method ParseStateRegion(stateBlock: string) returns (stateData: StateRegion)
    ensures stateData == StateRegionOf(stateBlock)
  {
    var stateName := SearchGroup(StateNamePattern, stateBlock);
    var stateId := SearchNumber(StateIdPattern, stateBlock);
    var arableLand := SearchNumber(ArableLandPattern, stateBlock);
    var traits := SearchTokens(TraitsPattern, stateBlock);
    var arableResources := SearchTokens(ArableResourcesPattern, stateBlock);
    var cappedResourcesMatch := Search(CappedResourcesPattern, stateBlock, 0);
    var cappedResources := None;
    if cappedResourcesMatch.Some? {
      var resources := CollectResources(cappedResourcesMatch.value.groups[0]);
      cappedResources := Some(resources);
    }
    stateData := StateRegion(stateName, stateId, arableLand, traits, arableResources, cappedResources);
  }

  // ---------------------------------------------------------------------------
  // Properties

  /** k is the last position of the pair list that carries `name`. */
  ghost predicate LastWith(ps: seq<(string, int)>, k: int, name: string) {
    0 <= k < |ps| && ps[k].0 == name && forall k' :: k < k' < |ps| ==> ps[k'].0 != name
  }

  /** Last wins: the dictionary holds exactly the names of the pairs, and each name
      maps to the value of the last pair that carries it. */
  lemma {:induction false} CollectLastWins(ps: seq<(string, int)>)
    ensures forall name :: name in Collect(ps) <==> exists k :: 0 <= k < |ps| && ps[k].0 == name
    ensures forall name :: name in Collect(ps) ==>
              exists k :: LastWith(ps, k, name) && Collect(ps)[name] == ps[k].1
  {
    if ps != [] {
      var n := |ps| - 1;
      var init := ps[..n];
      CollectLastWins(init);
      forall name
        ensures name in Collect(ps) <==> exists k :: 0 <= k < |ps| && ps[k].0 == name
      {
        if name != ps[n].0 && exists k :: 0 <= k < |ps| && ps[k].0 == name {
          var k :| 0 <= k < |ps| && ps[k].0 == name;
          assert init[k].0 == name;
        }
      }
      forall name | name in Collect(ps)
        ensures exists k :: LastWith(ps, k, name) && Collect(ps)[name] == ps[k].1
      {
        if name == ps[n].0 {
          assert LastWith(ps, n, name);
        } else {
          var k :| LastWith(init, k, name) && Collect(init)[name] == init[k].1;
          assert LastWith(ps, k, name);
        }
      }
    }
  }

  /** The pairs are the matches of `(\w+)\s*=\s*(\d+)` that a left-to-right scan
      of the block finds, in order: each the word of group 1 and `int()` of the digit
      run of group 2. */
  lemma ResourcePairsMeaning(t: string)
    ensures IsScan(ResourcePairPattern, t, 0, FindAll(ResourcePairPattern, t, 0))
    ensures forall k :: 0 <= k < |ResourcePairs(t)| ==>
              var g := FindAll(ResourcePairPattern, t, 0)[k].groups;
              ResourcePairs(t)[k].0 == g[0] && IsWord(g[0]) &&
              IsNumeral(g[1]) && ResourcePairs(t)[k].1 == DecimalValue(g[1])
  {
    FindAllIsScan(ResourcePairPattern, t, 0);
    var ms := FindAll(ResourcePairPattern, t, 0);
    FindAllShapes(ResourcePairPattern, t, 0);
    forall k | 0 <= k < |ms|
      ensures ResourcePairs(t)[k].0 == ms[k].groups[0] && IsWord(ms[k].groups[0])
      ensures IsNumeral(ms[k].groups[1]) && ResourcePairs(t)[k].1 == DecimalValue(ms[k].groups[1])
    {
      assert GroupShapes(ResourcePairPattern, ms[k].groups);
    }
  }

  /** capped_resources is present exactly when `capped_resources = {...}` occurs,
      and then collects the pairs of the text between its `{` and the first `}`. */
  lemma CappedResourcesMeaning(b: string)
    ensures StateRegionOf(b).cappedResources.Some? <==>
              exists i :: 0 <= i <= |b| && Occurs(CappedResourcesPattern, b, i)
    ensures StateRegionOf(b).cappedResources.Some? ==>
              exists i, c :: FirstOccurrence(CappedResourcesPattern, b, i) &&
                             Fits(CappedResourcesPattern, b, i, c) &&
                             StateRegionOf(b).cappedResources.value == Collect(ResourcePairs(b[c.j + 1..c.e - 1]))
  {
    assert StateRegionOf(b).cappedResources.Some? <==>
             exists i :: 0 <= i <= |b| && Occurs(CappedResourcesPattern, b, i) by {
      SearchMeaning(CappedResourcesPattern, b);
    }
    var found := Search(CappedResourcesPattern, b, 0);
    if found.Some? {
      var c := TokensCut(CappedResourcesPattern, b, found.value.start);
    }
  }

  /** state_name is present exactly when `STATE_` followed by a word character
      occurs, and holds the whole word run after the first such `STATE_`. */
  lemma StateNameMeaning(b: string)
    ensures WordField(StateNamePattern, b, StateRegionOf(b).stateName)
    ensures StateRegionOf(b).stateName.Some? ==> IsWord(StateRegionOf(b).stateName.value)
  {
    FirstWordMeaning(StateNamePattern, b);
  }

  /** state_id is present exactly when `id = digits` occurs, and holds the base-10
      value of the digit run of the first occurrence. */
  lemma StateIdMeaning(b: string)
    ensures NumberField(StateIdPattern, b, StateRegionOf(b).stateId)
  {
    FirstNumberMeaning(StateIdPattern, b);
  }

  /** arable_land is present exactly when `arable_land = digits` occurs, and holds
      the base-10 value of the digit run of the first occurrence. */
  lemma ArableLandMeaning(b: string)
    ensures NumberField(ArableLandPattern, b, StateRegionOf(b).arableLand)
  {
    FirstNumberMeaning(ArableLandPattern, b);
  }

  /** traits is present exactly when `traits = {...}` with a non-empty inside occurs,
      and is the whitespace split of the text between that `{` and the first `}`. */
  lemma TraitsMeaning(b: string)
    ensures TokensField(TraitsPattern, b, StateRegionOf(b).traits)
  {
    FirstTokensMeaning(TraitsPattern, b);
  }

  /** arable_resources: the same as traits, for `arable_resources = {...}`. */
  lemma ArableResourcesMeaning(b: string)
    ensures TokensField(ArableResourcesPattern, b, StateRegionOf(b).arableResources)
  {
    FirstTokensMeaning(ArableResourcesPattern, b);
  }

}
