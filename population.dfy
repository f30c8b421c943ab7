/** `parse_population`: one population block to its state name and one region per
    `region_state:NAME = {...}` block, each with the pops found inside it. */
module PopulationParser {
  import opened Options
  import opened Scan
  import opened Patterns
  import opened Fields

  /** `region_state:(\w+)\s*=\s*{([^}]*)}`: the region's name and the text up to
      the first `}` */
  const RegionStatePattern := Assign(Named("region_state:"), Braced(false, true))
  /** `create_pop\s*=\s*{([^}]*)}` */
  const CreatePopPattern := Assign(Key("create_pop"), Braced(false, true))
  /** `culture\s*=\s*(\w+)` */
  const CulturePattern := Assign(Key("culture"), Ident("", false))
  /** `religion\s*=\s*(\w+)` */
  const ReligionPattern := Assign(Key("religion"), Ident("", false))
  /** `size\s*=\s*(\d+)` */
  const SizePattern := Assign(Key("size"), Number)

  /** The dictionary `pop_data`; None stands for a missing key. */
  datatype Pop = Pop(culture: Option<string>, religion: Option<string>, size: Option<int>)

  /** The dictionary `region`: `region_state` and `pops` are always present. */
  datatype Region = Region(regionState: string, pops: seq<Pop>)

  /** The dictionary `population_data`: `regions` is always present, `state_name`
      only when it matched. */
  datatype Population = Population(stateName: Option<string>, regions: seq<Region>)

  /** A line the source prints when `debug` is set. */
  datatype DebugLine = ParsingState(name: string) | ParsingRegion(name: string) | PopLine(pop: Pop)

  /** The pop built from one create_pop text. */
  function PopOf(t: string): Pop {
    Pop(FirstGroup(CulturePattern, t), FirstGroup(ReligionPattern, t), FirstNumber(SizePattern, t))
  }

  function PopsOf(ts: seq<string>): (ps: seq<Pop>)
    ensures |ps| == |ts|
  {
    seq(|ts|, k requires 0 <= k < |ts| => PopOf(ts[k]))
  }

  /** The region built from its name and the text findall captured for it. */
  function RegionOf(name: string, content: string): Region {
    Region(name, PopsOf(FindAllGroups(CreatePopPattern, content)))
  }

  function RegionsOf(bs: seq<(string, string)>): (rs: seq<Region>)
    ensures |rs| == |bs|
  {
    seq(|bs|, k requires 0 <= k < |bs| => RegionOf(bs[k].0, bs[k].1))
  }

  /** What `parse_population` returns for `b`. */
  function PopulationOf(b: string): Population {
    Population(FirstGroup(StateRefPattern, b), RegionsOf(FindAllPairs(RegionStatePattern, b)))
  }

  function PopLines(ps: seq<Pop>): (ls: seq<DebugLine>)
    ensures |ls| == |ps|
  {
    seq(|ps|, k requires 0 <= k < |ps| => PopLine(ps[k]))
  }

  /** What the source prints for one region: its name, then each of its pops. */
  function RegionLines(r: Region): seq<DebugLine> {
    [ParsingRegion(r.regionState)] + PopLines(r.pops)
  }

  function RegionsLines(rs: seq<Region>): seq<DebugLine> {
    if rs == [] then [] else RegionsLines(rs[..|rs| - 1]) + RegionLines(rs[|rs| - 1])
  }

  /** Everything the source prints with `debug` set, for the record it returns. */
  function TraceOf(d: Population): seq<DebugLine> {
    (if d.stateName.Some? then [ParsingState(d.stateName.value)] else []) + RegionsLines(d.regions)
  }

  /** The body of the inner loop for one create_pop text. */
  method ParsePop(popBlock: string) returns (popData: Pop)
    ensures popData == PopOf(popBlock)
  {
    var culture := SearchGroup(CulturePattern, popBlock);
    var religion := SearchGroup(ReligionPattern, popBlock);
    var size := SearchNumber(SizePattern, popBlock);
    popData := Pop(culture, religion, size);
  }

  /** The inner loop: one pop per create_pop text, in order, each printed with
      `debug` set. */
  method ParsePops(createPopBlocks: seq<string>, debug: bool) returns (pops: seq<Pop>, lines: seq<DebugLine>)
    ensures pops == PopsOf(createPopBlocks)
    ensures lines == (if debug then PopLines(pops) else [])
  {
    pops, lines := [], [];
    for m := 0 to |createPopBlocks|
      invariant |pops| == m
      invariant forall j :: 0 <= j < m ==> pops[j] == PopOf(createPopBlocks[j])
      invariant lines == (if debug then PopLines(pops) else [])
    {
      var popData := ParsePop(createPopBlocks[m]);
      if debug {
        lines := lines + [PopLine(popData)];
      }
      assert PopLines(pops + [popData]) == PopLines(pops) + [PopLine(popData)];
      pops := pops + [popData];
    }
  }

  /** The body of the outer loop for one region: the region's line, its create_pop
      texts and its pops. */
  method ParseRegion(regionName: string, regionContent: string, debug: bool) returns (region: Region, lines: seq<DebugLine>)
    ensures region == RegionOf(regionName, regionContent)
    ensures lines == (if debug then RegionLines(region) else [])
  {
    var createPopBlocks := FindAllGroups(CreatePopPattern, regionContent);
    var pops, popLines := ParsePops(createPopBlocks, debug);
    region := Region(regionName, pops);
    lines := (if debug then [ParsingRegion(regionName)] else []) + popLines;
  }

  /** The outer loop: one region per region_state block, in order. */
  method ParseRegions(regionBlocks: seq<(string, string)>, debug: bool) returns (regions: seq<Region>, lines: seq<DebugLine>)
    ensures regions == RegionsOf(regionBlocks)
    ensures lines == (if debug then RegionsLines(regions) else [])
  {
    regions, lines := [], [];
    for k := 0 to |regionBlocks|
      invariant |regions| == k
      invariant forall j :: 0 <= j < k ==> regions[j] == RegionOf(regionBlocks[j].0, regionBlocks[j].1)
      invariant lines == (if debug then RegionsLines(regions) else [])
    {
      var region, regionLines := ParseRegion(regionBlocks[k].0, regionBlocks[k].1, debug);
      assert (regions + [region])[..k] == regions;
      regions := regions + [region];
      lines := lines + regionLines;
    }
  }

  /** The source's function: the state's name, then the regions in the order
      findall reports them; the lines it would print are returned as `trace`. */
  method ParsePopulation(stateBlock: string, debug: bool) returns (populationData: Population, trace: seq<DebugLine>)
    ensures populationData == PopulationOf(stateBlock)
    ensures trace == (if debug then TraceOf(populationData) else [])
  {
    var stateName := SearchGroup(StateRefPattern, stateBlock);
    var regionBlocks := FindAllPairs(RegionStatePattern, stateBlock);
    var regions, regionLines := ParseRegions(regionBlocks, debug);
    populationData := Population(stateName, regions);
    trace := (if debug && stateName.Some? then [ParsingState(stateName.value)] else []) + regionLines;
  }

  // ---------------------------------------------------------------------------
  // Properties

  /** A region whose text has no `}` has no pops: `create_pop = {...}` needs one. */
  lemma NoPopsWithoutCloseBrace(name: string, content: string)
    requires forall k :: 0 <= k < |content| ==> content[k] != '}'
    ensures RegionOf(name, content).pops == []
  {
    NoCloseBraceNoMatch(CreatePopPattern, content, 0);
  }

  /** Every region has an empty pops list: the region's text stops before the first
      `}`, and so can never hold a whole `create_pop = {...}`. */
  lemma PopsAlwaysEmpty(b: string)
    ensures forall k :: 0 <= k < |PopulationOf(b).regions| ==> PopulationOf(b).regions[k].pops == []
  {
    var bs := FindAllPairs(RegionStatePattern, b);
    FindAllPairsShaped(RegionStatePattern, b);
    forall k | 0 <= k < |bs| ensures PopulationOf(b).regions[k].pops == [] {
      assert RhsGroupShape(RegionStatePattern.rhs, bs[k].1);
      NoPopsWithoutCloseBrace(bs[k].0, bs[k].1);
    }
  }

  /** One region per `region_state:NAME = {...}` match, in scan order, named by the
      word after `region_state:`; the list is empty exactly when no such block
      occurs. */
  lemma RegionsMeaning(b: string)
    ensures IsScan(RegionStatePattern, b, 0, FindAll(RegionStatePattern, b, 0))
    ensures |PopulationOf(b).regions| == |FindAll(RegionStatePattern, b, 0)|
    ensures forall k :: 0 <= k < |PopulationOf(b).regions| ==>
              PopulationOf(b).regions[k].regionState == FindAll(RegionStatePattern, b, 0)[k].groups[0] &&
              IsWord(PopulationOf(b).regions[k].regionState)
    ensures PopulationOf(b).regions == [] <==> !exists i :: 0 <= i <= |b| && Occurs(RegionStatePattern, b, i)
  {
    FindAllIsScan(RegionStatePattern, b, 0);
    SearchMeaning(RegionStatePattern, b);
    FindAllPairsShaped(RegionStatePattern, b);
  }

  /** Without pops, the debug lines of the regions are one `Parsing region state`
      line per region, in order. */
  lemma {:induction false} RegionsLinesWithoutPops(rs: seq<Region>)
    requires forall k :: 0 <= k < |rs| ==> rs[k].pops == []
    ensures RegionsLines(rs) == seq(|rs|, k requires 0 <= k < |rs| => ParsingRegion(rs[k].regionState))
  {
    if rs != [] {
      RegionsLinesWithoutPops(rs[..|rs| - 1]);
    }
  }

  /** With `debug` set the source prints the state's name when it matched and then
      one line per region, and never a pop line. */
  lemma TraceMeaning(b: string)
    ensures var d := PopulationOf(b);
            TraceOf(d) == (if d.stateName.Some? then [ParsingState(d.stateName.value)] else []) +
                          seq(|d.regions|, k requires 0 <= k < |d.regions| => ParsingRegion(d.regions[k].regionState))
  {
    PopsAlwaysEmpty(b);
    RegionsLinesWithoutPops(PopulationOf(b).regions);
  }

  /** culture and religion are each present exactly when `culture = word` /
      `religion = word` occurs in the pop text, and hold the word of the first
      occurrence; size is present exactly when `size = digits` occurs, and holds its
      base-10 value. */
  lemma PopCultureMeaning(t: string)
    ensures WordField(CulturePattern, t, PopOf(t).culture)
    ensures PopOf(t).culture.Some? ==> IsWord(PopOf(t).culture.value)
  {
    FirstWordMeaning(CulturePattern, t);
  }

  lemma PopReligionMeaning(t: string)
    ensures WordField(ReligionPattern, t, PopOf(t).religion)
    ensures PopOf(t).religion.Some? ==> IsWord(PopOf(t).religion.value)
  {
    FirstWordMeaning(ReligionPattern, t);
  }

  lemma PopSizeMeaning(t: string)
    ensures NumberField(SizePattern, t, PopOf(t).size)
  {
    FirstNumberMeaning(SizePattern, t);
  }

  /** state_name is present exactly when `s:STATE_` followed by a word character
      occurs, and holds the word run after the first one. */
  lemma PopulationStateNameMeaning(b: string)
    ensures WordField(StateRefPattern, b, PopulationOf(b).stateName)
    ensures PopulationOf(b).stateName.Some? ==> IsWord(PopulationOf(b).stateName.value)
  {
    FirstWordMeaning(StateRefPattern, b);
  }

}
