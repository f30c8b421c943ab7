/** `parse_state_ownership`: one history block to its state name, one ownership
    entry per `create_state = {...}` block, and the `add_homeland` cultures. */
module StateOwnershipParser {
  import opened Options
  import opened Scan
  import opened Patterns
  import opened Fields

  /** `create_state\s*=\s*{[^}]+}` (no group: `re.findall` returns the whole text) */
  const CreateStatePattern := Assign(Key("create_state"), Braced(true, false))
  /** `add_homeland\s*=\s*(cu:\w+)`: the `cu:` prefix stays in the capture */
  const HomelandPattern := Assign(Key("add_homeland"), Ident("cu:", true))
  /** `country\s*=\s*c:(\w+)`: the `c:` prefix is left out of the capture */
  const CountryPattern := Assign(Key("country"), Ident("c:", false))
  /** `owned_provinces\s*=\s*{([^}]+)}` */
  const OwnedProvincesPattern := Assign(Key("owned_provinces"), Braced(true, true))

  /** One element of the `ownership` list; None stands for a missing key. */
  datatype OwnershipEntry = OwnershipEntry(country: Option<string>, ownedProvinces: Option<seq<string>>)

  /** The dictionary `ownership_data`: `ownership` and `homelands` are always
      present, `state_name` only when it matched. */
  datatype StateOwnership = StateOwnership(
    stateName: Option<string>,
    ownership: seq<OwnershipEntry>,
    homelands: seq<string>)

  /** The entry built from one create_state text. */
  function EntryOf(t: string): OwnershipEntry {
    OwnershipEntry(FirstGroup(CountryPattern, t), FirstTokens(OwnedProvincesPattern, t))
  }

  function EntriesOf(ts: seq<string>): (es: seq<OwnershipEntry>)
    ensures |es| == |ts|
  {
    seq(|ts|, k requires 0 <= k < |ts| => EntryOf(ts[k]))
  }

  /** What `parse_state_ownership` returns for `b`. */
  function StateOwnershipOf(b: string): StateOwnership {
    StateOwnership(FirstGroup(StateRefPattern, b), EntriesOf(FindAllTexts(CreateStatePattern, b)), FindAllGroups(HomelandPattern, b))
  }

  /** The body of the source's loop for one create_state text. */
  method ParseEntry(createStateBlock: string) returns (entry: OwnershipEntry)
    ensures entry == EntryOf(createStateBlock)
  {
    var country := SearchGroup(CountryPattern, createStateBlock);
    var ownedProvinces := SearchTokens(OwnedProvincesPattern, createStateBlock);
    entry := OwnershipEntry(country, ownedProvinces);
  }

  /** The source's function: two findall scans, then one entry appended per
      create_state text, in order. */
  method ParseStateOwnership(stateBlock: string) returns (ownershipData: StateOwnership)
    ensures ownershipData == StateOwnershipOf(stateBlock)
  {
    var stateName := SearchGroup(StateRefPattern, stateBlock);
    var createStateBlocks := FindAllTexts(CreateStatePattern, stateBlock);
    var homelands := FindAllGroups(HomelandPattern, stateBlock);

    var ownershipEntries := [];
    for k := 0 to |createStateBlocks|
      invariant |ownershipEntries| == k
      invariant forall j :: 0 <= j < k ==> ownershipEntries[j] == EntryOf(createStateBlocks[j])
    {
      var entry := ParseEntry(createStateBlocks[k]);
      ownershipEntries := ownershipEntries + [entry];
    }
    ownershipData := StateOwnership(stateName, ownershipEntries, homelands);
  }

  // ---------------------------------------------------------------------------
  // Properties

  /** Every create_state text begins with `create_state` and ends with its only `}`. */
  lemma CreateStateBlocksClosed(b: string)
    ensures forall k :: 0 <= k < |FindAllTexts(CreateStatePattern, b)| ==>
              var t := FindAllTexts(CreateStatePattern, b)[k];
              ClosedBlock(t) && LitAt(t, 0, "create_state")
  {
    BracedTextsClosed(CreateStatePattern, b);
  }

  /** Inside a closed block an `owned_provinces = {...}` match can only end at the
      block's own `}`: the province list runs to the end of the create_state text. */
  lemma OwnedProvincesReachBlockEnd(t: string, i: nat, c: Cut)
    requires ClosedBlock(t) && Fits(OwnedProvincesPattern, t, i, c)
    ensures c.e == |t|
  {
    assert t[c.e - 1] == '}';
  }

  /** One entry per create_state match, in the order of the left-to-right scan; the
      list is empty exactly when no create_state block occurs. */
  lemma OwnershipEntriesMeaning(b: string)
    ensures IsScan(CreateStatePattern, b, 0, FindAll(CreateStatePattern, b, 0))
    ensures |StateOwnershipOf(b).ownership| == |FindAll(CreateStatePattern, b, 0)|
    ensures forall k :: 0 <= k < |StateOwnershipOf(b).ownership| ==>
              var m := FindAll(CreateStatePattern, b, 0)[k];
              StateOwnershipOf(b).ownership[k] == EntryOf(b[m.start..m.end])
    ensures StateOwnershipOf(b).ownership == [] <==>
              !exists i :: 0 <= i <= |b| && Occurs(CreateStatePattern, b, i)
  {
    FindAllIsScan(CreateStatePattern, b, 0);
    SearchMeaning(CreateStatePattern, b);
  }

  /** country is present exactly when `country = c:word` occurs in the create_state
      text, and holds the word of the first occurrence without its `c:`. */
  lemma EntryCountryMeaning(t: string)
    ensures WordField(CountryPattern, t, EntryOf(t).country)
    ensures EntryOf(t).country.Some? ==> IsWord(EntryOf(t).country.value)
  {
    FirstWordMeaning(CountryPattern, t);
  }

  /** owned_provinces is present exactly when `owned_provinces = {...}` with a
      non-empty inside occurs in the create_state text, and is the whitespace split
      of that inside. */
  lemma EntryProvincesMeaning(t: string)
    ensures TokensField(OwnedProvincesPattern, t, EntryOf(t).ownedProvinces)
  {
    FirstTokensMeaning(OwnedProvincesPattern, t);
  }

  /** homelands lists group 1 of every `add_homeland = cu:word` match in scan order,
      duplicates kept; each keeps its `cu:` prefix, followed by a word. */
  lemma HomelandsMeaning(b: string)
    ensures IsScan(HomelandPattern, b, 0, FindAll(HomelandPattern, b, 0))
    ensures |StateOwnershipOf(b).homelands| == |FindAll(HomelandPattern, b, 0)|
    ensures forall k :: 0 <= k < |StateOwnershipOf(b).homelands| ==>
              var h := StateOwnershipOf(b).homelands[k];
              h == FindAll(HomelandPattern, b, 0)[k].groups[0] &&
              3 <= |h| && h[..3] == "cu:" && IsWord(h[3..])
  {
    FindAllIsScan(HomelandPattern, b, 0);
    FindAllGroupsShaped(HomelandPattern, b);
  }

  /** state_name is present exactly when `s:STATE_` followed by a word character
      occurs, and holds the word run after the first one. */
  lemma OwnershipStateNameMeaning(b: string)
    ensures WordField(StateRefPattern, b, StateOwnershipOf(b).stateName)
    ensures StateOwnershipOf(b).stateName.Some? ==> IsWord(StateOwnershipOf(b).stateName.value)
  {
    FirstWordMeaning(StateRefPattern, b);
  }

}
