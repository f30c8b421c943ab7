# Map-file parsers of `database_builder.py`, modelled in Dafny

`database_builder.py` turns blocks of game-markup text into records. This model covers its three
block parsers:

- `parse_state_region` takes one state-region block. It returns the optional fields
  `state_name`, `state_id`, `arable_land`, `traits` and `arable_resources`, plus a
  `capped_resources` dictionary.
- `parse_state_ownership` takes one history block. It returns an optional `state_name`, one
  ownership entry per `create_state = {...}` block (each entry with an optional `country` and
  optional `owned_provinces`) and the ordered `homelands` list.
- `parse_population` takes one population block. It returns an optional `state_name` and one
  region per `region_state:NAME = {...}` block, each with a `pops` list.

Every field comes from a fixed, unanchored regular expression, so the model is built in layers:

- `Scan` holds the ASCII character classes, maximal runs (`Span`), base-10 numerals
  (`DecimalValue`), and Python's `str.split()` and `str.strip()`.
- `Patterns` covers the regular expressions:
  - A `Pattern` value names one of the two shapes the source uses: `prefix(\w+)`, or
    `lhs\s*=\s*rhs`.
  - `MatchAt` is the greedy scanner that matches a pattern at one position.
  - `Search` is `re.search`: it takes the leftmost match.
  - `FindAll` is `re.findall`: it scans non-overlapping matches left to right, resuming at the
    end of each match.
  - The scanner is proved equal to the regular expression's meaning. `Occurs` says some choice
    of cut points fits the expression, and `Greedy` says the last repetition cannot be extended.
- `Fields` holds the step every parser repeats: search for a pattern, then turn group 1 into a
  word, an `int`, or a stripped whitespace split.
- `StateRegionParser`, `StateOwnershipParser` and `PopulationParser` model the three parsers:
  - `StateRegionOf`, `StateOwnershipOf` and `PopulationOf` each give the parser's result as a
    function of the block.
  - The methods `ParseStateRegion`, `ParseStateOwnership` and `ParsePopulation` follow the
    source's step-by-step assembly: conditional keys, a dictionary-filling loop and append
    loops. Each is proved to return that function's value.
  - Lemmas state what every field means.

A Python dictionary key that is present only when its pattern matched is an `Option` field:
`Some` means the key is in the dictionary.

`parse_population` never produces a pop. Its region capture `([^}]*)` stops before the first
`}`, while `create_pop\s*=\s*{([^}]*)}` needs a `}`. The model follows the code and proves that
every `pops` list is empty (`PopulationParser.PopsAlwaysEmpty`). The nested `create_pop` loop
suggests regions were meant to list their pops, but the code cannot produce them.

## Model

| member | source | states |
|---|---|---|
| Scan.Span | database_builder.py:82 | a greedy repetition (`\s*`, `\w+`, `\d+`, `[^}]*`) reaches the end of the longest run of its class: every character up to it is in the class, and the next one is not |
| Scan.SpanAt | database_builder.py:82 | any run of the class that cannot be extended is the one the greedy repetition finds |
| Scan.DecimalValue | database_builder.py:91 | `int()` of a digit run read in base 10, leading zeros allowed; DecimalRoundTrip and LeadingZeroIgnored state its meaning |
| Scan.DecimalString | database_builder.py:91 | the canonical spelling of a number is a non-empty digit run without a leading zero |
| Scan.DecimalRoundTrip | database_builder.py:91 | `int()` on the canonical spelling of n gives back n |
| Scan.LeadingZeroIgnored | database_builder.py:91 | `int()` ignores a leading zero |
| Scan.Split | database_builder.py:95 | every element of `split()` is non-empty and holds no whitespace |
| Scan.SplitTokenChars | database_builder.py:95 | every character of a `split()` element comes from the split text |
| Scan.SplitKeepsText | database_builder.py:95 | the elements of `split()`, joined, are exactly the non-whitespace characters of the text, in order |
| Scan.SplitSkipsSpace | database_builder.py:95 | leading whitespace does not change `split()` |
| Scan.SplitJoined | database_builder.py:95 | `split()` cuts exactly at whitespace runs: tokens written out with any non-empty whitespace runs between them, and any (possibly empty) runs before and after, come back as they were |
| Scan.StripStart | database_builder.py:95 | `lstrip()` drops a prefix made only of whitespace, and the rest does not start with whitespace |
| Scan.StripEnd | database_builder.py:95 | `rstrip()` drops a suffix made only of whitespace, and the rest does not end with whitespace |
| Scan.Strip | database_builder.py:95 | `x.strip()`: StripEnd of StripStart, whose contracts say which whitespace is dropped |
| Scan.StripEach | database_builder.py:95 | `[x.strip() for x in ts]` has one element per element of ts |
| Scan.StripEachSplit | database_builder.py:95 | the `.strip()` applied to each element of `split()` changes nothing |
| Patterns.WordEnd | database_builder.py:81 | a `prefix(\w+)` match has the literal prefix and then a non-empty word |
| Patterns.MatchAt | database_builder.py:81-86 | a match at i starts at i, ends inside the text, and has as many groups as the pattern |
| Patterns.LhsComplete | database_builder.py:100 | when the left side and the spaces before `=` fit, the scanner's left side ends at the same place |
| Patterns.RhsComplete | database_builder.py:84 | the scanner's right side succeeds wherever the right side fits |
| Patterns.RhsStartsSolid | database_builder.py:82 | a right side never starts with whitespace, so `\s*` before it stops exactly at its start |
| Patterns.ScannedCutFits | database_builder.py:81-86 | the cut points the scanner chose fit the regular expression |
| Patterns.ScannedCutGreedy | database_builder.py:81-86 | the scanner's last repetition cannot be extended |
| Patterns.ScannedCutCaptures | database_builder.py:81-86 | the scanner's groups are what the regular expression captures at its cut points |
| Patterns.BracedCapture | database_builder.py:84 | the group of `key\s*=\s*{([^}]+)}` is the text strictly between the braces |
| Patterns.MatchAtSound | database_builder.py:81-86 | every scanner match is a greedy fit of the regular expression, with its captures |
| Patterns.MatchAtComplete | database_builder.py:81-86 | wherever the regular expression can match, the scanner matches |
| Patterns.MatchAtMeaning | database_builder.py:81-86 | the scanner matches at i if and only if the regular expression occurs at i, and its groups are those of the greedy fit |
| Patterns.MatchGroupShapes | database_builder.py:81-86 | every group has its shape: a word for `(\w+)`, a digit run for `(\d+)`, `cu:` plus a word for `(cu:\w+)`, no `}` (and non-empty for `+`) inside braces |
| Patterns.RhsCaptureShape | database_builder.py:84 | the right-hand group of any fit has the shape its part of the pattern allows |
| Patterns.Search | database_builder.py:81 | `re.search` from `from` returns a match inside the searched part, with one entry per group |
| Patterns.SearchLeftmost | database_builder.py:81 | `re.search` returns the leftmost match, and returns none only when no match starts anywhere |
| Patterns.FindAll | database_builder.py:100 | every match `re.findall` returns lies inside the text and has one entry per group |
| Patterns.FindAllIsScan | database_builder.py:100 | `re.findall` returns the left-to-right scan: each match is leftmost from the end of the previous one, and none follows the last |
| Patterns.FindAllMatches | database_builder.py:100 | each match `re.findall` returns is the scanner's match at its start |
| Patterns.LeftmostUnique | database_builder.py:81 | the leftmost match from a position is unique |
| Patterns.ScanIsFindAll | database_builder.py:100 | the left-to-right scan has exactly one outcome, the one `re.findall` returns |
| Patterns.FindAllShapes | database_builder.py:100 | every group `re.findall` returns has its pattern's shape |
| Patterns.NoCloseBraceNoMatch | database_builder.py:155 | a pattern ending in `{...}` finds nothing in text without `}` |
| Patterns.SearchMeaning | database_builder.py:81 | `re.search` succeeds if and only if the pattern occurs somewhere, and then starts at its first occurrence |
| Patterns.SearchFit | database_builder.py:81 | the reported match is the greedy fit at the first occurrence, with that fit's groups |
| Patterns.FirstGroup | database_builder.py:88-89 | `m.group(1)` of `m = re.search(p, s)`, or no value; FirstGroupMeaning states its meaning |
| Patterns.FirstGroupMeaning | database_builder.py:88-89 | `m.group(1)` is present if and only if the pattern occurs, and is group 1 of the greedy fit at the first occurrence |
| Fields.MatchText | database_builder.py:112 | the text `findall` returns for a pattern without groups is as long as the match |
| Fields.SearchGroup | database_builder.py:88-89 | search, then `m.group(1)` when matched, equals FirstGroup |
| Fields.SearchNumber | database_builder.py:90-91 | search, then `int(m.group(1))` when matched, equals FirstNumber |
| Fields.StripAll | database_builder.py:95 | the comprehension `[x.strip() for x in parts]` strips each element in order |
| Fields.SearchTokens | database_builder.py:94-95 | search, then the stripped split of group 1 when matched, equals FirstTokens |
| Fields.FirstNumber | database_builder.py:90-91 | `int(m.group(1))` of the search, or no value; FirstNumberMeaning states its meaning |
| Fields.FirstTokens | database_builder.py:94-95 | the stripped `split()` of group 1 of the search, or no value; FirstTokensMeaning states its meaning |
| Fields.FirstWordMeaning | database_builder.py:88-89 | a word field is present if and only if its pattern occurs, holds the first occurrence's greedy capture, and has the pattern's group shape |
| Fields.FirstNumberMeaning | database_builder.py:90-93 | a number field is present if and only if `key = digits` occurs, and holds the non-negative base-10 value of the greedy digit run of the first occurrence |
| Fields.FirstTokensMeaning | database_builder.py:94-97 | a list field is present if and only if `key = {non-empty}` occurs, and is the clean split of the text between that `{` and the first `}` |
| Fields.TokensText | database_builder.py:94-95 | the list is `split()` of the text inside the first occurrence's braces, and spells that text without its whitespace |
| Fields.TokensClean | database_builder.py:94-95 | no element of the list is empty or holds whitespace or `}` |
| Fields.TokensCut | database_builder.py:84 | the searched brace match sits at the first occurrence, and its group is the inside of its braces |
| Fields.BraceFreeTokens | database_builder.py:95 | splitting text without `}` gives elements without `}` |
| Fields.FindAllTexts | database_builder.py:112 | `findall` without groups returns one text per match |
| Fields.FindAllGroups | database_builder.py:113 | `findall` with one group returns one string per match |
| Fields.FindAllPairs | database_builder.py:145 | `findall` with two groups returns one pair per match |
| Fields.FindAllPairsShaped | database_builder.py:145 | both members of every pair have their groups' shapes |
| Fields.FindAllGroupsShaped | database_builder.py:113 | every string `findall` returns has its group's shape |
| Fields.BracedMatchClosed | database_builder.py:112 | a `key = {...}` match starts with the key, and its only `}` is its last character |
| Fields.BracedTextsClosed | database_builder.py:112 | every text `findall` returns for `key = {...}` starts with the key and ends at its only `}` |
| StateRegionParser.ResourcePairs | database_builder.py:100 | one `(name, int(value))` pair per `(\w+)\s*=\s*(\d+)` match |
| StateRegionParser.Collect | database_builder.py:99-101 | the dictionary the loop fills from the pairs, later pairs overwriting earlier ones; CollectLastWins states its meaning |
| StateRegionParser.CappedResourcesOf | database_builder.py:98-102 | `capped_resources`: the collected pairs of the searched block's group, or no key; CappedResourcesMeaning states its meaning |
| StateRegionParser.StateRegionOf | database_builder.py:77-104 | the record `parse_state_region` returns, one field per search; the field lemmas below state its meaning |
| StateRegionParser.CollectResources | database_builder.py:99-101 | the dictionary-filling loop leaves the last-wins fold of the pairs |
| StateRegionParser.ParseStateRegion | database_builder.py:77-104 | the record assembled key by key equals StateRegionOf of the block |
| StateRegionParser.CollectLastWins | database_builder.py:99-101 | the dictionary's keys are exactly the pairs' names, and each maps to the value of the last pair with that name |
| StateRegionParser.ResourcePairsMeaning | database_builder.py:100 | the pairs follow the left-to-right scan: pair k is the word of group 1 of match k and `int()` of the digit run of its group 2 |
| StateRegionParser.CappedResourcesMeaning | database_builder.py:98-102 | `capped_resources` is present if and only if `capped_resources = {...}` occurs, and collects the pairs between its `{` and the first `}` |
| StateRegionParser.StateNameMeaning | database_builder.py:88-89 | `state_name` is present if and only if `STATE_` plus a word character occurs, and is the whole word run after the first such `STATE_` |
| StateRegionParser.StateIdMeaning | database_builder.py:90-91 | `state_id` is present if and only if `id = digits` occurs, and is the base-10 value of its digit run, never negative |
| StateRegionParser.ArableLandMeaning | database_builder.py:92-93 | `arable_land` is present if and only if `arable_land = digits` occurs, and is the base-10 value of its digit run, never negative |
| StateRegionParser.TraitsMeaning | database_builder.py:94-95 | `traits` is present if and only if `traits = {non-empty}` occurs, and is the clean split of its inside |
| StateRegionParser.ArableResourcesMeaning | database_builder.py:96-97 | `arable_resources` is present if and only if `arable_resources = {non-empty}` occurs, and is the clean split of its inside |
| StateOwnershipParser.EntriesOf | database_builder.py:119-129 | one entry per create_state text |
| StateOwnershipParser.EntryOf | database_builder.py:121-129 | the entry built from one create_state text; EntryCountryMeaning and EntryProvincesMeaning state its meaning |
| StateOwnershipParser.StateOwnershipOf | database_builder.py:107-134 | the record `parse_state_ownership` returns; the lemmas below state its meaning |
| StateOwnershipParser.ParseEntry | database_builder.py:121-129 | the entry built from one create_state text equals EntryOf |
| StateOwnershipParser.ParseStateOwnership | database_builder.py:107-134 | the record built by the append loop equals StateOwnershipOf of the block; `ownership` and `homelands` are always present |
| StateOwnershipParser.CreateStateBlocksClosed | database_builder.py:112 | every create_state text starts with `create_state` and ends at its only `}` |
| StateOwnershipParser.OwnedProvincesReachBlockEnd | database_builder.py:122 | inside a create_state text, an `owned_provinces = {...}` match ends at the text's own final `}` |
| StateOwnershipParser.OwnershipEntriesMeaning | database_builder.py:119-131 | exactly one entry per create_state match, in scan order (entries with neither key included), and no entries exactly when no block occurs |
| StateOwnershipParser.EntryCountryMeaning | database_builder.py:121-126 | `country` is present if and only if `country = c:word` occurs, and is that word without `c:` |
| StateOwnershipParser.EntryProvincesMeaning | database_builder.py:122-128 | `owned_provinces` is present if and only if `owned_provinces = {non-empty}` occurs, and is the clean split of its inside |
| StateOwnershipParser.HomelandsMeaning | database_builder.py:113 | `homelands` has one element per `add_homeland = cu:word` match of the left-to-right scan, duplicates kept: element k is group 1 of match k, `cu:` plus a word |
| StateOwnershipParser.OwnershipStateNameMeaning | database_builder.py:111-116 | `state_name` is present if and only if `s:STATE_` plus a word character occurs, and is the word run after the first one |
| PopulationParser.PopsOf | database_builder.py:157-173 | one pop per create_pop text |
| PopulationParser.RegionsOf | database_builder.py:147-176 | one region per region block |
| PopulationParser.PopLines | database_builder.py:170-171 | one debug line per pop |
| PopulationParser.PopOf | database_builder.py:158-168 | the pop built from one create_pop text; PopCultureMeaning, PopReligionMeaning and PopSizeMeaning state its meaning |
| PopulationParser.RegionOf | database_builder.py:148-176 | the region built from a name and its captured text |
| PopulationParser.PopulationOf | database_builder.py:136-179 | the record `parse_population` returns; RegionsMeaning, PopsAlwaysEmpty and PopulationStateNameMeaning state its meaning |
| PopulationParser.RegionLines | database_builder.py:152-171 | the lines one region prints: its name, then each of its pops |
| PopulationParser.RegionsLines | database_builder.py:147-176 | the lines of all regions, region after region |
| PopulationParser.TraceOf | database_builder.py:142-171 | everything `debug` prints: the state line when the name matched, then the regions' lines; TraceMeaning states its meaning |
| PopulationParser.ParsePop | database_builder.py:158-168 | the pop built from one create_pop text equals PopOf |
| PopulationParser.ParsePops | database_builder.py:157-173 | the inner loop builds PopsOf of the texts, and with `debug` set prints one line per pop |
| PopulationParser.ParseRegion | database_builder.py:148-176 | one region equals RegionOf its name and content, and prints its name and its pops with `debug` set |
| PopulationParser.ParseRegions | database_builder.py:147-176 | the outer loop builds RegionsOf of the region blocks, with the lines of each region in order |
| PopulationParser.ParsePopulation | database_builder.py:136-179 | the record equals PopulationOf of the block whatever `debug` is; the trace is what `debug` prints |
| PopulationParser.NoPopsWithoutCloseBrace | database_builder.py:155 | a region whose text has no `}` has no pops |
| PopulationParser.PopsAlwaysEmpty | database_builder.py:145-175 | every region's `pops` is empty |
| PopulationParser.RegionsMeaning | database_builder.py:145-149 | one region per `region_state:word = {...}` match in scan order, named by that word; no regions exactly when no such block occurs |
| PopulationParser.RegionsLinesWithoutPops | database_builder.py:152-171 | regions without pops print one region line each, in order |
| PopulationParser.TraceMeaning | database_builder.py:142-171 | with `debug` set the parser prints the state name when matched, then one line per region, and never a pop line |
| PopulationParser.PopCultureMeaning | database_builder.py:159-164 | `culture` is present if and only if `culture = word` occurs, and is the word of the first occurrence |
| PopulationParser.PopReligionMeaning | database_builder.py:160-166 | `religion` is present if and only if `religion = word` occurs, and is the word of the first occurrence |
| PopulationParser.PopSizeMeaning | database_builder.py:161-168 | `size` is present if and only if `size = digits` occurs, and is the base-10 value of its digit run |
| PopulationParser.PopulationStateNameMeaning | database_builder.py:139-141 | `state_name` is present if and only if `s:STATE_` plus a word character occurs, and is the word run after the first one |

## Left out

- `build_database` is not part of this model. It lists directories, opens files, writes JSON and never calls the three parsers.
- The debug `print` calls of `parse_population` are not performed. `ParsePopulation` returns the lines they would print as a `trace` of `DebugLine` values instead.
- Unicode is left out. `\w` is limited to ASCII letters, digits and `_`, and `\d` to ASCII digits. `\s` and `split()` both use the ASCII whitespace Python recognises: codes 9-13 and 28-32. Python also accepts non-ASCII word characters, digits and spaces.
- Scan.DecimalValue: does not model the limit of 4300 digits that recent Python versions put on `int()` of a string (`sys.get_int_max_str_digits()`). The source raises `ValueError` on a longer digit run for `id`, `arable_land`, a capped resource or `size`, while the model returns its value.
- The `re.DOTALL` flag is left out: none of the patterns uses `.`, so it changes nothing. `[^}]` matches newlines either way.
- Dictionary key order and JSON serialisation are left out. Records are datatypes, and a missing key is `None`.
- Python's general regex engine is left out. Only the two pattern shapes the source uses are modelled, and their scanner is proved equal to the patterns' meaning for those shapes.
- Pop extraction for `create_pop` blocks is not modelled as working, because the code never reaches it (see `PopulationParser.PopsAlwaysEmpty`). The pop fields are still modelled for any text handed to them.
