# sshm launcher core, modelled in Dafny

`main.go` is a small interactive launcher for shell and port-forwarding sessions to cloud instances through a session broker. This model covers the launcher's decision and data logic:

- **Profile and region.** It chooses the credential profile and the region from the flags, then the environment, then a fallback. It reads profile names out of the lines of the shared config file.
- **Compute listing.** It builds the compute listing from the reservations of a describe-instances response:
  - one record per descriptor that is not terminated or shutting down
  - the record's name comes from the last `Name` tag, or is `unnamed`
  - the public address is `N/A` when the descriptor has none
- **Agent join.** It builds the agent listing and joins it against the compute listing:
  - one record per agent entry, in agent order
  - the detail fields are copied only when the agent is `Online`
  - name, public address and state come from the last compute record with the same id
- **Picker text.**
  - It pads the four displayed columns to their widest value (`addSpaces`, `getFormattedInstancesList`).
  - It computes the search predicates of both pickers and the counters in the instance picker's label.
- **Outcome.**
  - It maps the picked row back to its unpadded instance id.
  - It decides between a direct connection, "no available instance" and quitting.
  - It builds the session request: a shell by default, or port forwarding when both port flags are given and no source path is.

Modules, one file each:

| file | module | covers |
|---|---|---|
| `strings.dfy` | `GoStrings` | ASCII `ToLower`, space removal, `TrimSuffix`, `Contains` |
| `instances.dfy` | `Instances` | the `instance` record, `Option` and a field selector |
| `inventory.dfy` | `Inventory` | `listAllInstances` and `listManagedInstances` |
| `presenter.dfy` | `Presenter` | `addSpaces` and `getFormattedInstancesList` |
| `selector.dfy` | `Selector` | the searchers, the counters, the selection and the dispatch in `main` |
| `session.dfy` | `Session` | the request `startSSH` builds |
| `config.dfy` | `Config` | `listProfiles` and the profile/region fallback |

The loops of the source are methods with loop invariants. Each is proved equal to a specification function: `KeepLive`, `LastMatch`, `Width`, `Pad`, `Formatted`, `Count`, `ProfilesIn`. Lemmas then state what those functions promise.

Two behaviours of the join are worth stating because they are easy to miss in the code:

- **Join without a match.** The join does not apply the compute listing's `unnamed` default. An agent entry with no compute match keeps an empty `Name`.
- **Ping status.** The raw ping status is shown as it is, not normalised. Any status other than `Online` is passed through unchanged.

`Inventory.JoinExamples`, `Inventory.UnmatchedAgentHasEmptyName` and `Inventory.TerminalOnlyGivesNoEnrichment` state both behaviours. The region fallback is modelled as written; see Findings.

## Model

| member | source | states |
|---|---|---|
| GoStrings.LowerChar | main.go:129-130 | an upper-case ASCII letter becomes the matching lower-case letter; every other character is unchanged |
| GoStrings.Normalize | main.go:239-240 | the folded search text contains no upper-case letter and no space |
| GoStrings.StripSpacesAppend | main.go:239-240 | space removal of a concatenation is the concatenation of the space removals |
| GoStrings.NormalizeAppend | main.go:239-240 | folding works piece by piece: the folded concatenation is the concatenation of the folded pieces |
| GoStrings.NormalizeChar | main.go:239-240 | a space folds to nothing and any other character to its lowercase; with NormalizeAppend, the folded text is the input's non-space characters, lowercased, in order |
| GoStrings.TrimSuffix | main.go:108 | when the text ends in the suffix, the result followed by the suffix is the text; otherwise the text is unchanged |
| GoStrings.ContainsIffOccurs | main.go:242 | containment holds exactly when the query occurs at some index of the text |
| GoStrings.NormalizeOfNormal | main.go:239-240 | text that is already folded is left unchanged by folding |
| GoStrings.NormalizeIdempotent | main.go:239-240 | folding twice is the same as folding once |
| Inventory.NameFromTagsIsLastNameTag | main.go:164-169 | the name is the value of the last tag keyed Name, or "unnamed" when there is no such tag |
| Inventory.ComputeRecordFields | main.go:163-177 | a compute record carries the descriptor's id and state, the last Name tag or "unnamed", the public address or "N/A" (never "None"), and empty agent-side fields |
| Inventory.BuildComputeRecord | main.go:163-177 | the tag scan and field assignments build exactly the compute record of the descriptor |
| Inventory.KeepLiveNeverTerminal | main.go:178-183 | no record of the compute listing is in state terminated or shutting-down |
| Inventory.KeepLiveMembers | main.go:161-184 | a record is in the compute listing exactly when it is the record of some descriptor that is not terminal |
| Inventory.KeepLiveAppend | main.go:161-185 | the listing of concatenated descriptors is the concatenation of their listings, so output order is response order |
| Inventory.AppendReservation | main.go:162-184 | the inner loop appends the records of one reservation's live descriptors, in order, to the listing so far |
| Inventory.ListAllInstances | main.go:160-186 | the compute listing is the filtered records of all reservations' descriptors, flattened in order |
| Inventory.LastMatch | main.go:208-214 | there is no match exactly when no compute record has the id; a match is the last record with that id |
| Inventory.AgentRecordFields | main.go:199-214 | a joined record has the agent's id and raw ping status, and the agent details only when Online (else empty); it takes name, public address and state from the last compute record with its id, or leaves them empty |
| Inventory.BuildAgentRecord | main.go:199-214 | the base assignments and the lookup loop over the compute listing build exactly the joined record |
| Inventory.ListManagedInstances | main.go:198-216 | one joined record per agent entry, at the same position |
| Inventory.EnrichmentNeverTerminal | main.go:208-214 | a joined record never carries a terminal state, and any non-empty compute-side field (Name, PublicIPAddress, InstanceState) comes from a live descriptor with the agent's id |
| Inventory.TerminalOnlyGivesNoEnrichment | main.go:178-214 | an agent entry whose id only terminated or shutting-down descriptors carry gets empty Name, PublicIPAddress and InstanceState: nothing from those descriptors reaches the joined record |
| Inventory.UnmatchedAgentHasEmptyName | main.go:199-215 | an agent entry whose id no descriptor has gets an empty Name |
| Inventory.JoinExamples | main.go:160-215 | three concrete inputs: an Online agent enriched from its compute record; a "Connecting" agent with no match keeps its status and an empty Name; a terminated-only response gives an empty listing |
| Presenter.PadSpec | main.go:333-338 | padding keeps the text as a prefix, adds only spaces, and leaves text that is already long enough alone |
| Presenter.AddSpaces | main.go:333-338 | the space-appending loop yields the text right-padded to max(size, length) |
| Presenter.Width | main.go:300-314 | every value of the column fits the width; an empty list has width 0 |
| Presenter.WidthAttained | main.go:300-314 | on a non-empty list some value has exactly the width |
| Presenter.ColumnWidths | main.go:300-314 | the four running maxima are the widths of Name, ComputerName, InstanceID and PrivateIPAddress over the whole list |
| Presenter.PadInstance | main.go:318-328 | one formatted row pads the four columns to their widths and copies the other five fields |
| Presenter.FormattedAligned | main.go:316-329 | every padded cell has its column's width, starts with the original value and continues with spaces only; other fields are copied unchanged |
| Presenter.FormatInstances | main.go:299-331 | the formatter returns exactly the rows of the whole list, in order, padded to the list's column widths |
| Selector.InstanceMatchesIff | main.go:237-243 | the instance searcher accepts exactly the queries whose folded form occurs in the record's folded nine-field key |
| Selector.SubstringOfKeyMatches | main.go:237-243 | every stretch of a record's key is a query that finds the record |
| Selector.EmptyQueryMatchesEveryInstance | main.go:237-243 | the empty query finds every record |
| Selector.QueryFoldingIrrelevant | main.go:240 | the case and the spaces of a query make no difference to the search |
| Selector.ProfileMatchesIff | main.go:127-133 | the profile searcher accepts exactly the queries whose lowercased form occurs in the lowercased profile name |
| Selector.SubstringOfProfileMatches | main.go:127-133 | every stretch of a lowercased profile name finds that profile |
| Selector.CountIsMultiplicity | main.go:245-255 | a counter is the number of occurrences of the value in the field's column |
| Selector.SummaryCounters | main.go:245-258 | running counts the whole compute listing; online counts the managed list; offline is the rest of the managed list; online plus offline is the list's length and neither is negative |
| Selector.SelectedInstance | main.go:268-273 | a cancelled prompt gives ""; a pick gives the unpadded id, whose displayed row is that id padded with spaces |
| Selector.Dispatch | main.go:81-92 | a direct -i id wins; otherwise an empty managed list is fatal; a pick connects to the picked row's id when that id is non-empty and quits otherwise; a cancelled pick quits |
| Session.SessionInput | main.go:276-282 | the target is the instance; port forwarding happens exactly when both port flags are set and no source path is given, with exactly the two port parameters; otherwise no document and no parameters |
| Config.ProfileOfLineSpec | main.go:103-108 | a line yields a profile exactly when it starts with "[profile "; the line is then the header, the name and at most one closing "]" |
| Config.ProfileHeaderRoundTrip | main.go:103-108 | reading back a written "[profile name]" header gives the name |
| Config.ListProfiles | main.go:103-111 | the scan returns the profiles of the header lines, in line order |
| Config.ProfilesInMembers | main.go:106-111 | a name is listed exactly when some line is its profile header |
| Config.ProfilesInAppend | main.go:106-111 | lines are handled one by one, so the profiles of concatenated files are the concatenated profiles |
| Config.ProfilesInExample | main.go:103-111 | a file with a default section, a settings line and two profile headers lists just the two names |
| Config.FirstNonEmpty | main.go:52-62 | the first non-empty candidate, or the fallback when every candidate is empty; it also defines the corrected region chain `IntendedRegion` |
| Config.ResolveProfileIsFirstNonEmpty | main.go:52-62 | the profile is the flag, else AWS_PROFILE, else AWS_DEFAULT_PROFILE, else the picked profile |
| Config.ResolveRegion | main.go:63-71 | the region is the -r flag when given; eu-west-1 when neither region variable is set; otherwise it is the value of AWS_PROFILE or AWS_DEFAULT_PROFILE |
| Config.ResolveRegionAgainstIntended | main.go:63-71 | for every input, the code agrees with the intended chain when -r is given or no region variable is set; with AWS_REGION set it returns AWS_PROFILE's value; with only AWS_DEFAULT_REGION set it returns AWS_DEFAULT_PROFILE's value |
| Config.ResolveRegionUsesProfileValue | main.go:64-67 | with AWS_REGION set and no -r flag, the region is the value of AWS_PROFILE: empty when that is unset, the profile name when it is set |
| Config.IntendedRegionHonoursVariables | main.go:63-71 | the corrected chain never yields an empty region and uses -r, else AWS_REGION, else AWS_DEFAULT_REGION, else eu-west-1 |

## Left out

- Calls to the compute and session-broker APIs (DescribeInstances, DescribeInstanceInformation, StartSession) are not modelled. Their responses are parameters: the reservations, and the agent entries with their pages already concatenated. The pagination loop and its `NextToken` handling are not modelled, and neither is the logged page error.
- The interactive prompts (promptui rendering, templates, colours, page sizes, search mode) are not modelled. The user's pick is a parameter: an index, or none when the prompt returns an error.
- The label text of the instance picker is not modelled; only the three counters it shows are. The `strconv.Itoa` formatting is left out.
- Reading `~/.aws/config`, `HOME` and `os.Getenv` are not modelled. The config file arrives as its lines, and the environment as a map in which an absent variable reads as "".
- `log.Fatal` and `os.Exit` are not modelled as process exits. "No available instance" is an outcome in `Selector.Outcome`. The fatal errors of the file, SDK and session calls are left out with those calls. The clean exit when the user cancels the profile picker (main.go:144-147) is left out with that picker.
- Sorting the profile names (`sort.Strings`) and the profile picker's own prompt are not modelled. The picked profile is a parameter of `Config.ResolveProfile`.
- Session creation, the JSON encoding of the broker's reply, launching `session-manager-plugin`, and ignoring SIGINT are external I/O and are not modelled. `destination` (flag.Arg(1), main.go:50) is passed to `startSSH` but never used.
- Inventory.RawCompute / Inventory.RawAgent: every field except the public address is assumed present. The code dereferences the SDK's pointers (main.go:166-171, 200-206) and would panic on a missing one, for example an `Online` agent without a platform version; that crash path is not modelled.
- GoStrings.ToLower: folds ASCII letters only. Go's `strings.ToLower` also folds other Unicode letters.
- Presenter.Width: counts characters, whereas Go's `len` counts UTF-8 bytes. The two agree on ASCII names, ids and addresses.

## Findings

| source | as written | input that shows it | evidently intended | confidence | as-written member | corrected member |
|---|---|---|---|---|---|---|
| main.go:64-67 | with no -r flag, a set AWS_REGION makes the region the value of AWS_PROFILE, and a set AWS_DEFAULT_REGION makes it the value of AWS_DEFAULT_PROFILE | no -r flag, AWS_REGION=us-east-1, AWS_PROFILE unset: the region is empty; with AWS_PROFILE=dev it is "dev" | the region is the value of AWS_REGION, else AWS_DEFAULT_REGION, else eu-west-1 | not executed | Config.ResolveRegionUsesProfileValue | Config.IntendedRegionHonoursVariables |
